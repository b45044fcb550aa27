/**
 * Header propagation (the files of `HeaderPropagation/`). A scoped `TelepresenceContext`
 * holds the intercept headers of the current call. The MVC action filter and the
 * MassTransit consume filter capture every incoming header whose name contains
 * `x-telepresence`, first writer wins. The delegating handler copies the context onto
 * outgoing HTTP requests, and the publish and send filters copy the context onto outgoing
 * messages. The consume filter then asks the API's `consume-here` whether to pass the
 * message on.
 *
 * The context dictionary is an association list in insertion order with unique names.
 * Incoming request and message headers are sequences of name/value pairs in enumeration
 * order. An outgoing message's headers are a map, since `Headers.Set` overwrites.
 */
module HeaderPropagation {
  import opened Wrappers
  import opened Text
  import opened Constants
  import opened ProcessEnvironment
  import opened RestfulApi

  /** The scope every filter's `Probe` creates. */
  const FilterScope := "telepresence"

  /** The ordinal, case-sensitive text a propagated header name must contain. */
  const Marker := "x-telepresence"

  predicate IsTelepresenceHeader(name: string) { Contains(name, Marker) }

  /** The value stored under `name`, searching from the front. */
  function ValueOf(entries: seq<Pair>, name: string): Option<string>
    decreases |entries|
  {
    if |entries| == 0 then None
    else if entries[0].0 == name then Some(entries[0].1)
    else ValueOf(entries[1..], name)
  }

  predicate UniqueNames(entries: seq<Pair>) {
    forall i, j :: 0 <= i < j < |entries| ==> entries[i].0 != entries[j].0
  }

  lemma {:induction false} ValueOfNone(entries: seq<Pair>, name: string)
    ensures ValueOf(entries, name).None? <==> forall i :: 0 <= i < |entries| ==> entries[i].0 != name
    decreases |entries|
  {
    if |entries| > 0 {
      ValueOfNone(entries[1..], name);
      assert forall i :: 1 <= i < |entries| ==> entries[i] == entries[1..][i - 1];
    }
  }

  /** Appending a pair only matters to a name not yet present. */
  lemma {:induction false} ValueOfSnoc(entries: seq<Pair>, last: Pair, name: string)
    ensures ValueOf(entries + [last], name) ==
      (if ValueOf(entries, name).Some? then ValueOf(entries, name)
       else if last.0 == name then Some(last.1) else None)
    decreases |entries|
  {
    if |entries| > 0 {
      assert (entries + [last])[1..] == entries[1..] + [last];
      ValueOfSnoc(entries[1..], last, name);
    }
  }

  /** Under unique names the last pair of a name is also its first. */
  lemma {:induction false} UniqueLastIsFirst(entries: seq<Pair>, name: string)
    requires UniqueNames(entries)
    ensures LastValue(entries, name) == ValueOf(entries, name)
    decreases |entries|
  {
    if |entries| > 0 {
      var init := entries[..|entries| - 1];
      var last := entries[|entries| - 1];
      assert entries == init + [last];
      ValueOfSnoc(init, last, name);
      UniqueLastIsFirst(init, name);
      if last.0 == name {
        ValueOfNone(init, name);
      }
    }
  }

  /** `IDictionary.TryAdd`: a new name goes at the end; an existing one keeps its value. */
  function TryAdded(entries: seq<Pair>, name: string, value: string): seq<Pair> {
    if ValueOf(entries, name).Some? then entries else entries + [(name, value)]
  }

  /** First writer wins, and nothing else changes. */
  lemma TryAddedValue(entries: seq<Pair>, name: string, value: string, key: string)
    ensures ValueOf(TryAdded(entries, name, value), key) ==
      (if key == name && ValueOf(entries, key).None? then Some(value) else ValueOf(entries, key))
  {
    if ValueOf(entries, name).None? {
      ValueOfSnoc(entries, (name, value), key);
    }
  }

  lemma TryAddedUnique(entries: seq<Pair>, name: string, value: string)
    requires UniqueNames(entries)
    ensures UniqueNames(TryAdded(entries, name, value))
  {
    if ValueOf(entries, name).None? {
      ValueOfNone(entries, name);
    }
  }

  /** The context after every incoming `x-telepresence` header has been offered, in order. */
  function Captured(entries: seq<Pair>, headers: seq<Pair>): seq<Pair>
    decreases |headers|
  {
    if |headers| == 0 then entries
    else
      var before := Captured(entries, headers[..|headers| - 1]);
      var h := headers[|headers| - 1];
      if IsTelepresenceHeader(h.0) then TryAdded(before, h.0, h.1) else before
  }

  /**
   * What a capture leaves under each name: a name already in the context keeps its value, a
   * new `x-telepresence` name takes the value of its first incoming header, and any other name
   * is not added.
   */
  lemma {:induction false} CapturedValue(entries: seq<Pair>, headers: seq<Pair>, key: string)
    ensures ValueOf(Captured(entries, headers), key) ==
      (if ValueOf(entries, key).None? && IsTelepresenceHeader(key) then ValueOf(headers, key)
       else ValueOf(entries, key))
    decreases |headers|
  {
    if |headers| > 0 {
      var init := headers[..|headers| - 1];
      var h := headers[|headers| - 1];
      assert headers == init + [h];
      CapturedValue(entries, init, key);
      ValueOfSnoc(init, h, key);
      if IsTelepresenceHeader(h.0) {
        TryAddedValue(Captured(entries, init), h.0, h.1, key);
      }
    }
  }

  lemma {:induction false} CapturedUnique(entries: seq<Pair>, headers: seq<Pair>)
    requires UniqueNames(entries)
    ensures UniqueNames(Captured(entries, headers))
    decreases |headers|
  {
    if |headers| > 0 {
      var init := headers[..|headers| - 1];
      var h := headers[|headers| - 1];
      CapturedUnique(entries, init);
      TryAddedUnique(Captured(entries, init), h.0, h.1);
    }
  }

  /**
   * `Headers.Set` for every context entry: a name in the context ends with the context's
   * value, and every other outgoing header is untouched.
   */
  lemma Propagated(headers: map<string, string>, context: seq<Pair>, key: string)
    requires UniqueNames(context)
    ensures Lookup(Applied(headers, context), key) ==
      (if ValueOf(context, key).Some? then ValueOf(context, key) else Lookup(headers, key))
  {
    AppliedLookup(headers, context, key);
    UniqueLastIsFirst(context, key);
  }

  /** The next stage of a pipeline: records what it was handed, once per call. */
  class Pipe<T> {
    var delivered: seq<T>

    constructor ()
      ensures delivered == []
    {
      delivered := [];
    }

    method Send(x: T)
      modifies this
      ensures delivered == old(delivered) + [x]
    {
      delivered := delivered + [x];
    }
  }

  /** The scoped `TelepresenceContext`: its `InterceptHeaders` dictionary, empty at first. */
  class TelepresenceContext {
    var interceptHeaders: seq<Pair>

    /** A dictionary holds each name once. */
    predicate Valid()
      reads this
    {
      UniqueNames(interceptHeaders)
    }

    constructor ()
      ensures interceptHeaders == [] && Valid()
    {
      interceptHeaders := [];
    }

    method TryAdd(name: string, value: string) returns (added: bool)
      requires Valid()
      modifies this
      ensures Valid()
      ensures added <==> ValueOf(old(interceptHeaders), name).None?
      ensures interceptHeaders == TryAdded(old(interceptHeaders), name, value)
    {
      TryAddedUnique(interceptHeaders, name, value);
      added := ValueOf(interceptHeaders, name).None?;
      if added {
        interceptHeaders := interceptHeaders + [(name, value)];
      }
    }
  }

  /** Offer every incoming header whose name contains `x-telepresence` to the context, in order. */
  method Capture(context: TelepresenceContext, headers: seq<Pair>)
    requires context.Valid()
    modifies context
    ensures context.Valid()
    ensures context.interceptHeaders == Captured(old(context.interceptHeaders), headers)
  {
    ghost var initial := context.interceptHeaders;
    var i := 0;
    while i < |headers|
      invariant 0 <= i <= |headers|
      invariant context.Valid()
      invariant context.interceptHeaders == Captured(initial, headers[..i])
    {
      assert headers[..i + 1][..i] == headers[..i];
      if IsTelepresenceHeader(headers[i].0) {
        var _ := context.TryAdd(headers[i].0, headers[i].1);
      }
      i := i + 1;
    }
    assert headers[..|headers|] == headers;
  }

  /** `TelepresenceActionFilter`: captures the request's headers into the scoped context. */
  class ActionFilter {
    const context: TelepresenceContext

    constructor (context: TelepresenceContext)
      ensures this.context == context
    {
      this.context := context;
    }

    /** `OnActionExecuting`, which is `Handle`. */
    method OnActionExecuting(requestHeaders: seq<Pair>)
      requires context.Valid()
      modifies context
      ensures context.Valid()
      ensures context.interceptHeaders == Captured(old(context.interceptHeaders), requestHeaders)
    {
      Capture(context, requestHeaders);
    }

    /** `OnActionExecutionAsync`: capture, then run the action once; it sees the captured context. */
    method OnActionExecutionAsync(requestHeaders: seq<Pair>, next: Pipe<seq<Pair>>)
      requires context.Valid()
      modifies context, next
      ensures context.Valid()
      ensures context.interceptHeaders == Captured(old(context.interceptHeaders), requestHeaders)
      ensures next.delivered == old(next.delivered) + [context.interceptHeaders]
    {
      Capture(context, requestHeaders);
      next.Send(context.interceptHeaders);
    }
  }

  /** An outgoing `HttpRequestMessage`: its headers in the order they were added. */
  class OutboundRequest {
    var headers: seq<Pair>

    constructor (headers: seq<Pair>)
      ensures this.headers == headers
    {
      this.headers := headers;
    }

    /** `Headers.TryAddWithoutValidation`: adds one more value for the name. */
    method TryAddWithoutValidation(name: string, value: string)
      modifies this
      ensures headers == old(headers) + [(name, value)]
    {
      headers := headers + [(name, value)];
    }
  }

  /**
   * `TelepresenceDelegatingHandler.SendAsync`. `context` is the scoped service of the current
   * HTTP context, `None` without one. Every context entry is added to the request, which is
   * then forwarded exactly once; the context is only read.
   */
  method DelegatingSendAsync(context: Option<TelepresenceContext>, request: OutboundRequest,
                             inner: Pipe<seq<Pair>>)
    modifies request, inner
    ensures request.headers == old(request.headers) + (if context.Some? then context.value.interceptHeaders else [])
    ensures inner.delivered == old(inner.delivered) + [request.headers]
  {
    if context.None? || |context.value.interceptHeaders| == 0 {
      inner.Send(request.headers);
      return;
    }
    var entries := context.value.interceptHeaders;
    ghost var initial := request.headers;
    var i := 0;
    while i < |entries|
      invariant 0 <= i <= |entries|
      invariant request.headers == initial + entries[..i]
      invariant inner.delivered == old(inner.delivered)
    {
      request.TryAddWithoutValidation(entries[i].0, entries[i].1);
      assert entries[..i + 1] == entries[..i] + [entries[i]];
      i := i + 1;
    }
    assert entries[..|entries|] == entries;
    inner.Send(request.headers);
  }

  /** The headers of an outgoing MassTransit message. */
  class MessageHeaders {
    var values: map<string, string>

    constructor (values: map<string, string>)
      ensures this.values == values
    {
      this.values := values;
    }

    /** `Headers.Set`: overwrite or add. */
    method Set(name: string, value: string)
      modifies this
      ensures values == old(values)[name := value]
    {
      values := values[name := value];
    }
  }

  /**
   * `TelepresencePublishFilter.Send` and `TelepresenceSendFilter.Send`, which are the same
   * code: `Set` every context entry on the outgoing message, then pass it on exactly once.
   */
  method PropagateOnMessage(context: TelepresenceContext, headers: MessageHeaders, next: Pipe<map<string, string>>)
    modifies headers, next
    ensures headers.values == Applied(old(headers.values), context.interceptHeaders)
    ensures next.delivered == old(next.delivered) + [headers.values]
  {
    var entries := context.interceptHeaders;
    ghost var initial := headers.values;
    var i := 0;
    while i < |entries|
      invariant 0 <= i <= |entries|
      invariant headers.values == Applied(initial, entries[..i])
      invariant next.delivered == old(next.delivered)
    {
      AppliedSnoc(initial, entries[..i], entries[i]);
      assert entries[..i + 1] == entries[..i] + [entries[i]];
      headers.Set(entries[i].0, entries[i].1);
      i := i + 1;
    }
    assert entries[..|entries|] == entries;
    next.Send(headers.values);
  }

  /**
   * `TelepresenceConsumeFilter.Send`: capture the message's `x-telepresence` headers, then
   * ask `consume-here` (with the context as it now stands) and pass the message on iff the
   * answer is yes. A failure of that call is raised and the message is not passed on.
   */
  method ConsumeFilterSend(context: TelepresenceContext, message: seq<Pair>, vars: map<string, string>,
                           send: Request -> Answer, next: Pipe<seq<Pair>>) returns (o: Outcome<Fault>)
    requires context.Valid()
    modifies context, next
    ensures context.Valid()
    ensures context.interceptHeaders == Captured(old(context.interceptHeaders), message)
    ensures ConsumeHereResult(vars, context.interceptHeaders, None, send) == Success(true) ==>
      o == Pass && next.delivered == old(next.delivered) + [message]
    ensures ConsumeHereResult(vars, context.interceptHeaders, None, send) == Success(false) ==>
      o == Pass && next.delivered == old(next.delivered)
    ensures ConsumeHereResult(vars, context.interceptHeaders, None, send).Failure? ==>
      o == Fail(ConsumeHereResult(vars, context.interceptHeaders, None, send).error)
      && next.delivered == old(next.delivered)
  {
    Capture(context, message);
    var consume := ConsumeHere(vars, context.interceptHeaders, None, send);
    if consume.Failure? {
      return Fail(consume.error);
    }
    if consume.value {
      next.Send(message);
    }
    o := Pass;
  }
}
