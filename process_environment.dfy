/**
 * The process environment block as a mutable map. `Environment.SetEnvironmentVariable`
 * assigns one variable; the loaders apply the variables of a document one after another,
 * so a later assignment of the same name wins.
 */
module ProcessEnvironment {
  import opened Wrappers

  type Pair = (string, string)

  function Lookup(vars: map<string, string>, key: string): Option<string> {
    if key in vars then Some(vars[key]) else None
  }

  /** The effect of assigning every pair in order. */
  function Applied(vars: map<string, string>, entries: seq<Pair>): map<string, string>
    decreases |entries|
  {
    if |entries| == 0 then vars else Applied(vars[entries[0].0 := entries[0].1], entries[1..])
  }

  /** The value of the last pair named `key`, if any. */
  function LastValue(entries: seq<Pair>, key: string): Option<string>
    decreases |entries|
  {
    if |entries| == 0 then None
    else if entries[|entries| - 1].0 == key then Some(entries[|entries| - 1].1)
    else LastValue(entries[..|entries| - 1], key)
  }

  lemma {:induction false} AppliedSnoc(vars: map<string, string>, entries: seq<Pair>, last: Pair)
    ensures Applied(vars, entries + [last]) == Applied(vars, entries)[last.0 := last.1]
    decreases |entries|
  {
    if |entries| == 0 {
      assert entries + [last] == [last];
    } else {
      assert (entries + [last])[1..] == entries[1..] + [last];
      AppliedSnoc(vars[entries[0].0 := entries[0].1], entries[1..], last);
    }
  }

  /** Last writer wins: a variable ends with the value of the last pair naming it, or keeps its old value if none does. */
  lemma {:induction false} AppliedLookup(vars: map<string, string>, entries: seq<Pair>, key: string)
    ensures Lookup(Applied(vars, entries), key) ==
      (if LastValue(entries, key).Some? then LastValue(entries, key) else Lookup(vars, key))
    decreases |entries|
  {
    if |entries| > 0 {
      var init := entries[..|entries| - 1];
      var last := entries[|entries| - 1];
      assert entries == init + [last];
      AppliedSnoc(vars, init, last);
      AppliedLookup(vars, init, key);
    }
  }

  /** Variables that no pair names are left as they were. */
  lemma {:induction false} NoLastValue(entries: seq<Pair>, key: string)
    requires forall i :: 0 <= i < |entries| ==> entries[i].0 != key
    ensures LastValue(entries, key).None?
    decreases |entries|
  {
    if |entries| > 0 {
      NoLastValue(entries[..|entries| - 1], key);
    }
  }

  lemma Untouched(vars: map<string, string>, entries: seq<Pair>, key: string)
    requires forall i :: 0 <= i < |entries| ==> entries[i].0 != key
    ensures Lookup(Applied(vars, entries), key) == Lookup(vars, key)
  {
    AppliedLookup(vars, entries, key);
    NoLastValue(entries, key);
  }

  /** Applying two documents in turn is applying their concatenation. */
  lemma {:induction false} AppliedConcat(vars: map<string, string>, a: seq<Pair>, b: seq<Pair>)
    ensures Applied(vars, a + b) == Applied(Applied(vars, a), b)
    decreases |a|
  {
    if |a| > 0 {
      assert (a + b)[1..] == a[1..] + b;
      AppliedConcat(vars[a[0].0 := a[0].1], a[1..], b);
    } else {
      assert a + b == b;
    }
  }

  /** The process environment. */
  class Environment {
    var vars: map<string, string>

    constructor (initial: map<string, string>)
      ensures vars == initial
    {
      vars := initial;
    }

    /** `Environment.SetEnvironmentVariable(key, value)`. */
    method Set(key: string, value: string)
      modifies this
      ensures vars == old(vars)[key := value]
    {
      vars := vars[key := value];
    }

    /** `SetEnvironmentVariables`: a `foreach` assigning every pair in order. */
    method SetAll(entries: seq<Pair>)
      modifies this
      ensures vars == Applied(old(vars), entries)
    {
      var i := 0;
      while i < |entries|
        invariant 0 <= i <= |entries|
        invariant vars == Applied(old(vars), entries[..i])
      {
        AppliedSnoc(old(vars), entries[..i], entries[i]);
        assert entries[..i + 1] == entries[..i] + [entries[i]];
        Set(entries[i].0, entries[i].1);
        i := i + 1;
      }
      assert entries[..i] == entries;
    }
  }
}
