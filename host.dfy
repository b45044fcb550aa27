/**
 * The parts of the host the core touches: the file system, the `telepresence` executable
 * and the polling loops that wait on files. The executable is an oracle that records
 * every command line it is asked to start and answers with scripted outcomes; a polling
 * loop is given the observations it makes before its cancellation token fires (every
 * wait in the core is bounded by a 30-second linked token).
 */
module Host {
  import opened Wrappers
  import opened Text
  import opened Constants

  // ----- paths (Unix rules: '/' is the only separator) -----

  /**
   * `Path.GetExtension`: from the last '.' of the last path segment to the end, or ""
   * when the segment has no '.' or ends with it.
   */
  function Extension(path: string): (r: string)
    ensures r == "" || (2 <= |r| <= |path| && r == path[|path| - |r|..] && r[0] == '.')
    ensures forall i :: 0 <= i < |r| ==> r[i] != '/' && (i > 0 ==> r[i] != '.')
    decreases |path|
  {
    if |path| == 0 then ""
    else
      var c := path[|path| - 1];
      if c == '/' then ""
      else if c == '.' then ""
      else
        assert path[..|path| - 1] + [c] == path;
        ExtensionAfter(path[..|path| - 1], [c])
  }

  /** Scan left from a non-empty candidate tail that holds no '.' or separator. */
  function ExtensionAfter(prefix: string, tail: string): (r: string)
    requires |tail| >= 1
    requires forall i :: 0 <= i < |tail| ==> tail[i] != '/' && tail[i] != '.'
    ensures r == "" || (2 <= |r| <= |prefix| + |tail| && r == (prefix + tail)[|prefix| + |tail| - |r|..] && r[0] == '.')
    ensures forall i :: 0 <= i < |r| ==> r[i] != '/' && (i > 0 ==> r[i] != '.')
    decreases |prefix|
  {
    if |prefix| == 0 then ""
    else
      var c := prefix[|prefix| - 1];
      if c == '/' then ""
      else if c == '.' then
        assert (prefix + tail)[|prefix| - 1..] == [c] + tail;
        [c] + tail
      else
        assert prefix[..|prefix| - 1] + ([c] + tail) == prefix + tail;
        ExtensionAfter(prefix[..|prefix| - 1], [c] + tail)
  }

  lemma ExtensionExamples()
    ensures Extension("out.json") == ".json"
    ensures Extension("dir.d/out") == ""
    ensures Extension("out.") == ""
  {
    assert "out.json"[..7] == "out.jso";
    assert "out.jso"[..6] == "out.js";
    assert "out.js"[..5] == "out.j";
    assert "out.j"[..4] == "out.";
    assert "dir.d/out"[..8] == "dir.d/ou";
    assert "dir.d/ou"[..7] == "dir.d/o";
    assert "dir.d/o"[..6] == "dir.d/";
  }

  /** `Path.Combine(first, second)`; `CombineCases` states its cases. */
  function Combine(first: string, second: string): string
  {
    if second == "" then first
    else if StartsWith(second, "/") || first == "" then second
    else if first[|first| - 1] == '/' then first + second
    else first + "/" + second
  }

  /**
   * The cases of `Path.Combine`: an empty part yields the other, a rooted second part replaces
   * the first, and otherwise the parts are joined by one separator.
   */
  lemma CombineCases(first: string, second: string)
    ensures var r := Combine(first, second);
      && (second == "" ==> r == first)
      && (second != "" && (first == "" || StartsWith(second, "/")) ==> r == second)
      && (second != "" && first != "" && !StartsWith(second, "/") ==>
            && StartsWith(r, first) && |r| >= |second| && r[|r| - |second|..] == second
            && |r| == |first| + |second| + (if first[|first| - 1] == '/' then 0 else 1)
            && (first[|first| - 1] != '/' ==> r[|first|] == '/'))
  {
  }

  /** Joining a relative second part keeps the first part's first character and the second's last. */
  lemma CombineEnds(first: string, second: string)
    requires first != "" && second != "" && !StartsWith(second, "/")
    ensures Combine(first, second) != ""
    ensures Combine(first, second)[0] == first[0]
    ensures Combine(first, second)[|Combine(first, second)| - 1] == second[|second| - 1]
  {
    CombineCases(first, second);
  }

  /** A relative second part after a first part not ending in a separator is joined by exactly one. */
  lemma CombineJoin(first: string, second: string)
    requires first != "" && second != "" && !StartsWith(second, "/") && first[|first| - 1] != '/'
    ensures Combine(first, second) == first + "/" + second
  {
  }

  // ----- the file system -----

  class FileSystem {
    /** file path -> text */
    var files: map<string, string>
    var directories: set<string>

    constructor (files0: map<string, string>, directories0: set<string>)
      ensures files == files0 && directories == directories0
    {
      files := files0;
      directories := directories0;
    }

    predicate Exists(path: string) reads this { path in files }

    /** `File.Delete` */
    method Delete(path: string)
      modifies this`files
      ensures files == old(files) - {path}
    {
      files := files - {path};
    }

    /** `File.WriteAllTextAsync` */
    method WriteAllText(path: string, text: string)
      modifies this`files
      ensures files == old(files)[path := text]
    {
      files := files[path := text];
    }

    /** `Directory.CreateDirectory` when the directory is missing. */
    method CreateDirectory(path: string)
      modifies this`directories
      ensures directories == old(directories) + {path}
    {
      directories := directories + {path};
    }

    /** `Directory.Delete(path, true)`: the directory, every directory below it and every file below it. */
    method DeleteTree(path: string)
      modifies this
      ensures directories == set d | d in old(directories) && d != path && !StartsWith(d, path + "/")
      ensures files == map f | f in old(files) && !StartsWith(f, path + "/") :: old(files)[f]
    {
      directories := set d | d in directories && d != path && !StartsWith(d, path + "/");
      files := map f | f in files && !StartsWith(f, path + "/") :: files[f];
    }
  }

  // ----- the telepresence executable -----

  /** What starting and awaiting one `telepresence` process produced. */
  datatype RunOutcome =
    /** It ran to exit (or, for a handler that only reads output, kept running) and wrote these stdout lines. */
    | Exited(stdout: seq<string>)
    /** `Process.Start` or `WaitForExitAsync` threw. */
    | Threw(fault: Fault)

  /** The outcome the next run takes from a script. */
  function NextOutcome(script: seq<RunOutcome>): RunOutcome {
    if script == [] then Exited([]) else script[0]
  }

  class CommandRunner {
    /** Every argument list handed to `telepresence`, in order. */
    var started: seq<seq<string>>
    /** The outcomes of the coming runs; once exhausted, runs exit without output. */
    var script: seq<RunOutcome>

    constructor (script0: seq<RunOutcome>)
      ensures started == [] && script == script0
    {
      started := [];
      script := script0;
    }

    method Run(args: seq<string>) returns (o: RunOutcome)
      modifies this
      ensures started == old(started) + [args]
      ensures o == NextOutcome(old(script))
      ensures script == if old(script) == [] then [] else old(script)[1..]
    {
      started := started + [args];
      if script == [] {
        o := Exited([]);
      } else {
        o := script[0];
        script := script[1..];
      }
    }
  }

  // ----- polling -----

  /**
   * `WaitForOutputFile`: while not cancelled, return once `File.Exists` holds, otherwise
   * wait a second. `checks` are the answers of the existence checks made before the token
   * fires; a cancelled delay is caught. Returns how many one-second delays were started.
   */
  method WaitForOutputFile(checks: seq<bool>) returns (found: bool, delays: nat)
    ensures delays <= |checks|
    ensures forall i :: 0 <= i < delays ==> !checks[i]
    ensures found <==> delays < |checks|
    ensures found ==> checks[delays]
    ensures found <==> true in checks
  {
    delays := 0;
    while delays < |checks|
      invariant delays <= |checks|
      invariant forall i :: 0 <= i < delays ==> !checks[i]
    {
      if checks[delays] {
        return true, delays;
      }
      delays := delays + 1;
    }
    return false, delays;
  }

  /** One `File.Open(path, Open, Read, ReadWrite)` attempt. */
  datatype OpenAttempt = Opened | Busy | Denied

  /** How a `WaitForRead` over these attempts ends: opened, cancelled (`false`) or failed. */
  function ReadWait(attempts: seq<OpenAttempt>): Result<bool, Fault>
    decreases |attempts|
  {
    if |attempts| == 0 then Success(false)
    else match attempts[0]
      case Opened => Success(true)
      case Denied => Failure(UnauthorizedAccess)
      case Busy => ReadWait(attempts[1..])
  }

  lemma {:induction false} ReadWaitAt(attempts: seq<OpenAttempt>, tries: nat)
    requires tries <= |attempts|
    requires forall i :: 0 <= i < tries ==> attempts[i] == Busy
    ensures ReadWait(attempts) == ReadWait(attempts[tries..])
    decreases tries
  {
    if tries > 0 {
      assert attempts[0] == Busy;
      ReadWaitAt(attempts[1..], tries - 1);
      assert attempts[1..][tries - 1..] == attempts[tries..];
    }
  }

  /**
   * `WaitForRead`: retry the shared open while not cancelled, swallowing `IOException`
   * (`Busy`); any other exception (`Denied`) escapes. `attempts` are those made before the
   * token fires. `ready` says whether the file opened; a wait that ran out of attempts was cancelled.
   */
  method WaitForRead(attempts: seq<OpenAttempt>) returns (r: Result<bool, Fault>, tries: nat)
    ensures tries <= |attempts|
    ensures forall i :: 0 <= i < tries ==> attempts[i] == Busy
    ensures r == Success(false) <==> tries == |attempts|
    ensures r == Success(true) <==> tries < |attempts| && attempts[tries] == Opened
    ensures r.Failure? <==> tries < |attempts| && attempts[tries] == Denied
    ensures r.Failure? ==> r.error == UnauthorizedAccess
    ensures r == ReadWait(attempts)
  {
    tries := 0;
    while tries < |attempts|
      invariant tries <= |attempts|
      invariant forall i :: 0 <= i < tries ==> attempts[i] == Busy
    {
      ReadWaitAt(attempts, tries);
      match attempts[tries]
      case Opened => return Success(true), tries;
      case Denied => return Failure(UnauthorizedAccess), tries;
      case Busy => tries := tries + 1;
    }
    ReadWaitAt(attempts, tries);
    return Success(false), tries;
  }
}
