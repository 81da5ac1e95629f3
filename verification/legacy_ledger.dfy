/**
 * The older ledger and runner of data_wrangler/robust_task.py: lines are
 * keyed by their `filename` field, results are appended unchanged, and an
 * exception from the task is not caught.
 */
module LegacyRobustTask {
  import opened Wrappers
  import opened Json

  const FILENAME: string := "filename"

  /** `load_progress`'s dict: `record['filename']` to the last line carrying it; the runner adds raw results. */
  type Progress = map<Value, Value>

  /** Why `p['filename']` fails on a line. */
  datatype LoadError =
    | NotADict(line: Value)        // TypeError: the line is not a JSON object
    | NoFilename(line: Value)      // KeyError: the object has no `filename`
    | Unhashable(key: Value)       // TypeError: the filename is a list or an object

  /** One step of `load_progress`: no truthiness test, so a falsy filename is a key like any other. */
  function Absorb(m: Progress, p: Value): Result<Progress, LoadError> {
    if !p.Dict? then Failure(NotADict(p))
    else if FILENAME !in p.fields then Failure(NoFilename(p))
    else if !Hashable(p.fields[FILENAME]) then Failure(Unhashable(p.fields[FILENAME]))
    else Success(m[KeyOf(p.fields[FILENAME]) := p])
  }

  /** The lines replayed in file order; the first bad line aborts. */
  function Replay(lines: seq<Value>): Result<Progress, LoadError> {
    if lines == [] then Success(map[])
    else
      match Replay(lines[..|lines| - 1])
      case Failure(e) => Failure(e)
      case Success(m) => Absorb(m, lines[|lines| - 1])
  }

  /** A line `load_progress` accepts, with the key it is filed under (`true` is `1`). */
  predicate Keyed(p: Value, k: Value) {
    p.Dict? && FILENAME in p.fields && KeyOf(p.fields[FILENAME]) == k && Hashable(k)
  }

  /** The ledger file: whether it exists, and its lines in order. */
  class FilenameLedger {
    var fileExists: bool
    var lines: seq<Value>

    ghost predicate Valid()
      reads this
    {
      !fileExists ==> lines == []
    }

    constructor Missing()
      ensures Valid() && !fileExists && lines == []
    {
      fileExists := false;
      lines := [];
    }

    constructor Existing(contents: seq<Value>)
      ensures Valid() && fileExists && lines == contents
    {
      fileExists := true;
      lines := contents;
    }

    /** `load_progress`: the empty dict for a missing file, else the lines replayed. */
    method Load() returns (r: Result<Progress, LoadError>)
      requires Valid()
      ensures r == Replay(lines)
      ensures !fileExists ==> r == Success(map[])
    {
      var progress: Progress := map[];
      if fileExists {
        var i := 0;
        while i < |lines|
          invariant 0 <= i <= |lines|
          invariant Replay(lines[..i]) == Success(progress)
        {
          var p := lines[i];
          assert lines[..i + 1][..i] == lines[..i];
          if !p.Dict? {
            r := Failure(NotADict(p));
            ReplayStopsAtFailure(lines, i + 1);
            return;
          }
          if FILENAME !in p.fields {
            r := Failure(NoFilename(p));
            ReplayStopsAtFailure(lines, i + 1);
            return;
          }
          var key := p.fields[FILENAME];
          if !Hashable(key) {
            r := Failure(Unhashable(key));
            ReplayStopsAtFailure(lines, i + 1);
            return;
          }
          progress := progress[KeyOf(key) := p];
          i := i + 1;
        }
        assert lines[..i] == lines;
      }
      r := Success(progress);
    }

    /** `save_progress`: the result is appended as it is, with no key added. */
    method Save(result: Value)
      requires Valid()
      modifies this
      ensures Valid() && fileExists
      ensures lines == old(lines) + [result]
    {
      lines := lines + [result];
      fileExists := true;
    }
  }

  /**
   * Once a prefix fails to replay, the whole file fails the same way. This is
   * the old ledger's own `Replay`, not `ProgressLedger.Replay`: its lines are
   * any JSON values, and a line fails when it is not an object, lacks
   * `filename`, or has an unhashable one, with no truthiness test, whereas the
   * `_pkey` ledger fails only on a truthy unhashable key. `Load`'s loop uses it.
   */
  lemma {:induction false} ReplayStopsAtFailure(lines: seq<Value>, i: nat)
    requires i <= |lines|
    requires Replay(lines[..i]).Failure?
    ensures Replay(lines) == Replay(lines[..i])
    decreases |lines| - i
  {
    if i < |lines| {
      assert lines[..i + 1][..i] == lines[..i];
      ReplayStopsAtFailure(lines, i + 1);
    } else {
      assert lines[..i] == lines;
    }
  }

  /**
   * Last write wins: after a successful load, a key is present exactly when
   * some line carries it as its filename, and maps to the last such line.
   * A load succeeds only when every line is an object with a hashable filename.
   */
  lemma {:induction false} ReplayLastWriteWins(lines: seq<Value>, k: Value)
    requires Replay(lines).Success?
    ensures forall j :: 0 <= j < |lines| ==> lines[j].Dict? && FILENAME in lines[j].fields &&
                                              Hashable(lines[j].fields[FILENAME])
    ensures k in Replay(lines).value <==> exists j :: 0 <= j < |lines| && Keyed(lines[j], k)
    ensures k in Replay(lines).value ==>
              exists j :: 0 <= j < |lines| && Keyed(lines[j], k) && Replay(lines).value[k] == lines[j] &&
                          forall j' :: j < j' < |lines| ==> !Keyed(lines[j'], k)
  {
    if lines != [] {
      var n := |lines| - 1;
      var init := lines[..n];
      assert forall j :: 0 <= j < n ==> init[j] == lines[j];
      ReplayLastWriteWins(init, k);
      var m := Replay(init).value;
      var m' := Replay(lines).value;
      if Keyed(lines[n], k) {
        assert m' == m[k := lines[n]];
      } else {
        assert k in m' <==> k in m;
        if k in m' {
          var j :| 0 <= j < n && Keyed(init[j], k) && m[k] == init[j] &&
                   forall j' :: j < j' < n ==> !Keyed(init[j'], k);
          assert Keyed(lines[j], k) && m'[k] == lines[j];
        }
      }
    }
  }

  // ---------------------------------------------------------------------------
  // robust_task

  /** What the task did with one filename: a result, or an exception that ends the run. */
  datatype Outcome = Returned(result: Value) | Raised

  /**
   * The runner's state after some filenames: the ledger's lines, the dict,
   * the filenames the task was called on, and the filename whose task
   * raised, if one did (the run stops there).
   */
  datatype RunState = RunState(lines: seq<Value>, progress: Progress, invoked: seq<string>, raised: Option<string>)

  /** One turn of the loop over `files`. */
  function Step(st: RunState, filename: string, task: string -> Outcome, skip: bool): RunState {
    if st.raised.Some? || (skip && Str(filename) in st.progress) then st
    else
      match task(filename)
      case Raised => st.(invoked := st.invoked + [filename], raised := Some(filename))
      case Returned(v) =>
        st.(lines := st.lines + [v], progress := st.progress[Str(filename) := v], invoked := st.invoked + [filename])
  }

  /** The loop over `files`, in list order. */
  function Run(st: RunState, files: seq<string>, task: string -> Outcome, skip: bool): RunState {
    if files == [] then st
    else Step(Run(st, files[..|files| - 1], task, skip), files[|files| - 1], task, skip)
  }

  /** Why `robust_task` ends without returning: the load failed, or the task raised on a filename. */
  datatype RunError = LoadFailed(error: LoadError) | TaskRaised(filename: string)

  /** What a finished run hands back: the dict, or the exception it propagates. */
  function Returns(st: RunState): Result<Progress, RunError> {
    if st.raised.Some? then Failure(TaskRaised(st.raised.value)) else Success(st.progress)
  }

  /**
   * `robust_task`: load, then for each filename in order, unless `skip` and
   * it is already in `progress`, call the task, append its result and
   * record it. An exception from the task propagates: the run stops and
   * the lines saved so far stay in the file.
   */
  method RobustTask(ledger: FilenameLedger, files: seq<string>, task: string -> Outcome, skip: bool)
    returns (r: Result<Progress, RunError>, invoked: seq<string>)
    requires ledger.Valid()
    modifies ledger
    ensures ledger.Valid()
    ensures match Replay(old(ledger.lines))
            case Failure(e) => r == Failure(LoadFailed(e)) && ledger.lines == old(ledger.lines) && invoked == []
            case Success(loaded) =>
              var st := Run(RunState(old(ledger.lines), loaded, [], None), files, task, skip);
              ledger.lines == st.lines && invoked == st.invoked && r == Returns(st)
  {
    var loaded := ledger.Load();
    if loaded.Failure? {
      r, invoked := Failure(LoadFailed(loaded.error)), [];
      return;
    }
    var progress := loaded.value;
    ghost var st0 := RunState(ledger.lines, progress, [], None);
    invoked := [];
    var i := 0;
    assert files[..0] == [];
    while i < |files|
      invariant 0 <= i <= |files|
      invariant ledger.Valid()
      invariant Run(st0, files[..i], task, skip) == RunState(ledger.lines, progress, invoked, None)
    {
      var filename := files[i];
      RunStep(st0, files, i, task, skip);
      if !(skip && Str(filename) in progress) {
        var out := task(filename);
        invoked := invoked + [filename];
        if out.Raised? {
          r := Failure(TaskRaised(filename));
          RunAfterRaise(st0, files, i + 1, task, skip);
          return;
        }
        ledger.Save(out.result);
        progress := progress[Str(filename) := out.result];
      }
      i := i + 1;
    }
    assert files[..i] == files;
    r := Success(progress);
  }

  lemma RunStep(st: RunState, files: seq<string>, i: nat, task: string -> Outcome, skip: bool)
    requires i < |files|
    ensures Run(st, files[..i + 1], task, skip) == Step(Run(st, files[..i], task, skip), files[i], task, skip)
  {
    assert files[..i + 1][..i] == files[..i];
  }

  /** Once a task has raised, the remaining filenames change nothing. */
  lemma {:induction false} RunAfterRaise(st: RunState, files: seq<string>, i: nat, task: string -> Outcome, skip: bool)
    requires i <= |files| && Run(st, files[..i], task, skip).raised.Some?
    ensures Run(st, files, task, skip) == Run(st, files[..i], task, skip)
    decreases |files| - i
  {
    if i < |files| {
      assert files[..i + 1][..i] == files[..i];
      RunAfterRaise(st, files, i + 1, task, skip);
    } else {
      assert files[..i] == files;
    }
  }

  // ---------------------------------------------------------------------------
  // Properties of the legacy runner

  /** The results of the calls on `names` whose task returned, in call order. */
  function Results(task: string -> Outcome, names: seq<string>): (r: seq<Value>)
    ensures |r| <= |names|
  {
    if names == [] then []
    else
      Results(task, names[..|names| - 1]) +
      match task(names[|names| - 1])
      case Returned(v) => [v]
      case Raised => []
  }

  lemma ResultsSnoc(task: string -> Outcome, names: seq<string>, f: string)
    ensures Results(task, names + [f]) ==
            Results(task, names) + if task(f).Returned? then [task(f).result] else []
  {
    assert (names + [f])[..|names|] == names;
  }

  /**
   * The ledger only grows: the loaded lines stay a prefix, the appended
   * lines are the results of the new calls whose task returned, in call
   * order, and a raise leaves everything saved before it.
   */
  lemma {:induction false} RunAppends(st: RunState, files: seq<string>, task: string -> Outcome, skip: bool)
    ensures var st' := Run(st, files, task, skip);
            && |st.invoked| <= |st'.invoked| && st'.invoked[..|st.invoked|] == st.invoked
            && st'.lines == st.lines + Results(task, st'.invoked[|st.invoked|..])
            && |st'.lines| - |st.lines| <= |st'.invoked| - |st.invoked|
            && (st.raised.Some? ==> st' == st)
  {
    if files != [] {
      var mid := Run(st, files[..|files| - 1], task, skip);
      RunAppends(st, files[..|files| - 1], task, skip);
      StepAppends(mid, files[|files| - 1], task, skip, |st.invoked|);
    }
  }

  /** One turn appends the result of its call, if it made one and the task returned. */
  lemma StepAppends(mid: RunState, f: string, task: string -> Outcome, skip: bool, n: nat)
    requires n <= |mid.invoked|
    ensures var s := Step(mid, f, task, skip);
            var added := if s.invoked == mid.invoked || task(f).Raised? then [] else [task(f).result];
            && |mid.invoked| <= |s.invoked| && s.invoked[..|mid.invoked|] == mid.invoked
            && s.lines == mid.lines + added
            && Results(task, s.invoked[n..]) == Results(task, mid.invoked[n..]) + added
            && (mid.raised.Some? ==> s == mid)
  {
    var s := Step(mid, f, task, skip);
    if s.invoked != mid.invoked {
      assert s.invoked == mid.invoked + [f];
      assert s.invoked[n..] == mid.invoked[n..] + [f];
      ResultsSnoc(task, mid.invoked[n..], f);
    }
  }

  /** With `skip_existing`, the task is never called on a filename already in the dict. */
  lemma {:induction false} RunSkips(st: RunState, files: seq<string>, task: string -> Outcome)
    ensures var st' := Run(st, files, task, true);
            forall j :: |st.invoked| <= j < |st'.invoked| ==> Str(st'.invoked[j]) !in st.progress
    ensures Run(st, files, task, true).progress.Keys >= st.progress.Keys
  {
    if files != [] {
      RunSkips(st, files[..|files| - 1], task);
      RunAppends(st, files[..|files| - 1], task, true);
    }
  }

  /** `k` is the name of a call, at or after position `from`, whose task returned a result. */
  predicate AddedBy(invoked: seq<string>, from: nat, task: string -> Outcome, k: Value) {
    exists j :: from <= j < |invoked| && k == Str(invoked[j]) && task(invoked[j]).Returned?
  }

  /**
   * The dict returned is the loaded dict plus `filename -> result` for each
   * processed filename: a key is new only if it names a call whose task
   * returned, and then holds that call's result.
   */
  lemma {:induction false} RunResult(st: RunState, files: seq<string>, task: string -> Outcome, skip: bool, k: Value)
    ensures var st' := Run(st, files, task, skip);
            && (k in st'.progress <==> k in st.progress || AddedBy(st'.invoked, |st.invoked|, task, k))
            && (AddedBy(st'.invoked, |st.invoked|, task, k) ==>
                  k.Str? && task(k.s).Returned? && st'.progress[k] == task(k.s).result)
            && (k in st.progress && !AddedBy(st'.invoked, |st.invoked|, task, k) ==> st'.progress[k] == st.progress[k])
  {
    if files != [] {
      var init := files[..|files| - 1];
      var f := files[|files| - 1];
      RunResult(st, init, task, skip, k);
      RunAppends(st, init, task, skip);
      var mid := Run(st, init, task, skip);
      var st' := Run(st, files, task, skip);
      if st' != mid {
        assert st'.invoked == mid.invoked + [f];
        AddedBySnoc(mid.invoked, |st.invoked|, task, k, f);
        if task(f).Returned? {
          assert st'.progress == mid.progress[Str(f) := task(f).result];
        } else {
          assert st'.progress == mid.progress;
        }
      }
    }
  }

  /** A call appended to `invoked` adds its own name, when its task returned, and nothing else. */
  lemma AddedBySnoc(invoked: seq<string>, from: nat, task: string -> Outcome, k: Value, f: string)
    requires from <= |invoked|
    ensures AddedBy(invoked + [f], from, task, k) <==>
            AddedBy(invoked, from, task, k) || (k == Str(f) && task(f).Returned?)
  {
    var inv' := invoked + [f];
    if AddedBy(invoked, from, task, k) {
      var j :| from <= j < |invoked| && k == Str(invoked[j]) && task(invoked[j]).Returned?;
      assert inv'[j] == invoked[j];
    }
    if k == Str(f) && task(f).Returned? {
      assert inv'[|invoked|] == f;
    }
    if AddedBy(inv', from, task, k) {
      var j :| from <= j < |inv'| && k == Str(inv'[j]) && task(inv'[j]).Returned?;
      if j < |invoked| {
        assert inv'[j] == invoked[j];
      }
    }
  }

  /**
   * A reload gives back the dict the run built when every result the task
   * returns is an object whose `filename` is the filename it was called on.
   */
  lemma {:induction false} RunReload(st: RunState, files: seq<string>, task: string -> Outcome, skip: bool)
    requires Replay(st.lines) == Success(st.progress)
    requires forall f :: f in files && task(f).Returned? ==> Keyed(task(f).result, Str(f))
    ensures var st' := Run(st, files, task, skip);
            Replay(st'.lines) == Success(st'.progress)
  {
    if files != [] {
      var init := files[..|files| - 1];
      assert forall g :: g in init ==> g in files;
      RunReload(st, init, task, skip);
      var mid := Run(st, init, task, skip);
      var f := files[|files| - 1];
      if task(f).Returned? {
        assert (mid.lines + [task(f).result])[..|mid.lines|] == mid.lines;
      }
    }
  }

  /**
   * Conversely, a reload that gives back the dict the run built means that
   * every result the run saved is an object whose `filename` is the
   * filename it was called on.
   */
  lemma ReloadOnlyIf(st: RunState, files: seq<string>, task: string -> Outcome, skip: bool)
    requires var st' := Run(st, files, task, skip);
             Replay(st'.lines) == Success(st'.progress)
    ensures var st' := Run(st, files, task, skip);
            forall i :: |st.invoked| <= i < |st'.invoked| && task(st'.invoked[i]).Returned? ==>
                          Keyed(task(st'.invoked[i]).result, Str(st'.invoked[i]))
  {
    var st' := Run(st, files, task, skip);
    forall i | |st.invoked| <= i < |st'.invoked| && task(st'.invoked[i]).Returned?
      ensures Keyed(task(st'.invoked[i]).result, Str(st'.invoked[i]))
    {
      var k := Str(st'.invoked[i]);
      assert AddedBy(st'.invoked, |st.invoked|, task, k);
      RunResult(st, files, task, skip, k);
      ReplayLastWriteWins(st'.lines, k);
    }
  }

  /**
   * When a result's `filename` differs from the filename it was called on,
   * the reload files it elsewhere: calling on "a" a task that returns
   * `{"filename": "b"}` returns `{"a": ...}`, while the file reloads as `{"b": ...}`.
   */
  lemma ReloadDiffers()
    ensures var rec := Dict(map[FILENAME := Str("b")]);
            var st := Run(RunState([], map[], [], None), ["a"], _ => Returned(rec), true);
            && st.progress == map[Str("a") := rec]
            && Replay(st.lines) == Success(map[Str("b") := rec])
  {
    var rec := Dict(map[FILENAME := Str("b")]);
    var st := Run(RunState([], map[], [], None), ["a"], _ => Returned(rec), true);
    assert ["a"][..0] == [];
    assert st.lines == [rec];
    assert [rec][..0] == [];
  }
}
