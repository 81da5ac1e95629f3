/**
 * The progress ledger of squidtools/robust_task.py: an append-only file of
 * JSON lines, replayed into a dict from key to the last record filed under it.
 */
module ProgressLedger {
  import opened Wrappers
  import opened Json

  /** The reserved field that `save_progress` writes the key into. */
  const PKEY: string := "_pkey"
  /** The field older ledgers were keyed by. */
  const FILENAME: string := "filename"

  /** The dict `load_progress` builds: key to the last line filed under it. */
  type Progress = map<Value, Record>

  /** `progress[pk] = p` raises TypeError when `pk` is a list or a dict. */
  datatype LoadError = UnhashableKey(key: Value)

  /**
   * `p.get(PKEY, p.get("filename"))`: `_pkey` whenever present (even when
   * falsy), else `filename`, else None; as a dict key, so `true` is `1`.
   */
  function LineKey(p: Record): Value {
    KeyOf(if PKEY in p then p[PKEY] else if FILENAME in p then p[FILENAME] else Null)
  }

  /** One step of the replay: lines with a falsy key are dropped. */
  function Absorb(m: Progress, p: Record): Result<Progress, LoadError> {
    var pk := LineKey(p);
    if !Truthy(pk) then Success(m)
    else if !Hashable(pk) then Failure(UnhashableKey(pk))
    else Success(m[pk := p])
  }

  /** Replaying `lines` in file order on top of `m`; the first unhashable key aborts. */
  function ReplayFrom(m: Progress, lines: seq<Record>): Result<Progress, LoadError> {
    if lines == [] then Success(m)
    else
      match ReplayFrom(m, lines[..|lines| - 1])
      case Failure(e) => Failure(e)
      case Success(m') => Absorb(m', lines[|lines| - 1])
  }

  /** What `load_progress` returns for a file holding `lines`. */
  function Replay(lines: seq<Record>): Result<Progress, LoadError> {
    ReplayFrom(map[], lines)
  }

  /** The record `save_progress(pname, name, result)` leaves in `result` and writes. */
  function Stamp(result: Record, name: string): (r: Record)
    ensures LineKey(r) == Str(name)
  {
    result[PKEY := Str(name)]
  }

  /** Stamping adds the key field and keeps every other field of the result. */
  lemma StampKeeps(result: Record, name: string)
    ensures Stamp(result, name).Keys == result.Keys + {PKEY}
    ensures forall f :: f in result && f != PKEY ==> Stamp(result, name)[f] == result[f]
  {
  }

  /** A line with a usable key: truthy and hashable. */
  predicate Filed(p: Record) {
    Truthy(LineKey(p)) && Hashable(LineKey(p))
  }

  // ---------------------------------------------------------------------------
  // The file

  /** The ledger file: whether it exists, and its lines in order. */
  class Ledger {
    var fileExists: bool
    var lines: seq<Record>

    /** A file that does not exist has no lines. */
    ghost predicate Valid()
      reads this
    {
      !fileExists ==> lines == []
    }

    /** No file at the given path yet. */
    constructor Missing()
      ensures Valid() && !fileExists && lines == []
    {
      fileExists := false;
      lines := [];
    }

    /** An existing file with the given lines. */
    constructor Existing(contents: seq<Record>)
      ensures Valid() && fileExists && lines == contents
    {
      fileExists := true;
      lines := contents;
    }

    /** `load_progress`: the empty dict for a missing file, else the lines replayed. */
    method Load() returns (r: Result<Progress, LoadError>)
      requires Valid()
      ensures r == Replay(lines)
      ensures !fileExists ==> r == Success(map[])
    {
      var progress: Progress := map[];
      if fileExists {
        var i := 0;
        while i < |lines|
          invariant 0 <= i <= |lines|
          invariant Replay(lines[..i]) == Success(progress)
        {
          var p := lines[i];
          assert lines[..i + 1][..i] == lines[..i];
          var pk := LineKey(p);
          if Truthy(pk) {
            if !Hashable(pk) {
              r := Failure(UnhashableKey(pk));
              ReplayStopsAtFailure(lines, i + 1);
              return;
            }
            progress := progress[pk := p];
          }
          i := i + 1;
        }
        assert lines[..i] == lines;
      }
      r := Success(progress);
    }

    /** `save_progress`: stamp the key into the record and append it as one line. */
    method Save(name: string, result: Record) returns (stamped: Record)
      requires Valid()
      modifies this
      ensures Valid() && fileExists
      ensures stamped == Stamp(result, name)
      ensures lines == old(lines) + [stamped]
    {
      stamped := result[PKEY := Str(name)];
      lines := lines + [stamped];
      fileExists := true;
    }
  }

  // ---------------------------------------------------------------------------
  // Properties of the replay

  /** Once a prefix fails to replay, the whole file fails the same way. */
  lemma {:induction false} ReplayStopsAtFailure(lines: seq<Record>, i: nat)
    requires i <= |lines|
    requires Replay(lines[..i]).Failure?
    ensures Replay(lines) == Replay(lines[..i])
    decreases |lines| - i
  {
    if i < |lines| {
      assert lines[..i + 1][..i] == lines[..i];
      ReplayStopsAtFailure(lines, i + 1);
    } else {
      assert lines[..i] == lines;
    }
  }

  /** Replaying two pieces of a file one after the other is replaying the file. */
  lemma {:induction false} ReplayConcat(m: Progress, a: seq<Record>, b: seq<Record>)
    ensures ReplayFrom(m, a + b) ==
            match ReplayFrom(m, a)
            case Failure(e) => Failure(e)
            case Success(m') => ReplayFrom(m', b)
  {
    if b == [] {
      assert a + b == a;
    } else {
      var b' := b[..|b| - 1];
      assert (a + b)[..|a + b| - 1] == a + b';
      ReplayConcat(m, a, b');
    }
  }

  /** A file replays without error exactly when no line has a truthy unhashable key. */
  lemma {:induction false} ReplaySucceeds(m: Progress, lines: seq<Record>)
    ensures ReplayFrom(m, lines).Success? <==>
            forall j :: 0 <= j < |lines| ==> !Truthy(LineKey(lines[j])) || Hashable(LineKey(lines[j]))
  {
    if lines != [] {
      var init := lines[..|lines| - 1];
      ReplaySucceeds(m, init);
      assert forall j :: 0 <= j < |init| ==> init[j] == lines[j];
    }
  }

  /**
   * Last write wins: after a successful replay, a key is present exactly when
   * some line files a truthy record under it, and it maps to the last such line.
   */
  /** The last line of a successful replay is absorbed on top of the rest. */
  lemma ReplayLast(lines: seq<Record>)
    requires lines != [] && Replay(lines).Success?
    ensures Replay(lines[..|lines| - 1]).Success?
    ensures var m := Replay(lines[..|lines| - 1]).value;
            var p := lines[|lines| - 1];
            Replay(lines).value == if Truthy(LineKey(p)) then m[LineKey(p) := p] else m
  {
  }

  lemma {:induction false} ReplayLastWriteWins(lines: seq<Record>, k: Value)
    requires Replay(lines).Success?
    ensures k in Replay(lines).value <==>
            Truthy(k) && exists j :: 0 <= j < |lines| && LineKey(lines[j]) == k
    ensures k in Replay(lines).value ==>
            exists j :: 0 <= j < |lines| && LineKey(lines[j]) == k && Replay(lines).value[k] == lines[j] &&
                        forall j' :: j < j' < |lines| ==> LineKey(lines[j']) != k
  {
    if lines != [] {
      var n := |lines| - 1;
      var init := lines[..n];
      assert forall j :: 0 <= j < n ==> init[j] == lines[j];
      ReplayLast(lines);
      ReplayLastWriteWins(init, k);
      var m := Replay(init).value;
      var m' := Replay(lines).value;
      if LineKey(lines[n]) == k && Truthy(k) {
        assert m' == m[k := lines[n]];
      } else {
        assert k in m' <==> k in m;
        if k in m' {
          var j :| 0 <= j < n && LineKey(init[j]) == k && m[k] == init[j] &&
                   forall j' :: j < j' < n ==> LineKey(init[j']) != k;
          assert LineKey(lines[n]) != k;
          assert LineKey(lines[j]) == k && m'[k] == lines[j];
        }
      }
    }
  }

  /** A line that no later line re-files under its truthy key is what the load holds. */
  lemma ReplayKeepsLast(lines: seq<Record>, j: nat, k: Value)
    requires Replay(lines).Success? && j < |lines| && LineKey(lines[j]) == k && Truthy(k)
    requires forall j' :: j < j' < |lines| ==> LineKey(lines[j']) != k
    ensures k in Replay(lines).value && Replay(lines).value[k] == lines[j]
  {
    ReplayLastWriteWins(lines, k);
    var j0 :| 0 <= j0 < |lines| && LineKey(lines[j0]) == k && Replay(lines).value[k] == lines[j0] &&
              forall j' :: j0 < j' < |lines| ==> LineKey(lines[j']) != k;
    assert j0 == j;
  }

  /** No line of `s` is filed under `k`. */
  predicate Unfiled(s: seq<Record>, k: Value) {
    forall j :: 0 <= j < |s| ==> LineKey(s[j]) != k
  }

  /** Replaying lines that file nothing under `k` leaves `k` as it was. */
  lemma {:induction false} ReplayFromUnfiled(m: Progress, more: seq<Record>, k: Value)
    requires ReplayFrom(m, more).Success? && Unfiled(more, k)
    ensures k in ReplayFrom(m, more).value <==> k in m
    ensures k in m ==> ReplayFrom(m, more).value[k] == m[k]
  {
    if more != [] {
      var init := more[..|more| - 1];
      assert forall j :: 0 <= j < |init| ==> init[j] == more[j];
      ReplayFromUnfiled(m, init, k);
    }
  }

  /**
   * A line of `mid` that no later line of `mid` re-files under its truthy
   * key, followed by lines `tail` that file nothing under it, is what the
   * load of `lines + mid + tail` holds.
   */
  lemma KeepsLastThenUnfiled(lines: seq<Record>, mid: seq<Record>, tail: seq<Record>, j: nat, k: Value)
    requires Replay(lines + mid + tail).Success?
    requires j < |mid| && LineKey(mid[j]) == k && Truthy(k)
    requires forall j' :: j < j' < |mid| ==> LineKey(mid[j']) != k
    requires Unfiled(tail, k)
    ensures k in Replay(lines + mid + tail).value && Replay(lines + mid + tail).value[k] == mid[j]
  {
    var front := lines + mid;
    ReplayConcat(map[], front, tail);
    forall j' | |lines| + j < j' < |front|
      ensures LineKey(front[j']) != k
    {
      assert front[j'] == mid[j' - |lines|];
    }
    assert front[|lines| + j] == mid[j];
    ReplayKeepsLast(front, |lines| + j, k);
    ReplayFromUnfiled(Replay(front).value, tail, k);
  }

  /** Two lines filed under the same key: the later one wins. */
  lemma LaterLineWins(a: Record, b: Record)
    requires Filed(a) && LineKey(b) == LineKey(a)
    ensures Replay([a, b]) == Success(map[LineKey(a) := b])
  {
    assert [a, b][..1] == [a];
    assert [a][..0] == [];
    var k := LineKey(a);
    assert ReplayFrom(map[], [a]) == Success(map[k := a]);
    assert map[k := a][k := b] == map[k := b];
  }

  /** `True == 1` as a dict key: a line keyed `true` replaces the line keyed `1`. */
  lemma TrueIsOne()
    ensures var a := map[PKEY := Int(1)];
            var b := map[PKEY := Bool(true)];
            Replay([a, b]) == Success(map[Int(1) := b])
  {
    LaterLineWins(map[PKEY := Int(1)], map[PKEY := Bool(true)]);
  }


  /**
   * Loading after a save: the saved name maps to the stamped record, unless
   * the name is empty, which is falsy and so is dropped by the replay.
   */
  lemma SaveThenLoad(lines: seq<Record>, m: Progress, result: Record, name: string)
    requires Replay(lines) == Success(m)
    ensures Replay(lines + [Stamp(result, name)]) ==
            Success(if name != "" then m[Str(name) := Stamp(result, name)] else m)
  {
    assert (lines + [Stamp(result, name)])[..|lines|] == lines;
  }

  /** Records filed on top of `m` without dropping or failing: `progress[key] = record` in a loop. */
  function Merge(m: Progress, saved: seq<Record>): Progress {
    if saved == [] then m
    else Merge(m, saved[..|saved| - 1])[LineKey(saved[|saved| - 1]) := saved[|saved| - 1]]
  }

  /** Replaying lines that are all filed under usable keys is merging them. */
  lemma {:induction false} ReplayFiled(m: Progress, saved: seq<Record>)
    requires forall j :: 0 <= j < |saved| ==> Filed(saved[j])
    ensures ReplayFrom(m, saved) == Success(Merge(m, saved))
  {
    if saved != [] {
      ReplayFiled(m, saved[..|saved| - 1]);
    }
  }

  /** A key is in a merge exactly when it was there before or some merged record is filed under it. */
  lemma {:induction false} MergeKeys(m: Progress, saved: seq<Record>, k: Value)
    ensures k in Merge(m, saved) <==> k in m || exists j :: 0 <= j < |saved| && LineKey(saved[j]) == k
    ensures (forall j :: 0 <= j < |saved| ==> LineKey(saved[j]) != k) && k in m ==> Merge(m, saved)[k] == m[k]
  {
    if saved != [] {
      var init := saved[..|saved| - 1];
      MergeKeys(m, init, k);
      assert forall j :: 0 <= j < |init| ==> init[j] == saved[j];
    }
  }
}
