/**
 * The two runners of squidtools/robust_task.py: `robust_task`, which tries
 * one item at a time, and `async_robust_task`, which tries items in batches
 * under a timeout and then retries the failures once with twice the timeout.
 * The task is an oracle; the ledger is a `ProgressLedger.Ledger`.
 */
module Runners {
  import opened Wrappers
  import opened Json
  import opened ProgressLedger
  import opened Batching

  /** A name and the input the task is called with (`objs[name]`). */
  type Item = (string, string)

  predicate DistinctKeys(items: seq<Item>) {
    forall i, j :: 0 <= i < j < |items| ==> items[i].0 != items[j].0
  }

  /** A Python dict from name to input, in insertion order. */
  type Entries = items: seq<Item> | DistinctKeys(items)

  /** The `objs` argument: a list of names, or a dict from name to input. */
  datatype Objs = ListOf(names: seq<string>) | DictOf(entries: Entries)

  /** What the task did with one input. */
  datatype Outcome = Returned(record: Record) | ReturnedNone | Raised

  /** What `asyncio.wait_for(task(value), timeout)` gave. */
  datatype AsyncOutcome = Finished(outcome: Outcome) | TimedOut

  function NameSet(items: seq<Item>): set<string> {
    set i | 0 <= i < |items| :: items[i].0
  }

  function KeysOf(items: seq<Item>): (names: seq<string>)
    ensures |names| == |items|
    ensures forall i :: 0 <= i < |items| ==> names[i] == items[i].0
  {
    seq(|items|, i requires 0 <= i < |items| => items[i].0)
  }

  /** `{k: k for k in objs}`: every name once, at its first position, as its own input. */
  function IdentityEntries(names: seq<string>): (r: Entries)
    ensures forall i :: 0 <= i < |r| ==> r[i].1 == r[i].0
    ensures forall n :: n in names <==> n in NameSet(r)
  {
    if names == [] then []
    else
      var prev := IdentityEntries(names[..|names| - 1]);
      var n := names[|names| - 1];
      assert forall m :: m in names <==> m in names[..|names| - 1] || m == n;
      if n in NameSet(prev) then prev
      else
        assert forall i :: 0 <= i < |prev| ==> prev[i].0 in NameSet(prev);
        assert NameSet(prev + [(n, n)]) == NameSet(prev) + {n} by {
          var r := prev + [(n, n)];
          assert forall i :: 0 <= i < |prev| ==> r[i] == prev[i];
          assert r[|prev|] == (n, n);
        }
        prev + [(n, n)]
  }

  /** The dict the runners work on: a list becomes the identity dict. */
  function ToEntries(objs: Objs): Entries {
    match objs
    case ListOf(names) => IdentityEntries(names)
    case DictOf(entries) => entries
  }


  /**
   * The items a runner tries, in dict order: all of them, or with
   * `skip_existing` only those whose name is not yet a key of `loaded`.
   */
  function Pending(items: seq<Item>, loaded: Progress, skip: bool): seq<Item> {
    if items == [] then []
    else
      var x := items[|items| - 1];
      var prev := Pending(items[..|items| - 1], loaded, skip);
      if skip && Str(x.0) in loaded then prev else prev + [x]
  }

  /** The records saved, in order: one stamped record per item whose task returned a dict. */
  function Stamps(items: seq<Item>, outs: seq<Outcome>): seq<Record>
    requires |outs| == |items|
  {
    if items == [] then []
    else
      var n := |items| - 1;
      var prev := Stamps(items[..n], outs[..n]);
      if outs[n].Returned? then prev + [Stamp(outs[n].record, items[n].0)] else prev
  }

  /** The items whose task gave no record (`None`, an exception or a timeout), in order: `errs`. */
  function Failures(items: seq<Item>, outs: seq<Outcome>): seq<Item>
    requires |outs| == |items|
  {
    if items == [] then []
    else
      var n := |items| - 1;
      var prev := Failures(items[..n], outs[..n]);
      if outs[n].Returned? then prev else prev + [items[n]]
  }

  /** The outcomes of the sequential runner's calls `task(objs[name])`. */
  function SyncOutcomes(items: seq<Item>, task: string -> Outcome): seq<Outcome> {
    seq(|items|, i requires 0 <= i < |items| => task(items[i].1))
  }

  // ---------------------------------------------------------------------------
  // Properties of the bookkeeping

  /** The pending items are the items, in order, less those skipped; their names stay distinct. */
  lemma {:induction false} PendingMembers(items: seq<Item>, loaded: Progress, skip: bool)
    ensures forall x :: x in Pending(items, loaded, skip) <==> x in items && !(skip && Str(x.0) in loaded)
    ensures DistinctKeys(items) ==> DistinctKeys(Pending(items, loaded, skip))
  {
    if items != [] {
      var init := items[..|items| - 1];
      var x := items[|items| - 1];
      PendingMembers(init, loaded, skip);
      assert forall y :: y in items <==> y in init || y == x;
      assert forall i :: 0 <= i < |init| ==> init[i] == items[i];
    }
  }

  /** Any two entries of `sub` appear in `items` in the same order. */
  predicate InOrder(sub: seq<Item>, items: seq<Item>) {
    forall a, b :: 0 <= a < b < |sub| ==> EntriesInOrder(sub, items, a, b)
  }

  /** `sub[a]` and `sub[b]` are entries `i < j` of `items`. */
  predicate EntriesInOrder(sub: seq<Item>, items: seq<Item>, a: nat, b: nat)
    requires a < b < |sub|
  {
    exists i, j :: 0 <= i < j < |items| && sub[a] == items[i] && sub[b] == items[j]
  }

  /** Any two of `names` are the names of two entries of `items`, in the same order. */
  predicate NamesInOrder(names: seq<string>, items: seq<Item>) {
    forall a, b :: 0 <= a < b < |names| ==> PairInOrder(names, items, a, b)
  }

  /** `names[a]` and `names[b]` are the names of entries `i < j` of `items`. */
  predicate PairInOrder(names: seq<string>, items: seq<Item>, a: nat, b: nat)
    requires a < b < |names|
  {
    exists i, j :: 0 <= i < j < |items| && names[a] == items[i].0 && names[b] == items[j].0
  }

  /** The names of entries in order are in order. */
  lemma KeysInOrder(sub: seq<Item>, items: seq<Item>)
    requires InOrder(sub, items)
    ensures NamesInOrder(KeysOf(sub), items)
  {
    var names := KeysOf(sub);
    forall a, b | 0 <= a < b < |names|
      ensures PairInOrder(names, items, a, b)
    {
      assert EntriesInOrder(sub, items, a, b);
      var i, j :| 0 <= i < j < |items| && sub[a] == items[i] && sub[b] == items[j];
      assert names[a] == items[i].0 && names[b] == items[j].0;
    }
  }

  /** The pending items keep the dict's order. */
  lemma {:induction false} PendingOrder(items: seq<Item>, loaded: Progress, skip: bool)
    ensures InOrder(Pending(items, loaded, skip), items)
  {
    if items != [] {
      var n := |items| - 1;
      var init := items[..n];
      var prev := Pending(init, loaded, skip);
      PendingOrder(init, loaded, skip);
      assert init + [items[n]] == items;
      if skip && Str(items[n].0) in loaded {
        InOrderExtend(prev, init, items[n]);
      } else {
        PendingMembers(init, loaded, skip);
        InOrderSnoc(prev, init, items[n]);
      }
    }
  }

  /** An ordered selection stays ordered when the dict grows. */
  lemma InOrderExtend(sub: seq<Item>, items: seq<Item>, x: Item)
    requires InOrder(sub, items)
    ensures InOrder(sub, items + [x])
  {
    forall a, b | 0 <= a < b < |sub|
      ensures EntriesInOrder(sub, items + [x], a, b)
    {
      assert EntriesInOrder(sub, items, a, b);
      var i, j :| 0 <= i < j < |items| && sub[a] == items[i] && sub[b] == items[j];
      assert (items + [x])[i] == items[i] && (items + [x])[j] == items[j];
    }
  }

  /** An ordered selection of the dict, followed by a new last entry, is an ordered selection of the grown dict. */
  lemma InOrderSnoc(sub: seq<Item>, items: seq<Item>, x: Item)
    requires InOrder(sub, items) && forall y :: y in sub ==> y in items
    ensures InOrder(sub + [x], items + [x])
  {
    var s, t := sub + [x], items + [x];
    forall a, b | 0 <= a < b < |s|
      ensures EntriesInOrder(s, t, a, b)
    {
      assert s[a] == sub[a] && sub[a] in sub;
      if b < |sub| {
        assert EntriesInOrder(sub, items, a, b);
        var i, j :| 0 <= i < j < |items| && sub[a] == items[i] && sub[b] == items[j];
        assert s[a] == t[i] && s[b] == t[j];
      } else {
        var i :| 0 <= i < |items| && items[i] == sub[a];
        assert s[a] == t[i] && s[b] == t[|items|];
      }
    }
  }

  /** `s` is the stamped result of some item whose task returned a dict. */
  predicate StampedFrom(items: seq<Item>, outs: seq<Outcome>, s: Record) {
    |outs| == |items| && exists i :: 0 <= i < |items| && outs[i].Returned? && s == Stamp(outs[i].record, items[i].0)
  }

  /** Every saved record is the stamped result of a returned item, and every returned item's record is saved. */
  lemma {:induction false} StampsFrom(items: seq<Item>, outs: seq<Outcome>)
    requires |outs| == |items|
    ensures forall j :: 0 <= j < |Stamps(items, outs)| ==> StampedFrom(items, outs, Stamps(items, outs)[j])
    ensures forall i :: 0 <= i < |items| && outs[i].Returned? ==> Stamp(outs[i].record, items[i].0) in Stamps(items, outs)
  {
    if items != [] {
      var n := |items| - 1;
      var prev := Stamps(items[..n], outs[..n]);
      StampsFrom(items[..n], outs[..n]);
      assert forall i :: 0 <= i < n ==> items[..n][i] == items[i] && outs[..n][i] == outs[i];
      var r := Stamps(items, outs);
      forall j | 0 <= j < |r|
        ensures StampedFrom(items, outs, r[j])
      {
        if j < |prev| {
          assert r[j] == prev[j];
          assert StampedFrom(items[..n], outs[..n], prev[j]);
          var i :| 0 <= i < n && outs[..n][i].Returned? && prev[j] == Stamp(outs[..n][i].record, items[..n][i].0);
          assert outs[i].Returned? && r[j] == Stamp(outs[i].record, items[i].0);
        } else {
          assert outs[n].Returned? && r[j] == Stamp(outs[n].record, items[n].0);
        }
      }
    }
  }

  /** Each saved record is filed under the name of an item that returned one. */
  lemma StampNames(items: seq<Item>, outs: seq<Outcome>, j: nat)
    requires |outs| == |items| && j < |Stamps(items, outs)|
    ensures exists i :: 0 <= i < |items| && outs[i].Returned? && LineKey(Stamps(items, outs)[j]) == Str(items[i].0)
  {
    StampsFrom(items, outs);
    assert StampedFrom(items, outs, Stamps(items, outs)[j]);
    var i :| 0 <= i < |items| && outs[i].Returned? && Stamps(items, outs)[j] == Stamp(outs[i].record, items[i].0);
    assert LineKey(Stamps(items, outs)[j]) == Str(items[i].0);
  }

  /** An item fails exactly when its task gave no record; failures keep distinct names. */
  lemma FailuresMembers(items: seq<Item>, outs: seq<Outcome>)
    requires |outs| == |items|
    ensures forall x :: x in Failures(items, outs) ==> x in items
    ensures forall i :: 0 <= i < |items| && !outs[i].Returned? ==> items[i] in Failures(items, outs)
    ensures DistinctKeys(items) ==>
              DistinctKeys(Failures(items, outs)) &&
              forall i :: 0 <= i < |items| ==> (items[i] in Failures(items, outs) <==> !outs[i].Returned?)
  {
    FailuresFrom(items, outs);
    if DistinctKeys(items) {
      FailuresDistinct(items, outs);
      forall i | 0 <= i < |items| && items[i] in Failures(items, outs)
        ensures !outs[i].Returned?
      {
        var i' :| 0 <= i' < |items| && items[i'] == items[i] && !outs[i'].Returned?;
        assert items[i'].0 == items[i].0;
      }
    }
  }

  /** Each failure is an item whose task gave no record, and each such item is a failure. */
  lemma {:induction false} FailuresFrom(items: seq<Item>, outs: seq<Outcome>)
    requires |outs| == |items|
    ensures forall x :: x in Failures(items, outs) ==> exists i :: 0 <= i < |items| && items[i] == x && !outs[i].Returned?
    ensures forall i :: 0 <= i < |items| && !outs[i].Returned? ==> items[i] in Failures(items, outs)
  {
    if items != [] {
      var n := |items| - 1;
      FailuresFrom(items[..n], outs[..n]);
      assert forall i :: 0 <= i < n ==> items[..n][i] == items[i] && outs[..n][i] == outs[i];
    }
  }

  /** Failures of distinct names keep distinct names. */
  lemma {:induction false} FailuresDistinct(items: seq<Item>, outs: seq<Outcome>)
    requires |outs| == |items| && DistinctKeys(items)
    ensures DistinctKeys(Failures(items, outs))
  {
    if items != [] {
      var n := |items| - 1;
      var prev := Failures(items[..n], outs[..n]);
      FailuresDistinct(items[..n], outs[..n]);
      FailuresFrom(items[..n], outs[..n]);
      if !outs[n].Returned? {
        forall k | 0 <= k < |prev|
          ensures prev[k].0 != items[n].0
        {
          assert prev[k] in prev;
          var i :| 0 <= i < n && items[..n][i] == prev[k] && !outs[..n][i].Returned?;
          assert items[i] == prev[k];
        }
      }
    }
  }

  /** A name saved in a pass never also fails in it. */
  lemma SavedNotFailed(items: seq<Item>, outs: seq<Outcome>, x: Item, j: nat)
    requires |outs| == |items| && DistinctKeys(items)
    requires x in Failures(items, outs) && j < |Stamps(items, outs)|
    ensures LineKey(Stamps(items, outs)[j]) != Str(x.0)
  {
    StampsFrom(items, outs);
    FailuresMembers(items, outs);
    assert StampedFrom(items, outs, Stamps(items, outs)[j]);
    var i :| 0 <= i < |items| && outs[i].Returned? && Stamps(items, outs)[j] == Stamp(outs[i].record, items[i].0);
    var k :| 0 <= k < |items| && items[k] == x;
    assert !outs[k].Returned?;
  }

  lemma StampsSnoc(items: seq<Item>, outs: seq<Outcome>, x: Item, o: Outcome)
    requires |outs| == |items|
    ensures Stamps(items + [x], outs + [o]) ==
            Stamps(items, outs) + (if o.Returned? then [Stamp(o.record, x.0)] else [])
  {
    assert (items + [x])[..|items|] == items;
    assert (outs + [o])[..|outs|] == outs;
  }

  lemma FailuresSnoc(items: seq<Item>, outs: seq<Outcome>, x: Item, o: Outcome)
    requires |outs| == |items|
    ensures Failures(items + [x], outs + [o]) == Failures(items, outs) + (if o.Returned? then [] else [x])
  {
    assert (items + [x])[..|items|] == items;
    assert (outs + [o])[..|outs|] == outs;
  }

  lemma PendingStep(items: seq<Item>, i: nat, loaded: Progress, skip: bool)
    requires i < |items|
    ensures Pending(items[..i + 1], loaded, skip) ==
            Pending(items[..i], loaded, skip) + (if skip && Str(items[i].0) in loaded then [] else [items[i]])
  {
    assert items[..i + 1][..i] == items[..i];
  }

  lemma MergeSnoc(m: Progress, saved: seq<Record>, s: Record)
    ensures Merge(m, saved + [s]) == Merge(m, saved)[LineKey(s) := s]
  {
    assert (saved + [s])[..|saved|] == saved;
  }

  /** No name saved in a pass is empty-keyed or unhashable: the saved lines replay without error. */
  lemma StampsReplay(items: seq<Item>, outs: seq<Outcome>, m: Progress)
    requires |outs| == |items|
    ensures ReplayFrom(m, Stamps(items, outs)).Success?
  {
    var saved := Stamps(items, outs);
    forall j | 0 <= j < |saved|
      ensures !Truthy(LineKey(saved[j])) || Hashable(LineKey(saved[j]))
    {
      StampNames(items, outs, j);
    }
    ReplaySucceeds(m, saved);
  }

  // ---------------------------------------------------------------------------
  // robust_task

  /** The ledger's lines afterwards, the dict returned (or the load error raised), and the names the task was called on. */
  datatype SyncRun = SyncRun(lines: seq<Record>, result: Result<Progress, LoadError>, invoked: seq<string>)

  /** What `robust_task(objs, task, skip_existing=skip)` does to a ledger holding `lines`. */
  function SyncSpec(lines: seq<Record>, objs: Objs, task: string -> Outcome, skip: bool): SyncRun {
    match Replay(lines)
    case Failure(e) => SyncRun(lines, Failure(e), [])
    case Success(loaded) =>
      var p := Pending(ToEntries(objs), loaded, skip);
      var saved := Stamps(p, SyncOutcomes(p, task));
      SyncRun(lines + saved, Success(Merge(loaded, saved)), KeysOf(p))
  }

  /**
   * `robust_task`: load the ledger, then for each name in dict order, unless
   * `skip` and the name is already in `progress`, call the task; a returned
   * dict is stamped, appended and merged, anything else is skipped.
   */
  method RobustTask(ledger: Ledger, objs: Objs, task: string -> Outcome, skip: bool)
    returns (r: Result<Progress, LoadError>, invoked: seq<string>)
    requires ledger.Valid()
    modifies ledger
    ensures ledger.Valid()
    ensures var run := SyncSpec(old(ledger.lines), objs, task, skip);
            ledger.lines == run.lines && r == run.result && invoked == run.invoked
  {
    var loaded := ledger.Load();
    if loaded.Failure? {
      r, invoked := Failure(loaded.error), [];
      return;
    }
    var progress;
    progress, invoked := SyncPass(ledger, ToEntries(objs), loaded.value, task, skip);
    r := Success(progress);
  }

  /**
   * The loop of `robust_task` over the items in dict order, from the loaded
   * dict `start`: the pending items are tried in order, and each dict
   * returned is stamped, appended and merged.
   */
  method SyncPass(ledger: Ledger, items: Entries, start: Progress, task: string -> Outcome, skip: bool)
    returns (progress: Progress, invoked: seq<string>)
    requires ledger.Valid()
    modifies ledger
    ensures ledger.Valid()
    ensures var p := Pending(items, start, skip);
            var saved := Stamps(p, SyncOutcomes(p, task));
            ledger.lines == old(ledger.lines) + saved && progress == Merge(start, saved) && invoked == KeysOf(p)
  {
    progress := start;
    ghost var lines0 := ledger.lines;
    ghost var p: seq<Item> := [];
    ghost var saved: seq<Record> := [];
    invoked := [];
    var i := 0;
    assert items[..0] == [];
    while i < |items|
      invariant 0 <= i <= |items|
      invariant ledger.Valid()
      invariant p == Pending(items[..i], start, skip)
      invariant saved == Stamps(p, SyncOutcomes(p, task))
      invariant invoked == KeysOf(p)
      invariant ledger.lines == lines0 + saved
      invariant progress == Merge(start, saved)
    {
      var name := items[i].0;
      SyncStep(items, i, start, skip, task);
      if !(skip && Str(name) in progress) {
        var out := task(items[i].1);
        p := p + [items[i]];
        invoked := invoked + [name];
        if out.Returned? {
          var stamped := ledger.Save(name, out.record);
          AppendAssoc(lines0, saved, [stamped]);
          MergeSnoc(start, saved, stamped);
          saved := saved + [stamped];
          progress := progress[Str(name) := stamped];
        }
      }
      i := i + 1;
    }
    assert items[..i] == items;
  }

  /** One turn of the loop: how the pending items, the saved records and the names tried grow. */
  lemma SyncStep(items: Entries, i: nat, start: Progress, skip: bool, task: string -> Outcome)
    requires i < |items|
    ensures var p := Pending(items[..i], start, skip);
            var saved := Stamps(p, SyncOutcomes(p, task));
            var p' := Pending(items[..i + 1], start, skip);
            var x := items[i];
            var out := task(x.1);
            && (Str(x.0) in Merge(start, saved) <==> Str(x.0) in start)
            && (skip && Str(x.0) in start ==> p' == p)
            && (!(skip && Str(x.0) in start) ==>
                  && p' == p + [x]
                  && KeysOf(p') == KeysOf(p) + [x.0]
                  && Stamps(p', SyncOutcomes(p', task)) == saved + (if out.Returned? then [Stamp(out.record, x.0)] else []))
  {
    var p := Pending(items[..i], start, skip);
    var x := items[i];
    PendingStep(items, i, start, skip);
    NotYetMerged(items, i, start, skip, task);
    StampsSnoc(p, SyncOutcomes(p, task), x, task(x.1));
    assert SyncOutcomes(p + [x], task) == SyncOutcomes(p, task) + [task(x.1)];
    assert KeysOf(p + [x]) == KeysOf(p) + [x.0];
  }

  /** The item about to be tried has not been merged yet: its name is in `progress` only if it was loaded. */
  lemma NotYetMerged(items: Entries, i: nat, loaded: Progress, skip: bool, task: string -> Outcome)
    requires i < |items|
    ensures var p := Pending(items[..i], loaded, skip);
            Str(items[i].0) in Merge(loaded, Stamps(p, SyncOutcomes(p, task))) <==> Str(items[i].0) in loaded
  {
    var p := Pending(items[..i], loaded, skip);
    var outs := SyncOutcomes(p, task);
    var saved := Stamps(p, outs);
    var name := items[i].0;
    MergeKeys(loaded, saved, Str(name));
    PendingMembers(items[..i], loaded, skip);
    forall j | 0 <= j < |saved|
      ensures LineKey(saved[j]) != Str(name)
    {
      StampNames(p, outs, j);
      var k :| 0 <= k < |p| && LineKey(saved[j]) == Str(p[k].0);
      assert p[k] in items[..i];
    }
  }

  // ---------------------------------------------------------------------------
  // Properties of robust_task

  /** Skipped or not, the items a pass leaves alone are exactly those a skip excludes. */
  lemma PendingAll(items: seq<Item>, loaded: Progress, skip: bool)
    requires forall x :: x in items ==> !(skip && Str(x.0) in loaded)
    ensures Pending(items, loaded, skip) == items
  {
    if items != [] {
      var init := items[..|items| - 1];
      assert forall x :: x in init ==> x in items;
      PendingAll(init, loaded, skip);
      assert init + [items[|items| - 1]] == items;
    }
  }

  /** In a dict, an entry is determined by its name. */
  lemma SameKeySameItem(items: seq<Item>, a: Item, b: Item)
    requires DistinctKeys(items) && a in items && b in items && a.0 == b.0
    ensures a == b
  {
    var k :| 0 <= k < |items| && items[k] == a;
    var k' :| 0 <= k' < |items| && items[k'] == b;
  }

  /**
   * With `skip_existing`, the task is never called on a name already in the
   * ledger; every other name is tried exactly once, in dict order.
   */
  lemma SyncInvocations(lines: seq<Record>, objs: Objs, task: string -> Outcome, skip: bool)
    requires Replay(lines).Success?
    ensures var loaded := Replay(lines).value;
            var invoked := SyncSpec(lines, objs, task, skip).invoked;
            && (forall x :: x in ToEntries(objs) ==> (x.0 in invoked <==> !(skip && Str(x.0) in loaded)))
            && (forall i, j :: 0 <= i < j < |invoked| ==> invoked[i] != invoked[j])
            && NamesInOrder(invoked, ToEntries(objs))
  {
    var loaded := Replay(lines).value;
    var items := ToEntries(objs);
    var p := Pending(items, loaded, skip);
    assert SyncSpec(lines, objs, task, skip).invoked == KeysOf(p);
    PendingNames(items, loaded, skip);
    PendingOrder(items, loaded, skip);
    KeysInOrder(p, items);
  }

  /** The names of the pending items: each name once, and every name a skip does not exclude. */
  lemma PendingNames(items: Entries, loaded: Progress, skip: bool)
    ensures var names := KeysOf(Pending(items, loaded, skip));
            && (forall x :: x in items ==> (x.0 in names <==> !(skip && Str(x.0) in loaded)))
            && (forall i, j :: 0 <= i < j < |names| ==> names[i] != names[j])
  {
    var p := Pending(items, loaded, skip);
    PendingMembers(items, loaded, skip);
    forall x | x in items
      ensures x.0 in KeysOf(p) <==> !(skip && Str(x.0) in loaded)
    {
      if x.0 in KeysOf(p) {
        var i :| 0 <= i < |p| && KeysOf(p)[i] == x.0;
        SameKeySameItem(items, p[i], x);
      }
      if x in p {
        var i :| 0 <= i < |p| && p[i] == x;
        assert KeysOf(p)[i] == x.0;
      }
    }
  }

  /**
   * The dict `robust_task` returns is the loaded ledger plus every success:
   * each tried name whose task returned a dict maps to that dict, stamped.
   */
  lemma SyncSuccessMerged(lines: seq<Record>, objs: Objs, task: string -> Outcome, skip: bool, x: Item)
    requires Replay(lines).Success?
    requires x in Pending(ToEntries(objs), Replay(lines).value, skip) && task(x.1).Returned?
    ensures var run := SyncSpec(lines, objs, task, skip);
            && run.result.Success? && Str(x.0) in run.result.value
            && run.result.value[Str(x.0)] == Stamp(task(x.1).record, x.0)
  {
    var loaded := Replay(lines).value;
    var items := ToEntries(objs);
    var p := Pending(items, loaded, skip);
    var outs := SyncOutcomes(p, task);
    PendingMembers(items, loaded, skip);
    var k :| 0 <= k < |p| && p[k] == x;
    assert outs[k] == task(x.1);
    SuccessSaved(p, outs, loaded, k);
  }

  /** The stamp of a returned item in a pass over distinct names is what the merge holds under its name. */
  lemma SuccessSaved(items: seq<Item>, outs: seq<Outcome>, m: Progress, k: nat)
    requires |outs| == |items| && DistinctKeys(items) && k < |items| && outs[k].Returned?
    ensures Str(items[k].0) in Merge(m, Stamps(items, outs))
    ensures Merge(m, Stamps(items, outs))[Str(items[k].0)] == Stamp(outs[k].record, items[k].0)
  {
    var saved := Stamps(items, outs);
    StampsFrom(items, outs);
    var j :| 0 <= j < |saved| && saved[j] == Stamp(outs[k].record, items[k].0);
    LastStampWins(items, outs, m, j);
  }

  /**
   * A tried name whose task raised or returned None gets no new line, and is
   * in the returned dict only if it was already loaded.
   */
  lemma SyncFailureContained(lines: seq<Record>, objs: Objs, task: string -> Outcome, skip: bool, x: Item)
    requires Replay(lines).Success?
    requires x in Pending(ToEntries(objs), Replay(lines).value, skip) && !task(x.1).Returned?
    ensures var run := SyncSpec(lines, objs, task, skip);
            && run.result.Success?
            && (forall j :: |lines| <= j < |run.lines| ==> LineKey(run.lines[j]) != Str(x.0))
            && (Str(x.0) in run.result.value <==> Str(x.0) in Replay(lines).value)
  {
    var loaded := Replay(lines).value;
    var items := ToEntries(objs);
    var p := Pending(items, loaded, skip);
    var outs := SyncOutcomes(p, task);
    PendingMembers(items, loaded, skip);
    var k :| 0 <= k < |p| && p[k] == x;
    assert !outs[k].Returned?;
    FailuresMembers(p, outs);
    FailureUnsaved(p, outs, loaded, x);
    SyncSpecParts(lines, objs, task, skip);
  }

  /** Past the loaded lines, `robust_task` appends exactly the stamps of its pass, and returns their merge. */
  lemma SyncSpecParts(lines: seq<Record>, objs: Objs, task: string -> Outcome, skip: bool)
    requires Replay(lines).Success?
    ensures var loaded := Replay(lines).value;
            var p := Pending(ToEntries(objs), loaded, skip);
            var saved := Stamps(p, SyncOutcomes(p, task));
            var run := SyncSpec(lines, objs, task, skip);
            && run.result == Success(Merge(loaded, saved))
            && |run.lines| == |lines| + |saved|
            && forall j :: |lines| <= j < |run.lines| ==> run.lines[j] == saved[j - |lines|]
  {
  }

  /** A failed item has no saved line, so the merge keeps its name only if it was loaded. */
  lemma FailureUnsaved(items: seq<Item>, outs: seq<Outcome>, loaded: Progress, x: Item)
    requires |outs| == |items| && DistinctKeys(items) && x in Failures(items, outs)
    ensures forall j :: 0 <= j < |Stamps(items, outs)| ==> LineKey(Stamps(items, outs)[j]) != Str(x.0)
    ensures Str(x.0) in Merge(loaded, Stamps(items, outs)) <==> Str(x.0) in loaded
  {
    var saved := Stamps(items, outs);
    forall j | 0 <= j < |saved|
      ensures LineKey(saved[j]) != Str(x.0)
    {
      SavedNotFailed(items, outs, x, j);
    }
    MergeKeys(loaded, saved, Str(x.0));
  }

  /** In a pass over distinct names, a saved record is the last one filed under its name, so the merge holds it. */
  lemma LastStampWins(items: seq<Item>, outs: seq<Outcome>, m: Progress, j: nat)
    requires |outs| == |items| && DistinctKeys(items) && j < |Stamps(items, outs)|
    ensures var saved := Stamps(items, outs);
            LineKey(saved[j]) in Merge(m, saved) && Merge(m, saved)[LineKey(saved[j])] == saved[j]
  {
    var saved := Stamps(items, outs);
    forall j' | j < j' < |saved|
      ensures LineKey(saved[j']) != LineKey(saved[j])
    {
      StampsOrdered(items, outs, j, j');
    }
    MergeLast(m, saved, j);
  }

  /** Stamps of distinct names carry distinct keys. */
  lemma {:induction false} StampsOrdered(items: seq<Item>, outs: seq<Outcome>, j: nat, j': nat)
    requires |outs| == |items| && DistinctKeys(items) && j < j' < |Stamps(items, outs)|
    ensures LineKey(Stamps(items, outs)[j]) != LineKey(Stamps(items, outs)[j'])
  {
    var n := |items| - 1;
    var prev := Stamps(items[..n], outs[..n]);
    assert forall i :: 0 <= i < n ==> items[..n][i] == items[i];
    if j' < |prev| {
      StampsOrdered(items[..n], outs[..n], j, j');
    } else {
      StampNames(items[..n], outs[..n], j);
      var i :| 0 <= i < n && outs[..n][i].Returned? && LineKey(prev[j]) == Str(items[..n][i].0);
    }
  }

  /** A record that no later record re-files is what the merge holds under its key. */
  lemma {:induction false} MergeLast(m: Progress, saved: seq<Record>, j: nat)
    requires j < |saved|
    requires forall j' :: j < j' < |saved| ==> LineKey(saved[j']) != LineKey(saved[j])
    ensures LineKey(saved[j]) in Merge(m, saved) && Merge(m, saved)[LineKey(saved[j])] == saved[j]
  {
    var n := |saved| - 1;
    if j < n {
      var init := saved[..n];
      assert forall j' :: j < j' < n ==> init[j'] == saved[j'];
      MergeLast(m, init, j);
      assert init[j] == saved[j];
    }
  }

  /**
   * Reloading the ledger after `robust_task` gives back the dict it returned,
   * as long as no tried name whose task returned a dict is the empty string.
   */
  lemma SyncReload(lines: seq<Record>, objs: Objs, task: string -> Outcome, skip: bool)
    requires Replay(lines).Success?
    requires forall x :: x in Pending(ToEntries(objs), Replay(lines).value, skip) && task(x.1).Returned? ==> x.0 != ""
    ensures var run := SyncSpec(lines, objs, task, skip);
            Replay(run.lines) == run.result
  {
    var loaded := Replay(lines).value;
    var p := Pending(ToEntries(objs), loaded, skip);
    var outs := SyncOutcomes(p, task);
    var saved := Stamps(p, outs);
    forall j | 0 <= j < |saved|
      ensures Filed(saved[j])
    {
      StampNames(p, outs, j);
    }
    ReplayConcat(map[], lines, saved);
    ReplayFiled(loaded, saved);
  }

  /**
   * A name that is the empty string is kept in the returned dict but is
   * falsy, so a reload drops it and a rerun with `skip_existing` calls the
   * task on it again.
   */
  lemma EmptyNameRetried(lines: seq<Record>, objs: Objs, task: string -> Outcome, v: string)
    requires Replay(lines).Success?
    requires ("", v) in Pending(ToEntries(objs), Replay(lines).value, true) && task(v).Returned?
    ensures var run := SyncSpec(lines, objs, task, true);
            && run.result.Success? && Str("") in run.result.value
            && Replay(run.lines).Success?
            && "" in SyncSpec(run.lines, objs, task, true).invoked
  {
    var loaded := Replay(lines).value;
    var p := Pending(ToEntries(objs), loaded, true);
    var saved := Stamps(p, SyncOutcomes(p, task));
    SyncSuccessMerged(lines, objs, task, true, ("", v));
    StampsReplay(p, SyncOutcomes(p, task), loaded);
    ReplayConcat(map[], lines, saved);
    var after := lines + saved;
    ReplayLastWriteWins(after, Str(""));
    PendingMembers(ToEntries(objs), loaded, true);
    PendingMembers(ToEntries(objs), Replay(after).value, true);
    SyncInvocations(after, objs, task, true);
  }

  /**
   * Rerunning `robust_task` with `skip_existing` on the ledger the first run
   * left tries exactly the items whose task failed the first time (names
   * assumed non-empty, as `SyncReload` needs).
   */
  lemma SyncRerunTriesFailures(lines: seq<Record>, objs: Objs, task: string -> Outcome)
    requires Replay(lines).Success?
    requires forall x :: x in ToEntries(objs) ==> x.0 != ""
    ensures var loaded := Replay(lines).value;
            var p := Pending(ToEntries(objs), loaded, true);
            var run := SyncSpec(lines, objs, task, true);
            forall x :: x in Pending(ToEntries(objs), run.result.value, true) <==> x in Failures(p, SyncOutcomes(p, task))
  {
    var items := ToEntries(objs);
    var loaded := Replay(lines).value;
    var p := Pending(items, loaded, true);
    var outs := SyncOutcomes(p, task);
    var saved := Stamps(p, outs);
    var after := Merge(loaded, saved);
    PendingMembers(items, loaded, true);
    PendingMembers(items, after, true);
    FailuresMembers(p, outs);
    StampsFrom(p, outs);
    forall x | x in items
      ensures !(Str(x.0) in after) <==> x in Failures(p, outs)
    {
      MergeKeys(loaded, saved, Str(x.0));
      if x in Failures(p, outs) {
        forall j | 0 <= j < |saved|
          ensures LineKey(saved[j]) != Str(x.0)
        {
          SavedNotFailed(p, outs, x, j);
        }
      } else if x in p {
        var i :| 0 <= i < |p| && p[i] == x;
        assert outs[i].Returned?;
        assert Stamp(outs[i].record, x.0) in saved;
        var j :| 0 <= j < |saved| && saved[j] == Stamp(outs[i].record, x.0);
        assert LineKey(saved[j]) == Str(x.0);
      }
    }
  }

  // ---------------------------------------------------------------------------
  // async_robust_task

  /** One call `wait_for(task(objs[name]), timeout)`: the name and the timeout it ran under. */
  type Call = (string, nat)

  /** What `process(name)` hands back: a dict, or `None` for a timeout, an exception or a `None` result. */
  function Settle(a: AsyncOutcome): Outcome {
    if a.Finished? && a.outcome.Returned? then a.outcome else ReturnedNone
  }

  /** The settled outcomes of a pass over `items` under `timeout`. */
  function AsyncOutcomes(items: seq<Item>, task: (string, nat) -> AsyncOutcome, timeout: nat): seq<Outcome> {
    seq(|items|, i requires 0 <= i < |items| => Settle(task(items[i].1, timeout)))
  }

  /** The calls of a pass over `items` under `timeout`, in order. */
  function CallsOf(items: seq<Item>, timeout: nat): seq<Call> {
    seq(|items|, i requires 0 <= i < |items| => (items[i].0, timeout))
  }

  /** The ledger's lines afterwards, the dict returned (or the load error raised), and the calls made. */
  datatype AsyncRun = AsyncRun(lines: seq<Record>, result: Result<Progress, LoadError>, calls: seq<Call>)

  /**
   * What `async_robust_task(objs, task, skip_existing=skip, timeout=timeout,
   * retry_errs=retryErrs)` does to a ledger holding `lines`. The batches are
   * consecutive chunks of the pending items, so a pass saves, merges and
   * collects failures exactly as one pass over the pending items in order
   * does. When failures remain and `retryErrs` holds, the failures are run
   * again, as a dict, with twice the timeout and no further retry, and the
   * ledger is reloaded.
   */
  function AsyncSpec(lines: seq<Record>, objs: Objs, task: (string, nat) -> AsyncOutcome, skip: bool,
                     timeout: nat, retryErrs: bool): AsyncRun
    decreases if retryErrs then 1 else 0
  {
    match Replay(lines)
    case Failure(e) => AsyncRun(lines, Failure(e), [])
    case Success(loaded) =>
      var items := ToEntries(objs);
      var p := Pending(items, loaded, skip);
      var outs := AsyncOutcomes(p, task, timeout);
      var saved := Stamps(p, outs);
      var errs := Failures(p, outs);
      if errs != [] && retryErrs then
        PendingMembers(items, loaded, skip);
        FailuresMembers(p, outs);
        var retry := AsyncSpec(lines + saved, DictOf(errs), task, skip, timeout * 2, false);
        var reloaded := if retry.result.Failure? then retry.result else Replay(retry.lines);
        AsyncRun(retry.lines, reloaded, CallsOf(p, timeout) + retry.calls)
      else
        AsyncRun(lines + saved, Success(Merge(loaded, saved)), CallsOf(p, timeout))
  }

  /**
   * `async_robust_task`: load the ledger, run one pass over the pending
   * names; then, if there are failures and `retryErrs`, run once more over
   * `errs` with twice the timeout and `retryErrs` off, and reload the ledger.
   */
  method AsyncRobustTask(ledger: Ledger, objs: Objs, task: (string, nat) -> AsyncOutcome, skip: bool,
                         batchSize: nat, timeout: nat, retryErrs: bool)
    returns (r: Result<Progress, LoadError>, calls: seq<Call>)
    requires ledger.Valid() && batchSize > 0
    modifies ledger
    ensures ledger.Valid()
    ensures var run := AsyncSpec(old(ledger.lines), objs, task, skip, timeout, retryErrs);
            ledger.lines == run.lines && r == run.result && calls == run.calls
    decreases if retryErrs then 1 else 0
  {
    var loaded := ledger.Load();
    if loaded.Failure? {
      r, calls := Failure(loaded.error), [];
      return;
    }
    var items := ToEntries(objs);
    var names := Pending(items, loaded.value, skip);
    var progress, errs;
    progress, errs, calls := RunPass(ledger, names, task, batchSize, timeout, loaded.value);
    if |errs| > 0 && retryErrs {
      PendingMembers(items, loaded.value, skip);
      FailuresMembers(names, AsyncOutcomes(names, task, timeout));
      var retried, more := AsyncRobustTask(ledger, DictOf(errs), task, skip, batchSize, timeout * 2, false);
      calls := calls + more;
      if retried.Failure? {
        r := retried;
      } else {
        r := ledger.Load();
      }
    } else {
      r := Success(progress);
    }
  }

  /**
   * The `for batch in gen_batches(names, batch_size)` loop: every batch is
   * run in turn, so the pass saves, merges and fails as one run over `names`.
   */
  method RunPass(ledger: Ledger, names: seq<Item>, task: (string, nat) -> AsyncOutcome, batchSize: nat,
                 timeout: nat, loaded: Progress)
    returns (progress: Progress, errs: seq<Item>, calls: seq<Call>)
    requires ledger.Valid() && batchSize > 0
    modifies ledger
    ensures ledger.Valid()
    ensures var outs := AsyncOutcomes(names, task, timeout);
            && ledger.lines == old(ledger.lines) + Stamps(names, outs)
            && progress == Merge(loaded, Stamps(names, outs))
            && errs == Failures(names, outs)
            && calls == CallsOf(names, timeout)
  {
    var batches := GenBatches(names, batchSize);
    progress, errs, calls := loaded, [], [];
    ghost var lines0 := ledger.lines;
    ghost var done: seq<Item> := [];
    var bi := 0;
    while bi < |batches|
      invariant 0 <= bi <= |batches|
      invariant ledger.Valid()
      invariant done == Flatten(batches[..bi])
      invariant ledger.lines == lines0 + Stamps(done, AsyncOutcomes(done, task, timeout))
      invariant progress == Merge(loaded, Stamps(done, AsyncOutcomes(done, task, timeout)))
      invariant errs == Failures(done, AsyncOutcomes(done, task, timeout))
      invariant calls == CallsOf(done, timeout)
    {
      var batch := batches[bi];
      FlattenStep(batches, bi);
      PassConcat(done, batch, task, timeout, loaded);
      ghost var before := ledger.lines;
      var batchErrs, batchCalls;
      progress, batchErrs, batchCalls := RunBatch(ledger, batch, task, timeout, progress);
      AppendAssoc(lines0, Stamps(done, AsyncOutcomes(done, task, timeout)), Stamps(batch, AsyncOutcomes(batch, task, timeout)));
      errs := errs + batchErrs;
      calls := calls + batchCalls;
      done := done + batch;
      bi := bi + 1;
    }
    assert batches[..bi] == batches;
  }

  lemma AppendAssoc<T>(a: seq<T>, b: seq<T>, c: seq<T>)
    ensures (a + b) + c == a + (b + c)
  {
  }

  /**
   * `execute_all` on one batch: the calls, then the results in batch order,
   * a dict stamped, appended and merged, anything else added to `errs`.
   */
  method RunBatch(ledger: Ledger, batch: seq<Item>, task: (string, nat) -> AsyncOutcome, timeout: nat,
                  progress0: Progress)
    returns (progress: Progress, errs: seq<Item>, calls: seq<Call>)
    requires ledger.Valid()
    modifies ledger
    ensures ledger.Valid()
    ensures var outs := AsyncOutcomes(batch, task, timeout);
            && ledger.lines == old(ledger.lines) + Stamps(batch, outs)
            && progress == Merge(progress0, Stamps(batch, outs))
            && errs == Failures(batch, outs)
            && calls == CallsOf(batch, timeout)
  {
    progress, errs, calls := progress0, [], [];
    ghost var lines0 := ledger.lines;
    ghost var saved: seq<Record> := [];
    var j := 0;
    while j < |batch|
      invariant 0 <= j <= |batch|
      invariant ledger.Valid()
      invariant saved == Stamps(batch[..j], AsyncOutcomes(batch[..j], task, timeout))
      invariant errs == Failures(batch[..j], AsyncOutcomes(batch[..j], task, timeout))
      invariant calls == CallsOf(batch[..j], timeout)
      invariant ledger.lines == lines0 + saved
      invariant progress == Merge(progress0, saved)
    {
      var name := batch[j].0;
      var value := Settle(task(batch[j].1, timeout));
      AsyncStepAt(batch, j, task, timeout);
      calls := calls + [(name, timeout)];
      if value.Returned? {
        var stamped := ledger.Save(name, value.record);
        AppendAssoc(lines0, saved, [stamped]);
        MergeSnoc(progress0, saved, stamped);
        saved := saved + [stamped];
        progress := progress[Str(name) := stamped];
      } else {
        errs := errs + [batch[j]];
      }
      j := j + 1;
    }
    assert batch[..j] == batch;
  }

  lemma FlattenStep(batches: seq<seq<Item>>, bi: nat)
    requires bi < |batches|
    ensures Flatten(batches[..bi + 1]) == Flatten(batches[..bi]) + batches[bi]
  {
    assert batches[..bi + 1][..bi] == batches[..bi];
  }

  /** A pass over `a + b` is a pass over `a` followed by a pass over `b`. */
  lemma PassConcat(a: seq<Item>, b: seq<Item>, task: (string, nat) -> AsyncOutcome, timeout: nat, m: Progress)
    ensures Stamps(a + b, AsyncOutcomes(a + b, task, timeout)) ==
            Stamps(a, AsyncOutcomes(a, task, timeout)) + Stamps(b, AsyncOutcomes(b, task, timeout))
    ensures Merge(m, Stamps(a + b, AsyncOutcomes(a + b, task, timeout))) ==
            Merge(Merge(m, Stamps(a, AsyncOutcomes(a, task, timeout))), Stamps(b, AsyncOutcomes(b, task, timeout)))
    ensures Failures(a + b, AsyncOutcomes(a + b, task, timeout)) ==
            Failures(a, AsyncOutcomes(a, task, timeout)) + Failures(b, AsyncOutcomes(b, task, timeout))
    ensures CallsOf(a + b, timeout) == CallsOf(a, timeout) + CallsOf(b, timeout)
  {
    var oa := AsyncOutcomes(a, task, timeout);
    var ob := AsyncOutcomes(b, task, timeout);
    OutcomesConcat(a, b, task, timeout);
    StampsConcat(a, oa, b, ob);
    FailuresConcat(a, oa, b, ob);
    MergeConcat(m, Stamps(a, oa), Stamps(b, ob));
  }

  lemma OutcomesConcat(a: seq<Item>, b: seq<Item>, task: (string, nat) -> AsyncOutcome, timeout: nat)
    ensures AsyncOutcomes(a + b, task, timeout) == AsyncOutcomes(a, task, timeout) + AsyncOutcomes(b, task, timeout)
    ensures CallsOf(a + b, timeout) == CallsOf(a, timeout) + CallsOf(b, timeout)
  {
  }

  lemma {:induction false} StampsConcat(a: seq<Item>, oa: seq<Outcome>, b: seq<Item>, ob: seq<Outcome>)
    requires |oa| == |a| && |ob| == |b|
    ensures Stamps(a + b, oa + ob) == Stamps(a, oa) + Stamps(b, ob)
  {
    if b == [] {
      assert a + b == a && oa + ob == oa;
    } else {
      var n := |b| - 1;
      StampsConcat(a, oa, b[..n], ob[..n]);
      assert (a + b)[..|a| + n] == a + b[..n];
      assert (oa + ob)[..|a| + n] == oa + ob[..n];
    }
  }

  lemma {:induction false} FailuresConcat(a: seq<Item>, oa: seq<Outcome>, b: seq<Item>, ob: seq<Outcome>)
    requires |oa| == |a| && |ob| == |b|
    ensures Failures(a + b, oa + ob) == Failures(a, oa) + Failures(b, ob)
  {
    if b == [] {
      assert a + b == a && oa + ob == oa;
    } else {
      var n := |b| - 1;
      FailuresConcat(a, oa, b[..n], ob[..n]);
      assert (a + b)[..|a| + n] == a + b[..n];
      assert (oa + ob)[..|a| + n] == oa + ob[..n];
    }
  }

  lemma {:induction false} MergeConcat(m: Progress, s1: seq<Record>, s2: seq<Record>)
    ensures Merge(m, s1 + s2) == Merge(Merge(m, s1), s2)
  {
    if s2 == [] {
      assert s1 + s2 == s1;
    } else {
      var n := |s2| - 1;
      MergeConcat(m, s1, s2[..n]);
      assert (s1 + s2)[..|s1| + n] == s1 + s2[..n];
    }
  }

  /** The `j`-th call of a batch: the calls, saved records and failures each grow by that call's share. */
  lemma AsyncStepAt(batch: seq<Item>, j: nat, task: (string, nat) -> AsyncOutcome, timeout: nat)
    requires j < |batch|
    ensures CallsOf(batch[..j + 1], timeout) == CallsOf(batch[..j], timeout) + [(batch[j].0, timeout)]
    ensures var o := Settle(task(batch[j].1, timeout));
            o.Returned? ==>
              && Stamps(batch[..j + 1], AsyncOutcomes(batch[..j + 1], task, timeout)) ==
                 Stamps(batch[..j], AsyncOutcomes(batch[..j], task, timeout)) + [Stamp(o.record, batch[j].0)]
              && Failures(batch[..j + 1], AsyncOutcomes(batch[..j + 1], task, timeout)) ==
                 Failures(batch[..j], AsyncOutcomes(batch[..j], task, timeout))
    ensures var o := Settle(task(batch[j].1, timeout));
            !o.Returned? ==>
              && Stamps(batch[..j + 1], AsyncOutcomes(batch[..j + 1], task, timeout)) ==
                 Stamps(batch[..j], AsyncOutcomes(batch[..j], task, timeout))
              && Failures(batch[..j + 1], AsyncOutcomes(batch[..j + 1], task, timeout)) ==
                 Failures(batch[..j], AsyncOutcomes(batch[..j], task, timeout)) + [batch[j]]
  {
    var done := batch[..j];
    var x := batch[j];
    assert batch[..j + 1] == done + [x];
    var outs := AsyncOutcomes(done, task, timeout);
    var o := Settle(task(x.1, timeout));
    assert AsyncOutcomes(done + [x], task, timeout) == outs + [o];
    StampsSnoc(done, outs, x, o);
    FailuresSnoc(done, outs, x, o);
  }

  // ---------------------------------------------------------------------------
  // Properties of async_robust_task

  /**
   * How one pass sorts an item: a dict is saved and merged under the item's
   * name and the item is not a failure; otherwise the item is a failure, no
   * saved line carries its name, and the merge leaves its name as loaded.
   */
  lemma PassSorts(items: seq<Item>, outs: seq<Outcome>, m: Progress, k: nat)
    requires |outs| == |items| && DistinctKeys(items) && k < |items|
    ensures var saved := Stamps(items, outs);
            var x := items[k];
            var after := Merge(m, saved);
            && (outs[k].Returned? ==>
                  && Str(x.0) in after && after[Str(x.0)] == Stamp(outs[k].record, x.0)
                  && x !in Failures(items, outs))
            && (!outs[k].Returned? ==>
                  && x in Failures(items, outs)
                  && (forall j :: 0 <= j < |saved| ==> LineKey(saved[j]) != Str(x.0))
                  && (Str(x.0) in after <==> Str(x.0) in m)
                  && (Str(x.0) in m ==> after[Str(x.0)] == m[Str(x.0)]))
  {
    var saved := Stamps(items, outs);
    var x := items[k];
    FailuresMembers(items, outs);
    if outs[k].Returned? {
      StampsFrom(items, outs);
      var j :| 0 <= j < |saved| && saved[j] == Stamp(outs[k].record, x.0);
      LastStampWins(items, outs, m, j);
    } else {
      forall j | 0 <= j < |saved|
        ensures LineKey(saved[j]) != Str(x.0)
      {
        SavedNotFailed(items, outs, x, j);
      }
      MergeKeys(m, saved, Str(x.0));
    }
  }

  /**
   * In one async pass, a name whose call settled to a dict is saved and
   * merged; a timeout, an exception or `None` puts the item into `errs` and
   * writes nothing under its name.
   */
  lemma AsyncPassSorts(lines: seq<Record>, objs: Objs, task: (string, nat) -> AsyncOutcome, skip: bool,
                       timeout: nat, k: nat)
    requires Replay(lines).Success?
    requires k < |Pending(ToEntries(objs), Replay(lines).value, skip)|
    ensures var loaded := Replay(lines).value;
            var p := Pending(ToEntries(objs), loaded, skip);
            var x := p[k];
            var a := task(x.1, timeout);
            var run := AsyncSpec(lines, objs, task, skip, timeout, false);
            var errs := Failures(p, AsyncOutcomes(p, task, timeout));
            && run.result.Success?
            && (a.Finished? && a.outcome.Returned? ==>
                  && Str(x.0) in run.result.value && run.result.value[Str(x.0)] == Stamp(a.outcome.record, x.0)
                  && x !in errs)
            && (!(a.Finished? && a.outcome.Returned?) ==>
                  && x in errs
                  && (forall j :: |lines| <= j < |run.lines| ==> LineKey(run.lines[j]) != Str(x.0))
                  && (Str(x.0) in run.result.value <==> Str(x.0) in loaded))
  {
    var loaded := Replay(lines).value;
    var p := Pending(ToEntries(objs), loaded, skip);
    var outs := AsyncOutcomes(p, task, timeout);
    PendingMembers(ToEntries(objs), loaded, skip);
    PassSorts(p, outs, loaded, k);
    var run := AsyncSpec(lines, objs, task, skip, timeout, false);
    assert forall j :: |lines| <= j < |run.lines| ==> run.lines[j] == Stamps(p, outs)[j - |lines|];
  }

  /** Without `retry_errs` there is one pass: one call per pending name, under the given timeout. */
  lemma AsyncSinglePass(lines: seq<Record>, objs: Objs, task: (string, nat) -> AsyncOutcome, skip: bool, timeout: nat)
    requires Replay(lines).Success?
    ensures var p := Pending(ToEntries(objs), Replay(lines).value, skip);
            AsyncSpec(lines, objs, task, skip, timeout, false).calls == CallsOf(p, timeout)
  {
  }

  /** The names of failed items are in neither the loaded ledger (when skipping) nor the saved lines, so a reload lacks them. */
  lemma FailedNotReloaded(lines: seq<Record>, items: Entries, task: (string, nat) -> AsyncOutcome, timeout: nat, x: Item)
    requires Replay(lines).Success?
    requires var p := Pending(items, Replay(lines).value, true);
             x in Failures(p, AsyncOutcomes(p, task, timeout))
    ensures var p := Pending(items, Replay(lines).value, true);
            var after := lines + Stamps(p, AsyncOutcomes(p, task, timeout));
            Replay(after).Success? && Str(x.0) !in Replay(after).value
  {
    var loaded := Replay(lines).value;
    var p := Pending(items, loaded, true);
    var outs := AsyncOutcomes(p, task, timeout);
    var saved := Stamps(p, outs);
    var after := lines + saved;
    PendingMembers(items, loaded, true);
    FailuresMembers(p, outs);
    StampsReplay(p, outs, loaded);
    ReplayConcat(map[], lines, saved);
    ReplayLastWriteWins(lines, Str(x.0));
    ReplayLastWriteWins(after, Str(x.0));
    forall j | 0 <= j < |after|
      ensures LineKey(after[j]) != Str(x.0) || !Truthy(Str(x.0))
    {
      if j >= |lines| {
        assert after[j] == saved[j - |lines|];
        SavedNotFailed(p, outs, x, j - |lines|);
      } else {
        assert after[j] == lines[j];
      }
    }
  }

  /**
   * With `retry_errs`, when the first pass leaves failures there is exactly
   * one more pass, over exactly the failed items in order, under twice the
   * timeout; it retries nothing further, the ledger gains the stamps of
   * both passes, and the result is the ledger reloaded. When the first
   * pass leaves none, there is no second pass.
   */
  lemma AsyncRetryOnce(lines: seq<Record>, objs: Objs, task: (string, nat) -> AsyncOutcome, skip: bool, timeout: nat)
    requires Replay(lines).Success?
    ensures var loaded := Replay(lines).value;
            var p := Pending(ToEntries(objs), loaded, skip);
            var errs := Failures(p, AsyncOutcomes(p, task, timeout));
            var run := AsyncSpec(lines, objs, task, skip, timeout, true);
            && (errs == [] ==> run == AsyncSpec(lines, objs, task, skip, timeout, false))
            && (errs != [] ==>
                  && run.calls == CallsOf(p, timeout) + CallsOf(errs, timeout * 2)
                  && run.lines == lines + Stamps(p, AsyncOutcomes(p, task, timeout)) +
                                  Stamps(errs, AsyncOutcomes(errs, task, timeout * 2))
                  && run.result.Success?
                  && run.result == Replay(run.lines))
  {
    var loaded := Replay(lines).value;
    var items := ToEntries(objs);
    var p := Pending(items, loaded, skip);
    var outs := AsyncOutcomes(p, task, timeout);
    var saved := Stamps(p, outs);
    var errs := Failures(p, outs);
    if errs != [] {
      PendingMembers(items, loaded, skip);
      FailuresMembers(p, outs);
      var after := lines + saved;
      StampsReplay(p, outs, loaded);
      ReplayConcat(map[], lines, saved);
      var loaded2 := Replay(after).value;
      forall x | x in errs
        ensures !(skip && Str(x.0) in loaded2)
      {
        if skip {
          FailedNotReloaded(lines, items, task, timeout, x);
        }
      }
      RetryPass(after, errs, task, skip, timeout * 2);
      var retry := AsyncSpec(after, DictOf(errs), task, skip, timeout * 2, false);
      assert AsyncSpec(lines, objs, task, skip, timeout, true) ==
             AsyncRun(retry.lines, Replay(retry.lines), CallsOf(p, timeout) + retry.calls);
    }
  }

  /**
   * What the reload after a retry holds under a pending name that is not
   * empty: the stamp of the first pass when it settled to a dict, else the
   * stamp of the retry under twice the timeout when that settled to a dict,
   * else whatever was loaded, if anything.
   */
  lemma AsyncRetrySorts(lines: seq<Record>, objs: Objs, task: (string, nat) -> AsyncOutcome, skip: bool,
                        timeout: nat, x: Item)
    requires Replay(lines).Success?
    requires x in Pending(ToEntries(objs), Replay(lines).value, skip) && x.0 != ""
    ensures var loaded := Replay(lines).value;
            var first := Settle(task(x.1, timeout));
            var second := Settle(task(x.1, timeout * 2));
            var got := AsyncSpec(lines, objs, task, skip, timeout, true).result;
            && got.Success?
            && (first.Returned? ==>
                  Str(x.0) in got.value && got.value[Str(x.0)] == Stamp(first.record, x.0))
            && (!first.Returned? && second.Returned? ==>
                  Str(x.0) in got.value && got.value[Str(x.0)] == Stamp(second.record, x.0))
            && (!first.Returned? && !second.Returned? ==>
                  && (Str(x.0) in got.value <==> Str(x.0) in loaded)
                  && (Str(x.0) in loaded ==> got.value[Str(x.0)] == loaded[Str(x.0)]))
  {
    var loaded := Replay(lines).value;
    var items := ToEntries(objs);
    var p := Pending(items, loaded, skip);
    var outs := AsyncOutcomes(p, task, timeout);
    var saved := Stamps(p, outs);
    var errs := Failures(p, outs);
    PendingMembers(items, loaded, skip);
    FailuresMembers(p, outs);
    var i :| 0 <= i < |p| && p[i] == x;
    assert outs[i] == Settle(task(x.1, timeout));
    AsyncRetryOnce(lines, objs, task, skip, timeout);
    if errs == [] {
      AsyncPassSorts(lines, objs, task, skip, timeout, i);
    } else {
      var outs2 := AsyncOutcomes(errs, task, timeout * 2);
      var saved2 := Stamps(errs, outs2);
      var all := lines + saved + saved2;
      assert AsyncSpec(lines, objs, task, skip, timeout, true).result == Replay(all);
      if outs[i].Returned? {
        RetryKeepsFirst(lines, p, outs, outs2, i);
      } else {
        var i2 :| 0 <= i2 < |errs| && errs[i2] == x;
        assert outs2[i2] == Settle(task(x.1, timeout * 2));
        if outs2[i2].Returned? {
          RetryFilesSecond(lines, p, outs, outs2, i2);
        } else {
          RetryLeavesLoaded(lines, p, outs, outs2, i2);
        }
      }
    }
  }

  /** A first-pass success is the last line under its name: the retry covers other names only. */
  lemma RetryKeepsFirst(lines: seq<Record>, p: seq<Item>, outs: seq<Outcome>, outs2: seq<Outcome>, i: nat)
    requires |outs| == |p| && DistinctKeys(p) && |outs2| == |Failures(p, outs)|
    requires i < |p| && outs[i].Returned? && p[i].0 != ""
    requires Replay(lines + Stamps(p, outs) + Stamps(Failures(p, outs), outs2)).Success?
    ensures var got := Replay(lines + Stamps(p, outs) + Stamps(Failures(p, outs), outs2)).value;
            Str(p[i].0) in got && got[Str(p[i].0)] == Stamp(outs[i].record, p[i].0)
  {
    var j := StampOfLast(p, outs, i);
    RetryOthers(p, outs, outs2, i);
    KeepsLastThenUnfiled(lines, Stamps(p, outs), Stamps(Failures(p, outs), outs2), j, Str(p[i].0));
  }

  /** A first-pass failure that the retry settles to a dict is filed under that stamp. */
  lemma RetryFilesSecond(lines: seq<Record>, p: seq<Item>, outs: seq<Outcome>, outs2: seq<Outcome>, i2: nat)
    requires |outs| == |p| && DistinctKeys(p) && |outs2| == |Failures(p, outs)|
    requires i2 < |Failures(p, outs)| && Failures(p, outs)[i2].0 != "" && outs2[i2].Returned?
    requires Replay(lines + Stamps(p, outs) + Stamps(Failures(p, outs), outs2)).Success?
    ensures var got := Replay(lines + Stamps(p, outs) + Stamps(Failures(p, outs), outs2)).value;
            var x := Failures(p, outs)[i2];
            Str(x.0) in got && got[Str(x.0)] == Stamp(outs2[i2].record, x.0)
  {
    var errs := Failures(p, outs);
    var saved := Stamps(p, outs);
    var saved2 := Stamps(errs, outs2);
    FailuresMembers(p, outs);
    var j := StampOfLast(errs, outs2, i2);
    assert lines + saved + saved2 == (lines + saved) + saved2 + [];
    KeepsLastThenUnfiled(lines + saved, saved2, [], j, Str(errs[i2].0));
  }

  /** A first-pass failure that fails again stays as loaded: neither pass files it. */
  lemma RetryLeavesLoaded(lines: seq<Record>, p: seq<Item>, outs: seq<Outcome>, outs2: seq<Outcome>, i2: nat)
    requires |outs| == |p| && DistinctKeys(p) && |outs2| == |Failures(p, outs)|
    requires i2 < |Failures(p, outs)| && !outs2[i2].Returned?
    requires Replay(lines + Stamps(p, outs) + Stamps(Failures(p, outs), outs2)).Success?
    ensures var got := Replay(lines + Stamps(p, outs) + Stamps(Failures(p, outs), outs2));
            var k := Str(Failures(p, outs)[i2].0);
            && Replay(lines).Success?
            && (k in got.value <==> k in Replay(lines).value)
            && (k in Replay(lines).value ==> got.value[k] == Replay(lines).value[k])
  {
    var errs := Failures(p, outs);
    var saved := Stamps(p, outs);
    var saved2 := Stamps(errs, outs2);
    var x := errs[i2];
    var k := Str(x.0);
    FailuresMembers(p, outs);
    FailuresMembers(errs, outs2);
    FailureUnsaved(p, outs, map[], x);
    FailureUnsaved(errs, outs2, map[], x);
    UnfiledConcat(saved, saved2, k);
    assert lines + saved + saved2 == lines + (saved + saved2);
    ReplayConcat(map[], lines, saved + saved2);
    ReplayFromUnfiled(Replay(lines).value, saved + saved2, k);
  }

  lemma UnfiledConcat(a: seq<Record>, b: seq<Record>, k: Value)
    requires Unfiled(a, k) && Unfiled(b, k)
    ensures Unfiled(a + b, k)
  {
    forall j | 0 <= j < |a + b|
      ensures LineKey((a + b)[j]) != k
    {
      if j < |a| {
        assert (a + b)[j] == a[j];
      } else {
        assert (a + b)[j] == b[j - |a|];
      }
    }
  }

  /** Where a returned item's stamp sits among the saved records, with no later record under its name. */
  lemma StampOfLast(items: seq<Item>, outs: seq<Outcome>, i: nat) returns (j: nat)
    requires |outs| == |items| && DistinctKeys(items) && i < |items| && outs[i].Returned?
    ensures j < |Stamps(items, outs)| && Stamps(items, outs)[j] == Stamp(outs[i].record, items[i].0)
    ensures forall j' :: j < j' < |Stamps(items, outs)| ==> LineKey(Stamps(items, outs)[j']) != Str(items[i].0)
  {
    var saved := Stamps(items, outs);
    StampsFrom(items, outs);
    j :| 0 <= j < |saved| && saved[j] == Stamp(outs[i].record, items[i].0);
    forall j' | j < j' < |saved|
      ensures LineKey(saved[j']) != Str(items[i].0)
    {
      StampsOrdered(items, outs, j, j');
    }
  }

  /** The retry files nothing under the name of a first-pass success. */
  lemma RetryOthers(p: seq<Item>, outs: seq<Outcome>, outs2: seq<Outcome>, i: nat)
    requires |outs| == |p| && DistinctKeys(p) && |outs2| == |Failures(p, outs)|
    requires i < |p| && outs[i].Returned?
    ensures Unfiled(Stamps(Failures(p, outs), outs2), Str(p[i].0))
  {
    var errs := Failures(p, outs);
    var saved2 := Stamps(errs, outs2);
    FailuresMembers(p, outs);
    forall j | 0 <= j < |saved2|
      ensures LineKey(saved2[j]) != Str(p[i].0)
    {
      StampNames(errs, outs2, j);
      var i2 :| 0 <= i2 < |errs| && outs2[i2].Returned? && LineKey(saved2[j]) == Str(errs[i2].0);
      assert errs[i2] in errs && errs[i2] in p;
    }
  }

  /** The retry pass: it tries every failed item, none is skipped, and the ledger it leaves reloads. */
  lemma RetryPass(after: seq<Record>, errs: Entries, task: (string, nat) -> AsyncOutcome, skip: bool, timeout: nat)
    requires Replay(after).Success?
    requires forall x :: x in errs ==> !(skip && Str(x.0) in Replay(after).value)
    ensures var retry := AsyncSpec(after, DictOf(errs), task, skip, timeout, false);
            && retry.calls == CallsOf(errs, timeout)
            && retry.lines == after + Stamps(errs, AsyncOutcomes(errs, task, timeout))
            && retry.result.Success?
            && Replay(retry.lines).Success?
  {
    var loaded := Replay(after).value;
    PendingAll(errs, loaded, skip);
    var outs := AsyncOutcomes(errs, task, timeout);
    var saved := Stamps(errs, outs);
    StampsReplay(errs, outs, loaded);
    ReplayConcat(map[], after, saved);
  }
}
