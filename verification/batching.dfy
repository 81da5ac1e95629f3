/**
 * `gen_batches`, which squidtools/robust_task.py imports from its util module.
 * The util module shown does not define it; it is modelled as what the batch
 * runner needs of it: consecutive chunks of at most `size` items, in order.
 */
module Batching {

  /** The batches laid end to end. */
  function Flatten<T>(batches: seq<seq<T>>): seq<T> {
    if batches == [] then []
    else Flatten(batches[..|batches| - 1]) + batches[|batches| - 1]
  }

  lemma {:induction false} FlattenConcat<T>(a: seq<seq<T>>, b: seq<seq<T>>)
    ensures Flatten(a + b) == Flatten(a) + Flatten(b)
  {
    if b == [] {
      assert a + b == a;
    } else {
      var init := b[..|b| - 1];
      var last := b[|b| - 1];
      FlattenConcat(a, init);
      assert (a + b)[..|a + b| - 1] == a + init;
      assert (a + b)[|a + b| - 1] == last;
      assert Flatten(a + b) == Flatten(a + init) + last;
      assert Flatten(b) == Flatten(init) + last;
      assert Flatten(a + b) == Flatten(a) + (Flatten(init) + last);
    }
  }

  lemma FlattenOne<T>(batch: seq<T>)
    ensures Flatten([batch]) == batch
  {
    assert [batch][..0] == [];
  }

  /** `gen_batches(items, size)`: every batch is non-empty and holds at most `size` items, all but the last exactly `size`. */
  function GenBatches<T>(items: seq<T>, size: nat): (batches: seq<seq<T>>)
    requires size > 0
    ensures Flatten(batches) == items
    ensures forall i :: 0 <= i < |batches| ==> 0 < |batches[i]| <= size
    ensures forall i :: 0 <= i < |batches| - 1 ==> |batches[i]| == size
    decreases |items|
  {
    if items == [] then []
    else if |items| <= size then
      FlattenOne(items);
      [items]
    else
      var rest := GenBatches(items[size..], size);
      FlattenConcat([items[..size]], rest);
      FlattenOne(items[..size]);
      assert items[..size] + items[size..] == items;
      [items[..size]] + rest
  }
}
