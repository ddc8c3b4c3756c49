/**
 * The index arithmetic of split_train_test_val_for_ai4eps: the unique
 * (event_id, station_id) keys, once shuffled, are cut at two points into
 * train, test and validation lists, as `np.split(keys, [c1, c2])` does.
 *
 * The shuffle itself (a seeded random permutation) and the cut points
 * (`int(ratio * n)` in floating point) are inputs here.
 */
module Ai4epsSplit {
  import opened PyList

  datatype Split<K> = Split(train: seq<K>, test: seq<K>, val: seq<K>)

  /** Every key occurs once (the result of drop_duplicates). */
  predicate Unique<K(==)>(s: seq<K>) {
    forall x :: x in multiset(s) ==> multiset(s)[x] == 1
  }

  /** `np.split(shuffled, [c1, c2])`: the slices [0:c1], [c1:c2], [c2:n]
      with Python slice semantics. */
  function SplitAt<K>(shuffled: seq<K>, c1: int, c2: int): (r: Split<K>)
    ensures 0 <= c1 <= c2 ==> r.train + r.test + r.val == shuffled
  {
    Split(Slice(shuffled, 0, c1), Slice(shuffled, c1, c2), Slice(shuffled, c2, |shuffled|))
  }

  /** With ordered, non-negative cut points the three lists are
      consecutive pieces of the shuffled keys: train takes the first
      min(c1, n), test the keys up to min(c2, n), val the rest, and
      together they give back the shuffled keys in order. */
  lemma SplitConcatenates<K>(shuffled: seq<K>, c1: int, c2: int)
    requires 0 <= c1 <= c2
    ensures var n := |shuffled|;
            var a := if c1 <= n then c1 else n;
            var b := if c2 <= n then c2 else n;
            && SplitAt(shuffled, c1, c2).train == shuffled[..a]
            && SplitAt(shuffled, c1, c2).test == shuffled[a..b]
            && SplitAt(shuffled, c1, c2).val == shuffled[b..]
    ensures SplitAt(shuffled, c1, c2).train + SplitAt(shuffled, c1, c2).test
              + SplitAt(shuffled, c1, c2).val == shuffled
  {
  }

  /** Unique keys land in exactly one list: the lists are pairwise
      disjoint, and a key is in some list iff it is one of the keys. */
  lemma SplitIsPartition<K>(keys: seq<K>, shuffled: seq<K>, c1: int, c2: int)
    requires Unique(keys)
    requires multiset(shuffled) == multiset(keys)
    requires 0 <= c1 <= c2
    ensures var r := SplitAt(shuffled, c1, c2);
            multiset(r.train) + multiset(r.test) + multiset(r.val) == multiset(keys)
    ensures var r := SplitAt(shuffled, c1, c2);
            forall x :: x in keys <==> x in r.train || x in r.test || x in r.val
    ensures var r := SplitAt(shuffled, c1, c2);
            && (forall x :: x in r.train ==> x !in r.test && x !in r.val)
            && (forall x :: x in r.test ==> x !in r.val)
  {
    var r := SplitAt(shuffled, c1, c2);
    SplitConcatenates(shuffled, c1, c2);
    assert multiset(r.train) + multiset(r.test) + multiset(r.val) == multiset(shuffled) by {
      assert multiset(r.train + r.test + r.val) == multiset(shuffled);
    }
    forall x | x in r.train || x in r.test || x in r.val
      ensures x in keys
    {
      assert x in multiset(keys);
    }
    forall x | x in keys
      ensures x in r.train || x in r.test || x in r.val
    {
      assert x in multiset(keys);
    }
    forall x | x in r.train
      ensures x !in r.test && x !in r.val
    {
      assert multiset(keys)[x] == 1;
    }
    forall x | x in r.test
      ensures x !in r.val
    {
      assert multiset(keys)[x] == 1;
    }
  }

  /** The sizes follow the cut points: c1, c2 - c1 and n - c2 keys when
      0 <= c1 <= c2 <= n. */
  lemma SplitSizes<K>(shuffled: seq<K>, c1: int, c2: int)
    requires 0 <= c1 <= c2 <= |shuffled|
    ensures |SplitAt(shuffled, c1, c2).train| == c1
    ensures |SplitAt(shuffled, c1, c2).test| == c2 - c1
    ensures |SplitAt(shuffled, c1, c2).val| == |shuffled| - c2
  {
  }

  /** When the cut points cross (a negative test ratio), the test list is
      empty and the keys between the cuts go to both train and val. */
  lemma CrossedCutsDuplicate<K>(shuffled: seq<K>, c1: int, c2: int)
    requires 0 <= c2 < c1 <= |shuffled|
    ensures SplitAt(shuffled, c1, c2).test == []
    ensures |SplitAt(shuffled, c1, c2).train| + |SplitAt(shuffled, c1, c2).val| == |shuffled| + (c1 - c2)
    ensures forall k :: c2 <= k < c1 ==>
              shuffled[k] in SplitAt(shuffled, c1, c2).train && shuffled[k] in SplitAt(shuffled, c1, c2).val
  {
  }
}
