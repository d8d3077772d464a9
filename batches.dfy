/**
 * Cutting a run of results into the fixed-size groups a crawler writes as it goes
 * (twenty parsed articles at a time, a hundred address lookups at a time).
 */
module Batches {

  /** The complete groups of `size` results, in order; a trailing incomplete group is not among them. */
  function FullBatches<T>(ps: seq<T>, size: nat): seq<seq<T>>
    requires size > 0
    decreases |ps|
  {
    if |ps| < size then [] else [ps[..size]] + FullBatches(ps[size..], size)
  }

  /** What is left after the complete groups. */
  function Rest<T>(ps: seq<T>, size: nat): seq<T>
    requires size > 0
    decreases |ps|
  {
    if |ps| < size then ps else Rest(ps[size..], size)
  }

  function Concat<T>(bs: seq<seq<T>>): seq<T> {
    if bs == [] then [] else bs[0] + Concat(bs[1..])
  }

  /**
   * Every group holds exactly `size` results, fewer than `size` are left over, and the
   * groups joined, followed by what is left over, are the results in order.
   */
  lemma {:induction false} FullBatchesShape<T>(ps: seq<T>, size: nat)
    requires size > 0
    ensures forall k | 0 <= k < |FullBatches(ps, size)| :: |FullBatches(ps, size)[k]| == size
    ensures |Rest(ps, size)| < size
    ensures Concat(FullBatches(ps, size)) + Rest(ps, size) == ps
    decreases |ps|
  {
    if |ps| >= size {
      var bs := FullBatches(ps, size);
      FullBatchesShape(ps[size..], size);
      assert bs[1..] == FullBatches(ps[size..], size);
      assert Concat(bs) == ps[..size] + Concat(FullBatches(ps[size..], size));
      assert ps[..size] + ps[size..] == ps;
    }
  }

  /** One more result joins what was left over, and completes a group when that reaches `size`. */
  lemma {:induction false} BatchesSnoc<T>(ps: seq<T>, size: nat, p: T)
    requires size > 0
    ensures |Rest(ps, size)| + 1 == size ==>
      FullBatches(ps + [p], size) == FullBatches(ps, size) + [Rest(ps, size) + [p]] && Rest(ps + [p], size) == []
    ensures |Rest(ps, size)| + 1 < size ==>
      FullBatches(ps + [p], size) == FullBatches(ps, size) && Rest(ps + [p], size) == Rest(ps, size) + [p]
    decreases |ps|
  {
    var qs := ps + [p];
    if |ps| >= size {
      BatchesSnoc(ps[size..], size, p);
      assert qs[size..] == ps[size..] + [p];
      assert qs[..size] == ps[..size];
    } else if |ps| + 1 == size {
      assert qs[size..] == [];
      assert qs[..size] == qs;
    }
  }

  lemma {:induction false} ConcatSnoc<T>(bs: seq<seq<T>>, b: seq<T>)
    ensures Concat(bs + [b]) == Concat(bs) + b
  {
    if bs == [] {
      assert [] + [b] == [b];
      assert Concat([b]) == b + Concat([]);
    } else {
      ConcatSnoc(bs[1..], b);
      assert (bs + [b])[1..] == bs[1..] + [b];
    }
  }
}
