/** The running statistics an edge accumulates: the sum of the predicted
    scores observed on it and how many observations there were. */
module Aggregates {

  datatype Aggregate = Aggregate(sum: real, count: nat) {

    /** Pointwise combination of two aggregates. */
    function Plus(other: Aggregate): Aggregate {
      Aggregate(sum + other.sum, count + other.count)
    }
  }

  /** The aggregate of a freshly created edge property (0.0 and 0). */
  function Zero(): Aggregate {
    Aggregate(0.0, 0)
  }

  /** The contribution of one recommendation with prediction `pred`. */
  function Observation(pred: real): Aggregate {
    Aggregate(pred, 1)
  }

  lemma PlusZero(x: Aggregate)
    ensures x.Plus(Zero()) == x && Zero().Plus(x) == x
  {
  }

  lemma PlusAssoc(x: Aggregate, y: Aggregate, z: Aggregate)
    ensures x.Plus(y).Plus(z) == x.Plus(y.Plus(z))
  {
  }

  lemma PlusSwap(x: Aggregate, y: Aggregate, z: Aggregate)
    ensures x.Plus(y.Plus(z)) == y.Plus(x.Plus(z))
  {
  }

  lemma PlusCancel(q: Aggregate, p: Aggregate, b: Aggregate, w: Aggregate)
    requires q.Plus(b) == p.Plus(b.Plus(w))
    ensures q == p.Plus(w)
  {
    assert q.sum + b.sum == p.sum + (b.sum + w.sum);
    assert q.count + b.count == p.count + (b.count + w.count);
  }
}
