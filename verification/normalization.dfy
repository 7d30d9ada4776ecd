/** The terminal normalisation pass: every edge receives a weight relative to
    the graph-wide average prediction, or the constant 1 when scores are
    ignored. The aggregates themselves are left as they are. */
module Normalization {
  import opened Results
  import opened Aggregates
  import opened Graphs

  /** Both failures are a division by zero in the source: the average divides
      by the total count, and a weighted edge divides by the average. */
  datatype NormError = ZeroCount | ZeroAverage

  /** A graph together with the `weight` edge property, one entry per edge in
      edge order. */
  datatype Normalized = Normalized(graph: Graph, weights: seq<real>)

  function Sum(xs: seq<real>): real {
    if xs == [] then 0.0 else Sum(xs[..|xs| - 1]) + xs[|xs| - 1]
  }

  /** The weight loop over the edges, given the average prediction: one
      weight per edge, in edge order; a weighted weight is the edge's
      prediction sum as a percentage of the average, an unweighted one is 1. */
  function EdgeWeights(edges: seq<Edge>, avg: real, weighted: bool): (w: seq<real>)
    requires weighted ==> avg != 0.0
    ensures |w| == |edges|
    ensures weighted ==> forall i | 0 <= i < |edges| :: w[i] * avg == edges[i].agg.sum * 100.0
    ensures !weighted ==> forall i | 0 <= i < |edges| :: w[i] == 1.0
  {
    seq(|edges|, i requires 0 <= i < |edges| => if weighted then edges[i].agg.sum / avg * 100.0 else 1.0)
  }

  lemma RelativeToAverage(x: real, s: real, c: real)
    requires s != 0.0 && c != 0.0
    ensures x / (s / c) * 100.0 == x * c * 100.0 / s
  {
    calc {
      x / (s / c) * 100.0;
      == { assert x / (s / c) == x * c / s; }
      x * c / s * 100.0;
    }
  }

  /** An edge's weighted weight in closed form: its raw prediction sum over
      the graph-wide average `total.sum / total.count`, as a percentage. */
  function RelativeWeight(x: real, total: Aggregate): real
    requires total.sum != 0.0
  {
    x * (total.count as real) * 100.0 / total.sum
  }

  /** The normalisation pass. With `s` the sum of all scoreSums and `c` the
      sum of all scoreCounts, it fails when `c` is zero, and in weighted mode
      also when `s` is zero (the division happens on the first edge, and
      `c > 0` means there is one); otherwise it attaches one weight per edge
      and leaves the graph, aggregates included, as it was. */
  function NormalizedWeight(g: Graph, weighted: bool): (r: Result<Normalized, NormError>)
    ensures r.Failure? <==> TotalAgg(g.edges).count == 0 || (weighted && TotalAgg(g.edges).sum == 0.0)
    ensures r.Failure? ==> r.error == (if TotalAgg(g.edges).count == 0 then ZeroCount else ZeroAverage)
    ensures r.Success? ==> r.value.graph == g && |r.value.weights| == |g.edges|
  {
    var total := TotalAgg(g.edges);
    if total.count == 0 then Failure(ZeroCount)
    else
      var avg := total.sum / total.count as real;
      if weighted && |g.edges| > 0 && avg == 0.0 then Failure(ZeroAverage)
      else Success(Normalized(g, EdgeWeights(g.edges, avg, weighted)))
  }

  /** The weights in closed form: with `s` and `c` the totals, edge `e` gets
      `scoreSum(e) * c * 100 / s` in weighted mode (its raw sum over the
      average, as a percentage) and 1 otherwise. */
  lemma NormalizedWeightClosedForm(g: Graph, weighted: bool)
    requires NormalizedWeight(g, weighted).Success?
    ensures var w := NormalizedWeight(g, weighted).value.weights;
            forall i | 0 <= i < |g.edges| ::
              w[i] == if weighted then RelativeWeight(g.edges[i].agg.sum, TotalAgg(g.edges)) else 1.0
  {
    var total := TotalAgg(g.edges);
    var s, c := total.sum, total.count as real;
    var avg := s / c;
    var w := NormalizedWeight(g, weighted).value.weights;
    assert w == EdgeWeights(g.edges, avg, weighted);
    if weighted {
      forall i | 0 <= i < |g.edges|
        ensures w[i] == RelativeWeight(g.edges[i].agg.sum, total)
      {
        var x := g.edges[i].agg.sum;
        assert w[i] == x / avg * 100.0;
        RelativeToAverage(x, s, c);
      }
    }
  }

  lemma {:induction false} WeightedSum(edges: seq<Edge>, avg: real)
    requires avg != 0.0
    ensures Sum(EdgeWeights(edges, avg, true)) == TotalAgg(edges).sum / avg * 100.0
    decreases |edges|
  {
    if edges != [] {
      var n := |edges| - 1;
      var w := EdgeWeights(edges, avg, true);
      assert w[..n] == EdgeWeights(edges[..n], avg, true);
      WeightedSum(edges[..n], avg);
      var t := TotalAgg(edges[..n]).sum;
      var x := edges[n].agg.sum;
      assert TotalAgg(edges).sum == t + x;
      assert (t + x) / avg * 100.0 == t / avg * 100.0 + x / avg * 100.0;
    }
  }

  lemma {:induction false} UnweightedSum(edges: seq<Edge>, avg: real)
    ensures Sum(EdgeWeights(edges, avg, false)) == |edges| as real
    decreases |edges|
  {
    if edges != [] {
      var n := |edges| - 1;
      assert EdgeWeights(edges, avg, false)[..n] == EdgeWeights(edges[..n], avg, false);
      UnweightedSum(edges[..n], avg);
    }
  }

  /** Weighted weights always add up to 100 times the total count (each edge
      is weighted by its raw sum, not its mean); unweighted weights add up to
      the number of edges. */
  lemma NormalizedWeightsSum(g: Graph, weighted: bool)
    requires NormalizedWeight(g, weighted).Success?
    ensures Sum(NormalizedWeight(g, weighted).value.weights)
         == if weighted then 100.0 * (TotalAgg(g.edges).count as real) else |g.edges| as real
  {
    var total := TotalAgg(g.edges);
    var avg := total.sum / total.count as real;
    assert NormalizedWeight(g, weighted).value.weights == EdgeWeights(g.edges, avg, weighted);
    if weighted {
      WeightedSum(g.edges, avg);
      RelativeToAverage(total.sum, total.sum, total.count as real);
    } else {
      UnweightedSum(g.edges, avg);
    }
  }
}
