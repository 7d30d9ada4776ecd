/** Worked examples: two clicks on item A, the first recommending X (4.0)
    and Y (2.0), the second recommending X (6.0). */
module Scenarios {
  import opened Results
  import opened Aggregates
  import opened Graphs
  import opened Builder
  import opened Normalization
  import opened Batch

  function FirstClick(): Event {
    Event("u1", "A", 1, [Rec("X", 4.0), Rec("Y", 2.0)])
  }

  function SecondClick(): Event {
    Event("u2", "A", 2, [Rec("X", 6.0)])
  }

  /** The edges after the first click: A -> X, then A -> Y. */
  function FirstEdges(): seq<Edge> {
    [Edge("A", "X", Aggregate(4.0, 1)), Edge("A", "Y", Aggregate(2.0, 1))]
  }

  /** The edges after both clicks: the second click added to A -> X. */
  function ExampleEdges(): seq<Edge> {
    [Edge("A", "X", Aggregate(10.0, 2)), Edge("A", "Y", Aggregate(2.0, 1))]
  }

  /** The vertices of the example, as a set: the order in which they are
      registered is not part of any example. */
  predicate HasExampleVertices(labels: seq<string>) {
    Elems(labels) == {"A", "X", "Y"} && NoDuplicates(labels)
  }

  /** The first click creates A -> X and then A -> Y. */
  lemma FirstClickEdges()
    ensures AccumulateAll([], "A", FirstClick().recs, true) == FirstEdges()
  {
    var e1 := FirstClick();
    var ax1 := Edge("A", "X", Aggregate(4.0, 1));
    var ay := Edge("A", "Y", Aggregate(2.0, 1));
    assert Accumulate([], "A", "X", 4.0, true) == [ax1];
    assert FindEdge([ax1], "A", "Y") == None;
    assert Accumulate([ax1], "A", "Y", 2.0, true) == [ax1, ay];
    assert e1.recs[1..] == [Rec("Y", 2.0)] && e1.recs[1..][1..] == [];
  }

  /** The first click registers A, X and Y, once each, and creates both edges. */
  lemma FirstStep()
    ensures var g1 := Step(None, FirstClick(), 2);
            HasExampleVertices(g1.labels) && g1.edges == FirstEdges()
  {
    var e1 := FirstClick();
    assert Take(e1.recs, 2) == e1.recs;
    assert Ids(e1.recs) == ["X", "Y"];
    assert Elems(Ids(e1.recs)) == {"X", "Y"};
    FirstClickEdges();
  }

  /** Whatever order the vertices are in, the second click registers nothing
      new and adds its observation to the edge A -> X. */
  lemma SecondStep(g1: Graph)
    requires "A" in g1.labels && "X" in g1.labels && g1.edges == FirstEdges()
    ensures Step(Some(g1), SecondClick(), 2) == Graph(g1.labels, ExampleEdges())
  {
    var e2 := SecondClick();
    assert Take(e2.recs, 2) == e2.recs;
    assert Ids(e2.recs) + [e2.iid] == ["X", "A"];
    assert AddVertices(g1.labels, ["X", "A"]) == g1.labels by {
      assert ["X", "A"][1..] == ["A"];
      assert ["A"][1..] == [];
      assert AddVertices(g1.labels, ["A"]) == AddVertices(g1.labels, []);
    }
    assert FindEdge(g1.edges, "A", "X") == Some(0);
    assert AccumulateAll(g1.edges, "A", e2.recs, true) == ExampleEdges() by {
      assert e2.recs[1..] == [];
    }
  }

  /** Folding two events is two steps. */
  lemma FoldTwo(g: Option<Graph>, e1: Event, e2: Event, thres: int)
    ensures FoldEvents(g, [e1, e2], thres) == Some(Step(Some(Step(g, e1, thres)), e2, thres))
  {
    var g1 := Some(Step(g, e1, thres));
    assert FoldEvents(g, [e1, e2], thres) == FoldEvents(g1, [e2], thres) by {
      assert [e1, e2][1..] == [e2];
    }
    assert FoldEvents(g1, [e2], thres) == FoldEvents(Some(Step(g1, e2, thres)), [], thres) by {
      assert [e2][1..] == [];
    }
  }

  /** Folding both clicks from no graph. */
  lemma ExampleFold()
    ensures var r := FoldEvents(None, [FirstClick(), SecondClick()], 2);
            r.Some? && HasExampleVertices(r.value.labels) && r.value.edges == ExampleEdges()
  {
    var e1, e2 := FirstClick(), SecondClick();
    var g1 := Step(None, e1, 2);
    FoldTwo(None, e1, e2, 2);
    FirstStep();
    assert "A" in Elems(g1.labels) && "X" in Elems(g1.labels);
    SecondStep(g1);
  }

  /** Weighted batch with a threshold of 2: the pair A -> X collects 10.0
      over 2 observations and A -> Y 2.0 over 1; the average prediction is
      12.0 / 3 = 4.0, so the weights are 250 and 50. */
  lemma WeightedExample()
    ensures var r := GraphToolFull([FirstClick(), SecondClick()], 2);
            && r.Success?
            && HasExampleVertices(r.value.graph.labels)
            && r.value.graph.edges == ExampleEdges()
            && r.value.weights == [250.0, 50.0]
  {
    ExampleFold();
    var g2 := FoldEvents(None, [FirstClick(), SecondClick()], 2).value;
    ExampleNormalized(g2);
  }

  /** Any graph holding the two edges of the example normalises to the
      weights 250 and 50. */
  lemma ExampleNormalized(g: Graph)
    requires g.edges == ExampleEdges()
    ensures NormalizedWeight(g, true) == Success(Normalized(g, [250.0, 50.0]))
  {
    var e := ExampleEdges();
    assert TotalAgg(e) == Aggregate(12.0, 3) by {
      assert e[..1] == [e[0]];
      assert TotalAgg(e[..1]) == Aggregate(10.0, 2);
    }
    assert 12.0 / (3 as real) == 4.0 by {
      assert 4.0 * 3.0 == 12.0;
    }
    var w := EdgeWeights(e, 4.0, true);
    assert w[0] == 10.0 / 4.0 * 100.0 == 250.0;
    assert w[1] == 2.0 / 4.0 * 100.0 == 50.0;
    assert w == [250.0, 50.0];
  }

  /** The three parallel edges unweighted mode builds from both clicks. */
  function ParallelEdges(): seq<Edge> {
    [Edge("A", "X", Aggregate(4.0, 1)), Edge("A", "Y", Aggregate(2.0, 1)), Edge("A", "X", Aggregate(6.0, 1))]
  }

  /** Unweighted, the first click appends A -> X and then A -> Y. */
  lemma UnweightedFirst()
    ensures ItemGraphUpdate("A", FirstClick().recs, None, false).edges == ParallelEdges()[..2]
  {
    var p, recs1 := ParallelEdges(), FirstClick().recs;
    assert Accumulate([], "A", "X", 4.0, false) == p[..1];
    assert Accumulate(p[..1], "A", "Y", 2.0, false) == p[..2];
    assert AccumulateAll([], "A", recs1, false) == p[..2] by {
      assert recs1[1..] == [Rec("Y", 2.0)] && recs1[1..][1..] == [];
    }
  }

  /** Unweighted, the second click appends a parallel A -> X instead of
      adding to the existing one. */
  lemma UnweightedSecond(g1: Graph)
    requires g1.edges == ParallelEdges()[..2]
    ensures ItemGraphUpdate("A", SecondClick().recs, Some(g1), false).edges == ParallelEdges()
  {
    var p := ParallelEdges();
    assert Accumulate(p[..2], "A", "X", 6.0, false) == p;
    assert AccumulateAll(p[..2], "A", SecondClick().recs, false) == p by {
      assert SecondClick().recs[1..] == [];
    }
  }

  /** Unweighted updates of both clicks append one edge per recommendation,
      with no accumulation. */
  lemma UnweightedEdgesExample()
    ensures var g1 := ItemGraphUpdate("A", FirstClick().recs, None, false);
            ItemGraphUpdate("A", SecondClick().recs, Some(g1), false).edges == ParallelEdges()
  {
    UnweightedFirst();
    UnweightedSecond(ItemGraphUpdate("A", FirstClick().recs, None, false));
  }

  /** Any graph holding exactly the three parallel edges normalises to
      weight 1 on each. */
  lemma ParallelEdgesNormalized(g: Graph)
    requires g.edges == ParallelEdges()
    ensures NormalizedWeight(g, false) == Success(Normalized(g, [1.0, 1.0, 1.0]))
  {
    var p := ParallelEdges();
    assert TotalAgg(p) == Aggregate(12.0, 3) by {
      assert p[..2][..1] == p[..1] && p[..1][..0] == [];
      assert TotalAgg(p[..1]) == Aggregate(4.0, 1);
      assert TotalAgg(p[..2]) == Aggregate(6.0, 2);
    }
    assert EdgeWeights(p, 12.0 / 3.0, false) == [1.0, 1.0, 1.0];
  }

  /** Unweighted normalisation gives each of the three parallel edges the
      weight 1. */
  lemma UnweightedExample()
    ensures var g1 := ItemGraphUpdate("A", FirstClick().recs, None, false);
            var g2 := ItemGraphUpdate("A", SecondClick().recs, Some(g1), false);
            && g2.edges == ParallelEdges()
            && NormalizedWeight(g2, false) == Success(Normalized(g2, [1.0, 1.0, 1.0]))
  {
    UnweightedEdgesExample();
    var g1 := ItemGraphUpdate("A", FirstClick().recs, None, false);
    ParallelEdgesNormalized(ItemGraphUpdate("A", SecondClick().recs, Some(g1), false));
  }
}
