/** The batch orchestrator: fold the item-mode builder (weighted) over a
    sequence of events, each truncated to its first `thres` recommendations,
    then normalise once. Also the reference definitions of what the fold
    computes, and the laws the fold obeys. */
module Batch {
  import opened Results
  import opened Aggregates
  import opened Graphs
  import opened Builder
  import opened Normalization

  /** One recommendation event: the user, the clicked item, a timestamp and
      the ranked recommendations the click produced. */
  datatype Event = Event(uid: string, iid: string, ts: int, recs: seq<Rec>)

  /** `NoGraph`: the event list was empty, so no graph exists to normalise. */
  datatype BuildError = NoGraph | NormalizationFailed(cause: NormError)

  /** Python's `recs[:thres]`: the first `thres` entries, or for a negative
      `thres` all but the last `-thres`; never reorders. */
  function Take(recs: seq<Rec>, thres: int): (r: seq<Rec>)
    ensures r <= recs
    ensures 0 <= thres ==> |r| == if thres < |recs| then thres else |recs|
    ensures thres < 0 ==> |r| == if -thres < |recs| then |recs| + thres else 0
  {
    if 0 <= thres then (if thres < |recs| then recs[..thres] else recs)
    else (if -thres < |recs| then recs[..|recs| + thres] else [])
  }

  /** The loop body of the batch: `itemGraphUpdate(iid, recs[:thres], g, True)`.
      The clicked item and the first `thres` recommendations become vertices;
      the vertices already present keep their places. */
  function Step(g: Option<Graph>, e: Event, thres: int): (r: Graph)
    ensures Start(g).labels <= r.labels
    ensures Elems(r.labels) == Elems(Start(g).labels) + {e.iid} + Elems(Ids(Take(e.recs, thres)))
  {
    ItemGraphUpdate(e.iid, Take(e.recs, thres), g, true)
  }

  /** The loop of the batch, threading the graph through the events in order. */
  function FoldEvents(g: Option<Graph>, events: seq<Event>, thres: int): (r: Option<Graph>)
    ensures r.None? <==> g.None? && events == []
    decreases |events|
  {
    if events == [] then g else FoldEvents(Some(Step(g, events[0], thres)), events[1..], thres)
  }

  // ---------------------------------------------------------------------
  // Reference definitions: what the events say, independent of any graph
  // ---------------------------------------------------------------------

  /** The observations of the pair `a -> b` in one event. */
  function EventAgg(e: Event, thres: int, a: string, b: string): Aggregate {
    if e.iid == a then RecAgg(Take(e.recs, thres), b) else Zero()
  }

  /** The observations of the pair `a -> b` over all events. */
  function ObsAgg(events: seq<Event>, thres: int, a: string, b: string): Aggregate
    decreases |events|
  {
    if events == [] then Zero()
    else EventAgg(events[0], thres, a, b).Plus(ObsAgg(events[1..], thres, a, b))
  }

  /** Every observation over all events: (sum of predictions, number of
      recommendation entries kept). */
  function EventsTotal(events: seq<Event>, thres: int): Aggregate
    decreases |events|
  {
    if events == [] then Zero()
    else RecsTotal(Take(events[0].recs, thres)).Plus(EventsTotal(events[1..], thres))
  }

  /** Every clicked and every kept recommended item id over all events. */
  function AllIds(events: seq<Event>, thres: int): set<string>
    decreases |events|
  {
    if events == [] then {}
    else {events[0].iid} + Elems(Ids(Take(events[0].recs, thres))) + AllIds(events[1..], thres)
  }

  // ---------------------------------------------------------------------
  // What the fold computes
  // ---------------------------------------------------------------------

  /** The fold keeps the vertices it started with, in place. */
  lemma {:induction false} FoldKeepsLabels(g: Option<Graph>, events: seq<Event>, thres: int)
    ensures Start(g).labels <= Start(FoldEvents(g, events, thres)).labels
    decreases |events|
  {
    if events != [] {
      var next := Step(g, events[0], thres);
      assert FoldEvents(g, events, thres) == FoldEvents(Some(next), events[1..], thres);
      assert Start(Some(next)) == next;
      FoldKeepsLabels(Some(next), events[1..], thres);
    }
  }

  /** The fold registers exactly the ids the events mention. */
  lemma {:induction false} FoldLabelSet(g: Option<Graph>, events: seq<Event>, thres: int)
    ensures Elems(Start(FoldEvents(g, events, thres)).labels) == Elems(Start(g).labels) + AllIds(events, thres)
    decreases |events|
  {
    if events != [] {
      var e, rest := events[0], events[1..];
      var next := Step(g, e, thres);
      var here := {e.iid} + Elems(Ids(Take(e.recs, thres)));
      FoldLabelSet(Some(next), rest, thres);
      assert FoldEvents(g, events, thres) == FoldEvents(Some(next), rest, thres);
      assert Start(Some(next)) == next;
      UnionRegroup(Elems(Start(FoldEvents(g, events, thres)).labels), Elems(next.labels),
                   Elems(Start(g).labels), here, AllIds(rest, thres));
    }
  }

  /** The fold registers each id once. */
  lemma {:induction false} FoldNoDuplicates(g: Option<Graph>, events: seq<Event>, thres: int)
    requires NoDuplicates(Start(g).labels)
    ensures NoDuplicates(Start(FoldEvents(g, events, thres)).labels)
    decreases |events|
  {
    if events != [] {
      var next := Step(g, events[0], thres);
      assert FoldEvents(g, events, thres) == FoldEvents(Some(next), events[1..], thres);
      assert Start(Some(next)) == next;
      FoldNoDuplicates(Some(next), events[1..], thres);
    }
  }

  /** The fold keeps the graph valid and free of parallel edges. */
  lemma {:induction false} FoldKeepsShape(g: Option<Graph>, events: seq<Event>, thres: int)
    requires Valid(Start(g)) && UniquePairs(Start(g).edges)
    ensures Valid(Start(FoldEvents(g, events, thres)))
    ensures UniquePairs(Start(FoldEvents(g, events, thres)).edges)
    decreases |events|
  {
    if events != [] {
      ItemGraphUpdateEdges(events[0].iid, Take(events[0].recs, thres), g, true);
      FoldKeepsShape(Some(Step(g, events[0], thres)), events[1..], thres);
    }
  }

  /** One step adds the event's observations of `a -> b` to the pair. */
  lemma StepPairAgg(g: Option<Graph>, e: Event, thres: int, a: string, b: string)
    ensures PairAgg(Step(g, e, thres).edges, a, b) == PairAgg(Start(g).edges, a, b).Plus(EventAgg(e, thres, a, b))
  {
    var kept := Take(e.recs, thres);
    assert Step(g, e, thres).edges == AccumulateAll(Start(g).edges, e.iid, kept, true);
    AccumulateAllAggregates(Start(g).edges, e.iid, kept, true, a, b);
  }

  /** One step adds every kept entry of the event to the totals. */
  lemma StepTotalAgg(g: Option<Graph>, e: Event, thres: int)
    ensures TotalAgg(Step(g, e, thres).edges) == TotalAgg(Start(g).edges).Plus(RecsTotal(Take(e.recs, thres)))
  {
    var kept := Take(e.recs, thres);
    assert Step(g, e, thres).edges == AccumulateAll(Start(g).edges, e.iid, kept, true);
    AccumulateAllAggregates(Start(g).edges, e.iid, kept, true, "", "");
  }

  /** The fold adds to every pair `a -> b` exactly the observations of `b`
      in events that clicked `a`. */
  lemma {:induction false} FoldPairAgg(g: Option<Graph>, events: seq<Event>, thres: int, a: string, b: string)
    ensures PairAgg(Start(FoldEvents(g, events, thres)).edges, a, b)
         == PairAgg(Start(g).edges, a, b).Plus(ObsAgg(events, thres, a, b))
    decreases |events|
  {
    var p := PairAgg(Start(g).edges, a, b);
    if events == [] {
      PlusZero(p);
    } else {
      var e, rest := events[0], events[1..];
      var next := Step(g, e, thres);
      assert FoldEvents(g, events, thres) == FoldEvents(Some(next), rest, thres);
      assert Start(Some(next)) == next;
      FoldPairAgg(Some(next), rest, thres, a, b);
      StepPairAgg(g, e, thres, a, b);
      var here, later := EventAgg(e, thres, a, b), ObsAgg(rest, thres, a, b);
      assert ObsAgg(events, thres, a, b) == here.Plus(later);
      PlusAssoc(p, here, later);
    }
  }

  /** The fold adds every kept recommendation entry to the totals. */
  lemma {:induction false} FoldTotalAgg(g: Option<Graph>, events: seq<Event>, thres: int)
    ensures TotalAgg(Start(FoldEvents(g, events, thres)).edges)
         == TotalAgg(Start(g).edges).Plus(EventsTotal(events, thres))
    decreases |events|
  {
    var t := TotalAgg(Start(g).edges);
    if events == [] {
      PlusZero(t);
    } else {
      var e, rest := events[0], events[1..];
      var next := Step(g, e, thres);
      assert FoldEvents(g, events, thres) == FoldEvents(Some(next), rest, thres);
      assert Start(Some(next)) == next;
      FoldTotalAgg(Some(next), rest, thres);
      StepTotalAgg(g, e, thres);
      var here, later := RecsTotal(Take(e.recs, thres)), EventsTotal(rest, thres);
      assert EventsTotal(events, thres) == here.Plus(later);
      PlusAssoc(t, here, later);
    }
  }

  /** From no graph, the pair aggregates are exactly the observations. */
  lemma FoldFromNothing(events: seq<Event>, thres: int, a: string, b: string)
    ensures PairAgg(Start(FoldEvents(None, events, thres)).edges, a, b) == ObsAgg(events, thres, a, b)
    ensures TotalAgg(Start(FoldEvents(None, events, thres)).edges) == EventsTotal(events, thres)
  {
    FoldPairAgg(None, events, thres, a, b);
    FoldTotalAgg(None, events, thres);
    PlusZero(ObsAgg(events, thres, a, b));
    PlusZero(EventsTotal(events, thres));
  }

  // ---------------------------------------------------------------------
  // The batch
  // ---------------------------------------------------------------------

  /** The batch: fold, then normalise once in weighted mode. It fails when
      there are no events (no graph to normalise), when no recommendation
      entry survives the truncation (zero total count), and when the kept
      predictions sum to zero (zero average). */
  function GraphToolFull(events: seq<Event>, thres: int): (r: Result<Normalized, BuildError>)
    ensures r == Failure(NoGraph) <==> events == []
    ensures r == Failure(NormalizationFailed(ZeroCount))
            <==> events != [] && EventsTotal(events, thres).count == 0
    ensures r == Failure(NormalizationFailed(ZeroAverage))
            <==> events != [] && EventsTotal(events, thres).count > 0 && EventsTotal(events, thres).sum == 0.0
    ensures r.Success? <==> events != [] && EventsTotal(events, thres).count > 0 && EventsTotal(events, thres).sum != 0.0
  {
    match FoldEvents(None, events, thres)
    case None => Failure(NoGraph)
    case Some(g) =>
      FoldFromNothing(events, thres, "", "");
      match NormalizedWeight(g, true)
      case Failure(err) => Failure(NormalizationFailed(err))
      case Success(n) => Success(n)
  }

  lemma BuiltGraph(events: seq<Event>, thres: int)
    requires events != []
    ensures FoldEvents(None, events, thres).Some?
    ensures GraphToolFull(events, thres).Success? ==>
              GraphToolFull(events, thres).value.graph == FoldEvents(None, events, thres).value
  {
  }

  /** A finished graph has one vertex per id the events mention and no
      parallel edges. */
  lemma GraphToolFullShape(events: seq<Event>, thres: int)
    requires GraphToolFull(events, thres).Success?
    ensures var g := GraphToolFull(events, thres).value.graph;
            Valid(g) && UniquePairs(g.edges) && Elems(g.labels) == AllIds(events, thres)
  {
    BuiltGraph(events, thres);
    FoldLabelSet(None, events, thres);
    FoldKeepsShape(None, events, thres);
  }

  /** On each edge of a finished graph, the sum and the number of the
      predictions of its target in events that clicked its source. */
  lemma GraphToolFullEdgeAggregates(events: seq<Event>, thres: int)
    requires GraphToolFull(events, thres).Success?
    ensures var g := GraphToolFull(events, thres).value.graph;
            forall j | 0 <= j < |g.edges| :: g.edges[j].agg == ObsAgg(events, thres, g.edges[j].src, g.edges[j].dst)
  {
    BuiltGraph(events, thres);
    FoldKeepsShape(None, events, thres);
    var g := GraphToolFull(events, thres).value.graph;
    forall j | 0 <= j < |g.edges|
      ensures g.edges[j].agg == ObsAgg(events, thres, g.edges[j].src, g.edges[j].dst)
    {
      FoldFromNothing(events, thres, g.edges[j].src, g.edges[j].dst);
      PairAggOfUnique(g.edges, j);
    }
  }

  /** A finished graph has an edge `a -> b` exactly when some event clicking
      `a` kept a recommendation of `b`. */
  lemma GraphToolFullEdgeExists(events: seq<Event>, thres: int)
    requires GraphToolFull(events, thres).Success?
    ensures var g := GraphToolFull(events, thres).value.graph;
            forall a, b :: HasEdge(g.edges, a, b) <==> ObsAgg(events, thres, a, b).count > 0
  {
    BuiltGraph(events, thres);
    FoldKeepsShape(None, events, thres);
    var g := GraphToolFull(events, thres).value.graph;
    forall a, b ensures HasEdge(g.edges, a, b) <==> ObsAgg(events, thres, a, b).count > 0 {
      FoldFromNothing(events, thres, a, b);
      if HasEdge(g.edges, a, b) {
        var j :| 0 <= j < |g.edges| && Connects(g.edges[j], a, b);
        PairAggOfUnique(g.edges, j);
      } else {
        PairAggAbsent(g.edges, a, b);
      }
    }
  }

  /** A successful batch is the normalisation of the folded graph, whose
      totals are the totals of the events. */
  lemma GraphToolFullIsNormalized(events: seq<Event>, thres: int)
    requires GraphToolFull(events, thres).Success?
    ensures FoldEvents(None, events, thres).Some?
    ensures var g := FoldEvents(None, events, thres).value;
            NormalizedWeight(g, true).Success?
            && GraphToolFull(events, thres).value == NormalizedWeight(g, true).value
            && TotalAgg(g.edges) == EventsTotal(events, thres)
  {
    var g := FoldEvents(None, events, thres).value;
    FoldFromNothing(events, thres, "", "");
    assert Start(Some(g)) == g;
  }

  /** The weights of a finished graph: edge `e` gets its prediction sum times
      the number of kept entries times 100, over the sum of all kept
      predictions. */
  lemma GraphToolFullWeights(events: seq<Event>, thres: int)
    requires GraphToolFull(events, thres).Success?
    ensures var n := GraphToolFull(events, thres).value;
            var total := EventsTotal(events, thres);
            forall j | 0 <= j < |n.graph.edges| ::
              n.weights[j] == RelativeWeight(n.graph.edges[j].agg.sum, total)
  {
    GraphToolFullIsNormalized(events, thres);
    var g := FoldEvents(None, events, thres).value;
    var n := GraphToolFull(events, thres).value;
    var total := EventsTotal(events, thres);
    NormalizedWeightClosedForm(g, true);
    assert n.graph == g && n.weights == NormalizedWeight(g, true).value.weights;
    assert TotalAgg(g.edges) == total;
  }

  /** The weights of a finished graph add up to 100 times the number of kept
      recommendation entries. */
  lemma GraphToolFullWeightsSum(events: seq<Event>, thres: int)
    requires GraphToolFull(events, thres).Success?
    ensures Sum(GraphToolFull(events, thres).value.weights) == 100.0 * (EventsTotal(events, thres).count as real)
  {
    GraphToolFullIsNormalized(events, thres);
    var g := FoldEvents(None, events, thres).value;
    NormalizedWeightsSum(g, true);
  }

  // ---------------------------------------------------------------------
  // Laws of the batch: event order, replay, ignored fields
  // ---------------------------------------------------------------------

  lemma {:induction false} ObsAggAppend(xs: seq<Event>, ys: seq<Event>, thres: int, a: string, b: string)
    ensures ObsAgg(xs + ys, thres, a, b) == ObsAgg(xs, thres, a, b).Plus(ObsAgg(ys, thres, a, b))
    decreases |xs|
  {
    if xs == [] {
      assert xs + ys == ys;
      PlusZero(ObsAgg(ys, thres, a, b));
    } else {
      assert (xs + ys)[1..] == xs[1..] + ys;
      ObsAggAppend(xs[1..], ys, thres, a, b);
      PlusAssoc(EventAgg(xs[0], thres, a, b), ObsAgg(xs[1..], thres, a, b), ObsAgg(ys, thres, a, b));
    }
  }

  lemma {:induction false} EventsTotalAppend(xs: seq<Event>, ys: seq<Event>, thres: int)
    ensures EventsTotal(xs + ys, thres) == EventsTotal(xs, thres).Plus(EventsTotal(ys, thres))
    decreases |xs|
  {
    if xs == [] {
      assert xs + ys == ys;
      PlusZero(EventsTotal(ys, thres));
    } else {
      assert (xs + ys)[1..] == xs[1..] + ys;
      EventsTotalAppend(xs[1..], ys, thres);
      PlusAssoc(RecsTotal(Take(xs[0].recs, thres)), EventsTotal(xs[1..], thres), EventsTotal(ys, thres));
    }
  }

  lemma {:induction false} AllIdsAppend(xs: seq<Event>, ys: seq<Event>, thres: int)
    ensures AllIds(xs + ys, thres) == AllIds(xs, thres) + AllIds(ys, thres)
    decreases |xs|
  {
    if xs == [] {
      assert xs + ys == ys;
    } else {
      assert (xs + ys)[1..] == xs[1..] + ys;
      AllIdsAppend(xs[1..], ys, thres);
    }
  }

  /** Matching the first event of `xs` with the event at position `k` of a
      permutation `ys` leaves permutations of each other behind. */
  lemma MatchFirst(xs: seq<Event>, ys: seq<Event>, k: nat)
    requires multiset(xs) == multiset(ys) && xs != [] && k < |ys| && ys[k] == xs[0]
    ensures ys == ys[..k] + ([ys[k]] + ys[k + 1..])
    ensures multiset(xs[1..]) == multiset(ys[..k] + ys[k + 1..])
  {
    var front, back := ys[..k], ys[k + 1..];
    var one := multiset{xs[0]};
    assert ys == front + ([ys[k]] + back);
    assert multiset(ys) == multiset(front) + (one + multiset(back));
    assert xs == [xs[0]] + xs[1..];
    assert multiset(xs) == one + multiset(xs[1..]);
    assert multiset(front + back) == multiset(front) + multiset(back);
    var m, n := multiset(xs[1..]), multiset(front + back);
    forall z ensures m[z] == n[z] {
      assert (one + m)[z] == (multiset(front) + (one + multiset(back)))[z];
    }
  }

  /** The observations of a pair do not depend on the order of the events. */
  lemma {:induction false} ObsAggPermutation(xs: seq<Event>, ys: seq<Event>, thres: int, a: string, b: string)
    requires multiset(xs) == multiset(ys)
    ensures ObsAgg(xs, thres, a, b) == ObsAgg(ys, thres, a, b)
    decreases |xs|
  {
    if xs == [] {
      assert |ys| == |multiset(ys)| == 0;
    } else {
      var x := xs[0];
      assert x in multiset(ys);
      var k :| 0 <= k < |ys| && ys[k] == x;
      var front, back := ys[..k], ys[k + 1..];
      MatchFirst(xs, ys, k);
      ObsAggPermutation(xs[1..], front + back, thres, a, b);
      ObsAggAppend(front, [x] + back, thres, a, b);
      ObsAggAppend(front, back, thres, a, b);
      assert ([x] + back)[1..] == back;
      var e, f, r := EventAgg(x, thres, a, b), ObsAgg(front, thres, a, b), ObsAgg(back, thres, a, b);
      assert ObsAgg(ys, thres, a, b) == f.Plus(e.Plus(r));
      assert ObsAgg(xs[1..], thres, a, b) == f.Plus(r);
      assert ObsAgg(xs, thres, a, b) == e.Plus(ObsAgg(xs[1..], thres, a, b));
      PlusSwap(f, e, r);
    }
  }

  /** The totals do not depend on the order of the events. */
  lemma {:induction false} EventsTotalPermutation(xs: seq<Event>, ys: seq<Event>, thres: int)
    requires multiset(xs) == multiset(ys)
    ensures EventsTotal(xs, thres) == EventsTotal(ys, thres)
    decreases |xs|
  {
    if xs == [] {
      assert |ys| == |multiset(ys)| == 0;
    } else {
      var x := xs[0];
      assert x in multiset(ys);
      var k :| 0 <= k < |ys| && ys[k] == x;
      var front, back := ys[..k], ys[k + 1..];
      MatchFirst(xs, ys, k);
      EventsTotalPermutation(xs[1..], front + back, thres);
      EventsTotalAppend(front, [x] + back, thres);
      EventsTotalAppend(front, back, thres);
      assert ([x] + back)[1..] == back;
      var e, f, r := RecsTotal(Take(x.recs, thres)), EventsTotal(front, thres), EventsTotal(back, thres);
      assert EventsTotal(ys, thres) == f.Plus(e.Plus(r));
      assert EventsTotal(xs[1..], thres) == f.Plus(r);
      assert EventsTotal(xs, thres) == e.Plus(EventsTotal(xs[1..], thres));
      PlusSwap(f, e, r);
    }
  }

  /** The mentioned ids do not depend on the order of the events. */
  lemma {:induction false} AllIdsPermutation(xs: seq<Event>, ys: seq<Event>, thres: int)
    requires multiset(xs) == multiset(ys)
    ensures AllIds(xs, thres) == AllIds(ys, thres)
    decreases |xs|
  {
    if xs == [] {
      assert |ys| == |multiset(ys)| == 0;
    } else {
      var x := xs[0];
      assert x in multiset(ys);
      var k :| 0 <= k < |ys| && ys[k] == x;
      var front, back := ys[..k], ys[k + 1..];
      MatchFirst(xs, ys, k);
      AllIdsPermutation(xs[1..], front + back, thres);
      AllIdsAppend(front, [x] + back, thres);
      AllIdsAppend(front, back, thres);
      assert ([x] + back)[1..] == back;
    }
  }

  /** Whether the batch fails, and how, does not depend on the order of the
      events. */
  lemma BatchOutcomeOrderIrrelevant(xs: seq<Event>, ys: seq<Event>, thres: int)
    requires multiset(xs) == multiset(ys)
    ensures GraphToolFull(xs, thres).Success? <==> GraphToolFull(ys, thres).Success?
    ensures GraphToolFull(xs, thres).Failure? ==> GraphToolFull(xs, thres) == GraphToolFull(ys, thres)
  {
    assert xs == [] <==> ys == [] by {
      assert |xs| == |multiset(xs)| && |ys| == |multiset(ys)|;
    }
    EventsTotalPermutation(xs, ys, thres);
  }

  /** Edges with unique endpoint pairs are pairwise distinct. */
  lemma UniquePairsDistinct(edges: seq<Edge>)
    requires UniquePairs(edges)
    ensures |Elems(edges)| == |edges|
  {
    assert NoDuplicates(edges) by {
      forall i, j | 0 <= i < j < |edges| ensures edges[i] != edges[j] {
        assert edges[i].src != edges[j].src || edges[i].dst != edges[j].dst;
      }
    }
    DistinctCard(edges);
  }

  /** Every edge of one finished graph is an edge of another whose events
      observe the same aggregates for every pair. */
  lemma EdgesAgree(xs: seq<Event>, ys: seq<Event>, thres: int)
    requires GraphToolFull(xs, thres).Success? && GraphToolFull(ys, thres).Success?
    requires forall a, b :: ObsAgg(xs, thres, a, b) == ObsAgg(ys, thres, a, b)
    ensures Elems(GraphToolFull(xs, thres).value.graph.edges) <= Elems(GraphToolFull(ys, thres).value.graph.edges)
  {
    var gx, gy := GraphToolFull(xs, thres).value.graph, GraphToolFull(ys, thres).value.graph;
    GraphToolFullShape(xs, thres);
    GraphToolFullEdgeAggregates(xs, thres);
    GraphToolFullEdgeAggregates(ys, thres);
    GraphToolFullEdgeExists(ys, thres);
    forall e | e in Elems(gx.edges) ensures e in Elems(gy.edges) {
      var i :| 0 <= i < |gx.edges| && gx.edges[i] == e;
      assert e.agg == ObsAgg(ys, thres, e.src, e.dst);
      assert e.agg.count > 0;
      assert HasEdge(gy.edges, e.src, e.dst);
      var j :| 0 <= j < |gy.edges| && Connects(gy.edges[j], e.src, e.dst);
      assert gy.edges[j] == e;
    }
  }

  /** Reordering the events yields the same vertices, and as many. */
  lemma BatchLabelsOrderIrrelevant(xs: seq<Event>, ys: seq<Event>, thres: int)
    requires multiset(xs) == multiset(ys)
    requires GraphToolFull(xs, thres).Success?
    ensures GraphToolFull(ys, thres).Success?
    ensures var gx, gy := GraphToolFull(xs, thres).value.graph, GraphToolFull(ys, thres).value.graph;
            Elems(gx.labels) == Elems(gy.labels) && |gx.labels| == |gy.labels|
  {
    BatchOutcomeOrderIrrelevant(xs, ys, thres);
    var gx, gy := GraphToolFull(xs, thres).value.graph, GraphToolFull(ys, thres).value.graph;
    GraphToolFullShape(xs, thres);
    GraphToolFullShape(ys, thres);
    AllIdsPermutation(xs, ys, thres);
    DistinctCard(gx.labels);
    DistinctCard(gy.labels);
  }

  /** Reordering the events yields the same edges, aggregates included, and
      as many. */
  lemma BatchEdgesOrderIrrelevant(xs: seq<Event>, ys: seq<Event>, thres: int)
    requires multiset(xs) == multiset(ys)
    requires GraphToolFull(xs, thres).Success?
    ensures GraphToolFull(ys, thres).Success?
    ensures var gx, gy := GraphToolFull(xs, thres).value.graph, GraphToolFull(ys, thres).value.graph;
            Elems(gx.edges) == Elems(gy.edges) && |gx.edges| == |gy.edges|
  {
    BatchOutcomeOrderIrrelevant(xs, ys, thres);
    var gx, gy := GraphToolFull(xs, thres).value.graph, GraphToolFull(ys, thres).value.graph;
    forall a, b ensures ObsAgg(xs, thres, a, b) == ObsAgg(ys, thres, a, b) {
      ObsAggPermutation(xs, ys, thres, a, b);
    }
    EdgesAgree(xs, ys, thres);
    EdgesAgree(ys, xs, thres);
    GraphToolFullShape(xs, thres);
    GraphToolFullShape(ys, thres);
    UniquePairsDistinct(gx.edges);
    UniquePairsDistinct(gy.edges);
  }

  /** Reordering the events gives every edge the same weight. */
  lemma BatchWeightsOrderIrrelevant(xs: seq<Event>, ys: seq<Event>, thres: int)
    requires multiset(xs) == multiset(ys)
    requires GraphToolFull(xs, thres).Success?
    ensures GraphToolFull(ys, thres).Success?
    ensures var nx, ny := GraphToolFull(xs, thres).value, GraphToolFull(ys, thres).value;
            forall i, j | 0 <= i < |nx.graph.edges| && 0 <= j < |ny.graph.edges| && nx.graph.edges[i] == ny.graph.edges[j] ::
              nx.weights[i] == ny.weights[j]
  {
    BatchOutcomeOrderIrrelevant(xs, ys, thres);
    EventsTotalPermutation(xs, ys, thres);
    GraphToolFullWeights(xs, thres);
    GraphToolFullWeights(ys, thres);
  }

  /** Folding a concatenation is folding one part after the other. */
  lemma {:induction false} FoldAppend(g: Option<Graph>, xs: seq<Event>, ys: seq<Event>, thres: int)
    ensures FoldEvents(g, xs + ys, thres) == FoldEvents(FoldEvents(g, xs, thres), ys, thres)
    decreases |xs|
  {
    if xs == [] {
      assert xs + ys == ys;
    } else {
      assert (xs + ys)[0] == xs[0] && (xs + ys)[1..] == xs[1..] + ys;
      FoldAppend(Some(Step(g, xs[0], thres)), xs[1..], ys, thres);
    }
  }

  /** The builder is not idempotent: feeding the same events a second time
      through the unnormalised graph adds their observations again. */
  lemma ReplayAddsAgain(g: Option<Graph>, events: seq<Event>, thres: int, a: string, b: string)
    ensures var once, twice := FoldEvents(g, events, thres), FoldEvents(g, events + events, thres);
            PairAgg(Start(twice).edges, a, b) == PairAgg(Start(once).edges, a, b).Plus(ObsAgg(events, thres, a, b))
  {
    FoldAppend(g, events, events, thres);
    FoldPairAgg(FoldEvents(g, events, thres), events, thres, a, b);
  }

  /** From no graph, a replayed event sequence yields exactly twice the
      prediction sum and twice the count on every pair. */
  lemma ReplayDoubles(events: seq<Event>, thres: int, a: string, b: string)
    ensures var once, twice := FoldEvents(None, events, thres), FoldEvents(None, events + events, thres);
            && PairAgg(Start(twice).edges, a, b).sum == 2.0 * PairAgg(Start(once).edges, a, b).sum
            && PairAgg(Start(twice).edges, a, b).count == 2 * PairAgg(Start(once).edges, a, b).count
  {
    ReplayAddsAgain(None, events, thres, a, b);
    FoldFromNothing(events, thres, a, b);
  }

  /** Two event sequences that agree on clicked item and recommendations,
      event by event. */
  predicate SameClicks(xs: seq<Event>, ys: seq<Event>) {
    |xs| == |ys| && forall i | 0 <= i < |xs| :: xs[i].iid == ys[i].iid && xs[i].recs == ys[i].recs
  }

  lemma {:induction false} FoldSameClicks(g: Option<Graph>, xs: seq<Event>, ys: seq<Event>, thres: int)
    requires SameClicks(xs, ys)
    ensures FoldEvents(g, xs, thres) == FoldEvents(g, ys, thres)
    decreases |xs|
  {
    if xs != [] {
      assert Step(g, xs[0], thres) == Step(g, ys[0], thres);
      assert SameClicks(xs[1..], ys[1..]) by {
        forall i | 0 <= i < |xs| - 1 ensures xs[1..][i].iid == ys[1..][i].iid && xs[1..][i].recs == ys[1..][i].recs {
          assert xs[1..][i] == xs[i + 1] && ys[1..][i] == ys[i + 1];
        }
      }
      FoldSameClicks(Some(Step(g, xs[0], thres)), xs[1..], ys[1..], thres);
    }
  }

  /** The user id and the timestamp of an event play no part in the batch. */
  lemma UserAndTimestampIgnored(xs: seq<Event>, ys: seq<Event>, thres: int)
    requires SameClicks(xs, ys)
    ensures GraphToolFull(xs, thres) == GraphToolFull(ys, thres)
  {
    FoldSameClicks(None, xs, ys, thres);
  }
}
