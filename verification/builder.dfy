/** The incremental graph builder: one fold step that registers the vertices
    an event mentions and accumulates one observation per recommendation, in
    item-centric mode (clicked item -> recommended item) and in user-item
    bipartite mode (user -> recommended item, with namespaced labels). */
module Builder {
  import opened Results
  import opened Aggregates
  import opened Graphs

  /** `graph=None` starts from a new graph: valid, without vertices and
      without observations. A given graph is updated as it is. */
  function Start(graph: Option<Graph>): (r: Graph)
    ensures graph.Some? ==> r == graph.value
    ensures graph.None? ==> r.labels == [] && Valid(r) && UniquePairs(r.edges) && TotalAgg(r.edges) == Zero()
  {
    match graph
    case None => EmptyGraph
    case Some(g) => g
  }

  /** Aggregate of the observations of candidate `b` in a recommendation list. */
  function RecAgg(recs: seq<Rec>, b: string): Aggregate
    decreases |recs|
  {
    if recs == [] then Zero()
    else (if recs[0].id == b then Observation(recs[0].pred) else Zero()).Plus(RecAgg(recs[1..], b))
  }

  /** Aggregate of every observation in a recommendation list. */
  function RecsTotal(recs: seq<Rec>): Aggregate
    decreases |recs|
  {
    if recs == [] then Zero() else Observation(recs[0].pred).Plus(RecsTotal(recs[1..]))
  }

  /** A candidate that occurs in the list has been observed at least once. */
  lemma {:induction false} RecAggPositive(recs: seq<Rec>, b: string)
    ensures RecAgg(recs, b).count > 0 <==> b in Ids(recs)
    ensures RecsTotal(recs).count == |recs|
    decreases |recs|
  {
    if recs != [] {
      RecAggPositive(recs[1..], b);
      assert Ids(recs) == [recs[0].id] + Ids(recs[1..]);
    }
  }

  /** The edge loop of one update: one accumulation `src -> id` per entry of
      `recs`, in list order. */
  function AccumulateAll(edges: seq<Edge>, src: string, recs: seq<Rec>, weighted: bool): (r: seq<Edge>)
    ensures !weighted ==> |r| == |edges| + |recs|
    ensures weighted ==> |edges| <= |r| <= |edges| + |recs|
    decreases |recs|
  {
    if recs == [] then edges
    else AccumulateAll(Accumulate(edges, src, recs[0].id, recs[0].pred, weighted), src, recs[1..], weighted)
  }

  /** Unweighted mode appends one new edge per recommendation, in list order,
      each with the recommendation's prediction and a count of one, and leaves
      the existing edges untouched. */
  lemma {:induction false} UnweightedAppends(edges: seq<Edge>, src: string, recs: seq<Rec>)
    ensures edges <= AccumulateAll(edges, src, recs, false)
    ensures forall k | 0 <= k < |recs| ::
              AccumulateAll(edges, src, recs, false)[|edges| + k] == Edge(src, recs[k].id, Observation(recs[k].pred))
    decreases |recs|
  {
    if recs != [] {
      var next := Accumulate(edges, src, recs[0].id, recs[0].pred, false);
      UnweightedAppends(next, src, recs[1..]);
      var r := AccumulateAll(edges, src, recs, false);
      assert r == AccumulateAll(next, src, recs[1..], false);
      forall k | 1 <= k < |recs|
        ensures r[|edges| + k] == Edge(src, recs[k].id, Observation(recs[k].pred))
      {
        assert recs[1..][k - 1] == recs[k];
        assert r[|next| + (k - 1)] == Edge(src, recs[1..][k - 1].id, Observation(recs[1..][k - 1].pred));
      }
    }
  }

  /** The edge loop changes only edges leaving `src` towards a recommended
      item: every other edge keeps its place, each edge is either untouched
      or such an edge with a positive count, and weighted mode never
      introduces a parallel edge. */
  lemma {:induction false} AccumulateAllFrame(edges: seq<Edge>, src: string, recs: seq<Rec>, weighted: bool)
    ensures var r := AccumulateAll(edges, src, recs, weighted);
            forall j | 0 <= j < |edges| && !(edges[j].src == src && edges[j].dst in Ids(recs)) :: r[j] == edges[j]
    ensures var r := AccumulateAll(edges, src, recs, weighted);
            forall j | 0 <= j < |r| ::
              || (j < |edges| && r[j] == edges[j])
              || (r[j].src == src && r[j].dst in Ids(recs) && r[j].agg.count > 0)
    ensures weighted && UniquePairs(edges) ==> UniquePairs(AccumulateAll(edges, src, recs, weighted))
    decreases |recs|
  {
    if recs != [] {
      var next := Accumulate(edges, src, recs[0].id, recs[0].pred, weighted);
      AccumulateFrame(edges, src, recs[0].id, recs[0].pred, weighted);
      AccumulateAllFrame(next, src, recs[1..], weighted);
      assert Ids(recs) == [recs[0].id] + Ids(recs[1..]);
    }
  }

  /** The accumulated edges gain, for every pair `src -> y`, exactly the
      observations of `y` in the list; every other pair keeps its aggregate,
      and the totals grow by the whole list. Holds in both modes. */
  lemma {:induction false} AccumulateAllAggregates(edges: seq<Edge>, src: string, recs: seq<Rec>, weighted: bool, x: string, y: string)
    ensures PairAgg(AccumulateAll(edges, src, recs, weighted), x, y)
         == PairAgg(edges, x, y).Plus(if x == src then RecAgg(recs, y) else Zero())
    ensures TotalAgg(AccumulateAll(edges, src, recs, weighted)) == TotalAgg(edges).Plus(RecsTotal(recs))
    decreases |recs|
  {
    var p, t := PairAgg(edges, x, y), TotalAgg(edges);
    if recs == [] {
      PlusZero(p);
      PlusZero(t);
    } else {
      var next := Accumulate(edges, src, recs[0].id, recs[0].pred, weighted);
      assert AccumulateAll(edges, src, recs, weighted) == AccumulateAll(next, src, recs[1..], weighted);
      AccumulateAggregates(edges, src, recs[0].id, recs[0].pred, weighted, x, y);
      AccumulateAllAggregates(next, src, recs[1..], weighted, x, y);
      var head := if x == src && y == recs[0].id then Observation(recs[0].pred) else Zero();
      var tail := if x == src then RecAgg(recs[1..], y) else Zero();
      PlusAssoc(p, head, tail);
      if x == src {
        assert head.Plus(tail) == RecAgg(recs, y);
      } else {
        PlusZero(Zero());
      }
      PlusAssoc(t, Observation(recs[0].pred), RecsTotal(recs[1..]));
    }
  }

  // ---------------------------------------------------------------------
  // Item-centric mode
  // ---------------------------------------------------------------------

  /** One event in item mode: register the clicked item and every recommended
      item (each label at most once), then accumulate `clicked -> id` for each
      recommendation. New labels are registered in the order of the
      recommendation list, then the clicked item. */
  function ItemGraphUpdate(clicked: string, recs: seq<Rec>, graph: Option<Graph>, weighted: bool): (r: Graph)
    ensures Start(graph).labels <= r.labels
    ensures Elems(r.labels) == Elems(Start(graph).labels) + {clicked} + Elems(Ids(recs))
    ensures NoDuplicates(Start(graph).labels) ==> NoDuplicates(r.labels)
  {
    var g := Start(graph);
    var labels := AddVertices(g.labels, Ids(recs) + [clicked]);
    assert Elems(Ids(recs) + [clicked]) == Elems(Ids(recs)) + {clicked};
    Graph(labels, AccumulateAll(g.edges, clicked, recs, weighted))
  }

  /** The edges of an item-mode update: every edge other than `clicked -> id`
      for a recommended id keeps its place and value, and only such edges are
      created or changed; the graph stays valid; weighted
      mode adds no parallel edge; unweighted mode appends exactly one edge
      per recommendation and keeps the old edges as they were. */
  lemma ItemGraphUpdateEdges(clicked: string, recs: seq<Rec>, graph: Option<Graph>, weighted: bool)
    ensures var g, r := Start(graph), ItemGraphUpdate(clicked, recs, graph, weighted);
            forall j | 0 <= j < |g.edges| && !(g.edges[j].src == clicked && g.edges[j].dst in Ids(recs)) ::
              r.edges[j] == g.edges[j]
    ensures var r := ItemGraphUpdate(clicked, recs, graph, weighted);
            forall j | 0 <= j < |r.edges| ::
              || (j < |Start(graph).edges| && r.edges[j] == Start(graph).edges[j])
              || (r.edges[j].src == clicked && r.edges[j].dst in Ids(recs))
    ensures Valid(Start(graph)) ==> Valid(ItemGraphUpdate(clicked, recs, graph, weighted))
    ensures weighted && UniquePairs(Start(graph).edges) ==> UniquePairs(ItemGraphUpdate(clicked, recs, graph, weighted).edges)
    ensures var r := ItemGraphUpdate(clicked, recs, graph, weighted);
            !weighted ==> Start(graph).edges <= r.edges && |r.edges| == |Start(graph).edges| + |recs|
  {
    var g := Start(graph);
    var r := ItemGraphUpdate(clicked, recs, graph, weighted);
    assert r.edges == AccumulateAll(g.edges, clicked, recs, weighted);
    AccumulateAllFrame(g.edges, clicked, recs, weighted);
    if !weighted {
      UnweightedAppends(g.edges, clicked, recs);
    }
    if Valid(g) {
      forall j | 0 <= j < |r.edges|
        ensures r.edges[j].src in r.labels && r.edges[j].dst in r.labels && r.edges[j].agg.count > 0
      {
        if j < |g.edges| && r.edges[j] == g.edges[j] {
          assert r.edges[j].src in Elems(g.labels) && r.edges[j].dst in Elems(g.labels);
        } else {
          assert r.edges[j].dst in Elems(Ids(recs));
        }
        assert r.edges[j].src in Elems(r.labels) && r.edges[j].dst in Elems(r.labels);
      }
    }
  }

  /** The aggregate of `clicked -> y` grows by the observations of `y` in
      `recs`; every other pair is unchanged; totals grow by the whole list. */
  lemma ItemGraphUpdateAggregates(clicked: string, recs: seq<Rec>, graph: Option<Graph>, weighted: bool)
    ensures forall x, y :: PairAgg(ItemGraphUpdate(clicked, recs, graph, weighted).edges, x, y)
                        == PairAgg(Start(graph).edges, x, y).Plus(if x == clicked then RecAgg(recs, y) else Zero())
    ensures TotalAgg(ItemGraphUpdate(clicked, recs, graph, weighted).edges)
         == TotalAgg(Start(graph).edges).Plus(RecsTotal(recs))
  {
    var g := Start(graph);
    forall x, y
      ensures PairAgg(ItemGraphUpdate(clicked, recs, graph, weighted).edges, x, y)
           == PairAgg(g.edges, x, y).Plus(if x == clicked then RecAgg(recs, y) else Zero())
    {
      AccumulateAllAggregates(g.edges, clicked, recs, weighted, x, y);
    }
    AccumulateAllAggregates(g.edges, clicked, recs, weighted, clicked, clicked);
  }

  /** Weighted mode on a graph without parallel edges: each edge of the result
      carries its pair's old aggregate plus this event's observations of the
      pair, and every recommended item has its `clicked -> id` edge. */
  lemma WeightedItemUpdateEdges(clicked: string, recs: seq<Rec>, graph: Option<Graph>)
    requires UniquePairs(Start(graph).edges)
    ensures var r := ItemGraphUpdate(clicked, recs, graph, true);
            forall j | 0 <= j < |r.edges| ::
              r.edges[j].agg == PairAgg(Start(graph).edges, r.edges[j].src, r.edges[j].dst)
                                  .Plus(if r.edges[j].src == clicked then RecAgg(recs, r.edges[j].dst) else Zero())
    ensures forall b | b in Ids(recs) :: HasEdge(ItemGraphUpdate(clicked, recs, graph, true).edges, clicked, b)
  {
    var g := Start(graph);
    var r := ItemGraphUpdate(clicked, recs, graph, true);
    assert r.edges == AccumulateAll(g.edges, clicked, recs, true);
    AccumulateAllFrame(g.edges, clicked, recs, true);
    forall j | 0 <= j < |r.edges|
      ensures r.edges[j].agg == PairAgg(g.edges, r.edges[j].src, r.edges[j].dst)
                                  .Plus(if r.edges[j].src == clicked then RecAgg(recs, r.edges[j].dst) else Zero())
    {
      AccumulateAllAggregates(g.edges, clicked, recs, true, r.edges[j].src, r.edges[j].dst);
      PairAggOfUnique(r.edges, j);
    }
    forall b | b in Ids(recs) ensures HasEdge(r.edges, clicked, b) {
      RecAggPositive(recs, b);
      AccumulateAllAggregates(g.edges, clicked, recs, true, clicked, b);
      if !HasEdge(r.edges, clicked, b) {
        PairAggAbsent(r.edges, clicked, b);
        assert false;
      }
    }
  }

  // ---------------------------------------------------------------------
  // User-item bipartite mode
  // ---------------------------------------------------------------------

  predicate IsUserLabel(l: string) {
    |l| >= 2 && l[0] == 'u' && l[1] == '_'
  }

  predicate IsItemLabel(l: string) {
    |l| >= 2 && l[0] == 'i' && l[1] == '_'
  }

  /** The vertex label of a user; never an item label. */
  function UserLabel(uid: string): (l: string)
    ensures IsUserLabel(l) && !IsItemLabel(l)
  {
    "u_" + uid
  }

  /** The vertex label of an item; never a user label. */
  function ItemLabel(iid: string): (l: string)
    ensures IsItemLabel(l) && !IsUserLabel(l)
  {
    "i_" + iid
  }

  /** The recommendation list with every candidate renamed to its item label. */
  function ItemRecs(recs: seq<Rec>): (r: seq<Rec>)
    ensures |r| == |recs|
    ensures forall k | 0 <= k < |recs| :: r[k] == Rec(ItemLabel(recs[k].id), recs[k].pred)
  {
    seq(|recs|, k requires 0 <= k < |recs| => Rec(ItemLabel(recs[k].id), recs[k].pred))
  }

  /** User labels only on edge sources, item labels only on edge targets,
      and every vertex is one or the other. */
  predicate Bipartite(g: Graph) {
    && (forall i | 0 <= i < |g.labels| :: IsUserLabel(g.labels[i]) || IsItemLabel(g.labels[i]))
    && (forall j | 0 <= j < |g.edges| :: IsUserLabel(g.edges[j].src) && IsItemLabel(g.edges[j].dst))
  }

  /** The labels of the recommended items. */
  function ItemLabels(recs: seq<Rec>): set<string> {
    set k | 0 <= k < |recs| :: ItemLabel(recs[k].id)
  }

  lemma ItemRecsLabels(recs: seq<Rec>)
    ensures Elems(Ids(ItemRecs(recs))) == ItemLabels(recs)
    ensures forall l | l in ItemLabels(recs) :: IsItemLabel(l)
  {
    var items := ItemRecs(recs);
    forall l | l in Elems(Ids(items)) ensures l in ItemLabels(recs) {
      var k :| 0 <= k < |items| && Ids(items)[k] == l;
      assert l == ItemLabel(recs[k].id);
    }
    forall k | 0 <= k < |recs| ensures ItemLabel(recs[k].id) in Elems(Ids(items)) {
      assert Ids(items)[k] == ItemLabel(recs[k].id);
    }
  }

  /** One event in bipartite mode: register `i_<id>` for every recommended
      item, then `u_<uid>`, each at most once, and accumulate
      `u_<uid> -> i_<id>` for each recommendation. The clicked item id is
      accepted but plays no part. */
  function UserItemGraphUpdate(uid: string, iid: string, recs: seq<Rec>, graph: Option<Graph>, weighted: bool): (r: Graph)
    ensures Start(graph).labels <= r.labels
    ensures Elems(r.labels) == Elems(Start(graph).labels) + {UserLabel(uid)} + ItemLabels(recs)
    ensures NoDuplicates(Start(graph).labels) ==> NoDuplicates(r.labels)
  {
    var g := Start(graph);
    var items := ItemRecs(recs);
    var user := UserLabel(uid);
    ItemRecsLabels(recs);
    var mid := AddVertices(g.labels, Ids(items));
    var labels := AddVertices(mid, [user]);
    assert Elems([user]) == {user};
    UnionRegroup(Elems(labels), Elems(mid), Elems(g.labels), ItemLabels(recs), {user});
    Graph(labels, AccumulateAll(g.edges, user, items, weighted))
  }

  /** A bipartite update leaves every edge other than `u_<uid> -> i_<id>`, for
      a recommended id, in its place and with its aggregate. */
  lemma UserItemGraphUpdateFrame(uid: string, iid: string, recs: seq<Rec>, graph: Option<Graph>, weighted: bool)
    ensures var g, r := Start(graph), UserItemGraphUpdate(uid, iid, recs, graph, weighted);
            forall j | 0 <= j < |g.edges| && !(g.edges[j].src == UserLabel(uid) && g.edges[j].dst in ItemLabels(recs)) ::
              r.edges[j] == g.edges[j]
  {
    var g := Start(graph);
    var items := ItemRecs(recs);
    var user := UserLabel(uid);
    var r := UserItemGraphUpdate(uid, iid, recs, graph, weighted);
    assert r.edges == AccumulateAll(g.edges, user, items, weighted);
    AccumulateAllFrame(g.edges, user, items, weighted);
    ItemRecsLabels(recs);
  }

  /** The edges of a bipartite update: every edge other than `u_<uid> -> i_<id>`
      for a recommended id keeps its place and value, and only such edges are
      created or changed; weighted mode adds no parallel
      edge; unweighted mode appends exactly one edge per recommendation. */
  lemma UserItemGraphUpdateEdges(uid: string, iid: string, recs: seq<Rec>, graph: Option<Graph>, weighted: bool)
    ensures var g, r := Start(graph), UserItemGraphUpdate(uid, iid, recs, graph, weighted);
            forall j | 0 <= j < |g.edges| && !(g.edges[j].src == UserLabel(uid) && g.edges[j].dst in ItemLabels(recs)) ::
              r.edges[j] == g.edges[j]
    ensures var r := UserItemGraphUpdate(uid, iid, recs, graph, weighted);
            forall j | 0 <= j < |r.edges| ::
              || (j < |Start(graph).edges| && r.edges[j] == Start(graph).edges[j])
              || (r.edges[j].src == UserLabel(uid) && r.edges[j].dst in ItemLabels(recs)
                  && r.edges[j].agg.count > 0)
    ensures weighted && UniquePairs(Start(graph).edges) ==> UniquePairs(UserItemGraphUpdate(uid, iid, recs, graph, weighted).edges)
    ensures var r := UserItemGraphUpdate(uid, iid, recs, graph, weighted);
            !weighted ==> Start(graph).edges <= r.edges && |r.edges| == |Start(graph).edges| + |recs|
  {
    var g := Start(graph);
    var items := ItemRecs(recs);
    var user := UserLabel(uid);
    var r := UserItemGraphUpdate(uid, iid, recs, graph, weighted);
    assert r.edges == AccumulateAll(g.edges, user, items, weighted);
    AccumulateAllFrame(g.edges, user, items, weighted);
    ItemRecsLabels(recs);
    UserItemGraphUpdateFrame(uid, iid, recs, graph, weighted);
    forall j | 0 <= j < |r.edges| && !(j < |g.edges| && r.edges[j] == g.edges[j])
      ensures r.edges[j].src == user && r.edges[j].dst in ItemLabels(recs) && r.edges[j].agg.count > 0
    {
      assert r.edges[j].dst in Elems(Ids(items));
    }
    if !weighted {
      UnweightedAppends(g.edges, user, items);
    }
  }

  /** A bipartite update keeps the graph valid. */
  lemma UserItemGraphUpdateValid(uid: string, iid: string, recs: seq<Rec>, graph: Option<Graph>, weighted: bool)
    requires Valid(Start(graph))
    ensures Valid(UserItemGraphUpdate(uid, iid, recs, graph, weighted))
  {
    var g := Start(graph);
    var r := UserItemGraphUpdate(uid, iid, recs, graph, weighted);
    UserItemGraphUpdateEdges(uid, iid, recs, graph, weighted);
    forall j | 0 <= j < |r.edges|
      ensures r.edges[j].src in r.labels && r.edges[j].dst in r.labels && r.edges[j].agg.count > 0
    {
      if j < |g.edges| && r.edges[j] == g.edges[j] {
        assert r.edges[j].src in Elems(g.labels) && r.edges[j].dst in Elems(g.labels);
      } else {
        assert r.edges[j].dst in ItemLabels(recs);
      }
      assert r.edges[j].src in Elems(r.labels) && r.edges[j].dst in Elems(r.labels);
    }
  }

  /** A bipartite update registers only labels in the two namespaces. */
  lemma UserItemLabelsNamespaced(uid: string, iid: string, recs: seq<Rec>, graph: Option<Graph>, weighted: bool)
    requires forall i | 0 <= i < |Start(graph).labels| :: IsUserLabel(Start(graph).labels[i]) || IsItemLabel(Start(graph).labels[i])
    ensures var r := UserItemGraphUpdate(uid, iid, recs, graph, weighted);
            forall i | 0 <= i < |r.labels| :: IsUserLabel(r.labels[i]) || IsItemLabel(r.labels[i])
  {
    var g := Start(graph);
    var r := UserItemGraphUpdate(uid, iid, recs, graph, weighted);
    ItemRecsLabels(recs);
    forall i | 0 <= i < |r.labels| ensures IsUserLabel(r.labels[i]) || IsItemLabel(r.labels[i]) {
      var l := r.labels[i];
      assert l in Elems(r.labels);
      if l in Elems(g.labels) {
        var k :| 0 <= k < |g.labels| && g.labels[k] == l;
      } else if l != UserLabel(uid) {
        assert l in ItemLabels(recs);
      }
    }
  }

  /** A bipartite update keeps users on edge sources, items on edge targets,
      and every vertex in one of the two namespaces. */
  lemma UserItemGraphUpdateBipartite(uid: string, iid: string, recs: seq<Rec>, graph: Option<Graph>, weighted: bool)
    requires Bipartite(Start(graph))
    ensures Bipartite(UserItemGraphUpdate(uid, iid, recs, graph, weighted))
  {
    var g := Start(graph);
    var r := UserItemGraphUpdate(uid, iid, recs, graph, weighted);
    UserItemLabelsNamespaced(uid, iid, recs, graph, weighted);
    UserItemGraphUpdateEdges(uid, iid, recs, graph, weighted);
    ItemRecsLabels(recs);
    forall j | 0 <= j < |r.edges| ensures IsUserLabel(r.edges[j].src) && IsItemLabel(r.edges[j].dst) {
      if !(j < |g.edges| && r.edges[j] == g.edges[j]) {
        assert r.edges[j].dst in ItemLabels(recs);
      }
    }
  }

  lemma ItemLabelInjective(a: string, b: string)
    requires ItemLabel(a) == ItemLabel(b)
    ensures a == b
  {
    assert ItemLabel(a)[2..] == a && ItemLabel(b)[2..] == b;
  }

  lemma {:induction false} RecAggOfItemRecs(recs: seq<Rec>, b: string)
    ensures RecAgg(ItemRecs(recs), ItemLabel(b)) == RecAgg(recs, b)
    ensures RecsTotal(ItemRecs(recs)) == RecsTotal(recs)
    decreases |recs|
  {
    if recs != [] {
      assert ItemRecs(recs)[1..] == ItemRecs(recs[1..]);
      RecAggOfItemRecs(recs[1..], b);
      if ItemLabel(recs[0].id) == ItemLabel(b) {
        ItemLabelInjective(recs[0].id, b);
      }
    }
  }

  /** In bipartite mode the aggregate of `u_<u> -> i_<b>` grows by the
      observations of `b` in `recs` exactly when `u` is the clicking user,
      and the totals grow by the whole list. */
  lemma UserItemGraphUpdateAggregates(uid: string, iid: string, recs: seq<Rec>, graph: Option<Graph>, weighted: bool, u: string, b: string)
    ensures PairAgg(UserItemGraphUpdate(uid, iid, recs, graph, weighted).edges, UserLabel(u), ItemLabel(b))
         == PairAgg(Start(graph).edges, UserLabel(u), ItemLabel(b)).Plus(if u == uid then RecAgg(recs, b) else Zero())
    ensures TotalAgg(UserItemGraphUpdate(uid, iid, recs, graph, weighted).edges)
         == TotalAgg(Start(graph).edges).Plus(RecsTotal(recs))
  {
    var g := Start(graph);
    var user := UserLabel(uid);
    var r := UserItemGraphUpdate(uid, iid, recs, graph, weighted);
    assert r.edges == AccumulateAll(g.edges, user, ItemRecs(recs), weighted);
    AccumulateAllAggregates(g.edges, user, ItemRecs(recs), weighted, UserLabel(u), ItemLabel(b));
    RecAggOfItemRecs(recs, b);
    assert UserLabel(u) == user <==> u == uid by {
      assert UserLabel(u)[2..] == u && user[2..] == uid;
    }
  }
}
