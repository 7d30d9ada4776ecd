/** The recommendation graph: a registry of unique vertex labels and a store
    of directed edges, each carrying its running score aggregate. A vertex is
    identified by its label; an edge names its endpoints by label. */
module Graphs {
  import opened Results
  import opened Aggregates

  /** One entry of a recommendation list: candidate item id and prediction. */
  datatype Rec = Rec(id: string, pred: real)

  /** A directed edge `src -> dst` with its (scoreSum, scoreCount). */
  datatype Edge = Edge(src: string, dst: string, agg: Aggregate)

  datatype Graph = Graph(labels: seq<string>, edges: seq<Edge>)

  /** The graph built when no previous graph is given. */
  const EmptyGraph: Graph := Graph([], [])

  function Elems<T>(s: seq<T>): set<T> {
    set x | x in s
  }

  predicate NoDuplicates<T(==)>(s: seq<T>) {
    forall i, j | 0 <= i < j < |s| :: s[i] != s[j]
  }

  /** The candidate ids of a recommendation list, in list order. */
  function Ids(recs: seq<Rec>): (ids: seq<string>)
    ensures |ids| == |recs|
    ensures forall k | 0 <= k < |recs| :: ids[k] == recs[k].id
  {
    seq(|recs|, k requires 0 <= k < |recs| => recs[k].id)
  }

  predicate Connects(e: Edge, a: string, b: string) {
    e.src == a && e.dst == b
  }

  predicate HasEdge(edges: seq<Edge>, a: string, b: string) {
    exists j | 0 <= j < |edges| :: Connects(edges[j], a, b)
  }

  /** At most one edge per ordered pair of endpoints (weighted mode). */
  predicate UniquePairs(edges: seq<Edge>) {
    forall i, j | 0 <= i < j < |edges| ::
      edges[i].src != edges[j].src || edges[i].dst != edges[j].dst
  }

  /** Labels are unique, every edge joins registered vertices, and every
      edge was created by at least one observation. */
  predicate Valid(g: Graph) {
    && NoDuplicates(g.labels)
    && forall j | 0 <= j < |g.edges| ::
         && g.edges[j].src in g.labels
         && g.edges[j].dst in g.labels
         && g.edges[j].agg.count > 0
  }

  // ---------------------------------------------------------------------
  // Vertex registry
  // ---------------------------------------------------------------------

  /** Regrouping a union built in two steps. */
  lemma UnionRegroup<T>(whole: set<T>, part: set<T>, base: set<T>, a: set<T>, b: set<T>)
    requires whole == part + b && part == base + a
    ensures whole == base + (a + b) && whole == base + b + a
  {
  }

  /** Adds vertex `id` unless a vertex with that label exists. */
  function AddVertex(labels: seq<string>, id: string): (r: seq<string>)
    ensures labels <= r
    ensures Elems(r) == Elems(labels) + {id}
    ensures NoDuplicates(labels) ==> NoDuplicates(r)
  {
    if id in labels then labels else labels + [id]
  }

  /** Adds each of `ids`, in order, unless already present. */
  function AddVertices(labels: seq<string>, ids: seq<string>): (r: seq<string>)
    ensures labels <= r
    ensures Elems(r) == Elems(labels) + Elems(ids)
    ensures NoDuplicates(labels) ==> NoDuplicates(r)
    decreases |ids|
  {
    if ids == [] then labels
    else
      assert Elems(ids) == {ids[0]} + Elems(ids[1..]) by {
        assert ids == [ids[0]] + ids[1..];
      }
      AddVertices(AddVertex(labels, ids[0]), ids[1..])
  }

  lemma {:induction false} DistinctCard<T>(s: seq<T>)
    requires NoDuplicates(s)
    ensures |Elems(s)| == |s|
    decreases |s|
  {
    if s != [] {
      var n := |s| - 1;
      DistinctCard(s[..n]);
      assert s == s[..n] + [s[n]];
      assert Elems(s) == Elems(s[..n]) + {s[n]};
      assert s[n] !in Elems(s[..n]);
    }
  }

  /** The order in which new labels are enumerated does not matter: any
      enumeration of the same set of ids yields the same vertex set and the
      same number of vertices, with the old vertices kept in place. */
  lemma AddVerticesOrderIrrelevant(labels: seq<string>, xs: seq<string>, ys: seq<string>)
    requires NoDuplicates(labels)
    requires Elems(xs) == Elems(ys)
    ensures Elems(AddVertices(labels, xs)) == Elems(AddVertices(labels, ys))
    ensures |AddVertices(labels, xs)| == |AddVertices(labels, ys)|
    ensures labels <= AddVertices(labels, xs) && labels <= AddVertices(labels, ys)
  {
    DistinctCard(AddVertices(labels, xs));
    DistinctCard(AddVertices(labels, ys));
  }

  // ---------------------------------------------------------------------
  // Edge aggregate store
  // ---------------------------------------------------------------------

  /** The first edge `a -> b`, if any. */
  function FindEdge(edges: seq<Edge>, a: string, b: string): (r: Option<nat>)
    ensures r.Some? ==> r.value < |edges| && Connects(edges[r.value], a, b)
    ensures r.Some? ==> forall j | 0 <= j < r.value :: !Connects(edges[j], a, b)
    ensures r.None? <==> !HasEdge(edges, a, b)
    decreases |edges|
  {
    if edges == [] then None
    else if Connects(edges[0], a, b) then Some(0)
    else
      match FindEdge(edges[1..], a, b)
      case None =>
        assert forall j | 0 < j < |edges| :: edges[j] == edges[1..][j - 1];
        None
      case Some(i) => Some(i + 1)
  }

  /** Adds one observation to an edge's aggregate. */
  function Bump(e: Edge, pred: real): Edge {
    e.(agg := e.agg.Plus(Observation(pred)))
  }

  /** One recommendation `a -> b` with prediction `pred`: in weighted mode the
      existing edge is reused (created only when missing); in unweighted mode
      a new parallel edge is always appended. Either way the edge's
      properties, which start at (0.0, 0), then receive `+= pred` and `+= 1`. */
  function Accumulate(edges: seq<Edge>, a: string, b: string, pred: real, weighted: bool): (r: seq<Edge>)
    ensures |r| == |edges| + (if weighted && HasEdge(edges, a, b) then 0 else 1)
    ensures !weighted ==> edges <= r && r[|edges|] == Edge(a, b, Observation(pred))
  {
    var created := Bump(Edge(a, b, Zero()), pred);
    if !weighted then edges + [created]
    else
      match FindEdge(edges, a, b)
      case None => edges + [created]
      case Some(i) => edges[i := Bump(edges[i], pred)]
  }

  /** An accumulation touches nothing but edges `a -> b`: every other edge
      keeps its place and value, each edge is either untouched or an
      `a -> b` edge with a positive count, and in weighted mode no parallel
      edge is ever introduced. */
  lemma AccumulateFrame(edges: seq<Edge>, a: string, b: string, pred: real, weighted: bool)
    ensures var r := Accumulate(edges, a, b, pred, weighted);
            forall j | 0 <= j < |edges| && !Connects(edges[j], a, b) :: r[j] == edges[j]
    ensures var r := Accumulate(edges, a, b, pred, weighted);
            forall j | 0 <= j < |r| ::
              (j < |edges| && r[j] == edges[j]) || (Connects(r[j], a, b) && r[j].agg.count > 0)
    ensures weighted && UniquePairs(edges) ==> UniquePairs(Accumulate(edges, a, b, pred, weighted))
  {
    var r := Accumulate(edges, a, b, pred, weighted);
    if weighted && FindEdge(edges, a, b).Some? {
      var i := FindEdge(edges, a, b).value;
      assert r == edges[i := Bump(edges[i], pred)];
    } else {
      assert r == edges + [Bump(Edge(a, b, Zero()), pred)];
      if weighted {
        assert !HasEdge(edges, a, b);
      }
    }
  }

  // ---------------------------------------------------------------------
  // Reference sums over the edge store
  // ---------------------------------------------------------------------

  function Share(e: Edge, a: string, b: string): Aggregate {
    if Connects(e, a, b) then e.agg else Zero()
  }

  /** Combined aggregate of all edges `a -> b` (parallel ones included). */
  function PairAgg(edges: seq<Edge>, a: string, b: string): Aggregate {
    if edges == [] then Zero()
    else PairAgg(edges[..|edges| - 1], a, b).Plus(Share(edges[|edges| - 1], a, b))
  }

  /** Combined aggregate of every edge: (sum of scoreSum, sum of scoreCount). */
  function TotalAgg(edges: seq<Edge>): Aggregate {
    if edges == [] then Zero()
    else TotalAgg(edges[..|edges| - 1]).Plus(edges[|edges| - 1].agg)
  }

  lemma {:induction false} PairAggUpdate(edges: seq<Edge>, i: nat, e: Edge, x: string, y: string)
    requires i < |edges|
    ensures PairAgg(edges[i := e], x, y).Plus(Share(edges[i], x, y))
         == PairAgg(edges, x, y).Plus(Share(e, x, y))
    decreases |edges|
  {
    var n := |edges| - 1;
    if i == n {
      assert edges[i := e][..n] == edges[..n];
    } else {
      assert edges[i := e][..n] == edges[..n][i := e];
      PairAggUpdate(edges[..n], i, e, x, y);
    }
  }

  lemma {:induction false} TotalAggUpdate(edges: seq<Edge>, i: nat, e: Edge)
    requires i < |edges|
    ensures TotalAgg(edges[i := e]).Plus(edges[i].agg) == TotalAgg(edges).Plus(e.agg)
    decreases |edges|
  {
    var n := |edges| - 1;
    if i == n {
      assert edges[i := e][..n] == edges[..n];
    } else {
      assert edges[i := e][..n] == edges[..n][i := e];
      TotalAggUpdate(edges[..n], i, e);
    }
  }

  lemma PairAggAppend(edges: seq<Edge>, e: Edge, x: string, y: string)
    ensures PairAgg(edges + [e], x, y) == PairAgg(edges, x, y).Plus(Share(e, x, y))
  {
    assert (edges + [e])[..|edges|] == edges;
  }

  /** Bumping the edge at `i`, an `a -> b` edge, adds one observation to the
      pair `a -> b` and nothing to any other pair. */
  lemma PairAggBump(edges: seq<Edge>, i: nat, a: string, b: string, pred: real, x: string, y: string)
    requires i < |edges| && Connects(edges[i], a, b)
    ensures PairAgg(edges[i := Bump(edges[i], pred)], x, y)
         == PairAgg(edges, x, y).Plus(if x == a && y == b then Observation(pred) else Zero())
  {
    var before, bumped := edges[i], Bump(edges[i], pred);
    PairAggUpdate(edges, i, bumped, x, y);
    var p, q := PairAgg(edges, x, y), PairAgg(edges[i := bumped], x, y);
    if x == a && y == b {
      assert Share(before, x, y) == before.agg && Share(bumped, x, y) == before.agg.Plus(Observation(pred));
      PlusCancel(q, p, before.agg, Observation(pred));
    } else {
      assert Share(before, x, y) == Zero() && Share(bumped, x, y) == Zero();
      PlusZero(q);
      PlusZero(p);
    }
  }

  /** One accumulation adds one observation of `pred` to the pair `a -> b`
      and leaves every other pair's aggregate alone, in both modes. */
  lemma AccumulatePairAgg(edges: seq<Edge>, a: string, b: string, pred: real, weighted: bool, x: string, y: string)
    ensures PairAgg(Accumulate(edges, a, b, pred, weighted), x, y)
         == PairAgg(edges, x, y).Plus(if x == a && y == b then Observation(pred) else Zero())
  {
    var created := Bump(Edge(a, b, Zero()), pred);
    if !weighted || FindEdge(edges, a, b).None? {
      PairAggAppend(edges, created, x, y);
      assert Share(created, x, y) == if x == a && y == b then Observation(pred) else Zero();
    } else {
      PairAggBump(edges, FindEdge(edges, a, b).value, a, b, pred, x, y);
    }
  }

  /** One accumulation adds one observation of `pred` to the totals. */
  lemma AccumulateTotalAgg(edges: seq<Edge>, a: string, b: string, pred: real, weighted: bool)
    ensures TotalAgg(Accumulate(edges, a, b, pred, weighted)) == TotalAgg(edges).Plus(Observation(pred))
  {
    var r := Accumulate(edges, a, b, pred, weighted);
    var created := Bump(Edge(a, b, Zero()), pred);
    if !weighted || FindEdge(edges, a, b).None? {
      assert r == edges + [created];
      assert r[..|r| - 1] == edges;
      assert TotalAgg(r) == TotalAgg(edges).Plus(created.agg);
    } else {
      var i := FindEdge(edges, a, b).value;
      var bumped := Bump(edges[i], pred);
      assert r == edges[i := bumped];
      TotalAggUpdate(edges, i, bumped);
      assert TotalAgg(r).Plus(edges[i].agg) == TotalAgg(edges).Plus(edges[i].agg.Plus(Observation(pred)));
    }
  }

  /** Both aggregate effects of one accumulation together. */
  lemma AccumulateAggregates(edges: seq<Edge>, a: string, b: string, pred: real, weighted: bool, x: string, y: string)
    ensures PairAgg(Accumulate(edges, a, b, pred, weighted), x, y)
         == PairAgg(edges, x, y).Plus(if x == a && y == b then Observation(pred) else Zero())
    ensures TotalAgg(Accumulate(edges, a, b, pred, weighted)) == TotalAgg(edges).Plus(Observation(pred))
  {
    AccumulatePairAgg(edges, a, b, pred, weighted, x, y);
    AccumulateTotalAgg(edges, a, b, pred, weighted);
  }

  /** In a store without parallel edges, the edge `a -> b` alone carries the
      aggregate of the pair. */
  lemma {:induction false} PairAggOfUnique(edges: seq<Edge>, j: nat)
    requires UniquePairs(edges)
    requires j < |edges|
    ensures PairAgg(edges, edges[j].src, edges[j].dst) == edges[j].agg
    decreases |edges|
  {
    var n := |edges| - 1;
    var a, b := edges[j].src, edges[j].dst;
    var prefix := edges[..n];
    if j == n {
      PrefixLacksLast(edges);
      PairAggOfLast(edges, a, b);
    } else {
      assert !Connects(edges[n], a, b);
      UniquePairsPrefix(edges, n);
      assert prefix[j] == edges[j];
      PairAggOfUnique(prefix, j);
    }
  }

  lemma PairAggOfLast(edges: seq<Edge>, a: string, b: string)
    requires edges != [] && Connects(edges[|edges| - 1], a, b)
    requires !HasEdge(edges[..|edges| - 1], a, b)
    ensures PairAgg(edges, a, b) == edges[|edges| - 1].agg
  {
    PairAggAbsent(edges[..|edges| - 1], a, b);
  }

  lemma UniquePairsPrefix(edges: seq<Edge>, n: nat)
    requires UniquePairs(edges)
    requires n <= |edges|
    ensures UniquePairs(edges[..n])
  {
  }

  lemma PrefixLacksLast(edges: seq<Edge>)
    requires UniquePairs(edges)
    requires edges != []
    ensures !HasEdge(edges[..|edges| - 1], edges[|edges| - 1].src, edges[|edges| - 1].dst)
  {
    var n := |edges| - 1;
    forall k | 0 <= k < n ensures !Connects(edges[..n][k], edges[n].src, edges[n].dst) {
      assert edges[..n][k] == edges[k];
    }
  }

  /** A pair without an edge has the empty aggregate. */
  lemma {:induction false} PairAggAbsent(edges: seq<Edge>, a: string, b: string)
    requires !HasEdge(edges, a, b)
    ensures PairAgg(edges, a, b) == Zero()
    decreases |edges|
  {
    if edges != [] {
      var n := |edges| - 1;
      assert !HasEdge(edges[..n], a, b) by {
        forall j | 0 <= j < n ensures !Connects(edges[..n][j], a, b) {
          assert edges[..n][j] == edges[j];
        }
      }
      PairAggAbsent(edges[..n], a, b);
    }
  }
}
