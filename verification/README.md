# rec2graph: the co-recommendation graph builder, in Dafny

This project models the graph-construction core of `rec2graph.py`. The core
turns a stream of recommendation events into an aggregated, weighted
co-recommendation graph:

- `itemGraphUpdate` is one fold step. It registers the clicked item and every
  recommended item as a vertex, each label at most once. Then, for each
  recommendation `(iid, pred)`, it gets or creates the edge `clicked -> iid`
  and adds `pred` to its `scoreSum` and 1 to its `scoreCount`. Weighted mode
  reuses an existing edge. Unweighted mode always adds a new parallel edge.
- `userItemGraphUpdate` is the same step on a bipartite graph. Labels are
  namespaced (`u_<uid>`, `i_<iid>`) and edges run user -> item.
- `normalizedWeight` is the final pass. With `s` the sum of all `scoreSum` and
  `c` the sum of all `scoreCount`, each edge gets `scoreSum / (s/c) * 100`,
  or 1 when unweighted.
- `graph_toolFull` folds `itemGraphUpdate(iid, recs[:thres], g, True)` over the
  events and normalises once.

How the model represents them:

- A graph (`Graphs.Graph`) is a sequence of unique vertex labels plus a
  sequence of edges.
- Each edge names its endpoints by label and carries an `Aggregate`
  `(sum: real, count: nat)`, which stands for `scoreSum` and `scoreCount`.
- `find_vertex` becomes label membership.
- `g.edge(..., add_missing=True)` becomes "first matching edge, or append".
- `g.add_edge` becomes "append".
- Predictions are `real`, so accumulation is exactly commutative.

The source adds new vertices by iterating a Python set, so their order is
unspecified. The model fixes one order:

- item mode: recommendation order, then the clicked item;
- bipartite mode: item labels, then the user label.

The contracts state the vertex set, the vertex count and that old vertices
keep their places, never the order of the new ones; the worked examples in
`Scenarios` likewise state their vertices as a set.
`Graphs.AddVerticesOrderIrrelevant` shows that any enumeration gives the same
vertex set and the same vertex count. Edge order does not depend on this
choice: edges are created in recommendation order.

Reference definitions state what the builder should compute, independently
of any graph:

- `Builder.RecAgg`, `Batch.ObsAgg` and `Batch.EventsTotal` sum the
  observations in the events.
- `Batch.AllIds` collects every id the events mention.
- `Graphs.PairAgg` and `Graphs.TotalAgg` read the same sums back off an edge
  store.

The lemmas connect the two sides.

Modules, one per file:

| file | module | contents |
|---|---|---|
| `results.dfy` | `Results` | `Option` and `Result` |
| `aggregates.dfy` | `Aggregates` | the edge aggregate and its algebra |
| `graphs.dfy` | `Graphs` | vertex registry, edge store, one accumulation |
| `builder.dfy` | `Builder` | item-mode and bipartite update steps |
| `normalization.dfy` | `Normalization` | the weighting pass |
| `batch.dfy` | `Batch` | `graph_toolFull`, the fold's laws |
| `scenarios.dfy` | `Scenarios` | worked examples |

## Model

| member | source | states |
|---|---|---|
| Graphs.AddVertex | rec2graph.py:211-215 | A vertex is added only when no vertex has that label: old vertices stay in place, the label set grows by exactly that id, and labels stay unique |
| Graphs.AddVertices | rec2graph.py:211-215 | Registering a list of ids keeps the old vertices in place, makes the label set old labels ∪ ids, and creates no duplicate label |
| Graphs.AddVerticesOrderIrrelevant | rec2graph.py:210-211 | Any enumeration of the same set of ids gives the same vertex set and the same number of vertices, so the unspecified set-iteration order is unobservable |
| Graphs.FindEdge | rec2graph.py:225 | The lookup behind `g.edge` returns the first edge `a -> b`, and returns nothing exactly when no such edge exists |
| Graphs.Accumulate | rec2graph.py:224-230 | One recommendation adds an edge unless weighted mode finds one already. Unweighted mode appends `a -> b` with sum `pred` and count 1 and keeps every old edge |
| Graphs.AccumulateFrame | rec2graph.py:224-230 | One recommendation changes only `a -> b` edges, every touched edge has a positive count, and weighted mode never introduces a parallel edge |
| Graphs.AccumulatePairAgg | rec2graph.py:229-230 | One recommendation adds exactly one observation `(pred, 1)` to the pair `a -> b` and nothing to any other pair, in both modes |
| Graphs.AccumulateTotalAgg | rec2graph.py:229-230 | One recommendation adds `(pred, 1)` to the graph-wide totals |
| Builder.Start | rec2graph.py:193-203 | With no graph the step starts from a new graph that is valid, has no vertices and carries no observations; a given graph is updated as it is |
| Builder.RecAggPositive | rec2graph.py:173-175 | A candidate has a positive observation count in a list exactly when it occurs in it, and the list's total count is its length |
| Builder.AccumulateAll | rec2graph.py:220-230 | The edge loop appends exactly one edge per recommendation in unweighted mode; in weighted mode it adds at most one per recommendation and never removes an edge. What the edges hold is stated by the three lemmas below |
| Builder.AccumulateAllFrame | rec2graph.py:220-230 | The edge loop changes only edges from the clicked vertex to a recommended item, each with a positive count. Weighted mode keeps at most one edge per pair |
| Builder.UnweightedAppends | rec2graph.py:222-230 | Unweighted mode keeps the old edges and appends, in list order, one edge `src -> id` per recommendation with sum `pred` and count 1 |
| Builder.AccumulateAllAggregates | rec2graph.py:222-230 | The edge loop adds to every pair `src -> y` the sum and number of the predictions for `y` in the list, changes no other pair, and adds the whole list to the totals |
| Builder.ItemGraphUpdate | rec2graph.py:207-216 | After an item-mode step the label set is old ∪ {clicked} ∪ recommended ids, the old vertices are unchanged, and every label occurs once |
| Builder.ItemGraphUpdateEdges | rec2graph.py:220-230 | An item-mode step leaves every edge other than `clicked -> recommended id` in its place and unchanged, creates or changes only such edges, and keeps the graph valid. Weighted mode adds no parallel edge. Unweighted mode keeps the old edges and grows the edge count by exactly the list length |
| Builder.ItemGraphUpdateAggregates | rec2graph.py:222-230 | An item-mode step adds each recommendation's prediction and one count to the pair `clicked -> id`, changes no other pair, and grows the totals by the whole list, in both modes |
| Builder.WeightedItemUpdateEdges | rec2graph.py:221-230 | In weighted mode each resulting edge carries its pair's old aggregate plus this event's observations of that pair, and every recommended item has a `clicked -> id` edge |
| Builder.UserLabel | rec2graph.py:287-289 | A user vertex label is in the `u_` namespace and never in the `i_` namespace |
| Builder.ItemLabel | rec2graph.py:282-284 | An item vertex label is in the `i_` namespace and never in the `u_` namespace |
| Builder.ItemLabelInjective | rec2graph.py:282-284 | Distinct item ids get distinct item labels |
| Builder.UserItemGraphUpdate | rec2graph.py:278-292 | After a bipartite step the label set is old ∪ {`u_`uid} ∪ {`i_`id for each recommended id}, the old vertices are unchanged, and every label occurs once |
| Builder.UserItemGraphUpdateFrame | rec2graph.py:294-305 | A bipartite step leaves every edge other than `u_`uid `->` a recommended `i_` label in its place and unchanged |
| Builder.UserItemGraphUpdateEdges | rec2graph.py:294-305 | A bipartite step leaves every edge other than `u_`uid `->` a recommended `i_` label in its place and unchanged, and creates or changes only such edges. Weighted mode adds no parallel edge. Unweighted mode appends one edge per recommendation |
| Builder.UserItemGraphUpdateValid | rec2graph.py:278-305 | A bipartite step keeps every edge between registered vertices, with a positive count |
| Builder.UserItemLabelsNamespaced | rec2graph.py:278-289 | A bipartite step registers only `u_` and `i_` labels |
| Builder.UserItemGraphUpdateBipartite | rec2graph.py:278-305 | A bipartite step keeps users on edge sources and items on edge targets, so user and item vertices never mix |
| Builder.UserItemGraphUpdateAggregates | rec2graph.py:294-305 | A bipartite step adds the user's observations of item `b` to the pair `u_`user `-> i_`b. Other users' pairs are unchanged. The totals grow by the whole list |
| Normalization.NormalizedWeight | rec2graph.py:329-354 | Normalisation fails exactly when the total count is 0 (ZeroCount), or, in weighted mode, when the total sum is 0 (ZeroAverage). On success it keeps the graph and its aggregates and gives one weight per edge |
| Normalization.EdgeWeights | rec2graph.py:340-349 | The weight loop gives one weight per edge in edge order: weighted, a weight times the average is 100 times the edge's prediction sum; unweighted, every weight is 1 |
| Normalization.NormalizedWeightClosedForm | rec2graph.py:337-349 | Weighted: an edge's weight is `scoreSum * c * 100 / s`, its raw sum over the average, as a percentage. Unweighted: every weight is 1 |
| Normalization.NormalizedWeightsSum | rec2graph.py:340-349 | Weighted weights add up to `100 * c`, since each edge is weighted by its raw sum and not its mean. Unweighted weights add up to the number of edges |
| Batch.Take | rec2graph.py:374 | `recs[:thres]` is a prefix of the list, never a reordering. Its length follows Python slicing, including a negative `thres` |
| Batch.Step | rec2graph.py:374 | One loop step registers the clicked item and the first `thres` recommended items as vertices and keeps the old vertices in place |
| Batch.FoldEvents | rec2graph.py:372-374 | The loop ends with no graph exactly when it started with none and there were no events |
| Batch.FoldKeepsLabels | rec2graph.py:372-374 | The fold keeps every vertex it started with, in place |
| Batch.FoldLabelSet | rec2graph.py:372-374 | The fold's vertex set is the starting set plus every clicked id and every kept recommended id |
| Batch.FoldNoDuplicates | rec2graph.py:372-374 | The fold never registers a label twice |
| Batch.FoldKeepsShape | rec2graph.py:372-374 | The weighted fold keeps the graph valid and free of parallel edges |
| Batch.FoldPairAgg | rec2graph.py:173-175 | The fold adds to each pair `A -> B` the sum and the number of the predictions for `B` in events that clicked `A` |
| Batch.FoldTotalAgg | rec2graph.py:372-374 | The fold adds every kept recommendation entry to the totals |
| Batch.FoldFromNothing | rec2graph.py:372-374 | Starting from no graph, every pair aggregate is exactly its observations, and the totals are exactly all kept entries |
| Batch.GraphToolFull | rec2graph.py:372-377 | The batch fails with NoGraph exactly when there are no events, with ZeroCount exactly when no entry survives the threshold, and with ZeroAverage exactly when the kept predictions sum to 0. Otherwise it succeeds |
| Batch.GraphToolFullShape | rec2graph.py:372-377 | A finished graph is valid, has no parallel edges, and has exactly one vertex per id the events mention |
| Batch.GraphToolFullEdgeAggregates | rec2graph.py:173-175 | Each edge `A -> B` of a finished graph carries the sum and the count of all predictions for `B` after clicks on `A` |
| Batch.GraphToolFullEdgeExists | rec2graph.py:173 | A finished graph has an edge `A -> B` exactly when some event clicking `A` kept a recommendation of `B` |
| Batch.GraphToolFullIsNormalized | rec2graph.py:372-377 | A successful batch is one weighted normalisation of the folded graph, and that graph's totals are the event totals |
| Batch.GraphToolFullWeights | rec2graph.py:372-377 | In a finished graph each edge's weight is its prediction sum times the number of kept entries times 100, over the sum of all kept predictions |
| Batch.GraphToolFullWeightsSum | rec2graph.py:372-377 | The weights of a finished graph add up to 100 times the number of kept recommendation entries |
| Batch.ObsAggAppend | rec2graph.py:372-374 | The observations of a pair over concatenated event lists are the combination of each part's observations |
| Batch.ObsAggPermutation | rec2graph.py:372-374 | Any reordering of the events gives every pair the same observations |
| Batch.EventsTotalPermutation | rec2graph.py:372-374 | Any reordering of the events gives the same totals |
| Batch.AllIdsPermutation | rec2graph.py:372-374 | Any reordering of the events mentions the same ids |
| Batch.BatchOutcomeOrderIrrelevant | rec2graph.py:372-377 | Any reordering of the events succeeds or fails alike, and fails with the same error |
| Batch.BatchLabelsOrderIrrelevant | rec2graph.py:372-377 | Any reordering of the events gives the same vertex set and vertex count |
| Batch.BatchEdgesOrderIrrelevant | rec2graph.py:372-377 | Any reordering of the events gives the same set of edges, aggregates included, and the same edge count |
| Batch.BatchWeightsOrderIrrelevant | rec2graph.py:372-377 | Any reordering of the events gives every edge the same weight |
| Batch.FoldAppend | rec2graph.py:372-374 | Folding two event lists back to back equals folding the second from the first's result |
| Batch.ReplayAddsAgain | rec2graph.py:229-230 | Replaying events through the unnormalised graph adds their observations a second time, so the builder is not idempotent |
| Batch.ReplayDoubles | rec2graph.py:372-374 | From no graph, replaying the event list doubles every pair's prediction sum and count |
| Batch.UserAndTimestampIgnored | rec2graph.py:373-374 | Two event lists that agree on clicked item and recommendations give the same batch result, whatever their user ids and timestamps |
| Scenarios.SecondStep | rec2graph.py:207-230 | Whatever the vertex order, a second click A:[X 6.0] registers nothing new and adds its observation to the existing edge A -> X |
| Scenarios.WeightedExample | rec2graph.py:372-377 | Clicks A:[X 4.0, Y 2.0] and A:[X 6.0] with threshold 2 give the vertices {A, X, Y} once each, A -> X with (10.0, 2) and weight 250, and A -> Y with (2.0, 1) and weight 50 |
| Scenarios.UnweightedExample | rec2graph.py:224-230 | The same clicks unweighted give three parallel edges A -> X, A -> Y, A -> X, each with one observation and weight 1 |

## Left out

- `gexfFormat` (rec2graph.py:23-82) is left out: it writes XML with a trigonometric layout.
- `graph_tool2hop` (rec2graph.py:84-168) is left out: it is a layout, colour and file-output routine.
- `main` and `deployment/commandsCreator.py` are left out: argument parsing, pickle loading, random seeding and command-file generation.
- `g.save(filename)` in `graph_toolFull` is not modelled: it is file I/O.
- The diagnostic prints in `normalizedWeight`, and its `np.mean` and `np.std` statistics, are not modelled: they are output only.
- IEEE floating-point rounding is not modelled. Scores are `real`, so sums are exact and order-independent. The source's float sums are order-independent only up to rounding.
- The 32-bit width of the `scoreCount` property is not modelled. Counts are unbounded `nat`.
- `str()` conversion of raw ids is not modelled. Ids are strings from the start. With non-string ids, the bipartite lookup `'i_' + iid` (rec2graph.py:297) would fail on the unconverted id; that case is outside the model.
- graph_tool's internals (vertex handles, property maps, `find_vertex`) are modelled abstractly: labels stand for vertices, and edges are records in a sequence.
- Malformed input is modelled only as far as the types allow. An empty identifier is an ordinary `string`; the source and the model both accept it as a label. A non-numeric score cannot be expressed, because scores are `real`. The source performs no validation of its own.
- The source updates the given graph in place (`g = graph`, rec2graph.py:200 and 268) and `normalizedWeight` adds the weight property to its argument (rec2graph.py:324-356). The model is pure and returns a new graph. A caller that keeps a reference to the old graph would see the difference; `graph_toolFull` does not, since it reassigns `g` after every call (rec2graph.py:374 and 377).
- Weighted lookup on a store with parallel edges is not modelled as graph_tool does it. `Graphs.FindEdge` reuses the first matching edge. Weighted folds never create parallel edges (`Batch.FoldKeepsShape`), so this case does not arise in the batch.
- In unweighted mode the source still runs `scoreSum += pred` on each new edge. The model follows the code: each parallel edge has sum `pred` and count 1. The sum is not treated as unset.
- Normalisation failures are modelled as error results. The source raises Python's `ZeroDivisionError` at `s / float(c)` or at `scoreSum / avgPred`.
- Calling `normalizedWeight(None)` raises an AttributeError in the source; this happens when `graph_toolFull` gets an empty event list. It is modelled as the `NoGraph` error.
- `userItemGraphUpdate` accepts `clicked_iid` but never uses it. The model keeps the parameter and ignores it.
