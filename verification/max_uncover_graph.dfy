// MaxUnCover as a maximum matching (MaxUnCoverGraphBased.kt and the private copy in
// ObservedInstancesMetric.kt): a bipartite graph joins every observed instance to each
// option of its power list, and a maximum-cardinality matching of it is the MaxUnCover.
//
// Vertices are strings in the source: "o_${index}_${instance}" (or "o${instance}" in the
// engine's copy) on the left and "$option" on the right. Bitmask rendering is injective on
// legal Bitmasks (Bitmasks.RenderInjective), a left name starts with 'o' and a right name
// with '[', so a vertex is identified by its index and shape, and rendering an illegal
// Bitmask fails.

module MaxUnCoverGraph {
  import opened Common
  import opened Valuations
  import opened Bitmasks
  import opened PowerLists
  import Cardinality
  import MinUnCover
  import MaxSat

  datatype Vertex =
    | IndexedObserved(index: nat, shape: Shape)   // "o_${index}_${instance}"
    | Observed(shape: Shape)                      // "o${instance}"
    | Possible(shape: Shape)                      // "$option"

  /** An undirected edge, stored as it was added; `Edge(u, v)` and `Edge(v, u)` are the same edge. */
  datatype Edge = Edge(source: Vertex, target: Vertex)

  datatype Graph = Graph(vertices: set<Vertex>, edges: set<Edge>)

  predicate Touches(e: Edge, v: Vertex)
  {
    e.source == v || e.target == v
  }

  /** A `SimpleGraph`: every edge joins two different vertices of the graph, at most once. */
  predicate IsSimple(g: Graph)
  {
    forall e :: e in g.edges ==>
      e.source in g.vertices && e.target in g.vertices && e.source != e.target && Edge(e.target, e.source) !in g.edges
  }

  // ---- the graph of the power lists ---------------------------------------------------

  /** The left vertex of entry `index`: tagged with the index, or (engine copy) by the instance alone. */
  function ObservedVertex(index: nat, instance: Bitmask, indexed: bool): (v: Vertex)
    ensures !v.Possible?
  {
    if indexed then IndexedObserved(index, ShapeOf(instance)) else Observed(ShapeOf(instance))
  }

  function Partition1(pl: seq<PowerEntry>, indexed: bool): set<Vertex>
  {
    set i | 0 <= i < |pl| :: ObservedVertex(i, pl[i].instance, indexed)
  }

  function Partition2(pl: seq<PowerEntry>): set<Vertex>
  {
    set i, j | 0 <= i < |pl| && 0 <= j < |pl[i].options| :: Possible(ShapeOf(pl[i].options[j]))
  }

  function GraphEdges(pl: seq<PowerEntry>, indexed: bool): set<Edge>
  {
    set i, j | 0 <= i < |pl| && 0 <= j < |pl[i].options| ::
      Edge(ObservedVertex(i, pl[i].instance, indexed), Possible(ShapeOf(pl[i].options[j])))
  }

  /** The graph `createGraph` builds: both partitions as vertices, one edge per (entry, option). */
  function GraphOf(pl: seq<PowerEntry>, indexed: bool): Graph
  {
    Graph(Partition1(pl, indexed) + Partition2(pl), GraphEdges(pl, indexed))
  }

  predicate InstancesLegal(pl: seq<PowerEntry>)
  {
    forall i :: 0 <= i < |pl| ==> AllLegal(pl[i].instance)
  }

  /** Every vertex name can be rendered. */
  predicate GraphLegal(pl: seq<PowerEntry>)
  {
    InstancesLegal(pl) && MinUnCover.OptionsLegal(pl)
  }

  // ---- matchings --------------------------------------------------------------------

  predicate IsBipartition(g: Graph, p1: set<Vertex>, p2: set<Vertex>)
  {
    p1 !! p2 && p1 + p2 == g.vertices &&
    forall e :: e in g.edges ==> (e.source in p1 && e.target in p2) || (e.source in p2 && e.target in p1)
  }

  /** Edges of the graph, no two of which share a vertex. */
  predicate IsMatching(g: Graph, m: set<Edge>)
  {
    m <= g.edges &&
    forall e1, e2 :: e1 in m && e2 in m && e1 != e2 ==>
      !Touches(e2, e1.source) && !Touches(e2, e1.target)
  }

  ghost predicate IsMaximumMatching(g: Graph, m: set<Edge>)
  {
    IsMatching(g, m) && forall m': set<Edge> :: IsMatching(g, m') ==> |m'| <= |m|
  }

  /** `SparseEdmondsMaximumCardinalityMatching(graph).matching`: a maximum matching of any graph. */
  ghost predicate SparseEdmondsSound(matcher: Graph -> set<Edge>)
  {
    forall g :: IsMaximumMatching(g, matcher(g))
  }

  /** `HopcroftKarpMaximumCardinalityBipartiteMatching(graph, p1, p2).matching`, given a true bipartition. */
  ghost predicate HopcroftKarpSound(matcher: (Graph, set<Vertex>, set<Vertex>) -> set<Edge>)
  {
    forall g, p1, p2 :: IsBipartition(g, p1, p2) ==> IsMaximumMatching(g, matcher(g, p1, p2))
  }

  /** n is the size of a maximum matching of g. */
  ghost predicate IsMaximumMatchingSize(g: Graph, n: nat)
  {
    exists m :: IsMaximumMatching(g, m) && |m| == n
  }

  // ---- lemmas -----------------------------------------------------------------------

  /** Every edge joins a left vertex to a right vertex, and the graph is simple. */
  lemma GraphIsBipartite(pl: seq<PowerEntry>, indexed: bool)
    ensures IsBipartition(GraphOf(pl, indexed), Partition1(pl, indexed), Partition2(pl))
    ensures IsSimple(GraphOf(pl, indexed))
  {
    var g := GraphOf(pl, indexed);
    forall e | e in g.edges ensures e.source in Partition1(pl, indexed) && e.target in Partition2(pl) {
      var i, j :| 0 <= i < |pl| && 0 <= j < |pl[i].options| &&
        e == Edge(ObservedVertex(i, pl[i].instance, indexed), Possible(ShapeOf(pl[i].options[j])));
    }
  }

  /** The edge set is exactly the (entry, option) pairs. */
  lemma EdgeMembership(pl: seq<PowerEntry>, indexed: bool, i: nat, option: Bitmask)
    requires i < |pl|
    ensures Edge(ObservedVertex(i, pl[i].instance, indexed), Possible(ShapeOf(option))) in GraphEdges(pl, indexed) <==>
      exists i', j :: 0 <= i' < |pl| && 0 <= j < |pl[i'].options| &&
        ObservedVertex(i', pl[i'].instance, indexed) == ObservedVertex(i, pl[i].instance, indexed) &&
        ShapeOf(pl[i'].options[j]) == ShapeOf(option)
  {
  }

  /** The left vertices in entry order, one per entry. */
  function LeftVertices(pl: seq<PowerEntry>, indexed: bool): (vs: seq<Vertex>)
  {
    seq(|pl|, i requires 0 <= i < |pl| => ObservedVertex(i, pl[i].instance, indexed))
  }

  lemma LeftVerticesAreLeftPartition(pl: seq<PowerEntry>, indexed: bool)
    ensures Partition1(pl, indexed) == set v | v in LeftVertices(pl, indexed)
  {
    var vs := LeftVertices(pl, indexed);
    forall v | v in vs ensures v in Partition1(pl, indexed) {
      var i :| 0 <= i < |vs| && vs[i] == v;
    }
    forall v | v in Partition1(pl, indexed) ensures v in vs {
      var i :| 0 <= i < |pl| && v == ObservedVertex(i, pl[i].instance, indexed);
      assert vs[i] == v;
    }
  }

  /** The indexed left partition has one vertex per entry. */
  lemma IndexedPartitionSize(pl: seq<PowerEntry>)
    ensures |Partition1(pl, true)| == |pl|
  {
    var vs := LeftVertices(pl, true);
    assert MaxSat.Distinct(vs) by {
      forall i, j | 0 <= i < j < |vs| ensures vs[i] != vs[j] {
        assert vs[i].index == i && vs[j].index == j;
      }
    }
    MaxSat.DistinctCard(vs);
    LeftVerticesAreLeftPartition(pl, true);
  }

  /** The right partition has one vertex per distinct option. */
  lemma Partition2Size(pl: seq<PowerEntry>)
    ensures |Partition2(pl)| == |MinUnCover.OptionShapes(pl)|
  {
    var p := Partition2(pl);
    var shapes := MinUnCover.OptionShapes(pl);
    Cardinality.InjectionBound(p, shapes, (v: Vertex) => v.shape);
    Cardinality.InjectionBound(shapes, p, (s: Shape) => Possible(s));
  }

  /** The left partition never has more vertices than there are entries. */
  lemma Partition1Bound(pl: seq<PowerEntry>, indexed: bool)
    ensures |Partition1(pl, indexed)| <= |pl|
  {
    Cardinality.SeqSetBound(LeftVertices(pl, indexed));
    LeftVerticesAreLeftPartition(pl, indexed);
  }

  /** Two edges of a matching that share a vertex are the same edge. */
  lemma SharedEndpoint(g: Graph, m: set<Edge>, e1: Edge, e2: Edge, v: Vertex)
    requires IsMatching(g, m) && e1 in m && e2 in m
    requires Touches(e1, v) && Touches(e2, v)
    ensures e1 == e2
  {
  }

  /** A matching of a bipartite graph is no larger than either side. */
  lemma MatchingBound(g: Graph, p1: set<Vertex>, p2: set<Vertex>, m: set<Edge>)
    requires IsBipartition(g, p1, p2)
    requires IsMatching(g, m)
    ensures |m| <= |p1| && |m| <= |p2|
  {
    var inP1 := (e: Edge) => if e.source in p1 then e.source else e.target;
    var inP2 := (e: Edge) => if e.source in p1 then e.target else e.source;
    forall e1, e2 | e1 in m && e2 in m && inP1(e1) == inP1(e2) ensures e1 == e2 {
      SharedEndpoint(g, m, e1, e2, inP1(e1));
    }
    forall e1, e2 | e1 in m && e2 in m && inP2(e1) == inP2(e2) ensures e1 == e2 {
      SharedEndpoint(g, m, e1, e2, inP2(e1));
    }
    Cardinality.InjectionBound(m, p1, inP1);
    Cardinality.InjectionBound(m, p2, inP2);
  }

  /** An edge that shares no vertex with a matching extends it by one. */
  lemma AugmentMatching(g: Graph, m: set<Edge>, f: Edge)
    requires IsMatching(g, m) && f in g.edges
    requires forall e :: e in m ==> !Touches(e, f.source) && !Touches(e, f.target)
    ensures IsMatching(g, m + {f}) && |m + {f}| == |m| + 1
  {
    assert f !in m by {
      if f in m {
        assert Touches(f, f.source);
      }
    }
  }

  /** A maximum matching touches every edge of the graph at one end or the other. */
  lemma MaximumMatchingIsMaximal(g: Graph, m: set<Edge>, f: Edge)
    requires IsMaximumMatching(g, m) && f in g.edges
    ensures exists e :: e in m && (Touches(e, f.source) || Touches(e, f.target))
  {
    if forall e :: e in m ==> !Touches(e, f.source) && !Touches(e, f.target) {
      AugmentMatching(g, m, f);
      assert false;
    }
  }

  /** Two maximum matchings of one graph have the same size: the engine's `check(max1 == max2)` holds. */
  lemma MaximumMatchingsAgree(g: Graph, m1: set<Edge>, m2: set<Edge>)
    requires IsMaximumMatching(g, m1) && IsMaximumMatching(g, m2)
    ensures |m1| == |m2|
  {
    assert |m2| <= |m1|;
    assert |m1| <= |m2|;
  }

  /** Both matchers, given the same graph and its bipartition, report the same size. */
  lemma MatchersAgree(pl: seq<PowerEntry>, indexed: bool,
                      sparse: Graph -> set<Edge>, hopcroftKarp: (Graph, set<Vertex>, set<Vertex>) -> set<Edge>)
    requires SparseEdmondsSound(sparse) && HopcroftKarpSound(hopcroftKarp)
    ensures |sparse(GraphOf(pl, indexed))| ==
            |hopcroftKarp(GraphOf(pl, indexed), Partition1(pl, indexed), Partition2(pl))|
  {
    var g := GraphOf(pl, indexed);
    GraphIsBipartite(pl, indexed);
    MaximumMatchingsAgree(g, sparse(g), hopcroftKarp(g, Partition1(pl, indexed), Partition2(pl)));
  }

  /** A maximum matching of the power-list graph covers at most one vertex per entry and per option. */
  lemma MaximumMatchingBounds(pl: seq<PowerEntry>, indexed: bool, m: set<Edge>)
    requires IsMatching(GraphOf(pl, indexed), m)
    ensures |m| <= |Partition1(pl, indexed)| <= |pl|
    ensures |m| <= |Partition2(pl)| == |MinUnCover.OptionShapes(pl)|
  {
    GraphIsBipartite(pl, indexed);
    MatchingBound(GraphOf(pl, indexed), Partition1(pl, indexed), Partition2(pl), m);
    Partition1Bound(pl, indexed);
    Partition2Size(pl);
  }

  // ---- the imperative construction ----------------------------------------------------

  /** jgrapht's `SimpleGraph<String, DefaultEdge>`, as far as `createGraph` uses it. */
  class SimpleGraph {
    var vertices: set<Vertex>
    var edges: set<Edge>

    function View(): Graph
      reads this
    {
      Graph(vertices, edges)
    }

    constructor()
      ensures vertices == {} && edges == {}
    {
      vertices := {};
      edges := {};
    }

    /** `addVertex(v)`: a vertex already present is left alone. */
    method AddVertex(v: Vertex)
      modifies this
      ensures vertices == old(vertices) + {v} && edges == old(edges)
      ensures IsSimple(old(View())) ==> IsSimple(View())
    {
      vertices := vertices + {v};
    }

    /**
     * `addEdge(u, v)` between two present, different vertices: an edge already joining them,
     * in either direction, is kept and no second one is added.
     */
    method AddEdge(u: Vertex, v: Vertex)
      requires u in vertices && v in vertices && u != v
      modifies this
      ensures vertices == old(vertices)
      ensures edges == if Edge(v, u) in old(edges) then old(edges) else old(edges) + {Edge(u, v)}
      ensures IsSimple(old(View())) ==> IsSimple(View())
    {
      if Edge(v, u) !in edges {
        edges := edges + {Edge(u, v)};
      }
    }
  }

  /** `powerLists.mapIndexed { "o_${index}_${instance}" }.toSet()` (or `map { "o${it.first}" }`). */
  method LeftPartition(pl: seq<PowerEntry>, indexed: bool) returns (r: Result<set<Vertex>, Error>)
    ensures r.Failure? <==> !InstancesLegal(pl)
    ensures r.Failure? ==> r.error == IllegalValuation
    ensures r.Success? ==> r.value == Partition1(pl, indexed)
  {
    var p1: set<Vertex> := {};
    for i := 0 to |pl|
      invariant p1 == set i' | 0 <= i' < i :: ObservedVertex(i', pl[i'].instance, indexed)
      invariant forall i' :: 0 <= i' < i ==> AllLegal(pl[i'].instance)
    {
      var name := Interpolate(pl[i].instance);
      if name.Failure? {
        return Failure(name.error);
      }
      p1 := p1 + {ObservedVertex(i, pl[i].instance, indexed)};
    }
    return Success(p1);
  }

  /** The right vertices contributed by the first n options of one power list. */
  function OptionVertices(opts: seq<Bitmask>, n: nat): set<Vertex>
    requires n <= |opts|
  {
    set j | 0 <= j < n :: Possible(ShapeOf(opts[j]))
  }

  /** The right vertices of the first n entries. */
  function EntryVertices(pl: seq<PowerEntry>, n: nat): set<Vertex>
    requires n <= |pl|
  {
    set i, j | 0 <= i < n && 0 <= j < |pl[i].options| :: Possible(ShapeOf(pl[i].options[j]))
  }

  lemma EntryVerticesStep(pl: seq<PowerEntry>, n: nat)
    requires n < |pl|
    ensures EntryVertices(pl, n + 1) == EntryVertices(pl, n) + OptionVertices(pl[n].options, |pl[n].options|)
  {
  }

  /** `powerLists.flatMap { it.second.map { "$it" } }.toSet()`. */
  method RightPartition(pl: seq<PowerEntry>) returns (r: Result<set<Vertex>, Error>)
    ensures r.Failure? <==> !MinUnCover.OptionsLegal(pl)
    ensures r.Failure? ==> r.error == IllegalValuation
    ensures r.Success? ==> r.value == Partition2(pl)
  {
    var p2: set<Vertex> := {};
    for i := 0 to |pl|
      invariant p2 == EntryVertices(pl, i)
      invariant forall i', j :: 0 <= i' < i && 0 <= j < |pl[i'].options| ==> AllLegal(pl[i'].options[j])
    {
      var opts := pl[i].options;
      var added: set<Vertex> := {};
      for j := 0 to |opts|
        invariant added == OptionVertices(opts, j)
        invariant forall j' :: 0 <= j' < j ==> AllLegal(opts[j'])
      {
        var name := Interpolate(opts[j]);
        if name.Failure? {
          return Failure(name.error);
        }
        added := added + {Possible(ShapeOf(opts[j]))};
      }
      EntryVerticesStep(pl, i);
      p2 := p2 + added;
    }
    assert EntryVertices(pl, |pl|) == Partition2(pl);
    return Success(p2);
  }

  /** The edges added for the first n entries. */
  function EdgesUpTo(pl: seq<PowerEntry>, indexed: bool, n: nat): set<Edge>
    requires n <= |pl|
  {
    set i, j | 0 <= i < n && 0 <= j < |pl[i].options| ::
      Edge(ObservedVertex(i, pl[i].instance, indexed), Possible(ShapeOf(pl[i].options[j])))
  }

  /** The edges of entry i to its first n options. */
  function EntryEdges(pl: seq<PowerEntry>, indexed: bool, i: nat, n: nat): set<Edge>
    requires i < |pl| && n <= |pl[i].options|
  {
    set j | 0 <= j < n :: Edge(ObservedVertex(i, pl[i].instance, indexed), Possible(ShapeOf(pl[i].options[j])))
  }

  lemma EntryEdgesStep(pl: seq<PowerEntry>, indexed: bool, i: nat, n: nat)
    requires i < |pl| && n < |pl[i].options|
    ensures EntryEdges(pl, indexed, i, n + 1) ==
      EntryEdges(pl, indexed, i, n) + {Edge(ObservedVertex(i, pl[i].instance, indexed), Possible(ShapeOf(pl[i].options[n])))}
  {
  }

  lemma EdgesUpToStep(pl: seq<PowerEntry>, indexed: bool, n: nat)
    requires n < |pl|
    ensures EdgesUpTo(pl, indexed, n + 1) == EdgesUpTo(pl, indexed, n) + EntryEdges(pl, indexed, n, |pl[n].options|)
  {
  }

  /** `partition.forEach { graph.addVertex(it) }`. */
  method AddVertices(g: SimpleGraph, p: set<Vertex>)
    modifies g
    ensures g.vertices == old(g.vertices) + p && g.edges == old(g.edges)
    ensures IsSimple(old(g.View())) ==> IsSimple(g.View())
  {
    var rest := p;
    while rest != {}
      invariant rest <= p
      invariant g.vertices == old(g.vertices) + (p - rest) && g.edges == old(g.edges)
      invariant IsSimple(old(g.View())) ==> IsSimple(g.View())
      decreases |rest|
    {
      var v :| v in rest;
      g.AddVertex(v);
      rest := rest - {v};
    }
  }

  /** The inner loop of `createGraph`: entry i joined to each of its options. */
  method AddEntryEdges(g: SimpleGraph, pl: seq<PowerEntry>, indexed: bool, i: nat, p1: set<Vertex>, p2: set<Vertex>)
    requires i < |pl| && p1 == Partition1(pl, indexed) && p2 == Partition2(pl)
    requires g.vertices == p1 + p2
    requires forall e :: e in g.edges ==> !e.source.Possible?
    modifies g
    ensures g.vertices == old(g.vertices)
    ensures g.edges == old(g.edges) + EntryEdges(pl, indexed, i, |pl[i].options|)
  {
    var u := ObservedVertex(i, pl[i].instance, indexed);
    assert u in p1;
    for j := 0 to |pl[i].options|
      invariant g.vertices == p1 + p2
      invariant g.edges == old(g.edges) + EntryEdges(pl, indexed, i, j)
      invariant forall e :: e in g.edges ==> !e.source.Possible?
    {
      var v := Possible(ShapeOf(pl[i].options[j]));
      assert v in p2;
      g.AddEdge(u, v);
      EntryEdgesStep(pl, indexed, i, j);
    }
  }

  /**
   * `createGraph(powerLists)`: the two partitions as vertices, then one `addEdge` per
   * (entry, option). Rendering an illegal instance or option fails.
   */
  method CreateGraph(pl: seq<PowerEntry>, indexed: bool) returns (r: Result<(SimpleGraph, set<Vertex>, set<Vertex>), Error>)
    ensures r.Failure? <==> !GraphLegal(pl)
    ensures r.Failure? ==> r.error == IllegalValuation
    ensures r.Success? ==> (fresh(r.value.0) && r.value.0.View() == GraphOf(pl, indexed) &&
                            r.value.1 == Partition1(pl, indexed) && r.value.2 == Partition2(pl))
  {
    var left := LeftPartition(pl, indexed);
    if left.Failure? {
      return Failure(left.error);
    }
    var right := RightPartition(pl);
    if right.Failure? {
      return Failure(right.error);
    }
    var p1, p2 := left.value, right.value;
    var g := new SimpleGraph();
    AddVertices(g, p1);
    AddVertices(g, p2);
    assert p1 !! p2 by {
      forall v | v in p1 ensures !v.Possible? { }
    }
    for i := 0 to |pl|
      invariant g.vertices == p1 + p2
      invariant g.edges == EdgesUpTo(pl, indexed, i)
    {
      AddEntryEdges(g, pl, indexed, i, p1, p2);
      EdgesUpToStep(pl, indexed, i);
    }
    return Success((g, p1, p2));
  }

  /** MaxUnCoverGraphBased: two matchers over the same graph, each with its list of times. */
  class MaxUnCoverGraphBased {
    var totalTimeInSparseEdmonds: seq<int>
    var totalTimeInHopcroftKarp: seq<int>

    constructor()
      ensures totalTimeInSparseEdmonds == [0] && totalTimeInHopcroftKarp == [0]
    {
      totalTimeInSparseEdmonds := [0];
      totalTimeInHopcroftKarp := [0];
    }

    /** `calculateSparseEdmonds`: the size of a maximum matching of the indexed graph. */
    method CalculateSparseEdmonds(pl: seq<PowerEntry>, matcher: Graph -> set<Edge>, elapsed: int) returns (r: Result<nat, Error>)
      requires SparseEdmondsSound(matcher)
      modifies this
      ensures r.Failure? <==> !GraphLegal(pl)
      ensures r.Failure? ==> r.error == IllegalValuation && totalTimeInSparseEdmonds == old(totalTimeInSparseEdmonds)
      ensures r.Success? ==> totalTimeInSparseEdmonds == old(totalTimeInSparseEdmonds) + [elapsed]
      ensures totalTimeInHopcroftKarp == old(totalTimeInHopcroftKarp)
      ensures r.Success? ==> (IsMaximumMatchingSize(GraphOf(pl, true), r.value) &&
                              r.value <= |pl| && r.value <= |MinUnCover.OptionShapes(pl)|)
    {
      var created := CreateGraph(pl, true);
      if created.Failure? {
        return Failure(created.error);
      }
      var (graph, _, _) := created.value;
      var m := matcher(graph.View());
      MaximumMatchingBounds(pl, true, m);
      totalTimeInSparseEdmonds := totalTimeInSparseEdmonds + [elapsed];
      return Success(|m|);
    }

    /** `calculateHopcroftKarp`: the same graph, handed over with its two partitions. */
    method CalculateHopcroftKarp(pl: seq<PowerEntry>, matcher: (Graph, set<Vertex>, set<Vertex>) -> set<Edge>, elapsed: int)
      returns (r: Result<nat, Error>)
      requires HopcroftKarpSound(matcher)
      modifies this
      ensures r.Failure? <==> !GraphLegal(pl)
      ensures r.Failure? ==> r.error == IllegalValuation && totalTimeInHopcroftKarp == old(totalTimeInHopcroftKarp)
      ensures r.Success? ==> totalTimeInHopcroftKarp == old(totalTimeInHopcroftKarp) + [elapsed]
      ensures totalTimeInSparseEdmonds == old(totalTimeInSparseEdmonds)
      ensures r.Success? ==> (IsMaximumMatchingSize(GraphOf(pl, true), r.value) &&
                              r.value <= |pl| && r.value <= |MinUnCover.OptionShapes(pl)|)
    {
      var created := CreateGraph(pl, true);
      if created.Failure? {
        return Failure(created.error);
      }
      var (graph, p1, p2) := created.value;
      GraphIsBipartite(pl, true);
      var m := matcher(graph.View(), p1, p2);
      MaximumMatchingBounds(pl, true, m);
      totalTimeInHopcroftKarp := totalTimeInHopcroftKarp + [elapsed];
      return Success(|m|);
    }
  }
}
