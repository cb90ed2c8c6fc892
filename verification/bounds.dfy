/**
 * The four coverage bounds of metrics/ObservedInstancesMetric.kt, stated over the set of
 * observed Bitmasks by reference definitions (resolutions, hitting sets, a bipartite graph)
 * and tied together by `lower <= minUnCover <= maxUnCover <= upper <= 2^width`. When every
 * ground-truth hint fits its observation, the real coverage sits between MinUnCover and
 * MaxUnCover.
 */
module CoverageBounds {
  import opened Common
  import opened Valuations
  import opened Bitmasks
  import opened PowerLists
  import opened MaxUnCoverGraph
  import MinUnCover
  import Cardinality

  // ---- the observed set (`mutableSetOf<Bitmask>()`) ------------------------------------

  /** The shapes of the observed Bitmasks; the set dedupes by shape. */
  function Shapes(o: seq<Bitmask>): set<Shape>
  {
    set i | 0 <= i < |o| :: ShapeOf(o[i])
  }

  lemma ShapesSnoc(o: seq<Bitmask>, b: Bitmask)
    ensures Shapes(o + [b]) == Shapes(o) + {ShapeOf(b)}
  {
    var r := o + [b];
    forall s | s in Shapes(r) ensures s in Shapes(o) + {ShapeOf(b)} {
      var i :| 0 <= i < |r| && ShapeOf(r[i]) == s;
      if i < |o| {
        assert r[i] == o[i];
      }
    }
    forall s | s in Shapes(o) ensures s in Shapes(r) {
      var i :| 0 <= i < |o| && ShapeOf(o[i]) == s;
      assert r[i] == o[i];
    }
    assert ShapeOf(r[|o|]) in Shapes(r);
  }

  /**
   * `observedInstances.add(b)` on a LinkedHashSet: a Bitmask equal to one already present is
   * ignored, a new one goes to the end.
   */
  function Insert(o: seq<Bitmask>, b: Bitmask): (r: seq<Bitmask>)
    ensures Shapes(r) == Shapes(o) + {ShapeOf(b)}
    ensures DistinctShapes(o) ==> DistinctShapes(r)
    ensures |o| <= |r| <= |o| + 1 && r[..|o|] == o
  {
    if ShapeOf(b) in Shapes(o) then o
    else
      ShapesSnoc(o, b);
      assert (o + [b])[..|o|] == o;
      o + [b]
  }

  /** Adding a Bitmask equal to one just added changes nothing. */
  lemma InsertIdempotent(o: seq<Bitmask>, a: Bitmask, b: Bitmask)
    requires SameBitmask(a, b)
    ensures Insert(Insert(o, a), b) == Insert(o, a)
  {
    SameBitmaskIsSameShape(a, b);
  }

  /** A set with pairwise different shapes has as many shapes as members. */
  lemma {:induction false} ShapesCard(o: seq<Bitmask>)
    requires DistinctShapes(o)
    ensures |Shapes(o)| == |o|
  {
    if |o| > 0 {
      var init := o[..|o| - 1];
      assert o == init + [o[|o| - 1]];
      assert DistinctShapes(init);
      ShapesCard(init);
      ShapesSnoc(init, o[|o| - 1]);
      assert ShapeOf(o[|o| - 1]) !in Shapes(init);
    }
  }

  // ---- lower bound: `calculateLowerBound` -----------------------------------------------

  /** `observedInstances.filter { !it.containsUnknown() }.size`. */
  function CountCertain(o: seq<Bitmask>): (n: nat)
    ensures n <= |o|
  {
    if |o| == 0 then 0
    else CountCertain(o[..|o| - 1]) + (if ContainsUnknown(o[|o| - 1]) then 0 else 1)
  }

  function CertainShapes(o: seq<Bitmask>): set<Shape>
  {
    set i | 0 <= i < |o| && !ContainsUnknown(o[i]) :: ShapeOf(o[i])
  }

  lemma CertainShapesSnoc(o: seq<Bitmask>, b: Bitmask)
    ensures CertainShapes(o + [b]) == CertainShapes(o) + (if ContainsUnknown(b) then {} else {ShapeOf(b)})
  {
    var r := o + [b];
    forall s | s in CertainShapes(r) ensures s in CertainShapes(o) + (if ContainsUnknown(b) then {} else {ShapeOf(b)}) {
      var i :| 0 <= i < |r| && !ContainsUnknown(r[i]) && ShapeOf(r[i]) == s;
      if i < |o| {
        assert r[i] == o[i];
      }
    }
    forall s | s in CertainShapes(o) ensures s in CertainShapes(r) {
      var i :| 0 <= i < |o| && !ContainsUnknown(o[i]) && ShapeOf(o[i]) == s;
      assert r[i] == o[i];
    }
    if !ContainsUnknown(b) {
      assert ShapeOf(r[|o|]) in CertainShapes(r);
    }
  }

  /** The lower bound counts the distinct fully known observations. */
  lemma {:induction false} CountCertainIsCard(o: seq<Bitmask>)
    requires DistinctShapes(o)
    ensures CountCertain(o) == |CertainShapes(o)|
  {
    if |o| > 0 {
      var init, last := o[..|o| - 1], o[|o| - 1];
      assert o == init + [last];
      assert DistinctShapes(init);
      CountCertainIsCard(init);
      CertainShapesSnoc(init, last);
      if !ContainsUnknown(last) {
        assert ShapeOf(last) !in CertainShapes(init);
      }
    }
  }

  /** A fully known observation is its own resolution, so the lower bound never exceeds the upper. */
  lemma LowerBelowUpper(o: seq<Bitmask>)
    requires DistinctShapes(o)
    ensures CountCertain(o) <= |AllResolutions(o)|
  {
    forall s | s in CertainShapes(o) ensures s in AllResolutions(o) {
      var i :| 0 <= i < |o| && !ContainsUnknown(o[i]) && ShapeOf(o[i]) == s;
      CertainResolutions(o[i]);
      ResolutionsInUnion(o, i);
    }
    CountCertainIsCard(o);
    Cardinality.SubsetBound(CertainShapes(o), AllResolutions(o));
  }

  // ---- upper bound: `calculateUpperBound` ----------------------------------------------

  /** The union of the resolutions of all observations: every concrete Bitmask reachable. */
  function AllResolutions(o: seq<Bitmask>): set<Shape>
  {
    if |o| == 0 then {} else AllResolutions(o[..|o| - 1]) + Resolutions(o[|o| - 1])
  }

  lemma {:induction false} ResolutionsInUnion(o: seq<Bitmask>, i: nat)
    requires i < |o|
    ensures Resolutions(o[i]) <= AllResolutions(o)
  {
    if i < |o| - 1 {
      ResolutionsInUnion(o[..|o| - 1], i);
    }
  }

  lemma {:induction false} UnionWitness(o: seq<Bitmask>, s: Shape)
    requires s in AllResolutions(o)
    ensures exists i :: 0 <= i < |o| && s in Resolutions(o[i])
  {
    var init := o[..|o| - 1];
    if s !in Resolutions(o[|o| - 1]) {
      UnionWitness(init, s);
      var i :| 0 <= i < |init| && s in Resolutions(init[i]);
      assert init[i] == o[i];
    }
  }

  /** The sum of the power-list sizes, which the upper bound does not use. */
  function SumOfSizes(o: seq<Bitmask>): nat
  {
    if |o| == 0 then 0 else SumOfSizes(o[..|o| - 1]) + Pow2(CountUnknown(o[|o| - 1]))
  }

  /** The upper bound is a union: never more than the sum of the power-list sizes. */
  lemma {:induction false} UnionNotSum(o: seq<Bitmask>)
    ensures |AllResolutions(o)| <= SumOfSizes(o)
  {
    if |o| > 0 {
      var init, last := o[..|o| - 1], o[|o| - 1];
      UnionNotSum(init);
      ResolutionsCard(last);
      var a, b := AllResolutions(init), Resolutions(last);
      assert a + b == a + (b - a);
      Cardinality.SubsetBound(b - a, b);
    }
  }

  lemma ExtendEmpty(k: Key)
    ensures Extend({[]}, k) == {[k]}
  {
    assert [] + [k] == [k];
    forall t | t in Extend({[]}, k) ensures t == [k] {
      var s :| s in {[]} && t == s + [k];
    }
  }

  /** `[?]` and `[T]` reach two concrete Bitmasks, not three. */
  lemma UnionSmallerThanSum()
    ensures |AllResolutions([[UNKNOWN], [TRUE]])| == 2 < SumOfSizes([[UNKNOWN], [TRUE]]) == 3
  {
    var o := [[UNKNOWN], [TRUE]];
    assert o[..1] == [[UNKNOWN]] && o[..1][..0] == [];
    assert [UNKNOWN][..0] == [] && [TRUE][..0] == [];
    ExtendEmpty(TrueKey);
    ExtendEmpty(FalseKey);
    assert Resolutions([UNKNOWN]) == {[TrueKey], [FalseKey]};
    assert Resolutions([TRUE]) == {[TrueKey]};
    assert AllResolutions(o[..1][..0]) == {};
    assert AllResolutions(o[..1]) == Resolutions([UNKNOWN]);
    assert AllResolutions(o) == {[TrueKey], [FalseKey]};
    assert [TrueKey] != [FalseKey];
    assert SumOfSizes(o[..1]) == Pow2(CountUnknown([UNKNOWN]));
    assert CountUnknown([UNKNOWN]) == 1 && CountUnknown([TRUE]) == 0;
    assert Pow2(1) == 2;
  }

  /** A Bitmask of w unknowns: its resolutions are all concrete Bitmasks of width w. */
  function Unknowns(w: nat): (b: Bitmask)
    ensures |b| == w && CountUnknown(b) == w
  {
    if w == 0 then []
    else
      var p := Unknowns(w - 1);
      assert (p + [UNKNOWN])[..w - 1] == p;
      p + [UNKNOWN]
  }

  /** A resolution of a legal Bitmask is a resolution of the all-unknown Bitmask of its width. */
  lemma LegalResolutionIsConcrete(b: Bitmask, s: Shape)
    requires AllLegal(b) && s in Resolutions(b)
    ensures s in Resolutions(Unknowns(|b|))
  {
    var u := Unknowns(|b|);
    ResolutionsMembership(b, s);
    forall j | 0 <= j < |b| ensures s[j] in Choices(u[j]) {
      assert IsLegal(b[j]);
      assert u[j].IsUnknown() by {
        if !u[j].IsUnknown() {
          assert CountUnknown(u) < |u| by { NotAllUnknown(u, j); }
        }
      }
    }
    ResolutionsMembership(u, s);
  }

  /** A Bitmask with a known entry has fewer unknowns than entries. */
  lemma {:induction false} NotAllUnknown(b: Bitmask, j: nat)
    requires j < |b| && !b[j].IsUnknown()
    ensures CountUnknown(b) < |b|
  {
    var init := b[..|b| - 1];
    if j < |b| - 1 {
      assert init[j] == b[j];
      NotAllUnknown(init, j);
    } else {
      assert CountUnknown(init) <= |init|;
    }
  }

  /** With legal observations of width w, the upper bound is at most 2^w (`maxPossible`). */
  lemma UpperAtMostMaxPossible(o: seq<Bitmask>, w: nat)
    requires forall i :: 0 <= i < |o| ==> |o[i]| == w && AllLegal(o[i])
    ensures |AllResolutions(o)| <= Pow2(w)
  {
    forall s | s in AllResolutions(o) ensures s in Resolutions(Unknowns(w)) {
      UnionWitness(o, s);
      var i :| 0 <= i < |o| && s in Resolutions(o[i]);
      LegalResolutionIsConcrete(o[i], s);
    }
    Cardinality.SubsetBound(AllResolutions(o), Resolutions(Unknowns(w)));
    ResolutionsCard(Unknowns(w));
  }

  // ---- the power lists the engine computes -----------------------------------------------

  function OptionShapeSet(opts: seq<Bitmask>): set<Shape>
  {
    set j | 0 <= j < |opts| :: ShapeOf(opts[j])
  }

  /** What `powerList(instance)` returns, as PowerLists.PowerList proves. */
  predicate PowerListOf(instance: Bitmask, opts: seq<Bitmask>)
  {
    |opts| == Pow2(CountUnknown(instance)) && DistinctShapes(opts) &&
    (forall j :: 0 <= j < |opts| ==> IsResolution(opts[j], instance)) &&
    OptionShapeSet(opts) == Resolutions(instance) &&
    (!ContainsUnknown(instance) ==> opts == [instance])
  }

  /** `observedInstances.map { it to powerList(it) }`. */
  predicate PowerListsOf(o: seq<Bitmask>, pl: seq<PowerEntry>)
  {
    |pl| == |o| && forall i :: 0 <= i < |pl| ==> pl[i].instance == o[i] && PowerListOf(o[i], pl[i].options)
  }

  /** Every observation may be rendered. */
  predicate ObservedLegal(o: seq<Bitmask>)
  {
    forall i :: 0 <= i < |o| ==> AllLegal(o[i])
  }

  /** The distinct options across the power lists are the union of the resolutions. */
  lemma OptionShapesAreUnion(o: seq<Bitmask>, pl: seq<PowerEntry>)
    requires PowerListsOf(o, pl)
    ensures MinUnCover.OptionShapes(pl) == AllResolutions(o)
  {
    forall s | s in MinUnCover.OptionShapes(pl) ensures s in AllResolutions(o) {
      var i, j :| 0 <= i < |pl| && 0 <= j < |pl[i].options| && s == ShapeOf(pl[i].options[j]);
      assert s in OptionShapeSet(pl[i].options);
      ResolutionsInUnion(o, i);
    }
    forall s | s in AllResolutions(o) ensures s in MinUnCover.OptionShapes(pl) {
      UnionWitness(o, s);
      var i :| 0 <= i < |o| && s in Resolutions(o[i]);
      assert s in OptionShapeSet(pl[i].options);
    }
  }

  lemma PowerListsNonEmpty(o: seq<Bitmask>, pl: seq<PowerEntry>)
    requires PowerListsOf(o, pl)
    ensures MinUnCover.NoEmptyPowerList(pl)
  {
  }

  /** A resolution of a legal entry is legal; an illegal entry resolves only to itself. */
  lemma ResolutionLegality(c: Bitmask, b: Bitmask)
    requires IsResolution(c, b)
    ensures AllLegal(c) <==> AllLegal(b)
  {
    forall j | 0 <= j < |b| ensures IsLegal(c[j]) <==> IsLegal(b[j]) {
      assert ShapeOf(c)[j] in Choices(b[j]);
    }
  }

  /** Rendering the power lists fails exactly when some observation is illegal. */
  lemma LegalityAgrees(o: seq<Bitmask>, pl: seq<PowerEntry>)
    requires PowerListsOf(o, pl)
    ensures MinUnCover.OptionsLegal(pl) <==> ObservedLegal(o)
    ensures GraphLegal(pl) <==> ObservedLegal(o)
  {
    forall i, j | 0 <= i < |pl| && 0 <= j < |pl[i].options|
      ensures AllLegal(pl[i].options[j]) <==> AllLegal(o[i])
    {
      ResolutionLegality(pl[i].options[j], o[i]);
    }
    if MinUnCover.OptionsLegal(pl) {
      forall i | 0 <= i < |o| ensures AllLegal(o[i]) {
        assert AllLegal(pl[i].options[0]);
      }
    }
  }

  // ---- MinUnCover: the minimum hitting set over the resolutions --------------------------

  /** h holds some resolution of every observation. */
  predicate HitsAll(h: set<Shape>, o: seq<Bitmask>)
  {
    forall i :: 0 <= i < |o| ==> Resolutions(o[i]) * h != {}
  }

  /** n concrete Bitmasks can explain every observation, and no fewer can. */
  ghost predicate IsMinUnCover(o: seq<Bitmask>, n: nat)
  {
    (exists h {:trigger HitsAll(h, o)} :: HitsAll(h, o) && |h| == n) &&
    forall h {:trigger HitsAll(h, o)} :: HitsAll(h, o) ==> n <= |h|
  }

  lemma HittingSetsAgree(o: seq<Bitmask>, pl: seq<PowerEntry>, h: set<Shape>)
    requires PowerListsOf(o, pl)
    ensures MinUnCover.IsHittingSet(h, pl) <==> HitsAll(h, o)
  {
    forall i | 0 <= i < |o| ensures MinUnCover.Hits(h, pl[i].options) <==> Resolutions(o[i]) * h != {} {
      var opts := pl[i].options;
      if MinUnCover.Hits(h, opts) {
        var j :| 0 <= j < |opts| && ShapeOf(opts[j]) in h;
        assert ShapeOf(opts[j]) in OptionShapeSet(opts);
      }
      if Resolutions(o[i]) * h != {} {
        var s :| s in Resolutions(o[i]) * h;
        assert s in OptionShapeSet(opts);
      }
    }
  }

  /** The MaxSAT encoding over the power lists has the reference MinUnCover as its optimum. */
  lemma MinUnCoverAgrees(o: seq<Bitmask>, pl: seq<PowerEntry>, n: nat)
    requires PowerListsOf(o, pl)
    ensures MinUnCover.IsMinimumHittingSetSize(pl, n) <==> IsMinUnCover(o, n)
  {
    forall h ensures MinUnCover.IsHittingSet(h, pl) <==> HitsAll(h, o) {
      HittingSetsAgree(o, pl, h);
    }
  }

  // ---- MaxUnCover: the maximum matching of the reference graph -----------------------------

  function ObservedSide(o: seq<Bitmask>): set<Vertex>
  {
    set i | 0 <= i < |o| :: Observed(ShapeOf(o[i]))
  }

  function PossibleSide(o: seq<Bitmask>): set<Vertex>
  {
    set s | s in AllResolutions(o) :: Possible(s)
  }

  function RefEdges(o: seq<Bitmask>): set<Edge>
  {
    set i, s | 0 <= i < |o| && s in Resolutions(o[i]) :: Edge(Observed(ShapeOf(o[i])), Possible(s))
  }

  /** Every observation joined to each of its resolutions. */
  function RefGraph(o: seq<Bitmask>): Graph
  {
    Graph(ObservedSide(o) + PossibleSide(o), RefEdges(o))
  }

  /** k observations can be given pairwise different resolutions, and no more can. */
  ghost predicate IsMaxUnCover(o: seq<Bitmask>, k: nat)
  {
    IsMaximumMatchingSize(RefGraph(o), k)
  }

  /** The engine's graph (left vertices "o$instance") is the reference graph. */
  lemma GraphAgrees(o: seq<Bitmask>, pl: seq<PowerEntry>)
    requires PowerListsOf(o, pl)
    ensures GraphOf(pl, false) == RefGraph(o)
  {
    assert Partition1(pl, false) == ObservedSide(o);
    RightSideAgrees(o, pl);
    EdgesAgree(o, pl);
  }

  lemma RightSideAgrees(o: seq<Bitmask>, pl: seq<PowerEntry>)
    requires PowerListsOf(o, pl)
    ensures Partition2(pl) == PossibleSide(o)
  {
    OptionShapesAreUnion(o, pl);
    forall v | v in Partition2(pl) ensures v in PossibleSide(o) {
      var i, j :| 0 <= i < |pl| && 0 <= j < |pl[i].options| && v == Possible(ShapeOf(pl[i].options[j]));
      assert v.shape in MinUnCover.OptionShapes(pl);
    }
    forall v | v in PossibleSide(o) ensures v in Partition2(pl) {
      assert v.shape in MinUnCover.OptionShapes(pl);
    }
  }

  lemma EdgesAgree(o: seq<Bitmask>, pl: seq<PowerEntry>)
    requires PowerListsOf(o, pl)
    ensures GraphEdges(pl, false) == RefEdges(o)
  {
    forall e | e in GraphEdges(pl, false) ensures e in RefEdges(o) {
      var i, j :| 0 <= i < |pl| && 0 <= j < |pl[i].options| &&
        e == Edge(ObservedVertex(i, pl[i].instance, false), Possible(ShapeOf(pl[i].options[j])));
      assert ShapeOf(pl[i].options[j]) in OptionShapeSet(pl[i].options);
    }
    forall e | e in RefEdges(o) ensures e in GraphEdges(pl, false) {
      var i, s :| 0 <= i < |o| && s in Resolutions(o[i]) && e == Edge(Observed(ShapeOf(o[i])), Possible(s));
      assert s in OptionShapeSet(pl[i].options);
    }
  }

  // ---- the chain lower <= MinUnCover <= MaxUnCover <= upper --------------------------------

  /** Every hitting set holds the shape of each fully known observation. */
  lemma CertainInEveryHittingSet(o: seq<Bitmask>, h: set<Shape>)
    requires HitsAll(h, o)
    ensures CertainShapes(o) <= h
  {
    forall s | s in CertainShapes(o) ensures s in h {
      var i :| 0 <= i < |o| && !ContainsUnknown(o[i]) && ShapeOf(o[i]) == s;
      CertainResolutions(o[i]);
      assert Resolutions(o[i]) * h != {};
    }
  }

  lemma LowerBelowHittingSets(o: seq<Bitmask>, h: set<Shape>)
    requires DistinctShapes(o) && HitsAll(h, o)
    ensures CountCertain(o) <= |h|
  {
    CountCertainIsCard(o);
    CertainInEveryHittingSet(o, h);
    Cardinality.SubsetBound(CertainShapes(o), h);
  }

  /** Each reference edge joins an observation to one of its resolutions. */
  lemma RefEdge(o: seq<Bitmask>, e: Edge) returns (i: nat)
    requires e in RefEdges(o)
    ensures i < |o| && e.source == Observed(ShapeOf(o[i])) && e.target.Possible? && e.target.shape in Resolutions(o[i])
  {
    var i', s :| 0 <= i' < |o| && s in Resolutions(o[i']) && e == Edge(Observed(ShapeOf(o[i'])), Possible(s));
    i := i';
  }

  lemma RefGraphIsBipartite(o: seq<Bitmask>)
    ensures IsBipartition(RefGraph(o), ObservedSide(o), PossibleSide(o))
  {
    forall e | e in RefEdges(o) ensures e.source in ObservedSide(o) && e.target in PossibleSide(o) {
      var i := RefEdge(o, e);
      ResolutionsInUnion(o, i);
    }
  }

  /** No matching is larger than the upper bound. */
  lemma MatchingBelowUpper(o: seq<Bitmask>, m: set<Edge>)
    requires IsMatching(RefGraph(o), m)
    ensures |m| <= |AllResolutions(o)|
  {
    RefGraphIsBipartite(o);
    MatchingBound(RefGraph(o), ObservedSide(o), PossibleSide(o), m);
    PossibleSideCard(o);
  }

  lemma PossibleSideCard(o: seq<Bitmask>)
    ensures |PossibleSide(o)| == |AllResolutions(o)|
  {
    PossibleCard(AllResolutions(o));
  }

  lemma {:induction false} PossibleCard(r: set<Shape>)
    ensures |set s | s in r :: Possible(s)| == |r|
  {
    if r != {} {
      var x :| x in r;
      PossibleCard(r - {x});
      assert (set s | s in r :: Possible(s)) == (set s | s in r - {x} :: Possible(s)) + {Possible(x)};
    }
  }

  /** The options a matching uses. */
  function MatchedShapes(m: set<Edge>): set<Shape>
  {
    set e | e in m :: e.target.shape
  }

  /**
   * The options a maximum matching uses explain every observation: a matched observation by
   * its partner, an unmatched one because all its resolutions are taken (else the matching
   * would grow).
   */
  lemma MatchedShapesHitAll(o: seq<Bitmask>, m: set<Edge>)
    requires DistinctShapes(o)
    requires IsMaximumMatching(RefGraph(o), m)
    ensures HitsAll(MatchedShapes(m), o)
  {
    forall i | 0 <= i < |o| ensures Resolutions(o[i]) * MatchedShapes(m) != {} {
      var v := Observed(ShapeOf(o[i]));
      if e :| e in m && Touches(e, v) {
        var i' := RefEdge(o, e);
        assert i' == i;
        assert e.target.shape in MatchedShapes(m);
      } else {
        UnmatchedIsCovered(o, m, i);
      }
    }
  }

  lemma UnmatchedIsCovered(o: seq<Bitmask>, m: set<Edge>, i: nat)
    requires i < |o|
    requires IsMaximumMatching(RefGraph(o), m)
    requires forall e :: e in m ==> !Touches(e, Observed(ShapeOf(o[i])))
    ensures Resolutions(o[i]) * MatchedShapes(m) != {}
  {
    var v := Observed(ShapeOf(o[i]));
    ResolutionsCard(o[i]);
    var s :| s in Resolutions(o[i]);
    var f := Edge(v, Possible(s));
    assert f in RefEdges(o);
    MaximumMatchingIsMaximal(RefGraph(o), m, f);
    var e :| e in m && Touches(e, Possible(s));
    var _ := RefEdge(o, e);
    assert s in MatchedShapes(m);
  }

  /** MinUnCover never exceeds MaxUnCover. */
  lemma MinBelowMax(o: seq<Bitmask>, n: nat, k: nat)
    requires DistinctShapes(o)
    requires IsMinUnCover(o, n) && IsMaxUnCover(o, k)
    ensures n <= k
  {
    var m :| IsMaximumMatching(RefGraph(o), m) && |m| == k;
    MatchedShapesHitAll(o, m);
    MatchedShapesBound(m);
  }

  lemma {:induction false} MatchedShapesBound(m: set<Edge>)
    ensures |MatchedShapes(m)| <= |m|
  {
    if m != {} {
      var x :| x in m;
      MatchedShapesBound(m - {x});
      assert MatchedShapes(m) == MatchedShapes(m - {x}) + {x.target.shape};
    }
  }

  /** The whole chain: lower <= MinUnCover <= MaxUnCover <= upper. */
  lemma BoundChain(o: seq<Bitmask>, n: nat, k: nat)
    requires DistinctShapes(o)
    requires IsMinUnCover(o, n) && IsMaxUnCover(o, k)
    ensures CountCertain(o) <= n <= k <= |AllResolutions(o)|
  {
    var h :| HitsAll(h, o) && |h| == n;
    LowerBelowHittingSets(o, h);
    MinBelowMax(o, n, k);
    var m :| IsMaximumMatching(RefGraph(o), m) && |m| == k;
    MatchingBelowUpper(o, m);
  }

  // ---- the real value: `calculateRealValue` -------------------------------------------------

  /** The ground-truth hints of one Bitmask, `it.map { t -> t.realValue }`. */
  function RealValues(b: Bitmask): (v: seq<Option<bool>>)
    ensures |v| == |b|
  {
    seq(|b|, j requires 0 <= j < |b| => b[j].realValue)
  }

  /** `observedInstances.map { it.map { t -> t.realValue } }.toSet().size`. */
  function RealValue(o: seq<Bitmask>): (n: nat)
    ensures n <= |o|
  {
    var lists := seq(|o|, i requires 0 <= i < |o| => RealValues(o[i]));
    Cardinality.SeqSetBound(lists);
    |set v | v in lists|
  }

  /** The key a hint stands for; a missing hint stands for unknown. */
  function HintKey(x: Option<bool>): Key
  {
    match x
    case Some(value) => Key(value, !value)
    case None => UnknownKey
  }

  function HintShape(v: seq<Option<bool>>): Shape
  {
    seq(|v|, j requires 0 <= j < |v| => HintKey(v[j]))
  }

  /** The concrete Bitmask the hints of b describe. */
  function RealShape(b: Bitmask): Shape
  {
    HintShape(RealValues(b))
  }

  /** The hint is present and is one of the truth values the valuation allows. */
  predicate HintFits(v: Valuation)
  {
    HintKey(v.realValue) in Choices(v)
  }

  /** Every ground-truth hint fits its observation. */
  predicate HintsFit(o: seq<Bitmask>)
  {
    forall i, j :: 0 <= i < |o| && 0 <= j < |o[i]| ==> HintFits(o[i][j])
  }

  function RealShapes(o: seq<Bitmask>): set<Shape>
  {
    set i | 0 <= i < |o| :: RealShape(o[i])
  }

  lemma HintShapeInjective(v: seq<Option<bool>>, w: seq<Option<bool>>)
    requires HintShape(v) == HintShape(w)
    ensures v == w
  {
    assert |v| == |w|;
    forall j | 0 <= j < |v| ensures v[j] == w[j] {
      assert HintShape(v)[j] == HintShape(w)[j];
    }
  }

  /** Different hint lists describe different concrete Bitmasks, so the real value counts them. */
  lemma RealValueIsRealShapes(o: seq<Bitmask>)
    ensures RealValue(o) == |RealShapes(o)|
  {
    var lists := seq(|o|, i requires 0 <= i < |o| => RealValues(o[i]));
    var vs := set v | v in lists;
    forall v, w | v in vs && w in vs && HintShape(v) == HintShape(w) ensures v == w {
      HintShapeInjective(v, w);
    }
    HintShapeImage(vs);
    assert RealShapes(o) == set v | v in vs :: HintShape(v) by {
      forall s | s in RealShapes(o) ensures s in set v | v in vs :: HintShape(v) {
        var i :| 0 <= i < |o| && s == RealShape(o[i]);
        assert lists[i] in vs;
      }
    }
  }

  lemma {:induction false} HintShapeImage(vs: set<seq<Option<bool>>>)
    requires forall v, w :: v in vs && w in vs && HintShape(v) == HintShape(w) ==> v == w
    ensures |set v | v in vs :: HintShape(v)| == |vs|
  {
    if vs != {} {
      var x :| x in vs;
      HintShapeImage(vs - {x});
      assert (set v | v in vs :: HintShape(v)) == (set v | v in vs - {x} :: HintShape(v)) + {HintShape(x)};
    }
  }

  /** When the hints fit, the real Bitmask is one of the resolutions. */
  lemma RealShapeResolves(o: seq<Bitmask>, i: nat)
    requires HintsFit(o) && i < |o|
    ensures RealShape(o[i]) in Resolutions(o[i])
  {
    ResolutionsMembership(o[i], RealShape(o[i]));
  }

  /** The real Bitmasks explain every observation. */
  lemma RealShapesHitAll(o: seq<Bitmask>)
    requires HintsFit(o)
    ensures HitsAll(RealShapes(o), o)
  {
    forall i | 0 <= i < |o| ensures RealShape(o[i]) in Resolutions(o[i]) * RealShapes(o) {
      RealShapeResolves(o, i);
    }
  }

  /** The first observation whose real Bitmask is s. */
  ghost function Representative(o: seq<Bitmask>, s: Shape): (i: nat)
    requires s in RealShapes(o)
    ensures i < |o| && RealShape(o[i]) == s
  {
    var i :| 0 <= i < |o| && RealShape(o[i]) == s; i
  }

  /** One edge per real Bitmask, from an observation that has it. */
  ghost function RealEdges(o: seq<Bitmask>): set<Edge>
  {
    set s | s in RealShapes(o) :: Edge(Observed(ShapeOf(o[Representative(o, s)])), Possible(s))
  }

  /** The real Bitmasks can be matched to pairwise different observations. */
  lemma RealEdgesMatch(o: seq<Bitmask>)
    requires DistinctShapes(o) && HintsFit(o)
    ensures IsMatching(RefGraph(o), RealEdges(o))
    ensures |RealEdges(o)| == |RealShapes(o)|
  {
    forall e | e in RealEdges(o) ensures e in RefEdges(o) {
      var s :| s in RealShapes(o) && e == Edge(Observed(ShapeOf(o[Representative(o, s)])), Possible(s));
      RealShapeResolves(o, Representative(o, s));
    }
    RealEdgesCard(o, RealShapes(o));
  }

  lemma {:induction false} RealEdgesCard(o: seq<Bitmask>, r: set<Shape>)
    requires r <= RealShapes(o)
    ensures |set s | s in r :: Edge(Observed(ShapeOf(o[Representative(o, s)])), Possible(s))| == |r|
  {
    if r != {} {
      var x :| x in r;
      RealEdgesCard(o, r - {x});
      var f := Edge(Observed(ShapeOf(o[Representative(o, x)])), Possible(x));
      assert (set s | s in r :: Edge(Observed(ShapeOf(o[Representative(o, s)])), Possible(s))) ==
        (set s | s in r - {x} :: Edge(Observed(ShapeOf(o[Representative(o, s)])), Possible(s))) + {f};
    }
  }

  /** The real Bitmasks form a hitting set, so MinUnCover is at most their number. */
  lemma MinUnCoverBelowReal(o: seq<Bitmask>, n: nat)
    requires HintsFit(o) && IsMinUnCover(o, n)
    ensures n <= |RealShapes(o)|
  {
    RealShapesHitAll(o);
  }

  /** The real Bitmasks give a matching, so MaxUnCover is at least their number. */
  lemma RealBelowMaxUnCover(o: seq<Bitmask>, k: nat)
    requires DistinctShapes(o) && HintsFit(o) && IsMaxUnCover(o, k)
    ensures |RealShapes(o)| <= k
  {
    RealEdgesMatch(o);
    var m :| IsMaximumMatching(RefGraph(o), m) && |m| == k;
    assert |RealEdges(o)| <= |m|;
  }

  /** With fitting hints, MinUnCover <= real value <= MaxUnCover. */
  lemma RealBetweenUnCovers(o: seq<Bitmask>, n: nat, k: nat)
    requires DistinctShapes(o) && HintsFit(o)
    requires IsMinUnCover(o, n) && IsMaxUnCover(o, k)
    ensures n <= RealValue(o) <= k
  {
    RealValueIsRealShapes(o);
    MinUnCoverBelowReal(o, n);
    RealBelowMaxUnCover(o, k);
  }
}
