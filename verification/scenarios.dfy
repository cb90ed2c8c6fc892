// Worked examples of the coverage bounds on small observation streams.

module Scenarios {
  import opened Valuations
  import opened Bitmasks
  import opened PowerLists
  import opened MaxUnCoverGraph
  import opened CoverageBounds

  /** The observations of the example, (Unknown, False) then (True, False). */
  function ExampleObservations(): seq<Bitmask>
  {
    [[UNKNOWN, FALSE], [TRUE, FALSE]]
  }

  lemma ExampleInsert()
    ensures Insert(Insert([], [UNKNOWN, FALSE]), [TRUE, FALSE]) == ExampleObservations()
    ensures DistinctShapes(ExampleObservations())
  {
    var a, b := [UNKNOWN, FALSE], [TRUE, FALSE];
    assert ShapeOf(a)[0] != ShapeOf(b)[0];
    assert Insert([], a) == [a];
  }

  lemma ExampleResolutions()
    ensures var o := ExampleObservations();
      Resolutions(o[0]) == {[TrueKey, FalseKey], [FalseKey, FalseKey]} &&
      Resolutions(o[1]) == {[TrueKey, FalseKey]} &&
      AllResolutions(o) == {[TrueKey, FalseKey], [FalseKey, FalseKey]}
  {
    var o := ExampleObservations();
    var a, b := o[0], o[1];
    var tf, ff := [TrueKey, FalseKey], [FalseKey, FalseKey];
    forall s ensures s in Resolutions(a) <==> s == tf || s == ff {
      ResolutionsMembership(a, s);
      if ResolvesShape(s, a) { assert s == [s[0], s[1]]; }
      if s == tf || s == ff { assert ResolvesShape(s, a); }
    }
    forall s ensures s in Resolutions(b) <==> s == tf {
      ResolutionsMembership(b, s);
      if ResolvesShape(s, b) { assert s == [s[0], s[1]]; }
      if s == tf { assert ResolvesShape(s, b); }
    }
    assert AllResolutions([a]) == Resolutions(a) by { assert [a][..0] == []; }
    assert AllResolutions(o) == AllResolutions([a]) + Resolutions(b) by { assert o[..1] == [a]; }
  }

  lemma ExampleMinUnCover()
    ensures IsMinUnCover(ExampleObservations(), 1)
  {
    ExampleResolutions();
    var o := ExampleObservations();
    var tf := [TrueKey, FalseKey];
    // {tf} hits both observations, and the empty set hits neither.
    assert HitsAll({tf}, o) by {
      forall i | 0 <= i < |o| ensures Resolutions(o[i]) * {tf} != {} {
        assert tf in Resolutions(o[i]);
      }
    }
    forall h | HitsAll(h, o) ensures 1 <= |h| {
      assert Resolutions(o[0]) * h != {};
    }
  }

  /** The first observation resolved to (False, False), the second to (True, False). */
  function ExampleMatching(): set<Edge>
  {
    var o := ExampleObservations();
    {Edge(Observed(ShapeOf(o[0])), Possible([FalseKey, FalseKey])),
     Edge(Observed(ShapeOf(o[1])), Possible([TrueKey, FalseKey]))}
  }

  lemma ResolutionEdge(o: seq<Bitmask>, i: nat, s: Shape)
    requires i < |o| && s in Resolutions(o[i])
    ensures Edge(Observed(ShapeOf(o[i])), Possible(s)) in RefGraph(o).edges
  {
  }

  lemma ExampleMatchingValid()
    ensures IsMatching(RefGraph(ExampleObservations()), ExampleMatching())
    ensures |ExampleMatching()| == 2
  {
    ExampleResolutions();
    var o := ExampleObservations();
    var tf, ff := [TrueKey, FalseKey], [FalseKey, FalseKey];
    var e1, e2 := Edge(Observed(ShapeOf(o[0])), Possible(ff)), Edge(Observed(ShapeOf(o[1])), Possible(tf));
    assert ExampleMatching() == {e1, e2};
    assert ShapeOf(o[0])[0] != ShapeOf(o[1])[0];
    assert tf[0] != ff[0];
    ResolutionEdge(o, 0, ff);
    ResolutionEdge(o, 1, tf);
    var m := {e1, e2};
    assert e1.source != e2.source && e1.target != e2.target;
    forall x, y | x in m && y in m && x != y ensures !Touches(y, x.source) && !Touches(y, x.target) {
      assert (x == e1 && y == e2) || (x == e2 && y == e1);
    }
  }

  lemma ExampleCounts()
    ensures CountCertain(ExampleObservations()) == 1
    ensures |AllResolutions(ExampleObservations())| == 2
  {
    ExampleResolutions();
    var o := ExampleObservations();
    assert UNKNOWN.IsUnknown() && o[0][0] == UNKNOWN;
    assert o[..1] == [o[0]] && [o[0]][..0] == [];
    assert [TrueKey, FalseKey] != [FalseKey, FalseKey];
  }

  lemma ExampleMaxUnCover()
    ensures IsMaxUnCover(ExampleObservations(), 2)
  {
    ExampleMatchingValid();
    ExampleCounts();
    var o, m := ExampleObservations(), ExampleMatching();
    // No matching exceeds the upper bound, which this one reaches.
    forall m' | IsMatching(RefGraph(o), m') ensures |m'| <= |m| {
      MatchingBelowUpper(o, m');
    }
    assert IsMaximumMatching(RefGraph(o), m);
  }

  /**
   * Two tags, observed as (Unknown, False) and then (True, False): one certain observation,
   * two reachable concrete Bitmasks, one concrete Bitmask explains both observations, and
   * both observations can be given different resolutions.
   */
  lemma OpenWorldExample()
    ensures var o := Insert(Insert([], [UNKNOWN, FALSE]), [TRUE, FALSE]);
      o == [[UNKNOWN, FALSE], [TRUE, FALSE]] &&
      CountCertain(o) == 1 && |AllResolutions(o)| == 2 &&
      IsMinUnCover(o, 1) && IsMaxUnCover(o, 2)
  {
    ExampleInsert();
    ExampleCounts();
    ExampleMinUnCover();
    ExampleMaxUnCover();
  }
}
