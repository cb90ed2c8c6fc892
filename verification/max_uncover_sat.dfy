// MaxUnCover as MaxSAT (MaxUnCoverZ3.kt): the observed instances and the distinct options
// are the two sides of a bipartite graph; each (observed entry, option) pair is an edge
// variable. At most one edge may be chosen per observed instance and per option, and as
// many edges as possible are wanted, so the optimum is a maximum matching.
//
// The edge variable is the Z3 constant named "${index}_${option}": the index and the
// rendered option, so two edges are the same variable exactly when index and option shape
// agree (Bitmasks.RenderInjective).

module MaxUnCoverSat {
  import opened Common
  import opened Valuations
  import opened Bitmasks
  import opened MaxSat
  import opened PowerLists
  import MinUnCover

  datatype EdgeVar = EdgeVar(index: nat, option: Shape)

  /** One visit of the inner loop: entry `index` of the power lists meets one of its options. */
  datatype Step = Step(index: nat, instance: Shape, option: Shape)

  function EdgeOf(st: Step): EdgeVar
  {
    EdgeVar(st.index, st.option)
  }

  /** The map key of a step: its observed instance (left side) or its option (right side). */
  function KeyFor(st: Step, left: bool): Shape
  {
    if left then st.instance else st.option
  }

  /** The visits of the inner `for (option in powerList)` of entry `index`. */
  function OptionSteps(index: nat, instance: Shape, opts: seq<Bitmask>): (r: seq<Step>)
    ensures |r| == |opts|
  {
    if |opts| == 0 then []
    else OptionSteps(index, instance, opts[..|opts| - 1]) + [Step(index, instance, ShapeOf(opts[|opts| - 1]))]
  }

  function EntrySteps(index: nat, e: PowerEntry): seq<Step>
  {
    OptionSteps(index, ShapeOf(e.instance), e.options)
  }

  lemma {:induction false} OptionStepAt(index: nat, instance: Shape, opts: seq<Bitmask>, j: nat)
    requires j < |opts|
    ensures OptionSteps(index, instance, opts)[j] == Step(index, instance, ShapeOf(opts[j]))
  {
    if j < |opts| - 1 {
      OptionStepAt(index, instance, opts[..|opts| - 1], j);
    }
  }

  /** The visits of `powerLists.forEachIndexed { ... for (option in powerList) ... }`, in order. */
  function Steps(pl: seq<PowerEntry>): seq<Step>
  {
    if |pl| == 0 then [] else Steps(pl[..|pl| - 1]) + EntrySteps(|pl| - 1, pl[|pl| - 1])
  }

  function EdgeList(s: seq<Step>): seq<EdgeVar>
  {
    seq(|s|, k requires 0 <= k < |s| => EdgeOf(s[k]))
  }

  function InstanceShapes(pl: seq<PowerEntry>): set<Shape>
  {
    set i | 0 <= i < |pl| :: ShapeOf(pl[i].instance)
  }

  // ---- the two maps ------------------------------------------------------------------

  /** One entry of a `MutableMap<Bitmask, MutableList<BoolExpr>>`, which keeps insertion order. */
  datatype Bucket = Bucket(key: Shape, edges: seq<EdgeVar>)

  function Keys(bs: seq<Bucket>): seq<Shape>
  {
    seq(|bs|, i requires 0 <= i < |bs| => bs[i].key)
  }

  function FindKey(bs: seq<Bucket>, key: Shape): (r: int)
    ensures -1 <= r < |bs|
    ensures r == -1 <==> key !in Keys(bs)
    ensures r >= 0 ==> bs[r].key == key
  {
    if |bs| == 0 then -1
    else if bs[|bs| - 1].key == key then
      assert Keys(bs)[|bs| - 1] == key;
      |bs| - 1
    else
      var r := FindKey(bs[..|bs| - 1], key);
      assert Keys(bs) == Keys(bs[..|bs| - 1]) + [bs[|bs| - 1].key];
      r
  }

  /** `getOrPut(key) { mutableListOf() }.add(e)`. */
  function AddToBucket(bs: seq<Bucket>, key: Shape, e: EdgeVar): seq<Bucket>
  {
    var i := FindKey(bs, key);
    if i == -1 then bs + [Bucket(key, [e])] else bs[i := Bucket(key, bs[i].edges + [e])]
  }

  /** `getOrPut` adds a key only when it is new, and keeps the keys distinct. */
  lemma AddToBucketKeys(bs: seq<Bucket>, key: Shape, e: EdgeVar)
    ensures Keys(AddToBucket(bs, key, e)) == if key in Keys(bs) then Keys(bs) else Keys(bs) + [key]
    ensures Distinct(Keys(bs)) ==> Distinct(Keys(AddToBucket(bs, key, e)))
  {
    var i := FindKey(bs, key);
    if i == -1 {
      assert Keys(bs + [Bucket(key, [e])]) == Keys(bs) + [key];
    } else {
      assert Keys(bs[i := Bucket(key, bs[i].edges + [e])]) == Keys(bs);
    }
  }

  function Buckets(s: seq<Step>, left: bool): seq<Bucket>
  {
    if |s| == 0 then [] else AddToBucket(Buckets(s[..|s| - 1], left), KeyFor(s[|s| - 1], left), EdgeOf(s[|s| - 1]))
  }

  /** The edges of the steps with the given key, in order: what the map holds under that key. */
  function Filter(s: seq<Step>, key: Shape, left: bool): seq<EdgeVar>
  {
    if |s| == 0 then []
    else Filter(s[..|s| - 1], key, left) + (if KeyFor(s[|s| - 1], left) == key then [EdgeOf(s[|s| - 1])] else [])
  }

  /** `optionsMap.map { t -> t.value.count { model.eval(it, true).isTrue } }.sum()`. */
  function SumTrue(bs: seq<Bucket>, m: set<EdgeVar>): nat
  {
    if |bs| == 0 then 0 else SumTrue(bs[..|bs| - 1], m) + CountIn(bs[|bs| - 1].edges, m)
  }

  function TotalEdges(bs: seq<Bucket>): nat
  {
    if |bs| == 0 then 0 else TotalEdges(bs[..|bs| - 1]) + |bs[|bs| - 1].edges|
  }

  // ---- the clauses -------------------------------------------------------------------

  /** `mkOr(mkNot(options[i]), mkNot(options[j]))` for every j after i. */
  function Row(es: seq<EdgeVar>, i: nat): seq<Clause<EdgeVar>>
    requires i < |es|
  {
    seq(|es| - i - 1, k requires 0 <= k < |es| - i - 1 => [Neg(es[i]), Neg(es[i + 1 + k])])
  }

  /** The rows of the first n values of i of the nested `for (i ...) for (j in i + 1 until ...)`. */
  function Rows(es: seq<EdgeVar>, n: nat): seq<Clause<EdgeVar>>
    requires n <= |es|
  {
    if n == 0 then [] else Rows(es, n - 1) + Row(es, n - 1)
  }

  function ExclusionClauses(bs: seq<Bucket>): seq<Clause<EdgeVar>>
  {
    if |bs| == 0 then []
    else ExclusionClauses(bs[..|bs| - 1]) + Rows(bs[|bs| - 1].edges, |bs[|bs| - 1].edges|)
  }

  /** `AssertSoft(edge, 1, "")` for each edge of one list. */
  function SoftRow(es: seq<EdgeVar>): seq<Soft<EdgeVar>>
  {
    seq(|es|, k requires 0 <= k < |es| => Soft(Pos(es[k]), 1))
  }

  function SoftEdges(bs: seq<Bucket>): seq<Soft<EdgeVar>>
  {
    if |bs| == 0 then [] else SoftEdges(bs[..|bs| - 1]) + SoftRow(bs[|bs| - 1].edges)
  }

  /** Exclusion on the observed side, then on the option side; one soft literal per edge. */
  function MatchingProblem(pl: seq<PowerEntry>): Problem<EdgeVar>
  {
    var s := Steps(pl);
    Problem(ExclusionClauses(Buckets(s, true)) + ExclusionClauses(Buckets(s, false)), SoftEdges(Buckets(s, true)))
  }

  function MaxUnCoverResult(pl: seq<PowerEntry>, a: Answer<EdgeVar>): SolverResult
  {
    match a
    case Satisfiable(m) => Sat(SumTrue(Buckets(Steps(pl), false), m))
    case Unsatisfiable => Unsat
    case Undetermined => Unknown
  }

  // ---- the reference: selections of edges ------------------------------------------

  /** No two selected edges share a key on the given side. */
  ghost predicate AtMostOnePerKey(s: seq<Step>, left: bool, m: set<EdgeVar>)
  {
    forall key :: CountIn(Filter(s, key, left), m) <= 1
  }

  /** No two selected edges share an observed instance or an option. */
  ghost predicate ValidSelection(pl: seq<PowerEntry>, m: set<EdgeVar>)
  {
    AtMostOnePerKey(Steps(pl), true, m) && AtMostOnePerKey(Steps(pl), false, m)
  }

  /** n is the largest number of edges a valid selection can contain. */
  ghost predicate IsMaxSelectionSize(pl: seq<PowerEntry>, n: nat)
  {
    (exists m :: ValidSelection(pl, m) && CountIn(EdgeList(Steps(pl)), m) == n) &&
    forall m :: ValidSelection(pl, m) ==> CountIn(EdgeList(Steps(pl)), m) <= n
  }

  predicate Exclusive(es: seq<EdgeVar>, m: set<EdgeVar>)
  {
    forall i, j :: 0 <= i < j < |es| ==> !(es[i] in m && es[j] in m)
  }

  predicate AllExclusive(bs: seq<Bucket>, m: set<EdgeVar>)
  {
    forall i :: 0 <= i < |bs| ==> Exclusive(bs[i].edges, m)
  }

  // ---- lemmas about the maps ---------------------------------------------------------

  lemma StepsAppend(s: seq<Step>, st: Step, left: bool)
    ensures Buckets(s + [st], left) == AddToBucket(Buckets(s, left), KeyFor(st, left), EdgeOf(st))
  {
    assert (s + [st])[..|s|] == s;
  }

  lemma FilterAppend(s: seq<Step>, st: Step, key: Shape, left: bool)
    ensures Filter(s + [st], key, left) == Filter(s, key, left) + (if KeyFor(st, left) == key then [EdgeOf(st)] else [])
  {
    assert (s + [st])[..|s|] == s;
  }

  /** Every map entry holds exactly the edges of its key, and the keys are the keys of the steps. */
  lemma {:induction false} BucketsAreFilters(s: seq<Step>, left: bool)
    ensures Distinct(Keys(Buckets(s, left)))
    ensures forall i :: 0 <= i < |Buckets(s, left)| ==>
      Buckets(s, left)[i].edges == Filter(s, Buckets(s, left)[i].key, left)
    ensures forall key :: key !in Keys(Buckets(s, left)) ==> Filter(s, key, left) == []
  {
    if |s| > 0 {
      var init, st := s[..|s| - 1], s[|s| - 1];
      assert s == init + [st];
      BucketsAreFilters(init, left);
      StepsAppend(init, st, left);
      var bs := Buckets(init, left);
      var key := KeyFor(st, left);
      AddToBucketKeys(bs, key, EdgeOf(st));
      var i := FindKey(bs, key);
      var r := Buckets(s, left);
      forall j | 0 <= j < |r| ensures r[j].edges == Filter(s, r[j].key, left) {
        FilterAppend(init, st, r[j].key, left);
        if j < |bs| && j != i {
          assert r[j] == bs[j];
          assert Keys(bs)[j] == bs[j].key;
          if i >= 0 {
            assert Keys(bs)[i] == key;
          }
        }
      }
      forall k | k !in Keys(r) ensures Filter(s, k, left) == [] {
        FilterAppend(init, st, k, left);
      }
    }
  }

  lemma {:induction false} SumTrueUpdate(bs: seq<Bucket>, i: nat, b: Bucket, m: set<EdgeVar>)
    requires i < |bs|
    ensures SumTrue(bs[i := b], m) + CountIn(bs[i].edges, m) == SumTrue(bs, m) + CountIn(b.edges, m)
  {
    var n := |bs| - 1;
    assert bs[i := b][..n] == if i == n then bs[..n] else bs[..n][i := b];
    if i < n {
      SumTrueUpdate(bs[..n], i, b, m);
    }
  }

  /** Summing over the map counts every step's edge once. */
  lemma {:induction false} SumTrueCounts(s: seq<Step>, left: bool, m: set<EdgeVar>)
    ensures SumTrue(Buckets(s, left), m) == CountIn(EdgeList(s), m)
  {
    if |s| > 0 {
      var init, st := s[..|s| - 1], s[|s| - 1];
      assert s == init + [st];
      SumTrueCounts(init, left, m);
      StepsAppend(init, st, left);
      var bs := Buckets(init, left);
      var i := FindKey(bs, KeyFor(st, left));
      if i >= 0 {
        var b := Bucket(KeyFor(st, left), bs[i].edges + [EdgeOf(st)]);
        SumTrueUpdate(bs, i, b, m);
        assert b.edges[..|b.edges| - 1] == bs[i].edges;
      } else {
        assert (bs + [Bucket(KeyFor(st, left), [EdgeOf(st)])])[..|bs|] == bs;
        assert [EdgeOf(st)][..0] == [];
      }
      assert EdgeList(s)[..|s| - 1] == EdgeList(init);
    }
  }

  lemma {:induction false} TotalEdgesCount(s: seq<Step>, left: bool)
    ensures TotalEdges(Buckets(s, left)) == |s|
  {
    if |s| > 0 {
      var init, st := s[..|s| - 1], s[|s| - 1];
      assert s == init + [st];
      TotalEdgesCount(init, left);
      StepsAppend(init, st, left);
      var bs := Buckets(init, left);
      var i := FindKey(bs, KeyFor(st, left));
      if i >= 0 {
        TotalEdgesUpdate(bs, i, Bucket(KeyFor(st, left), bs[i].edges + [EdgeOf(st)]));
      } else {
        assert (bs + [Bucket(KeyFor(st, left), [EdgeOf(st)])])[..|bs|] == bs;
      }
    }
  }

  lemma {:induction false} TotalEdgesUpdate(bs: seq<Bucket>, i: nat, b: Bucket)
    requires i < |bs|
    ensures TotalEdges(bs[i := b]) + |bs[i].edges| == TotalEdges(bs) + |b.edges|
  {
    var n := |bs| - 1;
    assert bs[i := b][..n] == if i == n then bs[..n] else bs[..n][i := b];
    if i < n {
      TotalEdgesUpdate(bs[..n], i, b);
    }
  }

  // ---- lemmas about the clauses -------------------------------------------------------

  lemma {:induction false} RowsHold(es: seq<EdgeVar>, n: nat, m: set<EdgeVar>)
    requires n <= |es|
    ensures AllHold(m, Rows(es, n)) <==>
      forall i, j :: 0 <= i < n && i < j < |es| ==> !(es[i] in m && es[j] in m)
  {
    if n > 0 {
      RowsHold(es, n - 1, m);
      AllHoldAppend(m, Rows(es, n - 1), Row(es, n - 1));
      var row := Row(es, n - 1);
      if AllHold(m, row) {
        forall j | n - 1 < j < |es| ensures !(es[n - 1] in m && es[j] in m) {
          assert ClauseHolds(m, row[j - n]);
          assert row[j - n] == [Neg(es[n - 1]), Neg(es[j])];
        }
      }
      if forall j :: n - 1 < j < |es| ==> !(es[n - 1] in m && es[j] in m) {
        forall k | 0 <= k < |row| ensures ClauseHolds(m, row[k]) {
          assert row[k] == [Neg(es[n - 1]), Neg(es[n + k])];
          if es[n - 1] in m {
            assert Holds(m, row[k][1]);
          } else {
            assert Holds(m, row[k][0]);
          }
        }
      }
    }
  }

  lemma {:induction false} ExclusionHold(bs: seq<Bucket>, m: set<EdgeVar>)
    ensures AllHold(m, ExclusionClauses(bs)) <==> AllExclusive(bs, m)
  {
    if |bs| > 0 {
      var init, last := bs[..|bs| - 1], bs[|bs| - 1];
      ExclusionHold(init, m);
      AllHoldAppend(m, ExclusionClauses(init), Rows(last.edges, |last.edges|));
      RowsHold(last.edges, |last.edges|, m);
      assert forall i :: 0 <= i < |init| ==> init[i] == bs[i];
    }
  }

  /** Pairwise exclusion of a list is the same as choosing at most one of its elements. */
  lemma ExclusiveIffAtMostOne(es: seq<EdgeVar>, m: set<EdgeVar>)
    ensures Exclusive(es, m) <==> CountIn(es, m) <= 1
  {
    if Exclusive(es, m) {
      PairwiseExclusiveCount(es, m);
    } else {
      var i, j :| 0 <= i < j < |es| && es[i] in m && es[j] in m;
      TwoSelected(es, m, i, j);
    }
  }

  lemma {:induction false} TwoSelected(es: seq<EdgeVar>, m: set<EdgeVar>, i: nat, j: nat)
    requires i < j < |es| && es[i] in m && es[j] in m
    ensures CountIn(es, m) >= 2
  {
    var n := |es| - 1;
    if j < n {
      TwoSelected(es[..n], m, i, j);
    } else {
      OneSelected(es[..n], m, i);
    }
  }

  lemma {:induction false} OneSelected(es: seq<EdgeVar>, m: set<EdgeVar>, i: nat)
    requires i < |es| && es[i] in m
    ensures CountIn(es, m) >= 1
  {
    var n := |es| - 1;
    if i < n {
      OneSelected(es[..n], m, i);
    }
  }

  /** Each side's exclusion clauses hold iff no key of that side has two chosen edges. */
  lemma SideExclusion(s: seq<Step>, left: bool, m: set<EdgeVar>)
    ensures AllHold(m, ExclusionClauses(Buckets(s, left))) <==> AtMostOnePerKey(s, left, m)
  {
    var bs := Buckets(s, left);
    ExclusionHold(bs, m);
    BucketsAreFilters(s, left);
    if AllExclusive(bs, m) {
      forall key ensures CountIn(Filter(s, key, left), m) <= 1 {
        if key in Keys(bs) {
          var i :| 0 <= i < |bs| && Keys(bs)[i] == key;
          assert bs[i].key == key;
          ExclusiveIffAtMostOne(bs[i].edges, m);
        }
      }
    }
    if AtMostOnePerKey(s, left, m) {
      forall i | 0 <= i < |bs| ensures Exclusive(bs[i].edges, m) {
        assert CountIn(Filter(s, bs[i].key, left), m) <= 1;
        ExclusiveIffAtMostOne(bs[i].edges, m);
      }
    }
  }

  /** The models of the hard clauses are exactly the valid selections. */
  lemma HardIffValid(pl: seq<PowerEntry>, m: set<EdgeVar>)
    ensures SatisfiesHard(MatchingProblem(pl), m) <==> ValidSelection(pl, m)
  {
    var s := Steps(pl);
    AllHoldAppend(m, ExclusionClauses(Buckets(s, true)), ExclusionClauses(Buckets(s, false)));
    SideExclusion(s, true, m);
    SideExclusion(s, false, m);
  }

  lemma {:induction false} PenaltyOfRow(es: seq<EdgeVar>, m: set<EdgeVar>)
    ensures Penalty(SoftRow(es), m) + CountIn(es, m) == |es|
  {
    if |es| > 0 {
      assert SoftRow(es)[..|es| - 1] == SoftRow(es[..|es| - 1]);
      PenaltyOfRow(es[..|es| - 1], m);
    }
  }

  /** The penalty is the number of edges left out. */
  lemma {:induction false} PenaltyPlusSelected(bs: seq<Bucket>, m: set<EdgeVar>)
    ensures Penalty(SoftEdges(bs), m) + SumTrue(bs, m) == TotalEdges(bs)
  {
    if |bs| > 0 {
      var init, last := bs[..|bs| - 1], bs[|bs| - 1];
      PenaltyPlusSelected(init, m);
      PenaltyAppend(SoftEdges(init), SoftRow(last.edges), m);
      PenaltyOfRow(last.edges, m);
    }
  }

  lemma {:induction false} SumTrueBound(bs: seq<Bucket>, m: set<EdgeVar>)
    requires forall i :: 0 <= i < |bs| ==> CountIn(bs[i].edges, m) <= 1
    ensures SumTrue(bs, m) <= |bs|
  {
    if |bs| > 0 {
      SumTrueBound(bs[..|bs| - 1], m);
    }
  }

  /** Every step's keys come from the power lists. */
  lemma {:induction false} StepKeys(pl: seq<PowerEntry>)
    ensures forall t :: 0 <= t < |Steps(pl)| ==>
      Steps(pl)[t].instance in InstanceShapes(pl) && Steps(pl)[t].option in MinUnCover.OptionShapes(pl)
  {
    if |pl| > 0 {
      var init := pl[..|pl| - 1];
      StepKeys(init);
      var s := Steps(pl);
      forall t | 0 <= t < |s|
        ensures s[t].instance in InstanceShapes(pl) && s[t].option in MinUnCover.OptionShapes(pl)
      {
        if t < |Steps(init)| {
          assert s[t] == Steps(init)[t];
          var i :| 0 <= i < |init| && s[t].instance == ShapeOf(init[i].instance);
          assert init[i] == pl[i];
          var i', j :| 0 <= i' < |init| && 0 <= j < |init[i'].options| && s[t].option == ShapeOf(init[i'].options[j]);
          assert init[i'] == pl[i'];
        } else {
          var j := t - |Steps(init)|;
          assert s[t] == EntrySteps(|pl| - 1, pl[|pl| - 1])[j];
          OptionStepAt(|pl| - 1, ShapeOf(pl[|pl| - 1].instance), pl[|pl| - 1].options, j);
        }
      }
    }
  }

  /** A map with distinct keys drawn from u has at most |u| entries. */
  lemma BucketCountBound(s: seq<Step>, left: bool, u: set<Shape>)
    requires forall t :: 0 <= t < |s| ==> KeyFor(s[t], left) in u
    ensures |Buckets(s, left)| <= |u|
  {
    var bs := Buckets(s, left);
    BucketsAreFilters(s, left);
    DistinctCard(Keys(bs));
    forall k | k in Keys(bs) ensures k in u {
      var i :| 0 <= i < |bs| && Keys(bs)[i] == k;
      assert Filter(s, k, left) != [] by {
        assert bs[i].key == k;
        assert |bs[i].edges| > 0 by { NonEmptyBucket(s, left, i); }
      }
      FilterKeyOccurs(s, k, left);
    }
    var ks := set k | k in Keys(bs);
    assert ks <= u;
    assert u == ks + (u - ks);
  }

  lemma {:induction false} NonEmptyBucket(s: seq<Step>, left: bool, i: nat)
    requires i < |Buckets(s, left)|
    ensures |Buckets(s, left)[i].edges| > 0
  {
    var init := s[..|s| - 1];
    var bs := Buckets(init, left);
    var j := FindKey(bs, KeyFor(s[|s| - 1], left));
    if i < |bs| && i != j {
      NonEmptyBucket(init, left, i);
    }
  }

  lemma {:induction false} FilterKeyOccurs(s: seq<Step>, key: Shape, left: bool)
    requires Filter(s, key, left) != []
    ensures exists t :: 0 <= t < |s| && KeyFor(s[t], left) == key
  {
    var n := |s| - 1;
    if KeyFor(s[n], left) != key {
      FilterKeyOccurs(s[..n], key, left);
      var t :| 0 <= t < n && KeyFor(s[..n][t], left) == key;
      assert s[..n][t] == s[t];
    }
  }

  lemma InstanceShapesBound(pl: seq<PowerEntry>)
    ensures |InstanceShapes(pl)| <= |pl|
  {
    if |pl| > 0 {
      var init := pl[..|pl| - 1];
      InstanceShapesBound(init);
      assert InstanceShapes(pl) == InstanceShapes(init) + {ShapeOf(pl[|pl| - 1].instance)} by {
        forall x | x in InstanceShapes(pl) ensures x in InstanceShapes(init) + {ShapeOf(pl[|pl| - 1].instance)} {
          var i :| 0 <= i < |pl| && x == ShapeOf(pl[i].instance);
          if i < |pl| - 1 {
            assert init[i] == pl[i];
          }
        }
        forall x | x in InstanceShapes(init) ensures x in InstanceShapes(pl) {
          var i :| 0 <= i < |init| && x == ShapeOf(init[i].instance);
          assert init[i] == pl[i];
        }
      }
    }
  }

  // ---- the result --------------------------------------------------------------------

  /** A chosen model's edge count on the option side equals its count on the observed side. */
  lemma SidesAgree(pl: seq<PowerEntry>, m: set<EdgeVar>)
    ensures SumTrue(Buckets(Steps(pl), false), m) == CountIn(EdgeList(Steps(pl)), m)
    ensures SumTrue(Buckets(Steps(pl), true), m) == CountIn(EdgeList(Steps(pl)), m)
  {
    SumTrueCounts(Steps(pl), false, m);
    SumTrueCounts(Steps(pl), true, m);
  }

  /** With at most one chosen edge per key, and every key drawn from u, at most |u| edges are chosen. */
  lemma SideBound(s: seq<Step>, left: bool, m: set<EdgeVar>, u: set<Shape>)
    requires AtMostOnePerKey(s, left, m)
    requires forall t :: 0 <= t < |s| ==> KeyFor(s[t], left) in u
    ensures CountIn(EdgeList(s), m) <= |u|
  {
    var bs := Buckets(s, left);
    SumTrueCounts(s, left, m);
    BucketsAreFilters(s, left);
    forall i | 0 <= i < |bs| ensures CountIn(bs[i].edges, m) <= 1 {
      assert CountIn(Filter(s, bs[i].key, left), m) <= 1;
    }
    SumTrueBound(bs, m);
    BucketCountBound(s, left, u);
  }

  /** A valid selection has at most one edge per observed instance and one per option. */
  lemma SelectionBounds(pl: seq<PowerEntry>, m: set<EdgeVar>)
    requires ValidSelection(pl, m)
    ensures CountIn(EdgeList(Steps(pl)), m) <= |InstanceShapes(pl)| <= |pl|
    ensures CountIn(EdgeList(Steps(pl)), m) <= |MinUnCover.OptionShapes(pl)|
  {
    StepKeys(pl);
    InstanceShapesBound(pl);
    SideBound(Steps(pl), true, m, InstanceShapes(pl));
    SideBound(Steps(pl), false, m, MinUnCover.OptionShapes(pl));
  }

  /** The optimum of the encoding, read off a sound answer. */
  lemma MaxUnCoverSound(pl: seq<PowerEntry>, a: Answer<EdgeVar>)
    requires Sound(MatchingProblem(pl), a)
    ensures !MaxUnCoverResult(pl, a).Unsat?
    ensures MaxUnCoverResult(pl, a).Sat? ==>
      IsMaxSelectionSize(pl, MaxUnCoverResult(pl, a).count) &&
      MaxUnCoverResult(pl, a).count <= |InstanceShapes(pl)| <= |pl| &&
      MaxUnCoverResult(pl, a).count <= |MinUnCover.OptionShapes(pl)|
  {
    var p := MatchingProblem(pl);
    var s := Steps(pl);
    var edges := EdgeList(s);
    match a
    case Satisfiable(m) =>
      HardIffValid(pl, m);
      SidesAgree(pl, m);
      SelectionBounds(pl, m);
      forall m' | ValidSelection(pl, m') ensures CountIn(edges, m') <= CountIn(edges, m) {
        HardIffValid(pl, m');
        SidesAgree(pl, m');
        PenaltyPlusSelected(Buckets(s, true), m);
        PenaltyPlusSelected(Buckets(s, true), m');
      }
    case Unsatisfiable =>
      NothingChosen(pl);
      HardIffValid(pl, {});
      assert false;
    case Undetermined =>
  }

  /** Choosing no edge is always valid, so the problem is never unsatisfiable. */
  lemma NothingChosen(pl: seq<PowerEntry>)
    ensures ValidSelection(pl, {})
  {
    forall key ensures CountIn(Filter(Steps(pl), key, true), {}) == 0 && CountIn(Filter(Steps(pl), key, false), {}) == 0 {
      NoneSelected(Filter(Steps(pl), key, true), {});
      NoneSelected(Filter(Steps(pl), key, false), {});
    }
  }

  // ---- the imperative encoding -----------------------------------------------------

  lemma StepsSnoc(pl: seq<PowerEntry>, i: nat)
    requires i < |pl|
    ensures Steps(pl[..i + 1]) == Steps(pl[..i]) + EntrySteps(i, pl[i])
  {
    assert pl[..i + 1][..i] == pl[..i];
  }

  /** The map after the inner loop of entry `index` has added the edges of `opts`. */
  function AddEntry(bs: seq<Bucket>, index: nat, instance: Shape, opts: seq<Bitmask>, left: bool): seq<Bucket>
  {
    if |opts| == 0 then bs
    else
      var option := ShapeOf(opts[|opts| - 1]);
      AddToBucket(AddEntry(bs, index, instance, opts[..|opts| - 1], left), if left then instance else option, EdgeVar(index, option))
  }

  lemma SnocAssociative<T>(a: seq<T>, b: seq<T>, x: T)
    ensures a + (b + [x]) == (a + b) + [x]
  {
  }

  lemma {:induction false} AddEntryIsBuckets(s: seq<Step>, index: nat, instance: Shape, opts: seq<Bitmask>, left: bool)
    ensures AddEntry(Buckets(s, left), index, instance, opts, left) == Buckets(s + OptionSteps(index, instance, opts), left)
  {
    if |opts| == 0 {
      assert s + [] == s;
    } else {
      var init := opts[..|opts| - 1];
      var st := Step(index, instance, ShapeOf(opts[|opts| - 1]));
      var prev := s + OptionSteps(index, instance, init);
      AddEntryIsBuckets(s, index, instance, init, left);
      StepsAppend(prev, st, left);
      assert OptionSteps(index, instance, opts) == OptionSteps(index, instance, init) + [st];
      SnocAssociative(s, OptionSteps(index, instance, init), st);
      assert KeyFor(st, left) == if left then instance else st.option;
    }
  }

  /**
   * The inner loop of `forEachIndexed` for entry `index`: every option becomes the edge
   * variable named "${index}_${option}", which fails on an illegal option, and the edge is
   * added to the list of its observed instance and to the list of its option.
   */
  method AddEntryEdges(index: nat, e: PowerEntry, observed: seq<Bucket>, options: seq<Bucket>)
    returns (r: Result<(seq<Bucket>, seq<Bucket>), Error>)
    ensures r.Failure? <==> exists j :: 0 <= j < |e.options| && !AllLegal(e.options[j])
    ensures r.Failure? ==> r.error == IllegalValuation
    ensures r.Success? ==> r.value == (AddEntry(observed, index, ShapeOf(e.instance), e.options, true),
                                       AddEntry(options, index, ShapeOf(e.instance), e.options, false))
  {
    var instance := ShapeOf(e.instance);
    var left, right := observed, options;
    for j := 0 to |e.options|
      invariant left == AddEntry(observed, index, instance, e.options[..j], true)
      invariant right == AddEntry(options, index, instance, e.options[..j], false)
      invariant forall j' :: 0 <= j' < j ==> AllLegal(e.options[j'])
    {
      var name := Interpolate(e.options[j]);
      if name.Failure? {
        return Failure(name.error);
      }
      assert forall j' :: 0 <= j' < j + 1 ==> AllLegal(e.options[j']);
      var option := ShapeOf(e.options[j]);
      assert e.options[..j + 1][..j] == e.options[..j];
      left := AddToBucket(left, instance, EdgeVar(index, option));
      right := AddToBucket(right, option, EdgeVar(index, option));
    }
    assert e.options[..|e.options|] == e.options;
    return Success((left, right));
  }

  /** The `forEachIndexed` loop of `calculate`, filling both maps. */
  method CollectEdges(pl: seq<PowerEntry>) returns (r: Result<(seq<Bucket>, seq<Bucket>), Error>)
    ensures r.Failure? <==> !MinUnCover.OptionsLegal(pl)
    ensures r.Failure? ==> r.error == IllegalValuation
    ensures r.Success? ==> r.value == (Buckets(Steps(pl), true), Buckets(Steps(pl), false))
  {
    var observed: seq<Bucket> := [];
    var options: seq<Bucket> := [];
    assert Steps(pl[..0]) == [];
    for i := 0 to |pl|
      invariant observed == Buckets(Steps(pl[..i]), true)
      invariant options == Buckets(Steps(pl[..i]), false)
      invariant forall i', j :: 0 <= i' < i && 0 <= j < |pl[i'].options| ==> AllLegal(pl[i'].options[j])
    {
      var added := AddEntryEdges(i, pl[i], observed, options);
      if added.Failure? {
        return Failure(added.error);
      }
      assert forall i', j :: 0 <= i' < i + 1 && 0 <= j < |pl[i'].options| ==> AllLegal(pl[i'].options[j]) by {
        assert forall j :: 0 <= j < |pl[i].options| ==> AllLegal(pl[i].options[j]);
      }
      StepsSnoc(pl, i);
      AddEntryIsBuckets(Steps(pl[..i]), i, ShapeOf(pl[i].instance), pl[i].options, true);
      AddEntryIsBuckets(Steps(pl[..i]), i, ShapeOf(pl[i].instance), pl[i].options, false);
      observed, options := added.value.0, added.value.1;
    }
    assert pl[..|pl|] == pl;
    return Success((observed, options));
  }

  /** The nested `for (i ...) for (j in i + 1 until ...)` over one list of edges. */
  method PairsOf(es: seq<EdgeVar>) returns (cs: seq<Clause<EdgeVar>>)
    ensures AllHold({}, cs)
    ensures forall m :: AllHold(m, cs) <==> Exclusive(es, m)
    ensures cs == Rows(es, |es|)
  {
    cs := [];
    for i := 0 to |es|
      invariant cs == Rows(es, i)
    {
      for j := i + 1 to |es|
        invariant cs == Rows(es, i) + Row(es, i)[..j - i - 1]
      {
        assert Row(es, i)[..j - i] == Row(es, i)[..j - i - 1] + [[Neg(es[i]), Neg(es[j])]];
        cs := cs + [[Neg(es[i]), Neg(es[j])]];
      }
      assert Row(es, i)[..|es| - i - 1] == Row(es, i);
    }
    forall m ensures AllHold(m, cs) <==> Exclusive(es, m) {
      RowsHold(es, |es|, m);
    }
    RowsHold(es, |es|, {});
  }

  /** One `for (options in map.values)` block of exclusion constraints. */
  method ExclusionFor(bs: seq<Bucket>) returns (cs: seq<Clause<EdgeVar>>)
    ensures cs == ExclusionClauses(bs)
  {
    cs := [];
    for b := 0 to |bs|
      invariant cs == ExclusionClauses(bs[..b])
    {
      var rows := PairsOf(bs[b].edges);
      assert bs[..b + 1][..b] == bs[..b];
      cs := cs + rows;
    }
    assert bs[..|bs|] == bs;
  }

  /** `AssertSoft(edge, 1, "")` for every edge of the observed side. */
  method SoftFor(bs: seq<Bucket>) returns (soft: seq<Soft<EdgeVar>>)
    ensures soft == SoftEdges(bs)
  {
    soft := [];
    for b := 0 to |bs|
      invariant soft == SoftEdges(bs[..b])
    {
      var es := bs[b].edges;
      var row: seq<Soft<EdgeVar>> := [];
      for k := 0 to |es|
        invariant row == SoftRow(es[..k])
      {
        row := row + [Soft(Pos(es[k]), 1)];
      }
      assert es[..|es|] == es;
      assert bs[..b + 1][..b] == bs[..b];
      soft := soft + row;
    }
    assert bs[..|bs|] == bs;
  }

  /** `optionsMap.map { t -> t.value.count { ... isTrue } }.sum()`. */
  method CountTrue(bs: seq<Bucket>, m: set<EdgeVar>) returns (total: nat)
    ensures total == SumTrue(bs, m)
  {
    total := 0;
    for b := 0 to |bs|
      invariant total == SumTrue(bs[..b], m)
    {
      var es := bs[b].edges;
      var count := 0;
      for k := 0 to |es|
        invariant count == CountIn(es[..k], m)
      {
        assert es[..k + 1][..k] == es[..k];
        if es[k] in m {
          count := count + 1;
        }
      }
      assert es[..|es|] == es;
      assert bs[..b + 1][..b] == bs[..b];
      total := total + count;
    }
    assert bs[..|bs|] == bs;
  }

  /**
   * `calculate` without its timing: build both sides, add the exclusion constraints and the
   * soft edges, ask the solver once and count the chosen edges on the option side. SAT is the
   * size of a largest valid selection, which no side of the graph can be smaller than.
   */
  method Solve(pl: seq<PowerEntry>, solve: Problem<EdgeVar> -> Answer<EdgeVar>) returns (r: Result<SolverResult, Error>)
    requires SolverSound(solve)
    ensures r.Failure? <==> !MinUnCover.OptionsLegal(pl)
    ensures r.Failure? ==> r.error == IllegalValuation
    ensures r.Success? ==> !r.value.Unsat?
    ensures r.Success? && r.value.Sat? ==>
      IsMaxSelectionSize(pl, r.value.count) &&
      r.value.count <= |InstanceShapes(pl)| <= |pl| &&
      r.value.count <= |MinUnCover.OptionShapes(pl)|
  {
    var sides := CollectEdges(pl);
    if sides.Failure? {
      return Failure(sides.error);
    }
    var (observed, options) := sides.value;
    var left := ExclusionFor(observed);
    var right := ExclusionFor(options);
    var soft := SoftFor(observed);
    var problem := Problem(left + right, soft);
    assert problem == MatchingProblem(pl);
    var answer := solve(problem);
    MaxUnCoverSound(pl, answer);
    var result: SolverResult;
    match answer {
      case Satisfiable(m) =>
        var count := CountTrue(options, m);
        result := Sat(count);
      case Unsatisfiable =>
        result := Unsat;
      case Undetermined =>
        result := Unknown;
    }
    assert result == MaxUnCoverResult(pl, answer);
    return Success(result);
  }

  /** MaxUnCoverZ3: the calculator with its list of solver times. */
  class MaxUnCoverZ3 {
    /** One entry per call, after the initial 0; the clock is a parameter of `Calculate`. */
    var totalTime: seq<int>

    constructor()
      ensures totalTime == [0]
    {
      totalTime := [0];
    }

    /** `calculate(powerLists)`: a call that gets an answer appends exactly one time entry. */
    method Calculate(pl: seq<PowerEntry>, solve: Problem<EdgeVar> -> Answer<EdgeVar>, elapsed: int)
      returns (r: Result<SolverResult, Error>)
      requires SolverSound(solve)
      modifies this
      ensures r.Failure? <==> !MinUnCover.OptionsLegal(pl)
      ensures r.Failure? ==> r.error == IllegalValuation && totalTime == old(totalTime)
      ensures r.Success? ==> totalTime == old(totalTime) + [elapsed] && !r.value.Unsat?
      ensures r.Success? && r.value.Sat? ==>
        IsMaxSelectionSize(pl, r.value.count) &&
        r.value.count <= |InstanceShapes(pl)| <= |pl| &&
        r.value.count <= |MinUnCover.OptionShapes(pl)|
    {
      r := Solve(pl, solve);
      if r.Success? {
        totalTime := totalTime + [elapsed];
      }
    }
  }
}
