// Weighted partial MaxSAT, the interface both coverage encodings hand to Z3's `Optimize`:
// hard clauses that every model must satisfy and soft literals whose weights a model pays
// when it falsifies them. The solver itself is foreign; it is an oracle constrained by
// `SolverSound`, which says what each of its three answers promises.

module MaxSat {
  /** A literal over Boolean variables of type V (`mkBoolConst` / `mkNot(mkBoolConst)`). */
  datatype Lit<V> = Pos(v: V) | Neg(v: V)

  /** A hard clause is a disjunction (`mkOr`); the empty disjunction is false. */
  type Clause<V> = seq<Lit<V>>

  /** `AssertSoft(lit, weight, "")`. */
  datatype Soft<V> = Soft(lit: Lit<V>, weight: nat)

  datatype Problem<V> = Problem(hard: seq<Clause<V>>, soft: seq<Soft<V>>)

  /** Z3's `Status` after `Check()`; a model is the set of variables it makes true. */
  datatype Answer<V(==)> = Satisfiable(model: set<V>) | Unsatisfiable | Undetermined

  /** What the coverage calculators report, instead of the -2 / -1 codes of the source. */
  datatype SolverResult = Sat(count: nat) | Unsat | Unknown

  predicate Holds<V(==,!new)>(m: set<V>, l: Lit<V>)
  {
    match l
    case Pos(v) => v in m
    case Neg(v) => v !in m
  }

  predicate ClauseHolds<V(==,!new)>(m: set<V>, c: Clause<V>)
  {
    exists i :: 0 <= i < |c| && Holds(m, c[i])
  }

  /** Every clause of the list holds. */
  predicate AllHold<V(==,!new)>(m: set<V>, cs: seq<Clause<V>>)
  {
    forall i :: 0 <= i < |cs| ==> ClauseHolds(m, cs[i])
  }

  predicate SatisfiesHard<V(==,!new)>(p: Problem<V>, m: set<V>)
  {
    AllHold(m, p.hard)
  }

  lemma AllHoldAppend<V(!new)>(m: set<V>, a: seq<Clause<V>>, b: seq<Clause<V>>)
    ensures AllHold(m, a + b) <==> AllHold(m, a) && AllHold(m, b)
  {
    if AllHold(m, a) && AllHold(m, b) {
      forall i | 0 <= i < |a + b| ensures ClauseHolds(m, (a + b)[i]) {
        if i < |a| {
          assert (a + b)[i] == a[i];
        } else {
          assert (a + b)[i] == b[i - |a|];
        }
      }
    }
    if AllHold(m, a + b) {
      forall i | 0 <= i < |a| ensures ClauseHolds(m, a[i]) {
        assert (a + b)[i] == a[i];
      }
      forall i | 0 <= i < |b| ensures ClauseHolds(m, b[i]) {
        assert (a + b)[|a| + i] == b[i];
      }
    }
  }

  /** The total weight of the soft literals a model falsifies. */
  function Penalty<V(==,!new)>(soft: seq<Soft<V>>, m: set<V>): nat
  {
    if |soft| == 0 then 0
    else Penalty(soft[..|soft| - 1], m) + (if Holds(m, soft[|soft| - 1].lit) then 0 else soft[|soft| - 1].weight)
  }

  lemma {:induction false} PenaltyAppend<V(!new)>(a: seq<Soft<V>>, b: seq<Soft<V>>, m: set<V>)
    ensures Penalty(a + b, m) == Penalty(a, m) + Penalty(b, m)
  {
    if |b| > 0 {
      assert (a + b)[..|a + b| - 1] == a + b[..|b| - 1];
      PenaltyAppend(a, b[..|b| - 1], m);
    } else {
      assert a + b == a;
    }
  }

  /** A model of the hard clauses whose penalty no other model of them beats. */
  ghost predicate Optimal<V(!new)>(p: Problem<V>, m: set<V>)
  {
    SatisfiesHard(p, m) &&
    forall m': set<V> :: SatisfiesHard(p, m') ==> Penalty(p.soft, m) <= Penalty(p.soft, m')
  }

  /** SATISFIABLE comes with an optimal model, UNSATISFIABLE only when no model exists, UNKNOWN always may. */
  ghost predicate Sound<V(!new)>(p: Problem<V>, a: Answer<V>)
  {
    match a
    case Satisfiable(m) => Optimal(p, m)
    case Unsatisfiable => forall m: set<V> :: !SatisfiesHard(p, m)
    case Undetermined => true
  }

  ghost predicate SolverSound<V(!new)>(solve: Problem<V> -> Answer<V>)
  {
    forall p :: Sound(p, solve(p))
  }

  /** The integer the source returns: the count on SAT, -2 on UNSAT, -1 on UNKNOWN. */
  function Code(r: SolverResult): (c: int)
    ensures c >= 0 <==> r.Sat?
    ensures r.Sat? ==> c == r.count
    ensures r.Unsat? <==> c == -2
    ensures r.Unknown? <==> c == -1
  {
    match r
    case Sat(n) => n
    case Unsat => -2
    case Unknown => -1
  }

  /** The codes keep the three outcomes apart: no count can be mistaken for a failure. */
  lemma CodeInjective(a: SolverResult, b: SolverResult)
    ensures Code(a) == Code(b) <==> a == b
  {
  }

  /** Kotlin `count { model.eval(it, true).isTrue }`: how many list elements the model makes true. */
  function CountIn<T(==)>(xs: seq<T>, m: set<T>): (n: nat)
    ensures n <= |xs|
  {
    if |xs| == 0 then 0
    else CountIn(xs[..|xs| - 1], m) + (if xs[|xs| - 1] in m then 1 else 0)
  }

  predicate Distinct<T(==)>(xs: seq<T>)
  {
    forall i, j :: 0 <= i < j < |xs| ==> xs[i] != xs[j]
  }

  /** Over a list without repetition, counting is the size of the selected set. */
  lemma {:induction false} CountInIsCard<T>(xs: seq<T>, m: set<T>)
    requires Distinct(xs)
    ensures CountIn(xs, m) == |set x | x in xs && x in m|
  {
    if |xs| > 0 {
      var init := xs[..|xs| - 1];
      var last := xs[|xs| - 1];
      assert Distinct(init);
      CountInIsCard(init, m);
      var s := set x | x in init && x in m;
      assert last !in init;
      if last in m {
        assert (set x | x in xs && x in m) == s + {last};
      } else {
        assert (set x | x in xs && x in m) == s;
      }
    }
  }

  /** A list without repetition has as many elements as its set. */
  lemma {:induction false} DistinctCard<T>(xs: seq<T>)
    requires Distinct(xs)
    ensures |set x | x in xs| == |xs|
  {
    if |xs| > 0 {
      var init := xs[..|xs| - 1];
      DistinctCard(init);
      assert xs[|xs| - 1] !in init;
      assert (set x | x in xs) == (set x | x in init) + {xs[|xs| - 1]};
    }
  }

  /** Counting distributes over concatenation. */
  lemma {:induction false} CountInAppend<T>(xs: seq<T>, ys: seq<T>, m: set<T>)
    ensures CountIn(xs + ys, m) == CountIn(xs, m) + CountIn(ys, m)
  {
    if |ys| > 0 {
      assert (xs + ys)[..|xs + ys| - 1] == xs + ys[..|ys| - 1];
      CountInAppend(xs, ys[..|ys| - 1], m);
    } else {
      assert xs + ys == xs;
    }
  }

  /** When no two selected positions coexist, at most one is selected. */
  lemma {:induction false} PairwiseExclusiveCount<T>(xs: seq<T>, m: set<T>)
    requires forall i, j :: 0 <= i < j < |xs| ==> !(xs[i] in m && xs[j] in m)
    ensures CountIn(xs, m) <= 1
  {
    if |xs| > 0 {
      var init := xs[..|xs| - 1];
      PairwiseExclusiveCount(init, m);
      if xs[|xs| - 1] in m {
        forall i | 0 <= i < |init| ensures init[i] !in m {
          assert init[i] == xs[i];
        }
        NoneSelected(init, m);
      }
    }
  }

  lemma {:induction false} NoneSelected<T>(xs: seq<T>, m: set<T>)
    requires forall i :: 0 <= i < |xs| ==> xs[i] !in m
    ensures CountIn(xs, m) == 0
  {
    if |xs| > 0 {
      NoneSelected(xs[..|xs| - 1], m);
    }
  }
}
