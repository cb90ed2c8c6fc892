// MinUnCover: the fewest concrete scenarios that can explain every observation. Each
// observed instance must be explained by at least one of its options, so MinUnCover is
// the size of a minimum hitting set of the power lists, which the source hands to Z3 as
// a MaxSAT problem (MinUnCoverZ3.kt and the engine's private copy of the same code).
//
// A Z3 Boolean constant is identified by its name, the rendered Bitmask; rendering is
// injective on legal Bitmasks (Bitmasks.RenderInjective), so variables are keyed by shape.

module MinUnCover {
  import opened Common
  import opened Valuations
  import opened Bitmasks
  import opened MaxSat
  import opened PowerLists

  // ---- the encoding as a specification --------------------------------------------

  /** Every entry of the shape is a legal (condition, inverseCondition) pair. */
  predicate LegalShape(s: Shape)
  {
    forall i :: 0 <= i < |s| ==> s[i] != Key(true, true)
  }

  /** Every option of every power list can be rendered as a variable name. */
  predicate OptionsLegal(pl: seq<PowerEntry>)
  {
    forall i, j :: 0 <= i < |pl| && 0 <= j < |pl[i].options| ==> AllLegal(pl[i].options[j])
  }

  /** The distinct option shapes across all power lists. */
  function OptionShapes(pl: seq<PowerEntry>): set<Shape>
  {
    set i, j | 0 <= i < |pl| && 0 <= j < |pl[i].options| :: ShapeOf(pl[i].options[j])
  }

  /** `variables.getOrPut(option)` over one power list: new shapes are appended in order. */
  function AddOptions(vars: seq<Shape>, opts: seq<Bitmask>): (r: seq<Shape>)
    ensures Distinct(vars) ==> Distinct(r)
  {
    if |opts| == 0 then vars
    else
      var v := AddOptions(vars, opts[..|opts| - 1]);
      var s := ShapeOf(opts[|opts| - 1]);
      if s in v then v else v + [s]
  }

  /** The keys of the `variables` map, in insertion order. */
  function Variables(pl: seq<PowerEntry>): (r: seq<Shape>)
    ensures Distinct(r)
  {
    if |pl| == 0 then [] else AddOptions(Variables(pl[..|pl| - 1]), pl[|pl| - 1].options)
  }

  /** A key is in the map after the loop iff it was there before or is one of the options. */
  lemma {:induction false} AddOptionsMembership(vars: seq<Shape>, opts: seq<Bitmask>, s: Shape)
    ensures s in AddOptions(vars, opts) <==> s in vars || exists j :: 0 <= j < |opts| && s == ShapeOf(opts[j])
  {
    if |opts| > 0 {
      var init := opts[..|opts| - 1];
      AddOptionsMembership(vars, init, s);
      if exists j :: 0 <= j < |init| && s == ShapeOf(init[j]) {
        var j :| 0 <= j < |init| && s == ShapeOf(init[j]);
        assert s == ShapeOf(opts[j]);
      }
      if exists j :: 0 <= j < |opts| && s == ShapeOf(opts[j]) {
        var j :| 0 <= j < |opts| && s == ShapeOf(opts[j]);
        if j < |opts| - 1 {
          assert s == ShapeOf(init[j]);
        }
      }
    }
  }

  /** There is one variable per distinct option: the keys are exactly the option shapes. */
  lemma {:induction false} VariablesMembership(pl: seq<PowerEntry>, s: Shape)
    ensures s in Variables(pl) <==> s in OptionShapes(pl)
  {
    if |pl| > 0 {
      var init := pl[..|pl| - 1];
      var last := pl[|pl| - 1];
      VariablesMembership(init, s);
      AddOptionsMembership(Variables(init), last.options, s);
      if s in OptionShapes(init) {
        var i, j :| 0 <= i < |init| && 0 <= j < |init[i].options| && s == ShapeOf(init[i].options[j]);
        assert init[i] == pl[i];
      }
      if s in OptionShapes(pl) {
        var i, j :| 0 <= i < |pl| && 0 <= j < |pl[i].options| && s == ShapeOf(pl[i].options[j]);
        if i < |pl| - 1 {
          assert pl[i] == init[i];
          assert s in OptionShapes(init);
        }
      }
    }
  }

  /** `mkOr` of the options of one power list. */
  function OptionClause(opts: seq<Bitmask>): Clause<Shape>
  {
    seq(|opts|, j requires 0 <= j < |opts| => Pos(ShapeOf(opts[j])))
  }

  function HardClauses(pl: seq<PowerEntry>): seq<Clause<Shape>>
  {
    seq(|pl|, i requires 0 <= i < |pl| => OptionClause(pl[i].options))
  }

  /** `AssertSoft(mkNot(variable), 1, "")` for each variable. */
  function SoftNegations(vars: seq<Shape>): seq<Soft<Shape>>
  {
    seq(|vars|, k requires 0 <= k < |vars| => Soft(Neg(vars[k]), 1))
  }

  function HittingSetProblem(pl: seq<PowerEntry>): Problem<Shape>
  {
    Problem(HardClauses(pl), SoftNegations(Variables(pl)))
  }

  /** h picks at least one of the options. */
  predicate Hits(h: set<Shape>, opts: seq<Bitmask>)
  {
    exists j :: 0 <= j < |opts| && ShapeOf(opts[j]) in h
  }

  /** h picks at least one option of every power list. */
  predicate IsHittingSet(h: set<Shape>, pl: seq<PowerEntry>)
  {
    forall i :: 0 <= i < |pl| ==> Hits(h, pl[i].options)
  }

  ghost predicate IsMinimumHittingSetSize(pl: seq<PowerEntry>, n: nat)
  {
    (exists h {:trigger IsHittingSet(h, pl)} :: IsHittingSet(h, pl) && |h| == n) &&
    forall h {:trigger IsHittingSet(h, pl)} :: IsHittingSet(h, pl) ==> n <= |h|
  }

  predicate NoEmptyPowerList(pl: seq<PowerEntry>)
  {
    forall i :: 0 <= i < |pl| ==> |pl[i].options| > 0
  }

  /** `variables.values.count { model.eval(it, true).isTrue }`, and -2 / -1 as outcomes. */
  function MinUnCoverResult(vars: seq<Shape>, a: Answer<Shape>): SolverResult
  {
    match a
    case Satisfiable(m) => Sat(CountIn(vars, m))
    case Unsatisfiable => Unsat
    case Undetermined => Unknown
  }

  // ---- what the encoding means -------------------------------------------------------

  /** There is exactly one variable per distinct option, so counting them is the upper bound. */
  lemma VariablesCount(pl: seq<PowerEntry>)
    ensures |Variables(pl)| == |OptionShapes(pl)|
  {
    var vars := Variables(pl);
    DistinctCard(vars);
    forall s ensures s in vars <==> s in OptionShapes(pl) {
      VariablesMembership(pl, s);
    }
    assert (set v | v in vars) == OptionShapes(pl);
  }

  /** The models of the hard clauses are exactly the hitting sets. */
  lemma HardModelsAreHittingSets(pl: seq<PowerEntry>, m: set<Shape>)
    ensures SatisfiesHard(HittingSetProblem(pl), m) <==> IsHittingSet(m, pl)
  {
    var p := HittingSetProblem(pl);
    assert |p.hard| == |pl|;
    if SatisfiesHard(p, m) {
      forall i | 0 <= i < |pl|
        ensures Hits(m, pl[i].options)
      {
        ClauseIsHit(pl, i, m);
      }
    }
    if IsHittingSet(m, pl) {
      forall i | 0 <= i < |p.hard| ensures ClauseHolds(m, p.hard[i]) {
        ClauseIsHit(pl, i, m);
      }
    }
  }

  lemma ClauseIsHit(pl: seq<PowerEntry>, i: nat, m: set<Shape>)
    requires i < |pl|
    ensures ClauseHolds(m, HardClauses(pl)[i]) <==>
      Hits(m, pl[i].options)
  {
    var c := HardClauses(pl)[i];
    assert c == OptionClause(pl[i].options);
    if ClauseHolds(m, c) {
      var j :| 0 <= j < |c| && Holds(m, c[j]);
      assert ShapeOf(pl[i].options[j]) in m;
    }
    if Hits(m, pl[i].options) {
      var j :| 0 <= j < |pl[i].options| && ShapeOf(pl[i].options[j]) in m;
      assert Holds(m, c[j]);
    }
  }

  /** The penalty of a model is the number of variables it makes true. */
  lemma {:induction false} PenaltyCountsTrueVariables(vars: seq<Shape>, m: set<Shape>)
    ensures Penalty(SoftNegations(vars), m) == CountIn(vars, m)
  {
    if |vars| > 0 {
      var init := vars[..|vars| - 1];
      assert SoftNegations(vars)[..|vars| - 1] == SoftNegations(init);
      PenaltyCountsTrueVariables(init, m);
    }
  }

  /** The variables a model of the hard clauses makes true form a hitting set of that size. */
  lemma TrueVariablesHit(pl: seq<PowerEntry>, m: set<Shape>)
    requires SatisfiesHard(HittingSetProblem(pl), m)
    ensures IsHittingSet((set v | v in Variables(pl) && v in m), pl)
    ensures |set v | v in Variables(pl) && v in m| == CountIn(Variables(pl), m)
  {
    var vars := Variables(pl);
    var h := set v | v in vars && v in m;
    CountInIsCard(vars, m);
    HardModelsAreHittingSets(pl, m);
    forall i | 0 <= i < |pl|
      ensures Hits(h, pl[i].options)
    {
      var j :| 0 <= j < |pl[i].options| && ShapeOf(pl[i].options[j]) in m;
      assert ShapeOf(pl[i].options[j]) in OptionShapes(pl);
      VariablesMembership(pl, ShapeOf(pl[i].options[j]));
    }
  }

  /** An optimal model makes no more variables true than any hitting set has elements. */
  lemma OptimalBelowHittingSets(pl: seq<PowerEntry>, m: set<Shape>, h: set<Shape>)
    requires Optimal(HittingSetProblem(pl), m)
    requires IsHittingSet(h, pl)
    ensures CountIn(Variables(pl), m) <= |h|
  {
    var vars := Variables(pl);
    var p := HittingSetProblem(pl);
    HardModelsAreHittingSets(pl, h);
    assert Penalty(p.soft, m) <= Penalty(p.soft, h);
    PenaltyCountsTrueVariables(vars, m);
    PenaltyCountsTrueVariables(vars, h);
    CountInIsCard(vars, h);
    var chosen := set v | v in vars && v in h;
    assert h == chosen + (h - chosen);
  }

  /**
   * The result of a sound MaxSAT answer: SAT is the size of a minimum hitting set, no more
   * than the number of distinct options; UNSAT happens only if some power list is empty.
   */
  lemma MinUnCoverSound(pl: seq<PowerEntry>, a: Answer<Shape>)
    requires Sound(HittingSetProblem(pl), a)
    ensures MinUnCoverResult(Variables(pl), a).Sat? ==>
      IsMinimumHittingSetSize(pl, MinUnCoverResult(Variables(pl), a).count) &&
      MinUnCoverResult(Variables(pl), a).count <= |OptionShapes(pl)|
    ensures MinUnCoverResult(Variables(pl), a).Unsat? ==> !NoEmptyPowerList(pl)
  {
    VariablesCount(pl);
    match a
    case Satisfiable(m) =>
      TrueVariablesHit(pl, m);
      forall h | IsHittingSet(h, pl) ensures CountIn(Variables(pl), m) <= |h| {
        OptimalBelowHittingSets(pl, m, h);
      }
    case Unsatisfiable =>
      if NoEmptyPowerList(pl) {
        var all := OptionShapes(pl);
        forall i | 0 <= i < |pl|
          ensures Hits(all, pl[i].options)
        {
          assert ShapeOf(pl[i].options[0]) in all;
        }
        HardModelsAreHittingSets(pl, all);
        assert false;
      }
    case Undetermined =>
  }

  // ---- the imperative encoding -----------------------------------------------------

  /**
   * The inner loop of `calculate` over one power list: `getOrPut` creates a variable (and
   * renders its name) at the first occurrence of an option; rendering fails on an illegal
   * entry. Returns the new keys and the disjunction of the list's variables.
   */
  method AddOptionVariables(vars: seq<Shape>, opts: seq<Bitmask>) returns (r: Result<(seq<Shape>, Clause<Shape>), Error>)
    requires forall v :: v in vars ==> LegalShape(v)
    ensures r.Failure? <==> exists j :: 0 <= j < |opts| && !AllLegal(opts[j])
    ensures r.Failure? ==> r.error == IllegalValuation
    ensures r.Success? ==> r.value.0 == AddOptions(vars, opts) && r.value.1 == OptionClause(opts)
    ensures r.Success? ==> forall v :: v in r.value.0 ==> LegalShape(v)
  {
    var keys := vars;
    var options: Clause<Shape> := [];
    for j := 0 to |opts|
      invariant keys == AddOptions(vars, opts[..j])
      invariant options == OptionClause(opts[..j])
      invariant forall v :: v in keys ==> LegalShape(v)
      invariant forall j' :: 0 <= j' < j ==> AllLegal(opts[j'])
    {
      var s := ShapeOf(opts[j]);
      assert opts[..j + 1][..j] == opts[..j];
      AllLegalByShape(opts[j]);
      if s !in keys {
        var name := Render(opts[j]);
        if name.Failure? {
          return Failure(name.error);
        }
        keys := keys + [s];
      }
      assert LegalShape(s);
      options := options + [Pos(s)];
    }
    assert opts[..|opts|] == opts;
    return Success((keys, options));
  }

  /**
   * The loops of `calculate` that fill the `variables` map and the optimizer: one hard
   * disjunction per power list, then one soft negation per variable.
   */
  method Encode(pl: seq<PowerEntry>) returns (r: Result<(Problem<Shape>, seq<Shape>), Error>)
    ensures r.Failure? <==> !OptionsLegal(pl)
    ensures r.Failure? ==> r.error == IllegalValuation
    ensures r.Success? ==> r.value.0 == HittingSetProblem(pl) && r.value.1 == Variables(pl)
  {
    var vars: seq<Shape> := [];
    var hard: seq<Clause<Shape>> := [];
    for i := 0 to |pl|
      invariant vars == Variables(pl[..i])
      invariant hard == HardClauses(pl[..i])
      invariant forall v :: v in vars ==> LegalShape(v)
      invariant forall i', j :: 0 <= i' < i && 0 <= j < |pl[i'].options| ==> AllLegal(pl[i'].options[j])
    {
      var added := AddOptionVariables(vars, pl[i].options);
      if added.Failure? {
        return Failure(added.error);
      }
      assert pl[..i + 1][..i] == pl[..i];
      vars := added.value.0;
      hard := hard + [added.value.1];
    }
    assert pl[..|pl|] == pl;
    var soft: seq<Soft<Shape>> := [];
    for k := 0 to |vars|
      invariant soft == SoftNegations(vars[..k])
    {
      soft := soft + [Soft(Neg(vars[k]), 1)];
    }
    assert vars[..|vars|] == vars;
    return Success((Problem(hard, soft), vars));
  }

  /**
   * `calculate` without its timing: encode, ask the solver once, read the model. SAT is
   * the size of a minimum hitting set, bounded by the number of distinct options.
   */
  method Solve(pl: seq<PowerEntry>, solve: Problem<Shape> -> Answer<Shape>) returns (r: Result<SolverResult, Error>)
    requires SolverSound(solve)
    ensures r.Failure? <==> !OptionsLegal(pl)
    ensures r.Failure? ==> r.error == IllegalValuation
    ensures r.Success? && r.value.Sat? ==>
      IsMinimumHittingSetSize(pl, r.value.count) && r.value.count <= |OptionShapes(pl)|
    ensures r.Success? && r.value.Unsat? ==> !NoEmptyPowerList(pl)
  {
    var encoded := Encode(pl);
    if encoded.Failure? {
      return Failure(encoded.error);
    }
    var (problem, vars) := encoded.value;
    var answer := solve(problem);
    MinUnCoverSound(pl, answer);
    var result: SolverResult;
    match answer {
      case Satisfiable(m) =>
        var count := 0;
        for k := 0 to |vars|
          invariant count == CountIn(vars[..k], m)
        {
          assert vars[..k + 1][..k] == vars[..k];
          if vars[k] in m {
            count := count + 1;
          }
        }
        assert vars[..|vars|] == vars;
        result := Sat(count);
      case Unsatisfiable =>
        result := Unsat;
      case Undetermined =>
        result := Unknown;
    }
    assert result == MinUnCoverResult(vars, answer);
    return Success(result);
  }

  /** MinUnCoverZ3: the calculator with its list of solver times. */
  class MinUnCoverZ3 {
    /** One entry per call, after the initial 0; the clock is a parameter of `Calculate`. */
    var totalTime: seq<int>

    constructor()
      ensures totalTime == [0]
    {
      totalTime := [0];
    }

    /** `calculate(powerLists)`: a call that gets an answer appends exactly one time entry. */
    method Calculate(pl: seq<PowerEntry>, solve: Problem<Shape> -> Answer<Shape>, elapsed: int)
      returns (r: Result<SolverResult, Error>)
      requires SolverSound(solve)
      modifies this
      ensures r.Failure? <==> !OptionsLegal(pl)
      ensures r.Failure? ==> r.error == IllegalValuation && totalTime == old(totalTime)
      ensures r.Success? ==> totalTime == old(totalTime) + [elapsed]
      ensures r.Success? && r.value.Sat? ==>
        IsMinimumHittingSetSize(pl, r.value.count) && r.value.count <= |OptionShapes(pl)|
      ensures r.Success? && r.value.Unsat? ==> !NoEmptyPowerList(pl)
    {
      r := Solve(pl, solve);
      if r.Success? {
        totalTime := totalTime + [elapsed];
      }
    }
  }
}
