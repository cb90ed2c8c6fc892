// The coverage engine: ObservedInstancesMetric. Every tick adds its bitmask to the set of
// observed instances; every `sampleSize` ticks the engine recomputes the lower bound, the
// upper bound, the real value, MinUnCover (a MaxSAT oracle) and MaxUnCover (two matching
// oracles that must agree), skipping a solver once its series has reached `maxSize`.

module ObservedInstances {
  import opened Common
  import opened Bitmasks
  import opened PowerLists
  import opened MaxSat
  import opened MaxUnCoverGraph
  import opened CoverageBounds
  import MinUnCover

  /** The foreign solvers the engine calls, as functions constrained by their contracts. */
  datatype Solvers = Solvers(
    maxSat: Problem<Shape> -> Answer<Shape>,
    sparseEdmonds: Graph -> set<Edge>,
    hopcroftKarp: (Graph, set<Vertex>, set<Vertex>) -> set<Edge>)

  ghost predicate SolversSound(s: Solvers)
  {
    SolverSound(s.maxSat) && SparseEdmondsSound(s.sparseEdmonds) && HopcroftKarpSound(s.hopcroftKarp)
  }

  /** The milliseconds the clock reports for each solver call of one recomputation. */
  datatype Elapsed = Elapsed(minSat: int, sparseEdmonds: int, hopcroftKarp: int)

  /** Kotlin `lastOrNull() == maxSize`: the series exists and its latest value is the maximum. */
  predicate Saturated(series: seq<int>, maxSize: int)
  {
    |series| > 0 && series[|series| - 1] == maxSize
  }

  predicate NonDecreasing(xs: seq<int>)
  {
    forall k, l :: 0 <= k <= l < |xs| ==> xs[k] <= xs[l]
  }

  /** Lower bound below upper bound at every recomputation. */
  predicate BoundsOrdered(lower: seq<int>, upper: seq<int>)
    requires |lower| == |upper|
  {
    forall k :: 0 <= k < |lower| ==> 0 <= lower[k] <= upper[k]
  }

  /** MinUnCover never records the UNSAT code. */
  predicate NeverUnsat(series: seq<int>)
  {
    forall k :: 0 <= k < |series| ==> series[k] != Code(Unsat)
  }

  lemma BoundsOrderedSnoc(lower: seq<int>, upper: seq<int>, x: int, y: int)
    requires |lower| == |upper| && BoundsOrdered(lower, upper) && 0 <= x <= y
    ensures BoundsOrdered(lower + [x], upper + [y])
  {
  }

  lemma NonDecreasingSnoc(xs: seq<int>, x: int)
    requires NonDecreasing(xs) && (|xs| > 0 ==> xs[|xs| - 1] <= x)
    ensures NonDecreasing(xs + [x])
  {
  }

  /** A series that keeps its prefix and gains at most a non-UNSAT value stays free of UNSAT. */
  lemma NeverUnsatExtended(before: seq<int>, after: seq<int>)
    requires NeverUnsat(before)
    requires |before| <= |after| <= |before| + 1 && after[..|before|] == before
    requires |after| > |before| ==> after[|before|] != Code(Unsat)
    ensures NeverUnsat(after)
  {
    forall k | 0 <= k < |after| ensures after[k] != Code(Unsat) {
      if k < |before| {
        assert after[k] == after[..|before|][k];
      }
    }
  }

  /** What a recorded MinUnCover value means: UNKNOWN (-1), or the reference minimum. */
  ghost predicate MinUnCoverRecorded(o: seq<Bitmask>, c: int)
  {
    c == Code(Unknown) || (c >= 0 && IsMinUnCover(o, c))
  }

  /** Two sizes of maximum matchings of one graph are equal. */
  lemma MaximumMatchingSizeUnique(g: Graph, a: nat, b: nat)
    requires IsMaximumMatchingSize(g, a) && IsMaximumMatchingSize(g, b)
    ensures a == b
  {
    var m1 :| IsMaximumMatching(g, m1) && |m1| == a;
    var m2 :| IsMaximumMatching(g, m2) && |m2| == b;
    MaximumMatchingsAgree(g, m1, m2);
  }

  lemma {:induction false} MultipleAtLeast(k: int, s: int)
    requires k >= 1 && s > 0
    ensures k * s >= s
  {
    if k > 1 {
      MultipleAtLeast(k - 1, s);
      assert k * s == (k - 1) * s + s;
    }
  }

  /** Quotient and remainder are determined by any decomposition a == q * s + r with 0 <= r < s. */
  lemma DivisionUnique(a: int, s: int, q: int, r: int)
    requires s > 0 && 0 <= r < s && a == q * s + r
    ensures a / s == q && a % s == r
  {
    var d := q - a / s;
    assert d * s == a % s - r;
    if d >= 1 {
      MultipleAtLeast(d, s);
      assert false;
    } else if d <= -1 {
      MultipleAtLeast(-d, s);
      assert false;
    }
  }

  /** With a positive sample size, tick n + 1 starts a new sample exactly when (n + 1) % s == 0. */
  lemma SampleStep(n: nat, s: int)
    requires s > 0
    ensures (n + 1) / s == n / s + (if (n + 1) % s == 0 then 1 else 0)
  {
    var q, r := n / s, n % s;
    if r + 1 < s {
      DivisionUnique(n + 1, s, q, r + 1);
    } else {
      DivisionUnique(n + 1, s, q + 1, 0);
    }
  }

  /**
   * The three bound series after a recomputation over the observed set o: each gains its
   * value, the number of certain observations, the number of distinct resolutions and the
   * number of distinct ground-truth vectors.
   */
  ghost predicate BoundsStep(o: seq<Bitmask>, certainBefore: seq<int>, possibleBefore: seq<int>, realBefore: seq<int>,
                             certain: seq<int>, possible: seq<int>, realValue: seq<int>)
  {
    certain == certainBefore + [CountCertain(o)] &&
    possible == possibleBefore + [|AllResolutions(o)|] &&
    realValue == realBefore + [RealValue(o)]
  }

  /**
   * One MinUnCover step of a recomputation, from the series `before` (with its time list)
   * to `after`: once the series has reached `maxSize` it repeats it at no cost; otherwise
   * the solver's code is appended with its time, unless an illegal valuation makes the
   * step fail, which appends nothing.
   */
  ghost predicate MinUnCoverStep(o: seq<Bitmask>, maxSize: int, elapsed: int,
                                 before: seq<int>, timesBefore: seq<int>,
                                 after: seq<int>, timesAfter: seq<int>)
  {
    var failed := !Saturated(before, maxSize) && !ObservedLegal(o);
    (Saturated(before, maxSize) ==> after == before + [maxSize] && timesAfter == timesBefore + [0]) &&
    (!Saturated(before, maxSize) && !failed ==>
       |after| == |before| + 1 && after[..|before|] == before &&
       MinUnCoverRecorded(o, after[|before|]) && timesAfter == timesBefore + [elapsed]) &&
    (failed ==> after == before && timesAfter == timesBefore)
  }

  /**
   * One MaxUnCover step: repeat `maxSize` once reached, appending 0 to both time lists;
   * otherwise append the maximum matching size and each matcher's time, unless an illegal
   * valuation makes the step fail, which appends nothing.
   */
  ghost predicate MaxUnCoverStep(o: seq<Bitmask>, maxSize: int, elapsed: Elapsed,
                                 before: seq<int>, sparseBefore: seq<int>, hopcroftBefore: seq<int>,
                                 after: seq<int>, sparseAfter: seq<int>, hopcroftAfter: seq<int>)
  {
    var failed := !Saturated(before, maxSize) && !ObservedLegal(o);
    (Saturated(before, maxSize) ==>
       after == before + [maxSize] && sparseAfter == sparseBefore + [0] && hopcroftAfter == hopcroftBefore + [0]) &&
    (!Saturated(before, maxSize) && !failed ==>
       |after| == |before| + 1 && after[..|before|] == before &&
       after[|before|] >= 0 && IsMaxUnCover(o, after[|before|]) &&
       sparseAfter == sparseBefore + [elapsed.sparseEdmonds] &&
       hopcroftAfter == hopcroftBefore + [elapsed.hopcroftKarp]) &&
    (failed ==> after == before && sparseAfter == sparseBefore && hopcroftAfter == hopcroftBefore)
  }

  /** A MinUnCover step keeps the series free of UNSAT and one time entry ahead of it. */
  lemma MinUnCoverStepKeeps(o: seq<Bitmask>, maxSize: int, elapsed: int,
                            before: seq<int>, timesBefore: seq<int>,
                            after: seq<int>, timesAfter: seq<int>)
    requires MinUnCoverStep(o, maxSize, elapsed, before, timesBefore, after, timesAfter)
    requires NeverUnsat(before) && |timesBefore| == |before| + 1
    ensures NeverUnsat(after) && |timesAfter| == |after| + 1
    ensures |before| <= |after| <= |before| + 1
  {
    if Saturated(before, maxSize) || ObservedLegal(o) {
      assert after[..|before|] == before;
      NeverUnsatExtended(before, after);
    }
  }

  /**
   * The chain of one recomputation that ran both solvers: the recorded lower bound, the
   * recorded MinUnCover (when the solver did not report UNKNOWN), the recorded MaxUnCover and
   * the recorded upper bound are ordered, and the recorded real value lies between the two
   * uncovers whenever every ground-truth hint fits its observation.
   */
  lemma RecordedChain(o: seq<Bitmask>, maxSize: int, elapsed: Elapsed,
                      certainBefore: seq<int>, possibleBefore: seq<int>, realBefore: seq<int>,
                      certain: seq<int>, possible: seq<int>, realValue: seq<int>,
                      minBefore: seq<int>, minTimesBefore: seq<int>, min: seq<int>, minTimes: seq<int>,
                      maxBefore: seq<int>, sparseBefore: seq<int>, hopcroftBefore: seq<int>,
                      max: seq<int>, sparse: seq<int>, hopcroft: seq<int>)
    requires DistinctShapes(o) && ObservedLegal(o)
    requires !Saturated(minBefore, maxSize) && !Saturated(maxBefore, maxSize)
    requires BoundsStep(o, certainBefore, possibleBefore, realBefore, certain, possible, realValue)
    requires MinUnCoverStep(o, maxSize, elapsed.minSat, minBefore, minTimesBefore, min, minTimes)
    requires MaxUnCoverStep(o, maxSize, elapsed, maxBefore, sparseBefore, hopcroftBefore, max, sparse, hopcroft)
    requires min[|min| - 1] != Code(Unknown)
    ensures |certain| > 0 && |possible| > 0 && |realValue| > 0 && |min| > 0 && |max| > 0
    ensures certain[|certain| - 1] <= min[|min| - 1] <= max[|max| - 1] <= possible[|possible| - 1]
    ensures HintsFit(o) ==> min[|min| - 1] <= realValue[|realValue| - 1] <= max[|max| - 1]
  {
    var n, k := min[|minBefore|], max[|maxBefore|];
    assert |min| - 1 == |minBefore| && |max| - 1 == |maxBefore|;
    BoundChain(o, n, k);
    if HintsFit(o) {
      RealBetweenUnCovers(o, n, k);
    }
  }

  /** `observedInstances.map { it to powerList(it) }`. */
  method ComputePowerLists(o: seq<Bitmask>) returns (pl: seq<PowerEntry>)
    ensures PowerListsOf(o, pl)
  {
    pl := [];
    for i := 0 to |o|
      invariant PowerListsOf(o[..i], pl)
    {
      var opts := PowerList(o[i]);
      PowerListShapes(o[i], opts);
      assert OptionShapeSet(opts) == Resolutions(o[i]);
      pl := pl + [PowerEntry(o[i], opts)];
    }
    assert o[..|o|] == o;
  }

  class ObservedInstancesMetric {
    const sampleSize: int
    const maxSize: int
    var evaluatedInstances: nat
    /** The `LinkedHashSet` of observed bitmasks, in insertion order, one per shape. */
    var observedInstances: seq<Bitmask>
    var observedInstanceCount: seq<int>
    var certainInstanceCount: seq<int>
    var possibleInstanceCount: seq<int>
    var realValueInstanceCount: seq<int>
    var maxUncoverCount: seq<int>
    var minUncoverCount: seq<int>
    var timeInMaxSAT: seq<int>
    var timeInMinSAT: seq<int>
    var timeInSparseEdmonds: seq<int>
    var timeInHopcroftKarp: seq<int>

    /**
     * The set has one entry per shape and is empty exactly before the first tick; there is
     * one raw count per tick, non-decreasing, the latest being the size of the set.
     */
    predicate ObservedValid()
      reads this`observedInstances, this`evaluatedInstances, this`observedInstanceCount
    {
      DistinctShapes(observedInstances) &&
      (evaluatedInstances == 0 <==> observedInstances == []) &&
      |observedInstanceCount| == evaluatedInstances &&
      NonDecreasing(observedInstanceCount) &&
      (evaluatedInstances > 0 ==> observedInstanceCount[evaluatedInstances - 1] == |observedInstances|)
    }

    /** One recomputation per `sampleSize` ticks; none at all when `sampleSize` is 0. */
    predicate SampleCount()
      reads this`evaluatedInstances, this`certainInstanceCount
    {
      (sampleSize > 0 ==> |certainInstanceCount| == evaluatedInstances / sampleSize) &&
      (sampleSize == 0 ==> certainInstanceCount == [])
    }

    /** The three bound series move together, with lower <= upper at every step. */
    predicate BoundsValid()
      reads this`certainInstanceCount, this`possibleInstanceCount, this`realValueInstanceCount
    {
      |possibleInstanceCount| == |certainInstanceCount| &&
      |realValueInstanceCount| == |certainInstanceCount| &&
      BoundsOrdered(certainInstanceCount, possibleInstanceCount)
    }

    /** MinUnCover never records UNSAT; its time list holds the initial 0 plus one entry per value. */
    predicate MinValid()
      reads this`minUncoverCount, this`timeInMinSAT
    {
      NeverUnsat(minUncoverCount) && |timeInMinSAT| == |minUncoverCount| + 1
    }

    /** Each matcher's time list holds the initial 0 plus one entry per MaxUnCover value. */
    predicate MaxValid()
      reads this`maxUncoverCount, this`timeInSparseEdmonds, this`timeInHopcroftKarp
    {
      |timeInSparseEdmonds| == |maxUncoverCount| + 1 && |timeInHopcroftKarp| == |maxUncoverCount| + 1
    }

    /**
     * What every evaluation keeps. Besides the parts above: each solver series lags the one
     * before it by at most one step (a failed call appends nothing), and the dead MaxSAT
     * MaxUnCover never adds a time.
     */
    predicate Valid()
      reads this
    {
      ObservedValid() && SampleCount() && BoundsValid() && MinValid() && MaxValid() &&
      |maxUncoverCount| <= |minUncoverCount| <= |certainInstanceCount| &&
      timeInMaxSAT == [0]
    }

    constructor(sampleSize: int, maxSize: int)
      ensures Valid()
      ensures this.sampleSize == sampleSize && this.maxSize == maxSize
      ensures evaluatedInstances == 0 && observedInstances == [] && observedInstanceCount == []
      ensures certainInstanceCount == [] && possibleInstanceCount == [] && realValueInstanceCount == []
      ensures minUncoverCount == [] && maxUncoverCount == []
      ensures timeInMaxSAT == [0] && timeInMinSAT == [0]
      ensures timeInSparseEdmonds == [0] && timeInHopcroftKarp == [0]
    {
      this.sampleSize := sampleSize;
      this.maxSize := maxSize;
      evaluatedInstances := 0;
      observedInstances := [];
      observedInstanceCount := [];
      certainInstanceCount := [];
      possibleInstanceCount := [];
      realValueInstanceCount := [];
      maxUncoverCount := [];
      minUncoverCount := [];
      timeInMaxSAT := [0];
      timeInMinSAT := [0];
      timeInSparseEdmonds := [0];
      timeInHopcroftKarp := [0];
    }

    /** `calculateMinUnCoverUsingZ3`: the solver's answer as a code, its time appended. */
    method CalculateMinUnCoverUsingZ3(pl: seq<PowerEntry>, solve: Problem<Shape> -> Answer<Shape>, elapsed: int)
      returns (r: Result<int, Error>)
      requires SolverSound(solve)
      modifies this`timeInMinSAT
      ensures r.Failure? <==> !MinUnCover.OptionsLegal(pl)
      ensures r.Failure? ==> r.error == IllegalValuation && timeInMinSAT == old(timeInMinSAT)
      ensures r.Success? ==> timeInMinSAT == old(timeInMinSAT) + [elapsed]
      ensures r.Success? && r.value >= 0 ==> MinUnCover.IsMinimumHittingSetSize(pl, r.value)
      ensures r.Success? && r.value == Code(Unsat) ==> !MinUnCover.NoEmptyPowerList(pl)
      ensures r.Success? ==> r.value >= Code(Unsat)
    {
      var solved := MinUnCover.Solve(pl, solve);
      if solved.Failure? {
        return Failure(solved.error);
      }
      timeInMinSAT := timeInMinSAT + [elapsed];
      CodeInjective(solved.value, Unsat);
      return Success(Code(solved.value));
    }

    /** `calculateMaxUnCoverUsingSparseEdmonds` on the engine's own graph ("o$instance" vertices). */
    method CalculateMaxUnCoverUsingSparseEdmonds(pl: seq<PowerEntry>, matcher: Graph -> set<Edge>, elapsed: int)
      returns (r: Result<nat, Error>)
      requires SparseEdmondsSound(matcher)
      modifies this`timeInSparseEdmonds
      ensures r.Failure? <==> !GraphLegal(pl)
      ensures r.Failure? ==> r.error == IllegalValuation && timeInSparseEdmonds == old(timeInSparseEdmonds)
      ensures r.Success? ==> timeInSparseEdmonds == old(timeInSparseEdmonds) + [elapsed]
      ensures r.Success? ==> IsMaximumMatchingSize(GraphOf(pl, false), r.value)
    {
      var created := CreateGraph(pl, false);
      if created.Failure? {
        return Failure(created.error);
      }
      var (graph, _, _) := created.value;
      var m := matcher(graph.View());
      timeInSparseEdmonds := timeInSparseEdmonds + [elapsed];
      return Success(|m|);
    }

    /** `calculateMaxUnCoverUsingHopcroftKarp`: the same graph, handed over with its partitions. */
    method CalculateMaxUnCoverUsingHopcroftKarp(pl: seq<PowerEntry>,
                                                matcher: (Graph, set<Vertex>, set<Vertex>) -> set<Edge>,
                                                elapsed: int)
      returns (r: Result<nat, Error>)
      requires HopcroftKarpSound(matcher)
      modifies this`timeInHopcroftKarp
      ensures r.Failure? <==> !GraphLegal(pl)
      ensures r.Failure? ==> r.error == IllegalValuation && timeInHopcroftKarp == old(timeInHopcroftKarp)
      ensures r.Success? ==> timeInHopcroftKarp == old(timeInHopcroftKarp) + [elapsed]
      ensures r.Success? ==> IsMaximumMatchingSize(GraphOf(pl, false), r.value)
    {
      var created := CreateGraph(pl, false);
      if created.Failure? {
        return Failure(created.error);
      }
      var (graph, p1, p2) := created.value;
      GraphIsBipartite(pl, false);
      var m := matcher(graph.View(), p1, p2);
      timeInHopcroftKarp := timeInHopcroftKarp + [elapsed];
      return Success(|m|);
    }


    /**
     * `certainInstanceCount.add(calculateLowerBound())`, `possibleInstanceCount.add(calculateUpperBound(powerLists))`
     * and `realValueInstanceCount.add(calculateRealValue())`: the upper bound is the number of
     * distinct options over all power lists, which is the size of the union of resolutions.
     */
    method AppendBounds(o: seq<Bitmask>, pl: seq<PowerEntry>)
      requires o == observedInstances && DistinctShapes(o) && PowerListsOf(o, pl)
      requires BoundsValid()
      modifies this`certainInstanceCount, this`possibleInstanceCount, this`realValueInstanceCount
      ensures BoundsValid()
      ensures BoundsStep(o, old(certainInstanceCount), old(possibleInstanceCount), old(realValueInstanceCount),
                         certainInstanceCount, possibleInstanceCount, realValueInstanceCount)
    {
      OptionShapesAreUnion(o, pl);
      LowerBelowUpper(o);
      BoundsOrderedSnoc(certainInstanceCount, possibleInstanceCount, CountCertain(o), |AllResolutions(o)|);
      certainInstanceCount := certainInstanceCount + [CountCertain(o)];
      possibleInstanceCount := possibleInstanceCount + [|MinUnCover.OptionShapes(pl)|];
      realValueInstanceCount := realValueInstanceCount + [RealValue(o)];
    }

    /** The MinUnCover branch of `evaluate`: `if (minUncoverCount.lastOrNull() == maxSize) … else …`. */
    method UpdateMinUnCover(o: seq<Bitmask>, pl: seq<PowerEntry>, solve: Problem<Shape> -> Answer<Shape>, elapsed: int)
      returns (r: Result<(), Error>)
      requires PowerListsOf(o, pl) && SolverSound(solve)
      requires MinValid()
      modifies this`minUncoverCount, this`timeInMinSAT
      ensures MinValid()
      ensures r.Failure? <==> MinUnCoverFails(o, old(minUncoverCount))
      ensures r.Failure? ==> r.error == IllegalValuation
      ensures |minUncoverCount| == |old(minUncoverCount)| + (if r.Failure? then 0 else 1)
      ensures MinUnCoverStep(o, maxSize, elapsed, old(minUncoverCount), old(timeInMinSAT),
                             minUncoverCount, timeInMinSAT)
    {
      ghost var before := minUncoverCount;
      if Saturated(minUncoverCount, maxSize) {
        NeverUnsatExtended(before, before + [maxSize]);
        minUncoverCount := minUncoverCount + [maxSize];
        timeInMinSAT := timeInMinSAT + [0];
        return Success(());
      }
      LegalityAgrees(o, pl);
      var min := CalculateMinUnCoverUsingZ3(pl, solve, elapsed);
      if min.Failure? {
        return Failure(min.error);
      }
      PowerListsNonEmpty(o, pl);
      if min.value >= 0 {
        MinUnCoverAgrees(o, pl, min.value);
      }
      NeverUnsatExtended(before, before + [min.value]);
      minUncoverCount := minUncoverCount + [min.value];
      return Success(());
    }

    /**
     * The MaxUnCover branch of `evaluate`: repeat `maxSize` once reached, otherwise run both
     * matchers and `check(max1 == max2)`, which cannot fail.
     */
    method UpdateMaxUnCover(o: seq<Bitmask>, pl: seq<PowerEntry>, solvers: Solvers, elapsed: Elapsed)
      returns (r: Result<(), Error>)
      requires PowerListsOf(o, pl) && SolversSound(solvers)
      requires MaxValid()
      modifies this`maxUncoverCount, this`timeInSparseEdmonds, this`timeInHopcroftKarp
      ensures MaxValid()
      ensures r.Failure? <==> !Saturated(old(maxUncoverCount), maxSize) && !ObservedLegal(o)
      ensures r.Failure? ==> r.error == IllegalValuation
      ensures |maxUncoverCount| == |old(maxUncoverCount)| + (if r.Failure? then 0 else 1)
      ensures MaxUnCoverStep(o, maxSize, elapsed, old(maxUncoverCount), old(timeInSparseEdmonds),
                             old(timeInHopcroftKarp), maxUncoverCount, timeInSparseEdmonds,
                             timeInHopcroftKarp)
    {
      if Saturated(maxUncoverCount, maxSize) {
        maxUncoverCount := maxUncoverCount + [maxSize];
        timeInSparseEdmonds := timeInSparseEdmonds + [0];
        timeInHopcroftKarp := timeInHopcroftKarp + [0];
        return Success(());
      }
      LegalityAgrees(o, pl);
      var max1 := CalculateMaxUnCoverUsingSparseEdmonds(pl, solvers.sparseEdmonds, elapsed.sparseEdmonds);
      if max1.Failure? {
        return Failure(max1.error);
      }
      var max2 := CalculateMaxUnCoverUsingHopcroftKarp(pl, solvers.hopcroftKarp, elapsed.hopcroftKarp);
      MaximumMatchingSizeUnique(GraphOf(pl, false), max1.value, max2.value);
      // `check(max1 == max2)`: the two matchers cannot disagree.
      assert max1.value == max2.value;
      GraphAgrees(o, pl);
      maxUncoverCount := maxUncoverCount + [max1.value];
      return Success(());
    }

    /** The MinUnCover step of a recomputation fails: it would render an illegal valuation. */
    predicate MinUnCoverFails(o: seq<Bitmask>, min: seq<int>)
    {
      !Saturated(min, maxSize) && !ObservedLegal(o)
    }

    /**
     * The body of `if (evaluatedInstances % sampleSize == 0)`: the three bounds, the
     * MinUnCover step, and the MaxUnCover step unless the MinUnCover step failed, in which
     * case MaxUnCover is left as it was.
     */
    method Recompute(o: seq<Bitmask>, solvers: Solvers, elapsed: Elapsed) returns (r: Result<(), Error>)
      requires o == observedInstances && DistinctShapes(o) && SolversSound(solvers)
      requires BoundsValid() && MinValid() && MaxValid()
      requires |maxUncoverCount| <= |minUncoverCount| <= |certainInstanceCount|
      modifies this`certainInstanceCount, this`possibleInstanceCount, this`realValueInstanceCount
      modifies this`minUncoverCount, this`timeInMinSAT
      modifies this`maxUncoverCount, this`timeInSparseEdmonds, this`timeInHopcroftKarp
      ensures BoundsValid() && MinValid() && MaxValid()
      ensures |maxUncoverCount| <= |minUncoverCount| <= |certainInstanceCount|
      ensures r.Failure? <==> !ObservedLegal(o) &&
                              !(Saturated(old(minUncoverCount), maxSize) && Saturated(old(maxUncoverCount), maxSize))
      ensures r.Failure? ==> r.error == IllegalValuation
      ensures BoundsStep(o, old(certainInstanceCount), old(possibleInstanceCount), old(realValueInstanceCount),
                         certainInstanceCount, possibleInstanceCount, realValueInstanceCount)
      ensures MinUnCoverStep(o, maxSize, elapsed.minSat, old(minUncoverCount), old(timeInMinSAT),
                             minUncoverCount, timeInMinSAT)
      ensures MinUnCoverFails(o, old(minUncoverCount)) ==>
        (maxUncoverCount == old(maxUncoverCount) &&
         timeInSparseEdmonds == old(timeInSparseEdmonds) && timeInHopcroftKarp == old(timeInHopcroftKarp))
      ensures !MinUnCoverFails(o, old(minUncoverCount)) ==>
        MaxUnCoverStep(o, maxSize, elapsed, old(maxUncoverCount), old(timeInSparseEdmonds),
                       old(timeInHopcroftKarp), maxUncoverCount, timeInSparseEdmonds,
                       timeInHopcroftKarp)
    {
      var pl := ComputePowerLists(o);
      AppendBounds(o, pl);
      r := UpdateMinUnCover(o, pl, solvers.maxSat, elapsed.minSat);
      if r.Failure? {
        return;
      }
      r := UpdateMaxUnCover(o, pl, solvers, elapsed);
    }

    /** Records one tick: inserts its bitmask into the observed set and its size into the series. */
    method Observe(tick: Bitmask) returns (o: seq<Bitmask>)
      requires ObservedValid()
      modifies this`observedInstances, this`evaluatedInstances, this`observedInstanceCount
      ensures ObservedValid()
      ensures o == observedInstances == Insert(old(observedInstances), tick)
      ensures evaluatedInstances == old(evaluatedInstances) + 1
      ensures observedInstanceCount == old(observedInstanceCount) + [|o|]
    {
      o := Insert(observedInstances, tick);
      NonDecreasingSnoc(observedInstanceCount, |o|);
      observedInstances := o;
      evaluatedInstances := evaluatedInstances + 1;
      observedInstanceCount := observedInstanceCount + [|o|];
    }

    /**
     * `evaluate(tick)`. The bitmask joins the set and the raw count is appended; every
     * `sampleSize` ticks the bounds are recomputed. `sampleSize == 0` aborts with Kotlin's
     * division by zero right after the raw count.
     */
    method Evaluate(tick: Bitmask, solvers: Solvers, elapsed: Elapsed) returns (r: Result<(), Error>)
      requires Valid() && SolversSound(solvers)
      modifies this
      ensures Valid()
      ensures observedInstances == Insert(old(observedInstances), tick)
      ensures evaluatedInstances == old(evaluatedInstances) + 1
      ensures observedInstanceCount == old(observedInstanceCount) + [|observedInstances|]
      ensures timeInMaxSAT == old(timeInMaxSAT)
      ensures sampleSize == 0 ==> r == Failure(DivisionByZero)
      ensures r.Failure? && sampleSize != 0 ==> r.error == IllegalValuation
      ensures sampleSize != 0 && evaluatedInstances % sampleSize != 0 ==> r.Success?
      ensures sampleSize == 0 || evaluatedInstances % sampleSize != 0 ==>
        (certainInstanceCount == old(certainInstanceCount) &&
         possibleInstanceCount == old(possibleInstanceCount) &&
         realValueInstanceCount == old(realValueInstanceCount) &&
         minUncoverCount == old(minUncoverCount) && maxUncoverCount == old(maxUncoverCount) &&
         timeInMinSAT == old(timeInMinSAT) && timeInSparseEdmonds == old(timeInSparseEdmonds) &&
         timeInHopcroftKarp == old(timeInHopcroftKarp))
      ensures sampleSize != 0 && evaluatedInstances % sampleSize == 0 ==>
        (r.Failure? <==> !ObservedLegal(observedInstances) &&
                         !(Saturated(old(minUncoverCount), maxSize) && Saturated(old(maxUncoverCount), maxSize)))
      ensures sampleSize != 0 && evaluatedInstances % sampleSize == 0 ==>
        BoundsStep(observedInstances, old(certainInstanceCount), old(possibleInstanceCount),
                   old(realValueInstanceCount), certainInstanceCount, possibleInstanceCount, realValueInstanceCount)
      ensures sampleSize != 0 && evaluatedInstances % sampleSize == 0 ==>
        MinUnCoverStep(observedInstances, maxSize, elapsed.minSat, old(minUncoverCount), old(timeInMinSAT),
                       minUncoverCount, timeInMinSAT)
      ensures sampleSize != 0 && evaluatedInstances % sampleSize == 0 &&
              MinUnCoverFails(observedInstances, old(minUncoverCount)) ==>
        (maxUncoverCount == old(maxUncoverCount) &&
         timeInSparseEdmonds == old(timeInSparseEdmonds) && timeInHopcroftKarp == old(timeInHopcroftKarp))
      ensures sampleSize != 0 && evaluatedInstances % sampleSize == 0 &&
              !MinUnCoverFails(observedInstances, old(minUncoverCount)) ==>
        MaxUnCoverStep(observedInstances, maxSize, elapsed, old(maxUncoverCount), old(timeInSparseEdmonds),
                       old(timeInHopcroftKarp), maxUncoverCount, timeInSparseEdmonds,
                       timeInHopcroftKarp)
    {
      var o := Observe(tick);
      if sampleSize == 0 {
        return Failure(DivisionByZero);
      }
      if sampleSize > 0 {
        SampleStep(evaluatedInstances - 1, sampleSize);
      }
      if evaluatedInstances % sampleSize != 0 {
        return Success(());
      }
      r := Recompute(o, solvers, elapsed);
    }
  }
}
