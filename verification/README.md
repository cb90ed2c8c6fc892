# Open-world coverage bounds, modelled in Dafny

This project models the coverage-bound engine of stars-owa-coverage. Each tick of a scenario is an observation, a *Bitmask*: a fixed-width vector of three-valued `Valuation`s (True, False or Unknown), where each entry may also carry a ground-truth hint. The engine `ObservedInstancesMetric` does three things:

- It keeps a deduplicated, insertion-ordered set of the observations seen so far.
- It expands each observation into its *power list*: every concrete vector obtained by setting each Unknown to True and to False.
- Every `sampleSize` ticks, it appends one value to each of five series:
  - the lower bound (observations without an Unknown);
  - the upper bound (distinct concrete vectors across all power lists);
  - the real value (distinct ground-truth vectors);
  - MinUnCover (a minimum hitting set of the power lists, computed by a MaxSAT solver);
  - MaxUnCover (a maximum bipartite matching between observations and concrete vectors, computed by two matching algorithms that must agree).

  Once MinUnCover or MaxUnCover reaches `maxSize`, that solver is skipped and `maxSize` is repeated.

## Modules

| file | module | what it holds |
|---|---|---|
| `common.dfy` | `Common`, `Cardinality` | `Option`, `Result`, the error kinds; cardinality facts about sets and images |
| `valuation.dfy` | `Valuations` | `Valuation`, its `Key` (the part equality sees), `equals`, `hashCode`, `toString` |
| `ticks.dfy` | `Ticks` | `IndexTickUnit`, `IndexTickDifference` over a 32-bit `Int32` with wrap-around; decimal `toString`/`toInt` |
| `bitmask.dfy` | `Bitmasks` | shapes, `containsUnknown`, first unknown index, rendering of a Bitmask, the reference set of resolutions |
| `powerlist.dfy` | `PowerLists` | `powerList` as a `while` loop proved against the resolutions |
| `tickdata.dfy` | `TickData` | `toBitmask` of a scenario instance |
| `maxsat.dfy` | `MaxSat` | clauses, soft constraints, penalties, the solver oracle and its soundness, result codes -2/-1 |
| `min_uncover.dfy` | `MinUnCover` | the hitting-set MaxSAT encoding of `MinUnCoverZ3` and its class |
| `max_uncover_sat.dfy` | `MaxUnCoverSat` | the matching-as-MaxSAT encoding of `MaxUnCoverZ3` and its class |
| `max_uncover_graph.dfy` | `MaxUnCoverGraph` | bipartite graphs, matchings, the matcher oracles, `createGraph`, `MaxUnCoverGraphBased` |
| `bounds.dfy` | `CoverageBounds` | the observed set, the lower, upper and real-value bounds, reference MinUnCover and MaxUnCover, the bound chain |
| `engine.dfy` | `ObservedInstances` | the class `ObservedInstancesMetric` and `evaluate` |
| `scenarios.dfy` | `Scenarios` | the two-observation example worked out to its bounds |

Design choices:

- **Identity.** Kotlin compares valuations on `(condition, inverseCondition)` only. The model calls that pair a `Key` and a vector of keys a `Shape`. Every Kotlin set or map keyed by Bitmask deduplicates by shape. The observed `LinkedHashSet` is a `seq<Bitmask>` with pairwise different shapes that keeps the first-inserted representative. This matters because the real value reads the hints, which equality ignores.
- **Foreign solvers.** Z3 `Optimize` and the jgrapht matchings are function-typed parameters constrained by a soundness predicate:
  - a SATISFIABLE answer carries an optimal model;
  - UNSATISFIABLE comes only when no model exists;
  - UNKNOWN is always allowed;
  - a matcher returns a maximum matching (Hopcroft-Karp only when it is given a true bipartition).
- **Results.** Solver results are a datatype `Sat(n) | Unsat | Unknown`. `Code` maps them to the integers Kotlin records (n, -2, -1).
- **Errors.** Kotlin exceptions become `Failure` values:
  - `IllegalValuation` when a `(true, true)` valuation is rendered (`error("Illegal")`);
  - `DivisionByZero` for `evaluatedInstances % 0`;
  - `NumberFormat` for a bad `toInt`.
- **Digits.** `String.toInt()` is Java's `Integer.parseInt`, which reads each character with `Character.digit(c, 10)`. That accepts the decimal digits of every script, not only ASCII. `Ticks.DigitZeros` lists the digit zero of each of the 37 decimal-digit blocks (Unicode category Nd) of the Basic Multilingual Plane, as of Unicode 15. Java reads a string by UTF-16 unit, so digits outside that plane arrive as surrogates and are never digits; the table leaves them out for the same result. `toString` writes ASCII digits only.
- **Reference meanings.** A MinUnCover of the observations is the size of a smallest set of concrete shapes that holds some resolution of every observation (`IsMinUnCover`). A MaxUnCover is the size of a maximum matching of the reference graph, which links each observation to its resolutions (`IsMaxUnCover`). The engine's two bounds are proved to be exactly these values: MinUnCover through the hitting-set encoding (`CoverageBounds.MinUnCoverAgrees`), MaxUnCover through the engine's own graph (`CoverageBounds.GraphAgrees`). The standalone `MaxUnCoverZ3` is proved to return the size of a largest valid selection of edges, and `MaxUnCoverGraphBased` the size of a maximum matching of its indexed graph; neither is proved equal to `IsMaxUnCover`.
- **Clocks.** Elapsed milliseconds are parameters (`elapsed`). Each timing list gains exactly the entries the source appends.

Behaviour of the code worth noting:

- `evaluate` does not validate an observation. An illegal valuation surfaces only when a solver encoding renders it. Nothing checks the vector width.
- The only early stop is saturation: once a bound series reaches `maxSize`, it repeats `maxSize` without solving.
- The engine's own `createGraph` names left vertices `"o$instance"` without an index, so equal-shaped observations would share a vertex. `MaxUnCoverGraphBased` names them `"o_${index}_$instance"`. Both forms are modelled, selected by a flag `indexed`.
- The MaxSAT formulation of MaxUnCover inside the engine (`calculateMaxUnCoverUsingZ3`) is never called, and `timeInMaxSAT` stays `[0]`.

## Model

| member | source | states |
|---|---|---|
| Valuations.Valuation.IsUnknown | src/main/kotlin/tools/aqua/stars/owa/coverage/dataclasses/Valuation.kt:25-26 | neither flag set; `Valuations.Classification` proves at most one classifier holds and, on a legal valuation, exactly one |
| Valuations.Valuation.IsTrue | src/main/kotlin/tools/aqua/stars/owa/coverage/dataclasses/Valuation.kt:28-29 | condition without inverseCondition; its meaning is stated by `Valuations.Classification` and by `ToString` giving "T" exactly then |
| Valuations.Valuation.IsFalse | src/main/kotlin/tools/aqua/stars/owa/coverage/dataclasses/Valuation.kt:31-32 | inverseCondition without condition; its meaning is stated by `Valuations.Classification` and by `ToString` giving "F" exactly then |
| Valuations.IsLegal | src/main/kotlin/tools/aqua/stars/owa/coverage/dataclasses/Valuation.kt:34-40 | the pair is not (true, true); `ToString` succeeds exactly on legal valuations, and `Valuations.Classification` shows no classifier holds otherwise |
| Valuations.Equals | src/main/kotlin/tools/aqua/stars/owa/coverage/dataclasses/Valuation.kt:42-46 | identity or the same two flags; `Valuations.EqualsIsKeyEquality` and `Valuations.EqualsIsEquivalence` prove it compares keys only and is an equivalence |
| Valuations.BoolHash | src/main/kotlin/tools/aqua/stars/owa/coverage/dataclasses/Valuation.kt:48 | Java `Boolean.hashCode`; through `HashCode`, `Valuations.HashCodeMatchesEquals` proves the hash separates exactly the unequal keys |
| Valuations.HashCode | src/main/kotlin/tools/aqua/stars/owa/coverage/dataclasses/Valuation.kt:48 | the hash is positive, built from Java's Boolean hashes |
| Valuations.ToString | src/main/kotlin/tools/aqua/stars/owa/coverage/dataclasses/Valuation.kt:34-40 | succeeds iff the valuation is legal, with a one-character "?"/"T"/"F" exactly for unknown/true/false; fails with IllegalValuation for (true, true) |
| Valuations.Classification | src/main/kotlin/tools/aqua/stars/owa/coverage/dataclasses/Valuation.kt:25-32 | isUnknown, isTrue and isFalse exclude each other; a legal valuation satisfies one, (true, true) none |
| Valuations.EqualsIsKeyEquality | src/main/kotlin/tools/aqua/stars/owa/coverage/dataclasses/Valuation.kt:42-46 | equality holds iff the keys agree, and dropping the hint never changes it |
| Valuations.EqualsIsEquivalence | src/main/kotlin/tools/aqua/stars/owa/coverage/dataclasses/Valuation.kt:42-46 | equals is reflexive, symmetric and transitive |
| Valuations.HashCodeMatchesEquals | src/main/kotlin/tools/aqua/stars/owa/coverage/dataclasses/Valuation.kt:42-48 | equal valuations have equal hashes and, conversely, equal hashes mean equal valuations |
| Valuations.ToStringMatchesEquals | src/main/kotlin/tools/aqua/stars/owa/coverage/dataclasses/Valuation.kt:34-46 | on legal valuations the rendering is the same iff the valuations are equal |
| Ticks.Wrap | src/main/kotlin/tools/aqua/stars/owa/coverage/dataclasses/IndexTickDifference.kt:23-27 | the 32-bit result is congruent to the exact value modulo 2^32 and equals it when it is in range |
| Ticks.WrapCongruent | src/main/kotlin/tools/aqua/stars/owa/coverage/dataclasses/IndexTickDifference.kt:23-27 | congruent inputs wrap to the same Int |
| Ticks.WrapThenAdd | src/main/kotlin/tools/aqua/stars/owa/coverage/dataclasses/IndexTickDifference.kt:23-24 | wrapping an intermediate sum does not change the wrapped total |
| Ticks.WrapAssociative | src/main/kotlin/tools/aqua/stars/owa/coverage/dataclasses/IndexTickDifference.kt:23-24 | wrapped addition regroups freely |
| Ticks.DiffPlus | src/main/kotlin/tools/aqua/stars/owa/coverage/dataclasses/IndexTickDifference.kt:23-24 | the difference is the 32-bit sum: congruent to the exact sum, equal to it without overflow |
| Ticks.DiffMinus | src/main/kotlin/tools/aqua/stars/owa/coverage/dataclasses/IndexTickDifference.kt:26-27 | the difference is the 32-bit difference: congruent, exact without overflow |
| Ticks.CompareInt | src/main/kotlin/tools/aqua/stars/owa/coverage/dataclasses/IndexTickDifference.kt:29-30 | Int.compareTo: -1, 0 or 1, its sign matching <, == and > |
| Ticks.DiffCompare | src/main/kotlin/tools/aqua/stars/owa/coverage/dataclasses/IndexTickDifference.kt:29-30 | the sign of compareTo matches the order of the differences, 0 exactly for equal values |
| Ticks.DiffPlusCommutative | src/main/kotlin/tools/aqua/stars/owa/coverage/dataclasses/IndexTickDifference.kt:23-24 | plus is commutative |
| Ticks.DiffPlusAssociative | src/main/kotlin/tools/aqua/stars/owa/coverage/dataclasses/IndexTickDifference.kt:23-24 | plus is associative, overflow included |
| Ticks.DiffMinusCancelsPlus | src/main/kotlin/tools/aqua/stars/owa/coverage/dataclasses/IndexTickDifference.kt:23-27 | (a + b) - b == a for all Ints, overflow included |
| Ticks.DiffCompareIsOrder | src/main/kotlin/tools/aqua/stars/owa/coverage/dataclasses/IndexTickDifference.kt:29-30 | compareTo is antisymmetric and transitive |
| Ticks.UnitPlus | src/main/kotlin/tools/aqua/stars/owa/coverage/dataclasses/IndexTickUnit.kt:23-24 | the index moves by the difference, modulo 2^32 and exactly without overflow |
| Ticks.UnitMinusDiff | src/main/kotlin/tools/aqua/stars/owa/coverage/dataclasses/IndexTickUnit.kt:26-27 | the index moves back by the difference, modulo 2^32 and exactly without overflow |
| Ticks.UnitMinusUnit | src/main/kotlin/tools/aqua/stars/owa/coverage/dataclasses/IndexTickUnit.kt:29-30 | the difference is the distance of the indices, modulo 2^32 and exactly without overflow |
| Ticks.UnitCompare | src/main/kotlin/tools/aqua/stars/owa/coverage/dataclasses/IndexTickUnit.kt:32 | the sign of compareTo matches the order of the indices |
| Ticks.UnitMinusCancelsPlus | src/main/kotlin/tools/aqua/stars/owa/coverage/dataclasses/IndexTickUnit.kt:23-27 | (u + d) - d == u |
| Ticks.UnitPlusDifference | src/main/kotlin/tools/aqua/stars/owa/coverage/dataclasses/IndexTickUnit.kt:23-30 | v + (u - v) == u |
| Ticks.UnitCompareIsOrder | src/main/kotlin/tools/aqua/stars/owa/coverage/dataclasses/IndexTickUnit.kt:32 | compareTo is antisymmetric and transitive |
| Ticks.NatToString | src/main/kotlin/tools/aqua/stars/owa/coverage/dataclasses/IndexTickUnit.kt:34 | decimal rendering is a non-empty string of digits |
| Ticks.IntToString | src/main/kotlin/tools/aqua/stars/owa/coverage/dataclasses/IndexTickUnit.kt:34 | Int.toString is never empty; `Ticks.ParseIntOfIntToString` proves toInt reads every Int back |
| Ticks.DigitFrom | src/main/kotlin/tools/aqua/stars/owa/coverage/dataclasses/IndexTickUnit.kt:36 | a value found from block k on is below 10 |
| Ticks.DigitValue | src/main/kotlin/tools/aqua/stars/owa/coverage/dataclasses/IndexTickUnit.kt:36 | Character.digit(c, 10): a value below 10, and the usual value on ASCII digits |
| Ticks.DigitValueInBlock | src/main/kotlin/tools/aqua/stars/owa/coverage/dataclasses/IndexTickUnit.kt:36 | c is a digit iff some Unicode decimal-digit block of the Basic Multilingual Plane holds it, and its value is its offset from that block's zero |
| Ticks.DigitFromInBlock | src/main/kotlin/tools/aqua/stars/owa/coverage/dataclasses/IndexTickUnit.kt:36 | the search finds the block holding c, because the blocks do not overlap |
| Ticks.DigitFromBlock | src/main/kotlin/tools/aqua/stars/owa/coverage/dataclasses/IndexTickUnit.kt:36 | a value found comes from a block that holds c |
| Ticks.ParseIntArabicIndic | src/main/kotlin/tools/aqua/stars/owa/coverage/dataclasses/IndexTickUnit.kt:36 | Arabic-Indic "١٢" parses to 12, as Character.digit reads it |
| Ticks.ParseIntFullwidth | src/main/kotlin/tools/aqua/stars/owa/coverage/dataclasses/IndexTickUnit.kt:36 | fullwidth digits after a minus sign, "-１２", parse to -12 |
| Ticks.ParseIntMixedScripts | src/main/kotlin/tools/aqua/stars/owa/coverage/dataclasses/IndexTickUnit.kt:36 | digits of two scripts mix: "1٢" parses to 12 |
| Ticks.ParseIntRejectsNonDigit | src/main/kotlin/tools/aqua/stars/owa/coverage/dataclasses/IndexTickUnit.kt:36 | a character after the sign that is no decimal digit makes toInt fail |
| Ticks.UnitSerialize | src/main/kotlin/tools/aqua/stars/owa/coverage/dataclasses/IndexTickUnit.kt:34 | the rendering of the index is never empty; UnitRoundTrip is its inverse |
| Ticks.DiffSerialize | src/main/kotlin/tools/aqua/stars/owa/coverage/dataclasses/IndexTickDifference.kt:32 | the rendering of the difference is never empty; DiffRoundTrip is its inverse |
| Ticks.DigitsValue | src/main/kotlin/tools/aqua/stars/owa/coverage/dataclasses/IndexTickUnit.kt:36 | a value exists iff every character is a decimal digit of some script |
| Ticks.ParseInt | src/main/kotlin/tools/aqua/stars/owa/coverage/dataclasses/IndexTickUnit.kt:36 | String.toInt fails only with NumberFormat, and always on the empty string; `Ticks.ParseIntArabicIndic`, `Ticks.ParseIntFullwidth` and `Ticks.ParseIntRejectsNonDigit` pin down which digits it reads |
| Ticks.DigitsValueOfNatToString | src/main/kotlin/tools/aqua/stars/owa/coverage/dataclasses/IndexTickUnit.kt:34-36 | reading back the digits of n gives n |
| Ticks.ParseIntOfIntToString | src/main/kotlin/tools/aqua/stars/owa/coverage/dataclasses/IndexTickUnit.kt:34-36 | toInt(toString(x)) == x for every Int, negative and Int.MIN_VALUE included |
| Ticks.UnitDeserialize | src/main/kotlin/tools/aqua/stars/owa/coverage/dataclasses/IndexTickUnit.kt:36 | deserializing the empty string fails |
| Ticks.DiffDeserialize | src/main/kotlin/tools/aqua/stars/owa/coverage/dataclasses/IndexTickDifference.kt:34 | deserializing the empty string fails |
| Ticks.UnitRoundTrip | src/main/kotlin/tools/aqua/stars/owa/coverage/dataclasses/IndexTickUnit.kt:34-36 | deserialize(serialize(u)) == u |
| Ticks.DiffRoundTrip | src/main/kotlin/tools/aqua/stars/owa/coverage/dataclasses/IndexTickDifference.kt:32-34 | deserialize(serialize(d)) == d |
| Bitmasks.SameBitmaskIsSameShape | src/main/kotlin/tools/aqua/stars/owa/coverage/dataclasses/Valuation.kt:42-46 | two Bitmasks are equal as Kotlin lists iff their shapes are equal |
| Bitmasks.ContainsUnknown | src/main/kotlin/tools/aqua/stars/owa/coverage/metrics/ObservedInstancesMetric.kt:330 | `any { it.isUnknown }`; `Bitmasks.CountUnknown` and `Bitmasks.IndexOfFirstUnknown` prove it holds iff the count of unknowns is positive and a first unknown exists |
| Bitmasks.AllLegalByShape | src/main/kotlin/tools/aqua/stars/owa/coverage/dataclasses/Valuation.kt:34-46 | a Bitmask is legal iff its shape holds no (true, true) key |
| Bitmasks.CountUnknown | src/main/kotlin/tools/aqua/stars/owa/coverage/metrics/ObservedInstancesMetric.kt:330 | the number of unknowns is at most the width, and zero iff containsUnknown is false |
| Bitmasks.IndexOfFirstUnknown | src/main/kotlin/tools/aqua/stars/owa/coverage/metrics/ObservedInstancesMetric.kt:341 | indexOfFirst: -1 iff there is no unknown, otherwise an unknown position with none before it |
| Bitmasks.RenderElements | src/main/kotlin/tools/aqua/stars/owa/coverage/metrics/MinUnCoverZ3.kt:47 | rendering the entries succeeds iff all are legal, with length 3w-2, and fails with IllegalValuation otherwise |
| Bitmasks.Render | src/main/kotlin/tools/aqua/stars/owa/coverage/metrics/MinUnCoverZ3.kt:47 | List.toString succeeds iff all entries are legal and is bracketed |
| Bitmasks.RenderElementsInjective | src/main/kotlin/tools/aqua/stars/owa/coverage/metrics/MinUnCoverZ3.kt:47 | on legal Bitmasks, equal renderings iff equal shapes |
| Bitmasks.RenderInjective | src/main/kotlin/tools/aqua/stars/owa/coverage/metrics/MaxUnCoverGraphBased.kt:83-93 | on legal Bitmasks, equal names iff equal shapes, so Z3 names and vertex names identify shapes |
| Bitmasks.Interpolate | src/main/kotlin/tools/aqua/stars/owa/coverage/metrics/ObservedInstancesMetric.kt:322 | string interpolation of a Bitmask is its List.toString rendering, which fails iff it holds an illegal valuation |
| Bitmasks.Choices | src/main/kotlin/tools/aqua/stars/owa/coverage/metrics/ObservedInstancesMetric.kt:345-360 | the keys an entry can resolve to never include unknown |
| Bitmasks.ResolutionsMembership | src/main/kotlin/tools/aqua/stars/owa/coverage/metrics/ObservedInstancesMetric.kt:336-367 | a shape is in the reference resolution set iff it fixes every unknown and agrees elsewhere |
| Bitmasks.ExtendCard | src/main/kotlin/tools/aqua/stars/owa/coverage/metrics/ObservedInstancesMetric.kt:345-360 | appending one key keeps the number of shapes |
| Bitmasks.ResolutionsCard | src/main/kotlin/tools/aqua/stars/owa/coverage/metrics/ObservedInstancesMetric.kt:336-367 | a Bitmask with u unknowns has exactly 2^u resolutions |
| Bitmasks.ExtendDisjoint | src/main/kotlin/tools/aqua/stars/owa/coverage/metrics/ObservedInstancesMetric.kt:345-360 | the true and the false branch of a split give disjoint shape sets |
| Bitmasks.CertainResolutions | src/main/kotlin/tools/aqua/stars/owa/coverage/metrics/ObservedInstancesMetric.kt:337-340 | a Bitmask without unknowns resolves only to itself |
| PowerLists.Assign | src/main/kotlin/tools/aqua/stars/owa/coverage/metrics/ObservedInstancesMetric.kt:346-360 | the copied list keeps its width |
| PowerLists.ShapeOfAssign | src/main/kotlin/tools/aqua/stars/owa/coverage/metrics/ObservedInstancesMetric.kt:346-360 | setting entry k changes exactly key k of the shape, to the chosen truth value |
| PowerLists.AssignKeepsDifference | src/main/kotlin/tools/aqua/stars/owa/coverage/metrics/ObservedInstancesMetric.kt:344-361 | items that differed still differ after the same position is set |
| PowerLists.CountUnknownKnownStretch | src/main/kotlin/tools/aqua/stars/owa/coverage/metrics/ObservedInstancesMetric.kt:341 | a stretch without unknowns adds no unknowns to a prefix count |
| PowerLists.StepPosition | src/main/kotlin/tools/aqua/stars/owa/coverage/metrics/ObservedInstancesMetric.kt:340-341 | the first unknown of the first item is the next unknown of the instance |
| PowerLists.StepSettled | src/main/kotlin/tools/aqua/stars/owa/coverage/metrics/ObservedInstancesMetric.kt:341-363 | after a step every item agrees with the instance up to and including the split position, hints kept |
| PowerLists.StepDistinct | src/main/kotlin/tools/aqua/stars/owa/coverage/metrics/ObservedInstancesMetric.kt:343-363 | a step keeps the items pairwise different |
| PowerLists.StepCovers | src/main/kotlin/tools/aqua/stars/owa/coverage/metrics/ObservedInstancesMetric.kt:343-363 | after a step every resolution of the settled prefix is still represented |
| PowerLists.StepCount | src/main/kotlin/tools/aqua/stars/owa/coverage/metrics/ObservedInstancesMetric.kt:343-363 | each step doubles the list, which stays 2^(unknowns settled so far) |
| PowerLists.ItemsLongEnough | src/main/kotlin/tools/aqua/stars/owa/coverage/metrics/ObservedInstancesMetric.kt:341-347 | the split index is a valid position of every item |
| PowerLists.DoublesAppend | src/main/kotlin/tools/aqua/stars/owa/coverage/metrics/ObservedInstancesMetric.kt:344-361 | the inner loop appends the true copy then the false copy of each item, in order |
| PowerLists.ExpandStep | src/main/kotlin/tools/aqua/stars/owa/coverage/metrics/ObservedInstancesMetric.kt:340-363 | one pass of the while loop keeps the loop invariant, one unknown further |
| PowerLists.ExpandStart | src/main/kotlin/tools/aqua/stars/owa/coverage/metrics/ObservedInstancesMetric.kt:337 | the list [instance] satisfies the loop invariant |
| PowerLists.SplitAt | src/main/kotlin/tools/aqua/stars/owa/coverage/metrics/ObservedInstancesMetric.kt:343-361 | the inner for loop builds the true and false copy of every item at index k |
| PowerLists.PowerList | src/main/kotlin/tools/aqua/stars/owa/coverage/metrics/ObservedInstancesMetric.kt:336-367 | 2^u pairwise different items, each a resolution of the instance keeping its hints, every resolution present, and [instance] when there is no unknown |
| PowerLists.RestKnown | src/main/kotlin/tools/aqua/stars/owa/coverage/metrics/ObservedInstancesMetric.kt:340 | when the first item has no unknown, no unknown is left in the instance |
| PowerLists.ExpansionDone | src/main/kotlin/tools/aqua/stars/owa/coverage/metrics/ObservedInstancesMetric.kt:340-366 | on loop exit the list has 2^u items, all resolutions, covering every resolution |
| PowerLists.CoversAll | src/main/kotlin/tools/aqua/stars/owa/coverage/metrics/ObservedInstancesMetric.kt:340-366 | on loop exit every resolution of the instance is the shape of some item |
| PowerLists.SettledIsResolution | src/main/kotlin/tools/aqua/stars/owa/coverage/metrics/ObservedInstancesMetric.kt:340-366 | an item settled up to the last unknown is a resolution |
| PowerLists.PowerListShapes | src/main/kotlin/tools/aqua/stars/owa/coverage/metrics/ObservedInstancesMetric.kt:336-367 | the shapes of the power list are exactly the resolution set |
| TickData.FirstWithLabel | src/main/kotlin/tools/aqua/stars/owa/coverage/metrics/ObservedInstancesMetricOnTickData.kt:46 | firstOrNull by label: -1 iff no node has the label, otherwise the first such node |
| TickData.Classify | src/main/kotlin/tools/aqua/stars/owa/coverage/metrics/ObservedInstancesMetricOnTickData.kt:46-57 | FALSE iff no node carries the label, otherwise UNKNOWN or TRUE by the first such node; always legal and without a hint |
| TickData.ToBitmask | src/main/kotlin/tools/aqua/stars/owa/coverage/metrics/ObservedInstancesMetricOnTickData.kt:44-58 | one entry per tag: FALSE without a node, UNKNOWN or TRUE by the first node's isUnknown; all legal, no hints |
| TickData.UnknownIffFirstNodeUnknown | src/main/kotlin/tools/aqua/stars/owa/coverage/metrics/ObservedInstancesMetricOnTickData.kt:46-53 | entry i is unknown iff the first node labelled tags[i] is unknown |
| TickData.FirstNodeDecides | src/main/kotlin/tools/aqua/stars/owa/coverage/metrics/ObservedInstancesMetricOnTickData.kt:46 | appending nodes whose labels already occur does not change the Bitmask |
| TickData.FirstWithLabelPrefix | src/main/kotlin/tools/aqua/stars/owa/coverage/metrics/ObservedInstancesMetricOnTickData.kt:46 | appending such nodes does not change which node is first |
| MaxSat.AllHoldAppend | src/main/kotlin/tools/aqua/stars/owa/coverage/metrics/MinUnCoverZ3.kt:51 | each added hard clause adds one conjunct |
| MaxSat.PenaltyAppend | src/main/kotlin/tools/aqua/stars/owa/coverage/metrics/MinUnCoverZ3.kt:55-57 | the penalty of soft constraints added in two batches is the sum |
| MaxSat.Code | src/main/kotlin/tools/aqua/stars/owa/coverage/metrics/MinUnCoverZ3.kt:60-64 | the count on SAT (non-negative), -2 exactly on UNSAT, -1 exactly on UNKNOWN |
| MaxSat.CodeInjective | src/main/kotlin/tools/aqua/stars/owa/coverage/metrics/MinUnCoverZ3.kt:60-64 | the codes of different outcomes are different |
| MaxSat.CountIn | src/main/kotlin/tools/aqua/stars/owa/coverage/metrics/MinUnCoverZ3.kt:62 | count { isTrue } is at most the number of variables |
| MaxSat.CountInIsCard | src/main/kotlin/tools/aqua/stars/owa/coverage/metrics/MinUnCoverZ3.kt:62 | over distinct variables the count is the size of the true set |
| MaxSat.CountInAppend | src/main/kotlin/tools/aqua/stars/owa/coverage/metrics/MaxUnCoverZ3.kt:91-92 | counts over concatenated lists add up |
| MaxSat.PairwiseExclusiveCount | src/main/kotlin/tools/aqua/stars/owa/coverage/metrics/MaxUnCoverZ3.kt:63-79 | pairwise exclusion allows at most one true variable |
| MaxSat.NoneSelected | src/main/kotlin/tools/aqua/stars/owa/coverage/metrics/MaxUnCoverZ3.kt:91-92 | a list with no selected variable counts 0 |
| MinUnCover.AddOptions | src/main/kotlin/tools/aqua/stars/owa/coverage/metrics/MinUnCoverZ3.kt:46-48 | getOrPut keeps the variable list duplicate-free |
| MinUnCover.AddOptionsMembership | src/main/kotlin/tools/aqua/stars/owa/coverage/metrics/MinUnCoverZ3.kt:46-48 | after the loop a shape is a variable iff it was one or is the shape of an option |
| MinUnCover.Variables | src/main/kotlin/tools/aqua/stars/owa/coverage/metrics/MinUnCoverZ3.kt:37-52 | one variable per distinct option, no duplicates |
| MinUnCover.VariablesMembership | src/main/kotlin/tools/aqua/stars/owa/coverage/metrics/MinUnCoverZ3.kt:40-52 | the variables are exactly the option shapes of all power lists |
| MinUnCover.VariablesCount | src/main/kotlin/tools/aqua/stars/owa/coverage/metrics/MinUnCoverZ3.kt:37-52 | the number of variables is the number of distinct options |
| MinUnCover.HardModelsAreHittingSets | src/main/kotlin/tools/aqua/stars/owa/coverage/metrics/MinUnCoverZ3.kt:40-52 | a model satisfies the hard clauses iff it is a hitting set of the power lists |
| MinUnCover.HittingSetProblem | src/main/kotlin/tools/aqua/stars/owa/coverage/metrics/MinUnCoverZ3.kt:40-57 | one disjunction per power list and one soft negation per variable; `MinUnCover.HardModelsAreHittingSets` proves its models are exactly the hitting sets and `MinUnCover.OptimalBelowHittingSets` that an optimum is a smallest one |
| MinUnCover.ClauseIsHit | src/main/kotlin/tools/aqua/stars/owa/coverage/metrics/MinUnCoverZ3.kt:51 | clause i holds iff some option of power list i is selected |
| MinUnCover.PenaltyCountsTrueVariables | src/main/kotlin/tools/aqua/stars/owa/coverage/metrics/MinUnCoverZ3.kt:55-57 | the penalty of the soft ¬v constraints is the number of true variables |
| MinUnCover.TrueVariablesHit | src/main/kotlin/tools/aqua/stars/owa/coverage/metrics/MinUnCoverZ3.kt:51-62 | the true variables of a hard model form a hitting set whose size is the count reported |
| MinUnCover.OptimalBelowHittingSets | src/main/kotlin/tools/aqua/stars/owa/coverage/metrics/MinUnCoverZ3.kt:55-62 | an optimal model counts no more than any hitting set |
| MinUnCover.MinUnCoverSound | src/main/kotlin/tools/aqua/stars/owa/coverage/metrics/MinUnCoverZ3.kt:60-64 | with a sound solver, SAT gives the minimum hitting-set size, at most the number of options; UNSAT only with an empty power list |
| MinUnCover.AddOptionVariables | src/main/kotlin/tools/aqua/stars/owa/coverage/metrics/MinUnCoverZ3.kt:45-51 | the inner loop fails iff an option is illegal, else yields the variables and the disjunction |
| MinUnCover.Encode | src/main/kotlin/tools/aqua/stars/owa/coverage/metrics/MinUnCoverZ3.kt:37-57 | the loops build the hitting-set problem and its variables, failing iff an option is illegal |
| MinUnCover.Solve | src/main/kotlin/tools/aqua/stars/owa/coverage/metrics/MinUnCoverZ3.kt:30-64 | fails iff an option is illegal; SAT is the minimum hitting-set size; UNSAT only with an empty power list |
| MinUnCover.MinUnCoverZ3.constructor | src/main/kotlin/tools/aqua/stars/owa/coverage/metrics/MinUnCoverZ3.kt:27 | totalTime starts as [0] |
| MinUnCover.MinUnCoverZ3.Calculate | src/main/kotlin/tools/aqua/stars/owa/coverage/metrics/MinUnCoverZ3.kt:30-69 | as Solve, and one time entry is appended per call that returns |
| MaxUnCoverSat.OptionSteps | src/main/kotlin/tools/aqua/stars/owa/coverage/metrics/MaxUnCoverZ3.kt:49-58 | one edge variable per option of the entry |
| MaxUnCoverSat.OptionStepAt | src/main/kotlin/tools/aqua/stars/owa/coverage/metrics/MaxUnCoverZ3.kt:49-58 | edge j joins this index and instance with option j |
| MaxUnCoverSat.FindKey | src/main/kotlin/tools/aqua/stars/owa/coverage/metrics/MaxUnCoverZ3.kt:54-57 | map lookup: -1 iff the key is absent, else its bucket |
| MaxUnCoverSat.AddToBucketKeys | src/main/kotlin/tools/aqua/stars/owa/coverage/metrics/MaxUnCoverZ3.kt:54-57 | getOrPut adds a key only when absent and keeps the keys distinct |
| MaxUnCoverSat.AddToBucket | src/main/kotlin/tools/aqua/stars/owa/coverage/metrics/MaxUnCoverZ3.kt:54-57 | `getOrPut(key).add(e)`; `MaxUnCoverSat.AddToBucketKeys` and `MaxUnCoverSat.FilterAppend` prove it adds a key only when new and appends e to that key's edges alone |
| MaxUnCoverSat.StepsAppend | src/main/kotlin/tools/aqua/stars/owa/coverage/metrics/MaxUnCoverZ3.kt:54-57 | registering one more edge adds it to its key's bucket |
| MaxUnCoverSat.FilterAppend | src/main/kotlin/tools/aqua/stars/owa/coverage/metrics/MaxUnCoverZ3.kt:54-57 | the edges of a key grow by the new edge exactly when it has that key |
| MaxUnCoverSat.BucketsAreFilters | src/main/kotlin/tools/aqua/stars/owa/coverage/metrics/MaxUnCoverZ3.kt:39-59 | each map has distinct keys, each bucket holds exactly its key's edges in order, absent keys have none |
| MaxUnCoverSat.SumTrueUpdate | src/main/kotlin/tools/aqua/stars/owa/coverage/metrics/MaxUnCoverZ3.kt:91-92 | replacing a bucket changes the total by the difference of their counts |
| MaxUnCoverSat.SumTrueCounts | src/main/kotlin/tools/aqua/stars/owa/coverage/metrics/MaxUnCoverZ3.kt:91-92 | the per-bucket counts sum to the number of true edges |
| MaxUnCoverSat.TotalEdgesCount | src/main/kotlin/tools/aqua/stars/owa/coverage/metrics/MaxUnCoverZ3.kt:44-59 | the buckets together hold every edge once |
| MaxUnCoverSat.TotalEdgesUpdate | src/main/kotlin/tools/aqua/stars/owa/coverage/metrics/MaxUnCoverZ3.kt:54-57 | replacing a bucket changes the edge total by the difference of their sizes |
| MaxUnCoverSat.RowsHold | src/main/kotlin/tools/aqua/stars/owa/coverage/metrics/MaxUnCoverZ3.kt:64-68 | the clauses of rows i < n hold iff no two edges i < j with i < n are both true |
| MaxUnCoverSat.ExclusionHold | src/main/kotlin/tools/aqua/stars/owa/coverage/metrics/MaxUnCoverZ3.kt:63-79 | the exclusion clauses of a map hold iff every bucket has at most one true edge |
| MaxUnCoverSat.ExclusiveIffAtMostOne | src/main/kotlin/tools/aqua/stars/owa/coverage/metrics/MaxUnCoverZ3.kt:64-68 | pairwise exclusion holds iff at most one edge is true |
| MaxUnCoverSat.TwoSelected | src/main/kotlin/tools/aqua/stars/owa/coverage/metrics/MaxUnCoverZ3.kt:64-68 | two true edges count at least two |
| MaxUnCoverSat.OneSelected | src/main/kotlin/tools/aqua/stars/owa/coverage/metrics/MaxUnCoverZ3.kt:91-92 | a true edge counts at least one |
| MaxUnCoverSat.SideExclusion | src/main/kotlin/tools/aqua/stars/owa/coverage/metrics/MaxUnCoverZ3.kt:63-79 | one side's clauses hold iff no key of that side has two true edges |
| MaxUnCoverSat.HardIffValid | src/main/kotlin/tools/aqua/stars/owa/coverage/metrics/MaxUnCoverZ3.kt:61-79 | the hard clauses hold iff the true edges form a matching on both sides |
| MaxUnCoverSat.MatchingProblem | src/main/kotlin/tools/aqua/stars/owa/coverage/metrics/MaxUnCoverZ3.kt:61-86 | pairwise exclusion on both sides and one soft constraint per edge; `MaxUnCoverSat.HardIffValid` proves its models are exactly the valid selections and `MaxUnCoverSat.MaxUnCoverSound` that an optimum is a largest one |
| MaxUnCoverSat.PenaltyOfRow | src/main/kotlin/tools/aqua/stars/owa/coverage/metrics/MaxUnCoverZ3.kt:82-86 | missed soft constraints plus true edges make up all edges of a bucket |
| MaxUnCoverSat.PenaltyPlusSelected | src/main/kotlin/tools/aqua/stars/owa/coverage/metrics/MaxUnCoverZ3.kt:82-86 | penalty plus true edges is the number of edges, so minimum penalty is maximum selection |
| MaxUnCoverSat.SumTrueBound | src/main/kotlin/tools/aqua/stars/owa/coverage/metrics/MaxUnCoverZ3.kt:91-92 | with at most one true edge per bucket the total is at most the number of buckets |
| MaxUnCoverSat.StepKeys | src/main/kotlin/tools/aqua/stars/owa/coverage/metrics/MaxUnCoverZ3.kt:44-59 | every edge joins an observed instance to one of the options |
| MaxUnCoverSat.BucketCountBound | src/main/kotlin/tools/aqua/stars/owa/coverage/metrics/MaxUnCoverZ3.kt:39-59 | there are no more buckets than possible keys |
| MaxUnCoverSat.NonEmptyBucket | src/main/kotlin/tools/aqua/stars/owa/coverage/metrics/MaxUnCoverZ3.kt:54-57 | every bucket holds an edge |
| MaxUnCoverSat.FilterKeyOccurs | src/main/kotlin/tools/aqua/stars/owa/coverage/metrics/MaxUnCoverZ3.kt:54-57 | a key with edges is the key of some edge |
| MaxUnCoverSat.InstanceShapesBound | src/main/kotlin/tools/aqua/stars/owa/coverage/metrics/MaxUnCoverZ3.kt:54 | there are no more observed keys than entries |
| MaxUnCoverSat.SidesAgree | src/main/kotlin/tools/aqua/stars/owa/coverage/metrics/MaxUnCoverZ3.kt:82-92 | counting true edges through either map gives the same number |
| MaxUnCoverSat.SideBound | src/main/kotlin/tools/aqua/stars/owa/coverage/metrics/MaxUnCoverZ3.kt:63-79 | under one side's exclusion the true edges are at most that side's keys |
| MaxUnCoverSat.SelectionBounds | src/main/kotlin/tools/aqua/stars/owa/coverage/metrics/MaxUnCoverZ3.kt:61-92 | a valid selection is at most the observed instances and at most the distinct options |
| MaxUnCoverSat.MaxUnCoverSound | src/main/kotlin/tools/aqua/stars/owa/coverage/metrics/MaxUnCoverZ3.kt:89-94 | with a sound solver the answer is never UNSAT, and SAT gives the largest valid selection, within both bounds |
| MaxUnCoverSat.NothingChosen | src/main/kotlin/tools/aqua/stars/owa/coverage/metrics/MaxUnCoverZ3.kt:61-79 | the empty selection satisfies every exclusion clause |
| MaxUnCoverSat.StepsSnoc | src/main/kotlin/tools/aqua/stars/owa/coverage/metrics/MaxUnCoverZ3.kt:44 | forEachIndexed adds the edges of entry i after those of the earlier entries |
| MaxUnCoverSat.AddEntryIsBuckets | src/main/kotlin/tools/aqua/stars/owa/coverage/metrics/MaxUnCoverZ3.kt:49-58 | the option loop leaves the map equal to the reference buckets of the extended edge list |
| MaxUnCoverSat.AddEntryEdges | src/main/kotlin/tools/aqua/stars/owa/coverage/metrics/MaxUnCoverZ3.kt:44-59 | one entry's loop fails iff an option name is illegal, else extends both maps |
| MaxUnCoverSat.CollectEdges | src/main/kotlin/tools/aqua/stars/owa/coverage/metrics/MaxUnCoverZ3.kt:39-59 | the two maps are the reference buckets by observed instance and by option; fails iff an option is illegal |
| MaxUnCoverSat.PairsOf | src/main/kotlin/tools/aqua/stars/owa/coverage/metrics/MaxUnCoverZ3.kt:64-68 | the i < j loops yield clauses that hold iff at most one edge is true |
| MaxUnCoverSat.ExclusionFor | src/main/kotlin/tools/aqua/stars/owa/coverage/metrics/MaxUnCoverZ3.kt:63-79 | the loop over a map's buckets yields its exclusion clauses |
| MaxUnCoverSat.SoftFor | src/main/kotlin/tools/aqua/stars/owa/coverage/metrics/MaxUnCoverZ3.kt:82-86 | one soft constraint per edge, bucket by bucket |
| MaxUnCoverSat.CountTrue | src/main/kotlin/tools/aqua/stars/owa/coverage/metrics/MaxUnCoverZ3.kt:91-92 | the map/sum over the option buckets counts the true edges |
| MaxUnCoverSat.Solve | src/main/kotlin/tools/aqua/stars/owa/coverage/metrics/MaxUnCoverZ3.kt:29-94 | fails iff an option is illegal; never UNSAT; SAT is the maximum valid selection, at most both partitions |
| MaxUnCoverSat.MaxUnCoverZ3.constructor | src/main/kotlin/tools/aqua/stars/owa/coverage/metrics/MaxUnCoverZ3.kt:26 | totalTime starts as [0] |
| MaxUnCoverSat.MaxUnCoverZ3.Calculate | src/main/kotlin/tools/aqua/stars/owa/coverage/metrics/MaxUnCoverZ3.kt:29-99 | as Solve, and one time entry is appended per call that returns |
| MaxUnCoverGraph.ObservedVertex | src/main/kotlin/tools/aqua/stars/owa/coverage/metrics/MaxUnCoverGraphBased.kt:78 | observed vertices are never option vertices, so the names cannot clash |
| MaxUnCoverGraph.GraphIsBipartite | src/main/kotlin/tools/aqua/stars/owa/coverage/metrics/MaxUnCoverGraphBased.kt:68-98 | the graph is simple and every edge joins partition1 to partition2 |
| MaxUnCoverGraph.EdgeMembership | src/main/kotlin/tools/aqua/stars/owa/coverage/metrics/MaxUnCoverGraphBased.kt:87-95 | an edge exists iff some entry with that left vertex has that option |
| MaxUnCoverGraph.LeftVerticesAreLeftPartition | src/main/kotlin/tools/aqua/stars/owa/coverage/metrics/MaxUnCoverGraphBased.kt:75-79 | partition1 is the set of those names |
| MaxUnCoverGraph.IndexedPartitionSize | src/main/kotlin/tools/aqua/stars/owa/coverage/metrics/MaxUnCoverGraphBased.kt:75-79 | with index tags partition1 has one vertex per entry |
| MaxUnCoverGraph.Partition2Size | src/main/kotlin/tools/aqua/stars/owa/coverage/metrics/MaxUnCoverGraphBased.kt:83 | partition2 has one vertex per distinct option |
| MaxUnCoverGraph.Partition1Bound | src/main/kotlin/tools/aqua/stars/owa/coverage/metrics/ObservedInstancesMetric.kt:308 | without index tags partition1 has at most one vertex per entry |
| MaxUnCoverGraph.SharedEndpoint | src/main/kotlin/tools/aqua/stars/owa/coverage/metrics/MaxUnCoverGraphBased.kt:60 | two matching edges at the same vertex are the same edge |
| MaxUnCoverGraph.MatchingBound | src/main/kotlin/tools/aqua/stars/owa/coverage/metrics/MaxUnCoverGraphBased.kt:60-62 | a matching of a bipartite graph is at most either side |
| MaxUnCoverGraph.AugmentMatching | src/main/kotlin/tools/aqua/stars/owa/coverage/metrics/MaxUnCoverGraphBased.kt:43-45 | an edge with both ends free extends a matching by one |
| MaxUnCoverGraph.MaximumMatchingIsMaximal | src/main/kotlin/tools/aqua/stars/owa/coverage/metrics/MaxUnCoverGraphBased.kt:43-45 | every edge touches a maximum matching |
| MaxUnCoverGraph.MaximumMatchingsAgree | src/main/kotlin/tools/aqua/stars/owa/coverage/metrics/ObservedInstancesMetric.kt:128-130 | two maximum matchings of one graph have the same size |
| MaxUnCoverGraph.MatchersAgree | src/main/kotlin/tools/aqua/stars/owa/coverage/metrics/ObservedInstancesMetric.kt:125-130 | Sparse Edmonds and Hopcroft-Karp on the built graph return matchings of equal size, so `check(max1 == max2)` never fails |
| MaxUnCoverGraph.MaximumMatchingBounds | src/main/kotlin/tools/aqua/stars/owa/coverage/metrics/MaxUnCoverGraphBased.kt:37-65 | a matching is at most partition1, hence the entries, and at most partition2, the distinct options |
| MaxUnCoverGraph.SimpleGraph.constructor | src/main/kotlin/tools/aqua/stars/owa/coverage/metrics/MaxUnCoverGraphBased.kt:72 | the new graph is empty |
| MaxUnCoverGraph.SimpleGraph.AddVertex | src/main/kotlin/tools/aqua/stars/owa/coverage/metrics/MaxUnCoverGraphBased.kt:80 | addVertex adds the vertex, leaves the edges and keeps the graph simple |
| MaxUnCoverGraph.SimpleGraph.AddEdge | src/main/kotlin/tools/aqua/stars/owa/coverage/metrics/MaxUnCoverGraphBased.kt:93 | addEdge adds the undirected edge unless it is present, and keeps the graph simple |
| MaxUnCoverGraph.LeftPartition | src/main/kotlin/tools/aqua/stars/owa/coverage/metrics/MaxUnCoverGraphBased.kt:75-79 | builds partition1, failing iff an observed instance cannot be rendered |
| MaxUnCoverGraph.EntryVerticesStep | src/main/kotlin/tools/aqua/stars/owa/coverage/metrics/MaxUnCoverGraphBased.kt:83 | flatMap adds the options of one more entry |
| MaxUnCoverGraph.RightPartition | src/main/kotlin/tools/aqua/stars/owa/coverage/metrics/MaxUnCoverGraphBased.kt:83 | builds partition2, failing iff an option cannot be rendered |
| MaxUnCoverGraph.EntryEdgesStep | src/main/kotlin/tools/aqua/stars/owa/coverage/metrics/MaxUnCoverGraphBased.kt:92-94 | each option iteration adds its one edge |
| MaxUnCoverGraph.EdgesUpToStep | src/main/kotlin/tools/aqua/stars/owa/coverage/metrics/MaxUnCoverGraphBased.kt:87-95 | each entry adds the edges of its options |
| MaxUnCoverGraph.AddVertices | src/main/kotlin/tools/aqua/stars/owa/coverage/metrics/MaxUnCoverGraphBased.kt:80-84 | forEach addVertex adds the whole partition and keeps the graph simple |
| MaxUnCoverGraph.AddEntryEdges | src/main/kotlin/tools/aqua/stars/owa/coverage/metrics/MaxUnCoverGraphBased.kt:88-94 | the option loop adds exactly the entry's edges and no vertex |
| MaxUnCoverGraph.CreateGraph | src/main/kotlin/tools/aqua/stars/owa/coverage/metrics/MaxUnCoverGraphBased.kt:68-98 | a fresh graph equal to the reference bipartite graph and its two partitions, failing iff a name cannot be rendered |
| MaxUnCoverGraph.MaxUnCoverGraphBased.constructor | src/main/kotlin/tools/aqua/stars/owa/coverage/metrics/MaxUnCoverGraphBased.kt:28-31 | both time lists start as [0] |
| MaxUnCoverGraph.MaxUnCoverGraphBased.CalculateSparseEdmonds | src/main/kotlin/tools/aqua/stars/owa/coverage/metrics/MaxUnCoverGraphBased.kt:37-48 | the maximum matching size of the indexed graph, within both partitions; one entry on its own time list, the other untouched |
| MaxUnCoverGraph.MaxUnCoverGraphBased.CalculateHopcroftKarp | src/main/kotlin/tools/aqua/stars/owa/coverage/metrics/MaxUnCoverGraphBased.kt:54-65 | as above for Hopcroft-Karp, given the partitions |
| CoverageBounds.ShapesSnoc | src/main/kotlin/tools/aqua/stars/owa/coverage/metrics/ObservedInstancesMetric.kt:89 | appending adds exactly one shape |
| CoverageBounds.Insert | src/main/kotlin/tools/aqua/stars/owa/coverage/metrics/ObservedInstancesMetric.kt:89 | LinkedHashSet.add: the shapes grow by the new one, stay distinct, the old entries keep their order, at most one is added |
| CoverageBounds.InsertIdempotent | src/main/kotlin/tools/aqua/stars/owa/coverage/metrics/ObservedInstancesMetric.kt:89 | adding an equal Bitmask again changes nothing |
| CoverageBounds.ShapesCard | src/main/kotlin/tools/aqua/stars/owa/coverage/metrics/ObservedInstancesMetric.kt:93 | the set's size is the number of distinct shapes |
| CoverageBounds.CountCertain | src/main/kotlin/tools/aqua/stars/owa/coverage/metrics/ObservedInstancesMetric.kt:163 | the lower bound is at most the number of observations |
| CoverageBounds.CertainShapesSnoc | src/main/kotlin/tools/aqua/stars/owa/coverage/metrics/ObservedInstancesMetric.kt:163 | a new observation adds its shape to the certain ones iff it has no unknown |
| CoverageBounds.CountCertainIsCard | src/main/kotlin/tools/aqua/stars/owa/coverage/metrics/ObservedInstancesMetric.kt:163 | the lower bound is the number of distinct certain shapes |
| CoverageBounds.LowerBelowUpper | src/main/kotlin/tools/aqua/stars/owa/coverage/metrics/ObservedInstancesMetric.kt:163-169 | lower bound <= upper bound |
| CoverageBounds.ResolutionsInUnion | src/main/kotlin/tools/aqua/stars/owa/coverage/metrics/ObservedInstancesMetric.kt:169 | each power list lies in the flattened set |
| CoverageBounds.UnionWitness | src/main/kotlin/tools/aqua/stars/owa/coverage/metrics/ObservedInstancesMetric.kt:169 | each member of the flattened set comes from some power list |
| CoverageBounds.AllResolutions | src/main/kotlin/tools/aqua/stars/owa/coverage/metrics/ObservedInstancesMetric.kt:168-169 | the flattened set of all power lists; `CoverageBounds.ResolutionsInUnion` and `CoverageBounds.UnionWitness` prove a shape is in it iff it resolves some observation |
| CoverageBounds.UnionNotSum | src/main/kotlin/tools/aqua/stars/owa/coverage/metrics/ObservedInstancesMetric.kt:168-169 | the upper bound is at most the sum of the power-list sizes |
| CoverageBounds.UnionSmallerThanSum | src/main/kotlin/tools/aqua/stars/owa/coverage/metrics/ObservedInstancesMetric.kt:168-169 | for [?] and [T] the upper bound is 2 while the sum is 3: toSet merges shared options |
| CoverageBounds.Unknowns | src/main/kotlin/tools/aqua/stars/owa/coverage/metrics/ObservedInstancesMetric.kt:336-367 | the all-unknown Bitmask of width w has w unknowns |
| CoverageBounds.LegalResolutionIsConcrete | src/main/kotlin/tools/aqua/stars/owa/coverage/metrics/ObservedInstancesMetric.kt:336-367 | every resolution of a legal Bitmask is a resolution of the all-unknown one |
| CoverageBounds.NotAllUnknown | src/main/kotlin/tools/aqua/stars/owa/coverage/metrics/ObservedInstancesMetric.kt:330 | a known entry leaves fewer unknowns than the width |
| CoverageBounds.UpperAtMostMaxPossible | src/main/kotlin/tools/aqua/stars/owa/coverage/metrics/ObservedInstancesMetric.kt:168-169 | on legal observations of width w the upper bound is at most 2^w |
| CoverageBounds.OptionShapesAreUnion | src/main/kotlin/tools/aqua/stars/owa/coverage/metrics/ObservedInstancesMetric.kt:97-103 | the distinct options of the power lists are the union of the resolutions |
| CoverageBounds.PowerListsNonEmpty | src/main/kotlin/tools/aqua/stars/owa/coverage/metrics/ObservedInstancesMetric.kt:97 | no power list is empty, so the hitting-set problem has a model |
| CoverageBounds.ResolutionLegality | src/main/kotlin/tools/aqua/stars/owa/coverage/metrics/ObservedInstancesMetric.kt:345-360 | a resolution is legal iff its instance is |
| CoverageBounds.LegalityAgrees | src/main/kotlin/tools/aqua/stars/owa/coverage/metrics/ObservedInstancesMetric.kt:97-114 | the encodings fail exactly when some observation is illegal |
| CoverageBounds.HittingSetsAgree | src/main/kotlin/tools/aqua/stars/owa/coverage/metrics/ObservedInstancesMetric.kt:186-198 | a hitting set of the power lists is a set that holds a resolution of every observation |
| CoverageBounds.MinUnCoverAgrees | src/main/kotlin/tools/aqua/stars/owa/coverage/metrics/ObservedInstancesMetric.kt:176-208 | the minimum hitting-set size of the power lists is the reference MinUnCover |
| CoverageBounds.GraphAgrees | src/main/kotlin/tools/aqua/stars/owa/coverage/metrics/ObservedInstancesMetric.kt:301-327 | the engine's graph is the reference graph of the observations |
| CoverageBounds.RightSideAgrees | src/main/kotlin/tools/aqua/stars/owa/coverage/metrics/ObservedInstancesMetric.kt:312 | partition2 is the set of all resolutions |
| CoverageBounds.EdgesAgree | src/main/kotlin/tools/aqua/stars/owa/coverage/metrics/ObservedInstancesMetric.kt:316-324 | the built edges are the reference edges |
| CoverageBounds.CertainInEveryHittingSet | src/main/kotlin/tools/aqua/stars/owa/coverage/metrics/ObservedInstancesMetric.kt:163 | every hitting set holds every certain shape |
| CoverageBounds.LowerBelowHittingSets | src/main/kotlin/tools/aqua/stars/owa/coverage/metrics/ObservedInstancesMetric.kt:163 | the lower bound is at most any hitting set |
| CoverageBounds.RefEdge | src/main/kotlin/tools/aqua/stars/owa/coverage/metrics/ObservedInstancesMetric.kt:316-324 | each reference edge joins an observation to one of its resolutions |
| CoverageBounds.RefGraphIsBipartite | src/main/kotlin/tools/aqua/stars/owa/coverage/metrics/ObservedInstancesMetric.kt:301-327 | the reference graph is bipartite between observations and resolutions |
| CoverageBounds.MatchingBelowUpper | src/main/kotlin/tools/aqua/stars/owa/coverage/metrics/ObservedInstancesMetric.kt:168-169 | every matching is at most the upper bound |
| CoverageBounds.PossibleSideCard | src/main/kotlin/tools/aqua/stars/owa/coverage/metrics/ObservedInstancesMetric.kt:312 | the option side has one vertex per resolution |
| CoverageBounds.PossibleCard | src/main/kotlin/tools/aqua/stars/owa/coverage/metrics/ObservedInstancesMetric.kt:312 | naming shapes as vertices loses none |
| CoverageBounds.MatchedShapesHitAll | src/main/kotlin/tools/aqua/stars/owa/coverage/metrics/ObservedInstancesMetric.kt:125-135 | the options matched by a maximum matching hit every observation |
| CoverageBounds.UnmatchedIsCovered | src/main/kotlin/tools/aqua/stars/owa/coverage/metrics/ObservedInstancesMetric.kt:125-135 | an unmatched observation has all its resolutions matched to others, so one is among the matched options |
| CoverageBounds.MinBelowMax | src/main/kotlin/tools/aqua/stars/owa/coverage/metrics/ObservedInstancesMetric.kt:108-135 | MinUnCover <= MaxUnCover |
| CoverageBounds.MatchedShapesBound | src/main/kotlin/tools/aqua/stars/owa/coverage/metrics/ObservedInstancesMetric.kt:135 | a matching matches at most as many options as it has edges |
| CoverageBounds.BoundChain | src/main/kotlin/tools/aqua/stars/owa/coverage/metrics/ObservedInstancesMetric.kt:99-135 | lower <= MinUnCover <= MaxUnCover <= upper |
| CoverageBounds.RealValues | src/main/kotlin/tools/aqua/stars/owa/coverage/metrics/ObservedInstancesMetric.kt:173 | one hint per entry |
| CoverageBounds.RealValue | src/main/kotlin/tools/aqua/stars/owa/coverage/metrics/ObservedInstancesMetric.kt:172-173 | the real value is at most the number of observations |
| CoverageBounds.HintShapeInjective | src/main/kotlin/tools/aqua/stars/owa/coverage/metrics/ObservedInstancesMetric.kt:173 | different hint vectors describe different shapes |
| CoverageBounds.RealValueIsRealShapes | src/main/kotlin/tools/aqua/stars/owa/coverage/metrics/ObservedInstancesMetric.kt:172-173 | the real value is the number of distinct ground-truth shapes |
| CoverageBounds.HintShapeImage | src/main/kotlin/tools/aqua/stars/owa/coverage/metrics/ObservedInstancesMetric.kt:173 | toSet of the hint vectors loses nothing when mapped to shapes |
| CoverageBounds.RealShapeResolves | src/main/kotlin/tools/aqua/stars/owa/coverage/metrics/ObservedInstancesMetric.kt:173 | when the hints fit, an observation's ground truth is one of its resolutions |
| CoverageBounds.RealShapesHitAll | src/main/kotlin/tools/aqua/stars/owa/coverage/metrics/ObservedInstancesMetric.kt:173 | the ground-truth shapes form a hitting set |
| CoverageBounds.Representative | src/main/kotlin/tools/aqua/stars/owa/coverage/metrics/ObservedInstancesMetric.kt:173 | each ground-truth shape comes from an observation |
| CoverageBounds.RealEdgesMatch | src/main/kotlin/tools/aqua/stars/owa/coverage/metrics/ObservedInstancesMetric.kt:173 | one edge per ground-truth shape forms a matching of the reference graph |
| CoverageBounds.RealEdgesCard | src/main/kotlin/tools/aqua/stars/owa/coverage/metrics/ObservedInstancesMetric.kt:173 | that matching has one edge per ground-truth shape |
| CoverageBounds.MinUnCoverBelowReal | src/main/kotlin/tools/aqua/stars/owa/coverage/metrics/ObservedInstancesMetric.kt:106-114 | when the hints fit, MinUnCover <= real value |
| CoverageBounds.RealBelowMaxUnCover | src/main/kotlin/tools/aqua/stars/owa/coverage/metrics/ObservedInstancesMetric.kt:106-135 | when the hints fit, real value <= MaxUnCover |
| CoverageBounds.RealBetweenUnCovers | src/main/kotlin/tools/aqua/stars/owa/coverage/metrics/ObservedInstancesMetric.kt:106-135 | when the hints fit, MinUnCover <= real value <= MaxUnCover |
| ObservedInstances.BoundsOrderedSnoc | src/main/kotlin/tools/aqua/stars/owa/coverage/metrics/ObservedInstancesMetric.kt:100-103 | appending an ordered pair keeps lower <= upper at every step |
| ObservedInstances.NonDecreasingSnoc | src/main/kotlin/tools/aqua/stars/owa/coverage/metrics/ObservedInstancesMetric.kt:93 | appending a value no smaller than the last keeps a series non-decreasing |
| ObservedInstances.NeverUnsatExtended | src/main/kotlin/tools/aqua/stars/owa/coverage/metrics/ObservedInstancesMetric.kt:110-114 | appending a code other than -2 keeps the MinUnCover series free of UNSAT |
| ObservedInstances.MaximumMatchingSizeUnique | src/main/kotlin/tools/aqua/stars/owa/coverage/metrics/ObservedInstancesMetric.kt:125-130 | a graph has one maximum matching size |
| ObservedInstances.SampleStep | src/main/kotlin/tools/aqua/stars/owa/coverage/metrics/ObservedInstancesMetric.kt:95 | n / s grows by one exactly at the ticks where the remainder is 0 |
| ObservedInstances.MinUnCoverStepKeeps | src/main/kotlin/tools/aqua/stars/owa/coverage/metrics/ObservedInstancesMetric.kt:110-115 | a MinUnCover step grows the series by at most one, never records UNSAT and keeps one time per value |
| ObservedInstances.Saturated | src/main/kotlin/tools/aqua/stars/owa/coverage/metrics/ObservedInstancesMetric.kt:110-120 | `lastOrNull() == maxSize`, false on an empty series; `UpdateMinUnCover` and `UpdateMaxUnCover` prove a saturated series gains maxSize and a 0 time and nothing is solved |
| ObservedInstances.RecordedChain | src/main/kotlin/tools/aqua/stars/owa/coverage/metrics/ObservedInstancesMetric.kt:99-135 | after a recomputation without saturation or UNKNOWN, lower <= MinUnCover <= MaxUnCover <= upper among the latest values, and the real value lies between the uncovers when the hints fit |
| ObservedInstances.ComputePowerLists | src/main/kotlin/tools/aqua/stars/owa/coverage/metrics/ObservedInstancesMetric.kt:97 | pairs every observation with a power list of exactly its resolutions |
| ObservedInstances.ObservedInstancesMetric.constructor | src/main/kotlin/tools/aqua/stars/owa/coverage/metrics/ObservedInstancesMetric.kt:44-86 | all series empty, the five time lists [0], the invariant established |
| ObservedInstances.ObservedInstancesMetric.CalculateMinUnCoverUsingZ3 | src/main/kotlin/tools/aqua/stars/owa/coverage/metrics/ObservedInstancesMetric.kt:176-215 | a non-negative result is the minimum hitting-set size, -2 only with an empty power list, else -1; one time entry; fails iff an option is illegal |
| ObservedInstances.ObservedInstancesMetric.CalculateMaxUnCoverUsingSparseEdmonds | src/main/kotlin/tools/aqua/stars/owa/coverage/metrics/ObservedInstancesMetric.kt:269-282 | the maximum matching size of the engine's graph; one time entry; fails iff a name is illegal |
| ObservedInstances.ObservedInstancesMetric.CalculateMaxUnCoverUsingHopcroftKarp | src/main/kotlin/tools/aqua/stars/owa/coverage/metrics/ObservedInstancesMetric.kt:285-298 | as above, through Hopcroft-Karp with the partitions |
| ObservedInstances.ObservedInstancesMetric.AppendBounds | src/main/kotlin/tools/aqua/stars/owa/coverage/metrics/ObservedInstancesMetric.kt:99-106 | appends the lower bound, the upper bound and the real value, keeping lower <= upper |
| ObservedInstances.ObservedInstancesMetric.UpdateMinUnCover | src/main/kotlin/tools/aqua/stars/owa/coverage/metrics/ObservedInstancesMetric.kt:108-115 | saturated: repeat maxSize with time 0; otherwise the recorded code is UNKNOWN or the reference MinUnCover, never UNSAT; fails iff not saturated and an observation is illegal |
| ObservedInstances.ObservedInstancesMetric.UpdateMaxUnCover | src/main/kotlin/tools/aqua/stars/owa/coverage/metrics/ObservedInstancesMetric.kt:117-136 | saturated: repeat maxSize with time 0 on both lists; otherwise the two matchers agree and the reference MaxUnCover is recorded; fails iff not saturated and an observation is illegal |
| ObservedInstances.ObservedInstancesMetric.Recompute | src/main/kotlin/tools/aqua/stars/owa/coverage/metrics/ObservedInstancesMetric.kt:96-136 | the body of the sampling branch: bounds, then MinUnCover, then MaxUnCover only if MinUnCover did not fail |
| ObservedInstances.ObservedInstancesMetric.Observe | src/main/kotlin/tools/aqua/stars/owa/coverage/metrics/ObservedInstancesMetric.kt:89-93 | inserts into the set, increments the counter and appends the set's size, keeping the raw count non-decreasing |
| ObservedInstances.ObservedInstancesMetric.Evaluate | src/main/kotlin/tools/aqua/stars/owa/coverage/metrics/ObservedInstancesMetric.kt:88-157 | every tick inserts and counts; only at a multiple of sampleSize does every series grow, otherwise none changes; sampleSize 0 fails with DivisionByZero; the invariant holds throughout |
| Scenarios.ExampleInsert | src/main/kotlin/tools/aqua/stars/owa/coverage/metrics/ObservedInstancesMetric.kt:89 | observing [?, F] then [T, F] keeps both, in order |
| Scenarios.ExampleResolutions | src/main/kotlin/tools/aqua/stars/owa/coverage/metrics/ObservedInstancesMetric.kt:336-367 | [?, F] resolves to [T, F] and [F, F]; [T, F] to itself; the union has two shapes |
| Scenarios.ExampleCounts | src/main/kotlin/tools/aqua/stars/owa/coverage/metrics/ObservedInstancesMetric.kt:163-169 | lower bound 1, upper bound 2 |
| Scenarios.ExampleMinUnCover | src/main/kotlin/tools/aqua/stars/owa/coverage/metrics/ObservedInstancesMetric.kt:176-208 | MinUnCover is 1: [T, F] hits both |
| Scenarios.ResolutionEdge | src/main/kotlin/tools/aqua/stars/owa/coverage/metrics/ObservedInstancesMetric.kt:316-324 | every resolution of an observation is joined to it |
| Scenarios.ExampleMatchingValid | src/main/kotlin/tools/aqua/stars/owa/coverage/metrics/ObservedInstancesMetric.kt:316-324 | [?, F]–[F, F] with [T, F]–[T, F] is a matching of size 2 |
| Scenarios.ExampleMaxUnCover | src/main/kotlin/tools/aqua/stars/owa/coverage/metrics/ObservedInstancesMetric.kt:269-282 | MaxUnCover is 2 |
| Scenarios.OpenWorldExample | src/main/kotlin/tools/aqua/stars/owa/coverage/metrics/ObservedInstancesMetric.kt:88-136 | the whole example: lower 1, MinUnCover 1, MaxUnCover 2, upper 2 |

## Left out

- Clocks: `System.currentTimeMillis` is replaced by `elapsed` parameters. The values in the time lists are those parameters, so only the number of entries per call is stated.
- Logging: the `println` and `System.err` messages of `evaluate` and the solvers are output only.
- `gap`: a floating-point percentage; floating point is outside this model.
- The engine's `t0` field exists only for the log line.
- Plotting and CSV output (`writePlots`, `plotData`, `plotSolverTime`, `writePlotDataCSV`) are file output only.
- The engine's private `calculateMaxUnCoverUsingZ3` is never called. Its encoding has only the left-side exclusion. The full two-sided encoding is modelled through `MaxUnCoverZ3`.
- `MaxUnCoverSat.Solve`, `MaxUnCoverSat.MaxUnCoverZ3.Calculate` and the methods of `MaxUnCoverGraph.MaxUnCoverGraphBased`: their answers are tied to their own encodings (`IsMaxSelectionSize`, and a maximum matching of the indexed graph), not to the reference `IsMaxUnCover`. Relating them would need the correspondence between selections and matchings and the renaming of indexed vertices; that proof is not part of this model.
- Solver internals: Z3 `Optimize`, Sparse Edmonds and Hopcroft-Karp are foreign libraries. They are oracles given by what their answers mean, not by their algorithms.
- Z3 variables: the variables are identified by the shapes they are named after, not by strings. Rendering is proved injective on legal Bitmasks (`Bitmasks.RenderInjective`), and an illegal name is an error, so nothing is lost.
- `ObservedInstances.ObservedInstancesMetric.Evaluate`: `evaluatedInstances` is an unbounded natural number, not a Kotlin `Int`. Wrap-around after 2^31 - 1 ticks is not modelled.
- Exceptions: Kotlin's `error("Illegal")`, `ArithmeticException` and `check` become `Failure` results.
  - The state after a failure is exactly what the source has changed before throwing. For example, the bounds are already appended when MinUnCover fails.
  - The state after a failure is stated, but nothing is proved about a later tick after it, because the caller of the source would not go on.
  - The `check(max1 == max2)` failure cannot occur under sound matchers (`MaxUnCoverGraph.MatchersAgree`), so the model has no path for it.
- `ObservedInstances.ObservedInstancesMetric.UpdateMinUnCover`: a solver UNKNOWN (-1) is recorded as the source records it. The bound chain (`ObservedInstances.RecordedChain`) is therefore stated only for a step that did not record UNKNOWN.
- `ObservedInstances.RecordedChain`: the chain is proved for a step in which neither solver was saturated. A repeated `maxSize` is a value the source copies, not one it computes.
- Upper bound against 2^k: `CoverageBounds.UpperAtMostMaxPossible` states it for observations of one width. The engine never checks the width.
- `Valuation.TRUE`, `Valuation.FALSE` and `Valuation.UNKNOWN` are used by `toBitmask`, but `Valuation.kt` does not define them. They are the three legal pairs without a hint.
- The framework base classes (`AbstractObservedInstancesMetric`, `TSCInstance` and its nodes) are not part of this model. A node is a label and an `isUnknown` flag.
