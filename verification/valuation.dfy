/**
 * The three-valued truth value of one tag (dataclasses/Valuation.kt).
 * `condition` says the tag holds, `inverseCondition` says it does not; neither means
 * unknown. `realValue` is a ground-truth hint that equality deliberately ignores.
 */
module Valuations {
  import opened Common

  datatype Valuation = Valuation(condition: bool, inverseCondition: bool, realValue: Option<bool>)
  {
    predicate IsUnknown() { !condition && !inverseCondition }
    predicate IsTrue() { condition && !inverseCondition }
    predicate IsFalse() { !condition && inverseCondition }
  }

  /** The part of a valuation that `equals` and `hashCode` look at. */
  datatype Key = Key(condition: bool, inverseCondition: bool)

  const UnknownKey := Key(false, false)
  const TrueKey := Key(true, false)
  const FalseKey := Key(false, true)

  /** The constants Valuation.TRUE, FALSE and UNKNOWN carry no ground-truth hint. */
  const TRUE := Valuation(true, false, None)
  const FALSE := Valuation(false, true, None)
  const UNKNOWN := Valuation(false, false, None)

  /** The two fields `equals` compares; the hint is left out. */
  function KeyOf(v: Valuation): (k: Key)
  {
    Key(v.condition, v.inverseCondition)
  }

  /** (true, true) is the combination the source calls "Illegal". */
  predicate IsLegal(v: Valuation) { !(v.condition && v.inverseCondition) }

  /** Kotlin `equals`: identity, or same condition and inverseCondition. */
  predicate Equals(a: Valuation, b: Valuation)
  {
    a == b || (a.condition == b.condition && a.inverseCondition == b.inverseCondition)
  }

  /** Java's `Boolean.hashCode()`: 1231 for true, 1237 for false. */
  function BoolHash(b: bool): int { if b then 1231 else 1237 }

  /** Kotlin `hashCode`: 31 * condition.hashCode() + inverseCondition.hashCode(). */
  function HashCode(v: Valuation): (h: int)
    ensures 0 < h
  {
    31 * BoolHash(v.condition) + BoolHash(v.inverseCondition)
  }

  /** Kotlin `toString`: "?", "T" or "F", and `error("Illegal")` for (true, true). */
  function ToString(v: Valuation): (r: Result<string, Error>)
    ensures r.Success? <==> IsLegal(v)
    ensures r.Success? ==> |r.value| == 1
    ensures r.Success? ==> (r.value == "?" <==> v.IsUnknown())
    ensures r.Success? ==> (r.value == "T" <==> v.IsTrue())
    ensures r.Success? ==> (r.value == "F" <==> v.IsFalse())
    ensures r.Failure? ==> r.error == IllegalValuation
  {
    if v.IsUnknown() then Success("?")
    else if v.IsTrue() then Success("T")
    else if v.IsFalse() then Success("F")
    else Failure(IllegalValuation)
  }

  /** Exactly one of the three classifiers holds for a legal valuation, none for (true, true). */
  lemma Classification(v: Valuation)
    ensures IsLegal(v) ==> (v.IsUnknown() || v.IsTrue() || v.IsFalse())
    ensures !(v.IsUnknown() && v.IsTrue()) && !(v.IsUnknown() && v.IsFalse()) && !(v.IsTrue() && v.IsFalse())
    ensures !IsLegal(v) ==> !v.IsUnknown() && !v.IsTrue() && !v.IsFalse()
  {
  }

  /** Equality is decided by the key alone; the ground-truth hint never matters. */
  lemma EqualsIsKeyEquality(a: Valuation, b: Valuation)
    ensures Equals(a, b) <==> KeyOf(a) == KeyOf(b)
    ensures Equals(a, b) <==> Equals(a.(realValue := None), b)
  {
  }

  /** `equals` is an equivalence relation. */
  lemma EqualsIsEquivalence(a: Valuation, b: Valuation, c: Valuation)
    ensures Equals(a, a)
    ensures Equals(a, b) ==> Equals(b, a)
    ensures Equals(a, b) && Equals(b, c) ==> Equals(a, c)
  {
  }

  /** `hashCode` is consistent with `equals`, and on these four keys it is even injective. */
  lemma HashCodeMatchesEquals(a: Valuation, b: Valuation)
    ensures Equals(a, b) <==> HashCode(a) == HashCode(b)
  {
  }

  /** Two legal valuations print the same text exactly when they are equal. */
  lemma ToStringMatchesEquals(a: Valuation, b: Valuation)
    requires IsLegal(a) && IsLegal(b)
    ensures ToString(a) == ToString(b) <==> Equals(a, b)
  {
  }
}
