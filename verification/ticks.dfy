/**
 * Integer tick units and tick differences (dataclasses/IndexTickUnit.kt and
 * dataclasses/IndexTickDifference.kt). Both wrap a Kotlin `Int`, so their arithmetic
 * is 32-bit two's complement and wraps around; `serialize` is `Int.toString()` and
 * `deserialize` is `String.toInt()` (Java's `Integer.parseInt`), which throws on text
 * that is not a 32-bit decimal; its digits may be those of any script of the Basic
 * Multilingual Plane, as `Character.digit` reads them.
 */
module Ticks {
  import opened Common

  const Modulus: int := 0x1_0000_0000
  const Half: int := 0x8000_0000

  /** x and y agree modulo 2^32. */
  predicate Congruent(x: int, y: int)
  {
    (x - y) % Modulus == 0
  }

  newtype Int32 = x: int | -0x8000_0000 <= x < 0x8000_0000

  /** Two's-complement wrap-around of an unbounded integer into 32 bits. */
  function Wrap(x: int): (r: Int32)
    ensures Congruent(r as int, x)
    ensures -Half <= x < Half ==> r as int == x
  {
    var m := (x + Half) % Modulus;
    assert x + Half == Modulus * ((x + Half) / Modulus) + m;
    (m - Half) as Int32
  }

  /** Wrapping depends only on the residue modulo 2^32. */
  lemma WrapCongruent(x: int, y: int)
    requires Congruent(x, y)
    ensures Wrap(x) == Wrap(y)
  {
    var q := (x - y) / Modulus;
    assert x - y == Modulus * q;
    var mx, my := (x + Half) % Modulus, (y + Half) % Modulus;
    var qx, qy := (x + Half) / Modulus, (y + Half) / Modulus;
    assert x + Half == Modulus * qx + mx;
    assert y + Half == Modulus * qy + my;
    assert mx - my == Modulus * (q - qx + qy);
  }

  datatype IndexTickDifference = IndexTickDifference(difference: Int32)
  datatype IndexTickUnit = IndexTickUnit(index: Int32)

  // ---- IndexTickDifference ----------------------------------------------------------

  function DiffPlus(a: IndexTickDifference, b: IndexTickDifference): (r: IndexTickDifference)
    ensures Congruent(r.difference as int, a.difference as int + b.difference as int)
    ensures -Half <= a.difference as int + b.difference as int < Half ==>
              r.difference as int == a.difference as int + b.difference as int
  {
    IndexTickDifference(Wrap(a.difference as int + b.difference as int))
  }

  function DiffMinus(a: IndexTickDifference, b: IndexTickDifference): (r: IndexTickDifference)
    ensures Congruent(r.difference as int, a.difference as int - b.difference as int)
    ensures -Half <= a.difference as int - b.difference as int < Half ==>
              r.difference as int == a.difference as int - b.difference as int
  {
    IndexTickDifference(Wrap(a.difference as int - b.difference as int))
  }

  /** `Int.compareTo`: -1, 0 or 1 by the integer order. */
  function CompareInt(x: Int32, y: Int32): (r: int)
    ensures r == -1 || r == 0 || r == 1
    ensures r < 0 <==> x < y
    ensures r == 0 <==> x == y
    ensures r > 0 <==> x > y
  {
    if x < y then -1 else if x == y then 0 else 1
  }

  function DiffCompare(a: IndexTickDifference, b: IndexTickDifference): (r: int)
    ensures r < 0 <==> a.difference < b.difference
    ensures r == 0 <==> a == b
    ensures r > 0 <==> a.difference > b.difference
  {
    CompareInt(a.difference, b.difference)
  }

  lemma DiffPlusCommutative(a: IndexTickDifference, b: IndexTickDifference)
    ensures DiffPlus(a, b) == DiffPlus(b, a)
  {
  }

  /** Wrapping a partial sum first does not change the wrapped total. */
  lemma WrapThenAdd(p: int, q: int)
    ensures Wrap(Wrap(p) as int + q) == Wrap(p + q)
  {
    var w := Wrap(p) as int;
    assert (w + q) - (p + q) == w - p;
    WrapCongruent(w + q, p + q);
  }

  lemma WrapAssociative(x: int, y: int, z: int)
    ensures Wrap(Wrap(x + y) as int + z) == Wrap(x + Wrap(y + z) as int)
  {
    WrapThenAdd(x + y, z);
    WrapThenAdd(y + z, x);
    assert Wrap(y + z) as int + x == x + Wrap(y + z) as int;
    assert y + z + x == x + y + z;
  }

  lemma DiffPlusAssociative(a: IndexTickDifference, b: IndexTickDifference, c: IndexTickDifference)
    ensures DiffPlus(DiffPlus(a, b), c) == DiffPlus(a, DiffPlus(b, c))
  {
    var x, y, z := a.difference as int, b.difference as int, c.difference as int;
    var l, r := DiffPlus(DiffPlus(a, b), c), DiffPlus(a, DiffPlus(b, c));
    assert l.difference == Wrap(Wrap(x + y) as int + z);
    assert r.difference == Wrap(x + Wrap(y + z) as int);
    WrapAssociative(x, y, z);
  }

  /** Subtraction undoes addition, wrap-around included. */
  lemma DiffMinusCancelsPlus(a: IndexTickDifference, b: IndexTickDifference)
    ensures DiffMinus(DiffPlus(a, b), b) == a
  {
    var x, y := a.difference as int, b.difference as int;
    WrapCongruent(Wrap(x + y) as int - y, x);
  }

  /** `compareTo` is antisymmetric and transitive. */
  lemma DiffCompareIsOrder(a: IndexTickDifference, b: IndexTickDifference, c: IndexTickDifference)
    ensures DiffCompare(a, b) == -DiffCompare(b, a)
    ensures DiffCompare(a, b) < 0 && DiffCompare(b, c) < 0 ==> DiffCompare(a, c) < 0
  {
  }

  // ---- IndexTickUnit ---------------------------------------------------------------

  function UnitPlus(u: IndexTickUnit, d: IndexTickDifference): (r: IndexTickUnit)
    ensures Congruent(r.index as int, u.index as int + d.difference as int)
    ensures -Half <= u.index as int + d.difference as int < Half ==>
              r.index as int == u.index as int + d.difference as int
  {
    IndexTickUnit(Wrap(u.index as int + d.difference as int))
  }

  function UnitMinusDiff(u: IndexTickUnit, d: IndexTickDifference): (r: IndexTickUnit)
    ensures Congruent(r.index as int, u.index as int - d.difference as int)
    ensures -Half <= u.index as int - d.difference as int < Half ==>
              r.index as int == u.index as int - d.difference as int
  {
    IndexTickUnit(Wrap(u.index as int - d.difference as int))
  }

  function UnitMinusUnit(u: IndexTickUnit, v: IndexTickUnit): (r: IndexTickDifference)
    ensures Congruent(r.difference as int, u.index as int - v.index as int)
    ensures -Half <= u.index as int - v.index as int < Half ==>
              r.difference as int == u.index as int - v.index as int
  {
    IndexTickDifference(Wrap(u.index as int - v.index as int))
  }

  function UnitCompare(u: IndexTickUnit, v: IndexTickUnit): (r: int)
    ensures r < 0 <==> u.index < v.index
    ensures r == 0 <==> u == v
    ensures r > 0 <==> u.index > v.index
  {
    CompareInt(u.index, v.index)
  }

  /** Moving forward by d and back by d returns to the same tick. */
  lemma UnitMinusCancelsPlus(u: IndexTickUnit, d: IndexTickDifference)
    ensures UnitMinusDiff(UnitPlus(u, d), d) == u
  {
    var x, y := u.index as int, d.difference as int;
    WrapCongruent(Wrap(x + y) as int - y, x);
  }

  /** Adding the difference u - v to v gives u. */
  lemma UnitPlusDifference(u: IndexTickUnit, v: IndexTickUnit)
    ensures UnitPlus(v, UnitMinusUnit(u, v)) == u
  {
    var x, y := u.index as int, v.index as int;
    WrapCongruent(y + Wrap(x - y) as int, x);
  }

  lemma UnitCompareIsOrder(u: IndexTickUnit, v: IndexTickUnit, w: IndexTickUnit)
    ensures UnitCompare(u, v) == -UnitCompare(v, u)
    ensures UnitCompare(u, v) < 0 && UnitCompare(v, w) < 0 ==> UnitCompare(u, w) < 0
  {
  }

  // ---- serialize / deserialize -----------------------------------------------------

  /**
   * The digit zero of every block of decimal digits (Unicode general category Nd) in the
   * Basic Multilingual Plane, in increasing order; each block holds the digits 0 to 9 at
   * consecutive code points.
   */
  const DigitZeros: seq<int> := [
    0x0030, 0x0660, 0x06F0, 0x07C0, 0x0966, 0x09E6, 0x0A66, 0x0AE6,
    0x0B66, 0x0BE6, 0x0C66, 0x0CE6, 0x0D66, 0x0DE6, 0x0E50, 0x0ED0,
    0x0F20, 0x1040, 0x1090, 0x17E0, 0x1810, 0x1946, 0x19D0, 0x1A80,
    0x1A90, 0x1B50, 0x1BB0, 0x1C40, 0x1C50, 0xA620, 0xA8D0, 0xA900,
    0xA9D0, 0xA9F0, 0xAA50, 0xABF0, 0xFF10
  ]

  /** c lies in the block of decimal digits that starts at `DigitZeros[j]`. */
  predicate InBlock(c: char, j: int)
  {
    0 <= j < |DigitZeros| && DigitZeros[j] <= c as int < DigitZeros[j] + 10
  }

  /** The value of c within the first block among `DigitZeros[k..]` that holds it. */
  function DigitFrom(c: char, k: nat): (r: Option<nat>)
    decreases |DigitZeros| - k
    ensures r.Some? ==> r.value < 10
  {
    if k >= |DigitZeros| then None
    else if InBlock(c, k) then Some((c as int) - DigitZeros[k])
    else DigitFrom(c, k + 1)
  }

  /**
   * Java `Character.digit(c, 10)`: the value of c when it is a decimal digit of any script
   * of the Basic Multilingual Plane (ASCII, Arabic-Indic, Devanagari, fullwidth, ...).
   */
  function DigitValue(c: char): (r: Option<nat>)
    ensures r.Some? ==> r.value < 10
    ensures '0' <= c <= '9' ==> r == Some((c as int) - ('0' as int))
  {
    DigitFrom(c, 0)
  }

  /** c is a digit exactly when some block holds it, and its value is its offset there. */
  lemma DigitValueInBlock(c: char)
    ensures DigitValue(c).Some? <==> exists j :: InBlock(c, j)
    ensures forall j :: InBlock(c, j) ==> DigitValue(c) == Some((c as int) - DigitZeros[j])
  {
    forall j | InBlock(c, j)
      ensures DigitValue(c) == Some((c as int) - DigitZeros[j])
    {
      DigitFromInBlock(c, 0, j);
    }
    if DigitValue(c).Some? {
      var j := DigitFromBlock(c, 0);
      assert InBlock(c, j);
    }
  }

  /** A value found from `k` on comes from a block at `k` or later. */
  lemma {:induction false} DigitFromBlock(c: char, k: nat) returns (j: nat)
    requires DigitFrom(c, k).Some?
    ensures k <= j && InBlock(c, j)
    decreases |DigitZeros| - k
  {
    if InBlock(c, k) {
      j := k;
    } else {
      j := DigitFromBlock(c, k + 1);
    }
  }

  /** Consecutive blocks do not overlap. */
  lemma ZerosApart(i: nat)
    requires i + 1 < |DigitZeros|
    ensures DigitZeros[i] + 10 <= DigitZeros[i + 1]
  {
  }

  lemma {:induction false} DigitFromInBlock(c: char, k: nat, j: nat)
    requires k <= j && InBlock(c, j)
    ensures DigitFrom(c, k) == Some((c as int) - DigitZeros[j])
    decreases j - k
  {
    if k < j {
      ZerosApart(k);
      ZerosBelow(k + 1, j);
      DigitFromInBlock(c, k + 1, j);
    }
  }

  lemma {:induction false} ZerosBelow(i: nat, j: nat)
    requires i <= j < |DigitZeros|
    ensures DigitZeros[i] <= DigitZeros[j]
    decreases j - i
  {
    if i < j {
      ZerosApart(i);
      ZerosBelow(i + 1, j);
    }
  }

  predicate IsDigit(c: char) { DigitValue(c).Some? }

  /** The ASCII digit `Int.toString()` writes for d. */
  function DigitChar(d: nat): (c: char)
    requires d < 10
    ensures '0' <= c <= '9' && DigitValue(c) == Some(d)
  {
    ((('0' as int) + d) as char)
  }

  /** Decimal digits of n, most significant first, without leading zeros. */
  function NatToString(n: nat): (s: string)
    ensures |s| >= 1
    ensures forall i :: 0 <= i < |s| ==> '0' <= s[i] <= '9'
  {
    if n < 10 then [DigitChar(n)] else NatToString(n / 10) + [DigitChar(n % 10)]
  }

  /** Kotlin `Int.toString()`. */
  function IntToString(x: Int32): (s: string)
    ensures |s| >= 1
  {
    if x < 0 then "-" + NatToString(-(x as int)) else NatToString(x as int)
  }

  /**
   * The value of a run of decimal digits, most significant first, or None when some
   * character is not a digit; digits of different scripts may be mixed, as in Java.
   */
  function DigitsValue(s: string): (r: Option<nat>)
    ensures r.Some? <==> forall i :: 0 <= i < |s| ==> IsDigit(s[i])
  {
    if |s| == 0 then Some(0)
    else
      match DigitsValue(s[..|s| - 1])
      case None => None
      case Some(v) =>
        var d := DigitValue(s[|s| - 1]);
        if d.Some? then Some(10 * v + d.value) else None
  }

  /**
   * Kotlin `String.toInt()`, that is Java's `Integer.parseInt`: an optional sign, at least
   * one decimal digit of any script, and a value within 32 bits.
   */
  function ParseInt(s: string): (r: Result<Int32, Error>)
    ensures r.Failure? ==> r.error == NumberFormat
    ensures |s| == 0 ==> r.Failure?
  {
    if |s| == 0 then Failure(NumberFormat)
    else
      var negative := s[0] == '-';
      var body := if s[0] == '-' || s[0] == '+' then s[1..] else s;
      if |body| == 0 then Failure(NumberFormat)
      else
        match DigitsValue(body)
        case None => Failure(NumberFormat)
        case Some(v) =>
          var x: int := if negative then -(v as int) else v as int;
          if -Half <= x < Half then Success(x as Int32) else Failure(NumberFormat)
  }

  /** Reading back the decimal text of n gives n. */
  lemma {:induction false} DigitsValueOfNatToString(n: nat)
    ensures DigitsValue(NatToString(n)) == Some(n)
  {
    if n >= 10 {
      DigitsValueOfNatToString(n / 10);
      var s := NatToString(n);
      assert s[..|s| - 1] == NatToString(n / 10);
    }
  }

  /** Arabic-Indic digits parse as Java parses them: "١٢" is 12. */
  lemma ParseIntArabicIndic()
    ensures ParseInt(['\U{0661}', '\U{0662}']) == Success(12)
  {
    var ar := ['\U{0661}', '\U{0662}'];
    assert DigitZeros[1] == 0x0660;
    DigitFromInBlock(ar[0], 0, 1);
    DigitFromInBlock(ar[1], 0, 1);
    assert ar[..1] == [ar[0]] && [ar[0]][..0] == [];
    assert DigitsValue(ar[..1]) == Some(1);
  }

  /** Fullwidth digits after a sign: "-１２" is -12. */
  lemma ParseIntFullwidth()
    ensures ParseInt(['-', '\U{FF11}', '\U{FF12}']) == Success(-12)
  {
    var fw := ['\U{FF11}', '\U{FF12}'];
    assert DigitZeros[36] == 0xFF10;
    DigitFromInBlock(fw[0], 0, 36);
    DigitFromInBlock(fw[1], 0, 36);
    assert ['-', '\U{FF11}', '\U{FF12}'][1..] == fw;
    assert fw[..1] == [fw[0]] && [fw[0]][..0] == [];
    assert DigitsValue(fw[..1]) == Some(1);
  }

  /** Digits of different scripts mix: "1٢" is 12. */
  lemma ParseIntMixedScripts()
    ensures ParseInt(['1', '\U{0662}']) == Success(12)
  {
    var mixed := ['1', '\U{0662}'];
    assert DigitZeros[1] == 0x0660;
    DigitFromInBlock(mixed[1], 0, 1);
    assert mixed[..1] == ['1'] && ['1'][..0] == [];
    assert DigitsValue(mixed[..1]) == Some(1);
  }

  /** A character after the sign that is not a decimal digit makes the text unparsable. */
  lemma ParseIntRejectsNonDigit(s: string, i: nat)
    requires 0 < i < |s| && !IsDigit(s[i])
    ensures ParseInt(s).Failure?
  {
    var body := if s[0] == '-' || s[0] == '+' then s[1..] else s;
    if s[0] == '-' || s[0] == '+' {
      assert !IsDigit(body[i - 1]);
    } else {
      assert !IsDigit(body[i]);
    }
  }

  lemma ParseIntOfIntToString(x: Int32)
    ensures ParseInt(IntToString(x)) == Success(x)
  {
    DigitsValueOfNatToString(if x < 0 then -(x as int) else x as int);
    if x < 0 {
      assert IntToString(x)[1..] == NatToString(-(x as int));
    } else {
      assert IntToString(x)[0] != '-' && IntToString(x)[0] != '+';
    }
  }

  function UnitSerialize(u: IndexTickUnit): (s: string)
    ensures |s| >= 1
  {
    IntToString(u.index)
  }

  function UnitDeserialize(s: string): (r: Result<IndexTickUnit, Error>)
    ensures |s| == 0 ==> r.Failure?
  {
    match ParseInt(s)
    case Success(x) => Success(IndexTickUnit(x))
    case Failure(e) => Failure(e)
  }

  function DiffSerialize(d: IndexTickDifference): (s: string)
    ensures |s| >= 1
  {
    IntToString(d.difference)
  }

  function DiffDeserialize(s: string): (r: Result<IndexTickDifference, Error>)
    ensures |s| == 0 ==> r.Failure?
  {
    match ParseInt(s)
    case Success(x) => Success(IndexTickDifference(x))
    case Failure(e) => Failure(e)
  }

  lemma UnitRoundTrip(u: IndexTickUnit)
    ensures UnitDeserialize(UnitSerialize(u)) == Success(u)
  {
    ParseIntOfIntToString(u.index);
  }

  lemma DiffRoundTrip(d: IndexTickDifference)
    ensures DiffDeserialize(DiffSerialize(d)) == Success(d)
  {
    ParseIntOfIntToString(d.difference);
  }
}
