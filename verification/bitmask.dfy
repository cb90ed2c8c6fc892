/**
 * Bitmasks: one valuation per tag (the `Bitmask` type alias of
 * metrics/ObservedInstancesMetric.kt). Kotlin compares lists element by element with
 * `Valuation.equals`, so the identity of a Bitmask is its shape, the sequence of keys.
 */
module Bitmasks {
  import opened Common
  import opened Valuations
  import Cardinality

  type Bitmask = seq<Valuation>
  type Shape = seq<Key>

  /** The key of every entry, in order: what list equality of two bitmasks compares. */
  function ShapeOf(b: Bitmask): (s: Shape)
  {
    seq(|b|, i requires 0 <= i < |b| => KeyOf(b[i]))
  }

  /** Kotlin list equality on Bitmasks: same length and element-wise `equals`. */
  predicate SameBitmask(a: Bitmask, b: Bitmask)
  {
    |a| == |b| && forall i :: 0 <= i < |a| ==> Equals(a[i], b[i])
  }

  lemma SameBitmaskIsSameShape(a: Bitmask, b: Bitmask)
    ensures SameBitmask(a, b) <==> ShapeOf(a) == ShapeOf(b)
  {
    if ShapeOf(a) == ShapeOf(b) {
      forall i | 0 <= i < |a| ensures Equals(a[i], b[i]) {
        assert ShapeOf(a)[i] == ShapeOf(b)[i];
      }
    }
  }

  /** `Bitmask.containsUnknown()`: some entry is unknown. */
  predicate ContainsUnknown(b: Bitmask)
  {
    exists i :: 0 <= i < |b| && b[i].IsUnknown()
  }

  predicate AllLegal(b: Bitmask)
  {
    forall i :: 0 <= i < |b| ==> IsLegal(b[i])
  }

  /** Legality is a property of the shape: no key of a legal bitmask has both flags set. */
  lemma AllLegalByShape(b: Bitmask)
    ensures AllLegal(b) <==> forall i :: 0 <= i < |ShapeOf(b)| ==> ShapeOf(b)[i] != Key(true, true)
  {
    if !AllLegal(b) {
      var i :| 0 <= i < |b| && !IsLegal(b[i]);
      assert ShapeOf(b)[i] == Key(true, true);
    }
  }

  /** The number of unknown entries. */
  function CountUnknown(b: Bitmask): (n: nat)
    ensures n <= |b|
    ensures n == 0 <==> !ContainsUnknown(b)
  {
    if |b| == 0 then 0
    else
      assert ContainsUnknown(b) <==> ContainsUnknown(b[..|b| - 1]) || b[|b| - 1].IsUnknown() by {
        if ContainsUnknown(b) {
          var i :| 0 <= i < |b| && b[i].IsUnknown();
          if i < |b| - 1 { assert b[..|b| - 1][i] == b[i]; }
        }
        if ContainsUnknown(b[..|b| - 1]) {
          var i :| 0 <= i < |b| - 1 && b[..|b| - 1][i].IsUnknown();
          assert b[i] == b[..|b| - 1][i];
        }
      }
      CountUnknown(b[..|b| - 1]) + (if b[|b| - 1].IsUnknown() then 1 else 0)
  }

  /** Kotlin `indexOfFirst { it.isUnknown }`: the first unknown position, or -1. */
  function IndexOfFirstUnknown(b: Bitmask): (r: int)
    ensures -1 <= r < |b|
    ensures r == -1 <==> !ContainsUnknown(b)
    ensures r >= 0 ==> b[r].IsUnknown() && forall j :: 0 <= j < r ==> !b[j].IsUnknown()
  {
    if |b| == 0 then -1
    else if b[0].IsUnknown() then 0
    else
      var r := IndexOfFirstUnknown(b[1..]);
      assert forall j :: 1 <= j < |b| ==> b[j] == b[1..][j - 1];
      if r == -1 then -1 else r + 1
  }

  function Pow2(n: nat): (r: nat)
    ensures r >= 1
  {
    if n == 0 then 1 else 2 * Pow2(n - 1)
  }

  // ---- rendering (Kotlin List.toString with Valuation.toString) -----------------

  /** The elements joined by ", ", failing on the first illegal valuation. */
  function RenderElements(b: Bitmask): (r: Result<string, Error>)
    ensures r.Success? <==> AllLegal(b)
    ensures r.Success? ==> |r.value| == (if |b| == 0 then 0 else 3 * |b| - 2)
    ensures r.Failure? ==> r.error == IllegalValuation
  {
    if |b| == 0 then Success("")
    else
      assert AllLegal(b) <==> IsLegal(b[0]) && AllLegal(b[1..]) by {
        assert forall j :: 1 <= j < |b| ==> b[j] == b[1..][j - 1];
      }
      match ToString(b[0])
      case Failure(e) => Failure(e)
      case Success(c) =>
        match RenderElements(b[1..])
        case Failure(e) => Failure(e)
        case Success(rest) => Success(if |b| == 1 then c else c + ", " + rest)
  }

  /** `Bitmask.toString()`, e.g. "[T, ?, F]"; Z3 variables and graph vertices are named by it. */
  function Render(b: Bitmask): (r: Result<string, Error>)
    ensures r.Success? <==> AllLegal(b)
    ensures r.Success? ==> |r.value| >= 2 && r.value[0] == '[' && r.value[|r.value| - 1] == ']'
  {
    match RenderElements(b)
    case Failure(e) => Failure(e)
    case Success(s) => Success("[" + s + "]")
  }

  lemma {:induction false} RenderElementsInjective(a: Bitmask, b: Bitmask)
    requires AllLegal(a) && AllLegal(b)
    ensures RenderElements(a) == RenderElements(b) <==> ShapeOf(a) == ShapeOf(b)
  {
    if |a| > 0 && |b| > 0 {
      assert AllLegal(a[1..]) && AllLegal(b[1..]) by {
        assert forall j :: 1 <= j < |a| ==> a[j] == a[1..][j - 1];
        assert forall j :: 1 <= j < |b| ==> b[j] == b[1..][j - 1];
      }
      RenderElementsInjective(a[1..], b[1..]);
      ToStringMatchesEquals(a[0], b[0]);
      var ra, rb := RenderElements(a).value, RenderElements(b).value;
      if ra == rb {
        assert |a| == |b|;
        assert ToString(a[0]).value == [ra[0]] == [rb[0]] == ToString(b[0]).value;
        if |a| > 1 {
          assert RenderElements(a[1..]).value == ra[3..] == rb[3..] == RenderElements(b[1..]).value;
        }
        assert ShapeOf(a) == [KeyOf(a[0])] + ShapeOf(a[1..]);
        assert ShapeOf(b) == [KeyOf(b[0])] + ShapeOf(b[1..]);
      }
      if ShapeOf(a) == ShapeOf(b) {
        assert ShapeOf(a[1..]) == ShapeOf(a)[1..] == ShapeOf(b)[1..] == ShapeOf(b[1..]);
        assert ShapeOf(a)[0] == ShapeOf(b)[0];
      }
    } else if |a| > 0 || |b| > 0 {
      assert |ShapeOf(a)| != |ShapeOf(b)|;
    }
  }

  /** Two renderable Bitmasks get the same name exactly when Kotlin considers them equal. */
  lemma RenderInjective(a: Bitmask, b: Bitmask)
    requires AllLegal(a) && AllLegal(b)
    ensures Render(a) == Render(b) <==> ShapeOf(a) == ShapeOf(b)
  {
    RenderElementsInjective(a, b);
    if Render(a) == Render(b) {
      var ra, rb := RenderElements(a).value, RenderElements(b).value;
      assert ra == Render(a).value[1..|Render(a).value| - 1];
      assert rb == Render(b).value[1..|Render(b).value| - 1];
    }
  }

  /** A string template `"$b"` evaluated: the rendering, or the `error("Illegal")` it throws. */
  method Interpolate(b: Bitmask) returns (r: Result<string, Error>)
    ensures r == Render(b)
    ensures r.Failure? <==> !AllLegal(b)
    ensures r.Failure? ==> r.error == IllegalValuation
    ensures r.Success? ==> |r.value| >= 2 && r.value[0] == '['
  {
    r := Render(b);
  }

  // ---- resolutions: the reference definition of a power list ---------------------

  /** The keys an entry may take once resolved: both truth values for an unknown, itself otherwise. */
  function Choices(v: Valuation): (ks: set<Key>)
    ensures UnknownKey !in ks
  {
    if v.IsUnknown() then {TrueKey, FalseKey} else {KeyOf(v)}
  }

  /** s is obtained from b by giving every unknown entry a truth value. */
  predicate ResolvesShape(s: Shape, b: Bitmask)
  {
    |s| == |b| && forall i :: 0 <= i < |b| ==> s[i] in Choices(b[i])
  }

  function Extend(r: set<Shape>, k: Key): (e: set<Shape>)
  {
    set s | s in r :: s + [k]
  }

  /** The shapes of all concrete resolutions of b, built position by position. */
  function Resolutions(b: Bitmask): set<Shape>
  {
    if |b| == 0 then {[]}
    else
      var r := Resolutions(b[..|b| - 1]);
      var v := b[|b| - 1];
      if v.IsUnknown() then Extend(r, TrueKey) + Extend(r, FalseKey) else Extend(r, KeyOf(v))
  }

  lemma {:induction false} ResolutionsMembership(b: Bitmask, s: Shape)
    ensures s in Resolutions(b) <==> ResolvesShape(s, b)
  {
    if |b| > 0 {
      var b', v := b[..|b| - 1], b[|b| - 1];
      if |s| == |b| {
        var s' := s[..|s| - 1];
        ResolutionsMembership(b', s');
        assert s == s' + [s[|s| - 1]];
        assert ResolvesShape(s, b) <==> ResolvesShape(s', b') && s[|s| - 1] in Choices(v) by {
          assert forall i :: 0 <= i < |b'| ==> s'[i] == s[i] && b'[i] == b[i];
        }
        if s in Resolutions(b) {
          var k := s[|s| - 1];
          assert s' in Resolutions(b') by {
            var t :| t in Resolutions(b') && s == t + [k];
            assert t == s';
          }
        }
      } else {
        if s in Resolutions(b) {
          var t, k :| t in Resolutions(b') && s == t + [k];
          ResolutionsMembership(b', t);
        }
      }
    } else {
      assert ResolvesShape(s, b) <==> s == [];
    }
  }

  lemma {:induction false} ExtendCard(r: set<Shape>, k: Key)
    ensures |Extend(r, k)| == |r|
  {
    if r != {} {
      var s :| s in r;
      ExtendCard(r - {s}, k);
      assert Extend(r, k) == Extend(r - {s}, k) + {s + [k]};
      forall t | t in Extend(r - {s}, k) ensures t != s + [k] {
        var u :| u in r - {s} && t == u + [k];
        assert t[..|t| - 1] == u;
        assert (s + [k])[..|s|] == s;
      }
    }
  }

  /** A Bitmask with u unknown entries has exactly 2^u resolutions. */
  lemma {:induction false} ResolutionsCard(b: Bitmask)
    ensures |Resolutions(b)| == Pow2(CountUnknown(b))
  {
    if |b| > 0 {
      var b', v := b[..|b| - 1], b[|b| - 1];
      var r := Resolutions(b');
      ResolutionsCard(b');
      if v.IsUnknown() {
        assert Resolutions(b) == Extend(r, TrueKey) + Extend(r, FalseKey);
        assert CountUnknown(b) == CountUnknown(b') + 1;
        ExtendCard(r, TrueKey);
        ExtendCard(r, FalseKey);
        ExtendDisjoint(r, TrueKey, FalseKey);
        DisjointUnionCard(Extend(r, TrueKey), Extend(r, FalseKey));
        assert Pow2(CountUnknown(b)) == 2 * Pow2(CountUnknown(b'));
      } else {
        assert Resolutions(b) == Extend(r, KeyOf(v));
        assert CountUnknown(b) == CountUnknown(b');
        ExtendCard(r, KeyOf(v));
      }
    }
  }

  lemma DisjointUnionCard(a: set<Shape>, c: set<Shape>)
    requires a !! c
    ensures |a + c| == |a| + |c|
  {
  }

  lemma ExtendDisjoint(r: set<Shape>, k: Key, k': Key)
    requires k != k'
    ensures Extend(r, k) !! Extend(r, k')
  {
    forall s | s in Extend(r, k) ensures |s| > 0 && s[|s| - 1] == k { }
    forall s | s in Extend(r, k') ensures |s| > 0 && s[|s| - 1] == k' { }
  }

  /** A Bitmask without unknowns resolves only to its own shape. */
  lemma CertainResolutions(b: Bitmask)
    requires !ContainsUnknown(b)
    ensures Resolutions(b) == {ShapeOf(b)}
  {
    ResolutionsCard(b);
    ResolutionsMembership(b, ShapeOf(b));
    assert |Resolutions(b)| == 1;
    assert ShapeOf(b) in Resolutions(b);
    var others := Resolutions(b) - {ShapeOf(b)};
    assert |Resolutions(b)| == |others| + 1;
  }
}
