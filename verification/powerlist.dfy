/**
 * `powerList` of metrics/ObservedInstancesMetric.kt: expands one observed Bitmask into
 * every concrete Bitmask obtained by setting each unknown entry to true and to false.
 * The list is rebuilt in rounds; each round splits the first unknown position of the
 * first item (all items share it) and doubles the list.
 */
module PowerLists {
  import opened Valuations
  import opened Bitmasks

  /** One element of `observedInstances.map { it to powerList(it) }`: an instance and its options. */
  datatype PowerEntry = PowerEntry(instance: Bitmask, options: seq<Bitmask>)

  /** c is a concrete resolution of b that keeps every ground-truth hint of b. */
  predicate IsResolution(c: Bitmask, b: Bitmask)
  {
    |c| == |b| && ResolvesShape(ShapeOf(c), b) &&
    forall i :: 0 <= i < |b| ==> c[i].realValue == b[i].realValue
  }

  predicate DistinctShapes(list: seq<Bitmask>)
  {
    forall i, j :: 0 <= i < j < |list| ==> ShapeOf(list[i]) != ShapeOf(list[j])
  }

  /** Entry k set to a definite truth value, keeping its hint (the two `apply` blocks). */
  function Assign(item: Bitmask, k: nat, value: bool): (r: Bitmask)
    requires k < |item|
    ensures |r| == |item|
  {
    item[k := Valuation(value, !value, item[k].realValue)]
  }

  // ---- loop invariant of the expansion ---------------------------------------------

  /** item resolves the first p entries of instance and is untouched from p on. */
  predicate Settled(item: Bitmask, instance: Bitmask, p: nat)
  {
    |item| == |instance| && p <= |instance| &&
    (forall j :: 0 <= j < p ==> KeyOf(item[j]) in Choices(instance[j])) &&
    (forall j :: p <= j < |instance| ==> item[j] == instance[j]) &&
    (forall j :: 0 <= j < |instance| ==> item[j].realValue == instance[j].realValue)
  }

  /** t resolves the first p entries of instance and agrees with it from p on. */
  predicate PartialResolution(t: Shape, instance: Bitmask, p: nat)
  {
    p <= |instance| && |t| == |instance| &&
    (forall j :: 0 <= j < p ==> t[j] in Choices(instance[j])) &&
    (forall j :: p <= j < |instance| ==> t[j] == KeyOf(instance[j]))
  }

  ghost predicate Covers(list: seq<Bitmask>, instance: Bitmask, p: nat)
  {
    forall t :: PartialResolution(t, instance, p) ==>
      exists i :: 0 <= i < |list| && ShapeOf(list[i]) == t
  }

  /** Entries p..q-1 are all known, so the unknown count does not change between them. */
  lemma {:induction false} CountUnknownKnownStretch(b: Bitmask, p: nat, q: nat)
    requires p <= q <= |b|
    requires forall j :: p <= j < q ==> !b[j].IsUnknown()
    ensures CountUnknown(b[..q]) == CountUnknown(b[..p])
  {
    if q > p {
      CountUnknownKnownStretch(b, p, q - 1);
      assert b[..q][..q - 1] == b[..q - 1];
    }
  }

  lemma ShapeOfAssign(x: Bitmask, k: nat, value: bool)
    requires k < |x|
    ensures ShapeOf(Assign(x, k, value)) == ShapeOf(x)[k := Key(value, !value)]
  {
  }

  lemma AssignKeepsDifference(x: Bitmask, y: Bitmask, k: nat, vx: bool, vy: bool)
    requires |x| == |y| && k < |x|
    requires KeyOf(x[k]) == KeyOf(y[k])
    requires ShapeOf(x) != ShapeOf(y)
    ensures ShapeOf(Assign(x, k, vx)) != ShapeOf(Assign(y, k, vy))
  {
    var d :| 0 <= d < |x| && ShapeOf(x)[d] != ShapeOf(y)[d];
    assert d != k;
    assert ShapeOf(Assign(x, k, vx))[d] != ShapeOf(Assign(y, k, vy))[d];
  }

  /** Where the first unknown of the first item lies relative to the settled prefix. */
  lemma StepPosition(r: seq<Bitmask>, instance: Bitmask, p: nat, k: int)
    requires |r| >= 1 && Settled(r[0], instance, p)
    requires k == IndexOfFirstUnknown(r[0]) && k >= 0
    ensures p <= k < |instance| && instance[k].IsUnknown()
    ensures forall j :: p <= j < k ==> !instance[j].IsUnknown()
  {
  }

  lemma StepSettled(r: seq<Bitmask>, next: seq<Bitmask>, instance: Bitmask, p: nat, k: nat)
    requires forall i :: 0 <= i < |r| ==> Settled(r[i], instance, p)
    requires p <= k < |instance| && instance[k].IsUnknown()
    requires forall j :: p <= j < k ==> !instance[j].IsUnknown()
    requires |next| == 2 * |r|
    requires forall j :: 0 <= j < |next| ==> k < |r[j / 2]| && next[j] == Assign(r[j / 2], k, j % 2 == 0)
    ensures forall i :: 0 <= i < |next| ==> Settled(next[i], instance, k + 1)
  {
    forall i | 0 <= i < |next| ensures Settled(next[i], instance, k + 1) {
      var item := r[i / 2];
      assert Settled(item, instance, p);
      forall j | 0 <= j < k + 1 ensures KeyOf(next[i][j]) in Choices(instance[j]) {
        if p <= j < k {
          assert next[i][j] == instance[j];
        }
      }
    }
  }

  lemma StepDistinct(r: seq<Bitmask>, next: seq<Bitmask>, instance: Bitmask, p: nat, k: nat)
    requires forall i :: 0 <= i < |r| ==> Settled(r[i], instance, p)
    requires DistinctShapes(r)
    requires p <= k < |instance|
    requires |next| == 2 * |r|
    requires forall j :: 0 <= j < |next| ==> k < |r[j / 2]| && next[j] == Assign(r[j / 2], k, j % 2 == 0)
    ensures DistinctShapes(next)
  {
    forall a, b | 0 <= a < b < |next| ensures ShapeOf(next[a]) != ShapeOf(next[b]) {
      var x, y := r[a / 2], r[b / 2];
      assert Settled(x, instance, p) && Settled(y, instance, p);
      if a / 2 == b / 2 {
        assert a % 2 == 0 && b % 2 == 1;
        assert ShapeOf(next[a])[k] != ShapeOf(next[b])[k];
      } else {
        assert x[k] == instance[k] == y[k];
        AssignKeepsDifference(x, y, k, a % 2 == 0, b % 2 == 0);
      }
    }
  }

  lemma StepCovers(r: seq<Bitmask>, next: seq<Bitmask>, instance: Bitmask, p: nat, k: nat)
    requires Covers(r, instance, p)
    requires p <= k < |instance| && instance[k].IsUnknown()
    requires forall j :: p <= j < k ==> !instance[j].IsUnknown()
    requires forall i :: 0 <= i < |r| ==> Settled(r[i], instance, p)
    requires |next| == 2 * |r|
    requires forall j :: 0 <= j < |next| ==> k < |r[j / 2]| && next[j] == Assign(r[j / 2], k, j % 2 == 0)
    ensures Covers(next, instance, k + 1)
  {
    var q := k + 1;
    forall t | PartialResolution(t, instance, q)
      ensures exists i :: 0 <= i < |next| && ShapeOf(next[i]) == t
    {
      var t' := t[k := KeyOf(instance[k])];
      assert PartialResolution(t', instance, p);
      var i :| 0 <= i < |r| && ShapeOf(r[i]) == t';
      var value := t[k] == TrueKey;
      var j := if value then 2 * i else 2 * i + 1;
      assert j / 2 == i && (j % 2 == 0 <==> value);
      assert next[j] == Assign(r[i], k, value);
      ShapeOfAssign(r[i], k, value);
      assert Key(value, !value) == t[k];
      assert t'[k := t[k]] == t;
    }
  }

  lemma StepCount(r: seq<Bitmask>, next: seq<Bitmask>, instance: Bitmask, p: nat, k: nat)
    requires p <= k < |instance| && instance[k].IsUnknown()
    requires |r| == Pow2(CountUnknown(instance[..p]))
    requires forall j :: p <= j < k ==> !instance[j].IsUnknown()
    requires |next| == 2 * |r|
    ensures |next| == Pow2(CountUnknown(instance[..k + 1]))
  {
    CountUnknownKnownStretch(instance, p, k);
    assert instance[..k + 1][..k] == instance[..k];
  }

  /** The state of the expansion after the first p entries have been split. */
  ghost predicate Expanding(r: seq<Bitmask>, instance: Bitmask, p: nat)
  {
    |r| >= 1 && p <= |instance| &&
    |r| == Pow2(CountUnknown(instance[..p])) &&
    (forall i :: 0 <= i < |r| ==> Settled(r[i], instance, p)) &&
    DistinctShapes(r) &&
    Covers(r, instance, p)
  }

  /** next holds every item of r twice, entry k set to true and then to false. */
  predicate Doubles(next: seq<Bitmask>, r: seq<Bitmask>, k: nat)
  {
    |next| == 2 * |r| &&
    forall j :: 0 <= j < |next| ==> k < |r[j / 2]| && next[j] == Assign(r[j / 2], k, j % 2 == 0)
  }

  lemma ItemsLongEnough(r: seq<Bitmask>, instance: Bitmask, p: nat, k: int)
    requires Expanding(r, instance, p)
    requires k == IndexOfFirstUnknown(r[0]) && k >= 0
    ensures forall i :: 0 <= i < |r| ==> k < |r[i]|
  {
    StepPosition(r, instance, p, k);
    forall i | 0 <= i < |r| ensures k < |r[i]| {
      assert Settled(r[i], instance, p);
    }
  }

  lemma DoublesAppend(next: seq<Bitmask>, r: seq<Bitmask>, idx: nat, k: nat)
    requires idx < |r| && k < |r[idx]|
    requires Doubles(next, r[..idx], k)
    ensures Doubles(next + [Assign(r[idx], k, true), Assign(r[idx], k, false)], r[..idx + 1], k)
  {
    var next' := next + [Assign(r[idx], k, true), Assign(r[idx], k, false)];
    var r' := r[..idx + 1];
    forall j | 0 <= j < |next'| ensures k < |r'[j / 2]| && next'[j] == Assign(r'[j / 2], k, j % 2 == 0) {
      if j < |next| {
        assert r'[j / 2] == r[..idx][j / 2];
      } else {
        assert j / 2 == idx;
      }
    }
  }

  /** One round of the expansion doubles the list and settles one more unknown. */
  lemma ExpandStep(r: seq<Bitmask>, next: seq<Bitmask>, instance: Bitmask, p: nat, k: int)
    requires Expanding(r, instance, p)
    requires k == IndexOfFirstUnknown(r[0]) && k >= 0
    requires Doubles(next, r, k)
    ensures p <= k < |instance| && instance[k].IsUnknown()
    ensures Expanding(next, instance, k + 1)
  {
    StepPosition(r, instance, p, k);
    StepSettled(r, next, instance, p, k);
    StepDistinct(r, next, instance, p, k);
    StepCovers(r, next, instance, p, k);
    StepCount(r, next, instance, p, k);
  }

  lemma ExpandStart(instance: Bitmask)
    ensures Expanding([instance], instance, 0)
  {
    forall t | PartialResolution(t, instance, 0)
      ensures exists i :: 0 <= i < |[instance]| && ShapeOf([instance][i]) == t
    {
      assert ShapeOf([instance][0]) == t;
    }
  }

  /** The inner `for (item in powerList)` loop: each item twice, entry k true then false. */
  method SplitAt(r: seq<Bitmask>, k: nat) returns (next: seq<Bitmask>)
    requires forall i :: 0 <= i < |r| ==> k < |r[i]|
    ensures Doubles(next, r, k)
  {
    next := [];
    var idx := 0;
    while idx < |r|
      invariant 0 <= idx <= |r|
      invariant Doubles(next, r[..idx], k)
    {
      DoublesAppend(next, r, idx, k);
      next := next + [Assign(r[idx], k, true), Assign(r[idx], k, false)];
      idx := idx + 1;
    }
    assert r[..idx] == r;
  }

  /** Kotlin `powerList(instance)`. */
  method PowerList(instance: Bitmask) returns (r: seq<Bitmask>)
    ensures |r| == Pow2(CountUnknown(instance))
    ensures DistinctShapes(r)
    ensures forall i :: 0 <= i < |r| ==> IsResolution(r[i], instance)
    ensures forall t :: ResolvesShape(t, instance) ==> exists i :: 0 <= i < |r| && ShapeOf(r[i]) == t
    ensures !ContainsUnknown(instance) ==> r == [instance]
  {
    r := [instance];
    ghost var p: nat := 0;
    ExpandStart(instance);
    while ContainsUnknown(r[0])
      invariant Expanding(r, instance, p)
      invariant p == 0 ==> r == [instance]
      invariant p > 0 ==> ContainsUnknown(instance)
      decreases |instance| - p
    {
      var k := IndexOfFirstUnknown(r[0]);
      ItemsLongEnough(r, instance, p, k);
      var next := SplitAt(r, k);
      ExpandStep(r, next, instance, p, k);
      r := next;
      p := k + 1;
    }
    RestKnown(r, instance, p);
    ExpansionDone(r, instance, p);
  }

  /** Once the first item has no unknown left, nothing from p on is unknown in the instance. */
  lemma RestKnown(r: seq<Bitmask>, instance: Bitmask, p: nat)
    requires |r| >= 1 && p <= |instance| && !ContainsUnknown(r[0])
    requires Settled(r[0], instance, p)
    ensures forall j :: p <= j < |instance| ==> !instance[j].IsUnknown()
  {
    forall j | p <= j < |instance| ensures !instance[j].IsUnknown() {
      assert r[0][j] == instance[j];
    }
  }

  /** When the loop ends, the settled items are complete resolutions. */
  lemma ExpansionDone(r: seq<Bitmask>, instance: Bitmask, p: nat)
    requires p <= |instance|
    requires forall j :: p <= j < |instance| ==> !instance[j].IsUnknown()
    requires |r| == Pow2(CountUnknown(instance[..p]))
    requires forall i :: 0 <= i < |r| ==> Settled(r[i], instance, p)
    requires Covers(r, instance, p)
    ensures |r| == Pow2(CountUnknown(instance))
    ensures forall i :: 0 <= i < |r| ==> IsResolution(r[i], instance)
    ensures forall t :: ResolvesShape(t, instance) ==> exists i :: 0 <= i < |r| && ShapeOf(r[i]) == t
  {
    CountUnknownKnownStretch(instance, p, |instance|);
    assert instance[..|instance|] == instance;
    forall i | 0 <= i < |r| ensures IsResolution(r[i], instance) {
      SettledIsResolution(r[i], instance, p);
    }
    CoversAll(r, instance, p);
  }

  lemma CoversAll(r: seq<Bitmask>, instance: Bitmask, p: nat)
    requires p <= |instance|
    requires forall j :: p <= j < |instance| ==> !instance[j].IsUnknown()
    requires Covers(r, instance, p)
    ensures forall t :: ResolvesShape(t, instance) ==> exists i :: 0 <= i < |r| && ShapeOf(r[i]) == t
  {
    forall t | ResolvesShape(t, instance)
      ensures exists i :: 0 <= i < |r| && ShapeOf(r[i]) == t
    {
      assert PartialResolution(t, instance, p);
    }
  }

  lemma SettledIsResolution(item: Bitmask, instance: Bitmask, p: nat)
    requires p <= |instance|
    requires forall j :: p <= j < |instance| ==> !instance[j].IsUnknown()
    requires Settled(item, instance, p)
    ensures IsResolution(item, instance)
  {
    forall j | 0 <= j < |instance| ensures ShapeOf(item)[j] in Choices(instance[j]) {
      if j >= p {
        assert item[j] == instance[j];
      }
    }
  }

  /** The shapes of a power list are exactly the reference resolutions of its instance. */
  lemma PowerListShapes(instance: Bitmask, r: seq<Bitmask>)
    requires forall i :: 0 <= i < |r| ==> IsResolution(r[i], instance)
    requires forall t :: ResolvesShape(t, instance) ==> exists i :: 0 <= i < |r| && ShapeOf(r[i]) == t
    ensures (set i | 0 <= i < |r| :: ShapeOf(r[i])) == Resolutions(instance)
  {
    forall t ensures t in Resolutions(instance) <==> t in (set i | 0 <= i < |r| :: ShapeOf(r[i])) {
      ResolutionsMembership(instance, t);
    }
  }
}
