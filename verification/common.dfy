/** Failure-carrying wrappers shared by the whole model. */
module Common {

  datatype Option<+T> = None | Some(value: T)

  /** The outcome of an operation that the source lets throw. */
  datatype Result<+T, +E> = Success(value: T) | Failure(error: E)

  /** Exceptions the modelled Kotlin code can raise. */
  datatype Error =
    | IllegalValuation        // `error("Illegal")` while rendering a (true, true) valuation
    | NumberFormat            // `String.toInt()` on text that is not a 32-bit decimal
    | DivisionByZero          // `x % 0` on a Kotlin Int
}

/** Counting facts about finite sets used across the model. */
module Cardinality {

  /** An injective function keeps the size of a set. */
  lemma {:induction false} InjectiveImage<A, B>(s: set<A>, f: A -> B)
    requires forall x, y :: x in s && y in s && f(x) == f(y) ==> x == y
    ensures |set x | x in s :: f(x)| == |s|
  {
    if s != {} {
      var x :| x in s;
      var s' := s - {x};
      InjectiveImage(s', f);
      assert (set y | y in s :: f(y)) == (set y | y in s' :: f(y)) + {f(x)};
    }
  }

  /** A set that injects into another is no larger. */
  lemma InjectionBound<A, B>(s: set<A>, t: set<B>, f: A -> B)
    requires forall x :: x in s ==> f(x) in t
    requires forall x, y :: x in s && y in s && f(x) == f(y) ==> x == y
    ensures |s| <= |t|
  {
    InjectiveImage(s, f);
    var image := set x | x in s :: f(x);
    assert image <= t;
    assert |image| <= |t| by {
      assert t == image + (t - image);
    }
  }

  /** A list has at least as many elements as its set. */
  lemma {:induction false} SeqSetBound<A>(xs: seq<A>)
    ensures |set x | x in xs| <= |xs|
  {
    if |xs| > 0 {
      var init := xs[..|xs| - 1];
      SeqSetBound(init);
      assert (set x | x in xs) == (set x | x in init) + {xs[|xs| - 1]};
    }
  }

  /** The image of a set is no larger than the set. */
  lemma {:induction false} ImageBound<A, B>(s: set<A>, f: A -> B)
    ensures |set x | x in s :: f(x)| <= |s|
  {
    if s != {} {
      var x :| x in s;
      var s' := s - {x};
      ImageBound(s', f);
      assert (set y | y in s :: f(y)) == (set y | y in s' :: f(y)) + {f(x)};
    }
  }

  /** A subset is no larger than its superset. */
  lemma SubsetBound<A>(s: set<A>, t: set<A>)
    requires s <= t
    ensures |s| <= |t|
  {
    assert t == s + (t - s);
  }
}
