/** The generic slice helpers of bot/utils/sliceutils.go. Each loop-based
    helper is a method proved against a specification function; the
    lemmas relate the specifications to each other. */
module SliceUtils {

  /** ToSlice: the variadic arguments, unchanged and in order. */
  function ToSlice<T>(xs: seq<T>): (r: seq<T>)
    ensures |r| == |xs| && forall i :: 0 <= i < |xs| ==> r[i] == xs[i]
  {
    xs
  }

  /** Contains: an early-exit scan for `target`. */
  method Contains<T(==)>(s: seq<T>, target: T) returns (found: bool)
    ensures found <==> exists i :: 0 <= i < |s| && s[i] == target
  {
    for i := 0 to |s|
      invariant forall k :: 0 <= k < i ==> s[k] != target
    {
      if s[i] == target {
        return true;
      }
    }
    return false;
  }

  /** Specification of HasIntersection: some element is common to both. */
  ghost predicate Intersects<T>(a: seq<T>, b: seq<T>) {
    exists i, j :: 0 <= i < |a| && 0 <= j < |b| && a[i] == b[j]
  }

  /** HasIntersection: nested early-exit loops. */
  method HasIntersection<T(==)>(a: seq<T>, b: seq<T>) returns (r: bool)
    ensures r <==> Intersects(a, b)
  {
    for i := 0 to |a|
      invariant forall k, j :: 0 <= k < i && 0 <= j < |b| ==> a[k] != b[j]
    {
      for j := 0 to |b|
        invariant forall m :: 0 <= m < j ==> a[i] != b[m]
      {
        if a[i] == b[j] {
          return true;
        }
      }
    }
    return false;
  }

  /** Number of elements of `b` equal to `x`. */
  function Count<T(==)>(b: seq<T>, x: T): nat {
    if b == [] then 0 else Count(b[..|b| - 1], x) + (if b[|b| - 1] == x then 1 else 0)
  }

  /** `x` repeated `n` times. */
  function Repeat<T>(x: T, n: nat): (r: seq<T>)
    ensures |r| == n && forall i :: 0 <= i < n ==> r[i] == x
  {
    if n == 0 then [] else Repeat(x, n - 1) + [x]
  }

  /** Specification of FindIntersection: every element of `a`, in order,
      once for each equal element of `b`. */
  function Intersection<T(==)>(a: seq<T>, b: seq<T>): seq<T> {
    if a == [] then [] else Intersection(a[..|a| - 1], b) + Repeat(a[|a| - 1], Count(b, a[|a| - 1]))
  }

  /** Sum over `a` of the number of matches each element has in `b`. */
  function MatchTotal<T(==)>(a: seq<T>, b: seq<T>): nat {
    if a == [] then 0 else MatchTotal(a[..|a| - 1], b) + Count(b, a[|a| - 1])
  }

  /** FindIntersection: appends inside nested loops. */
  method FindIntersection<T(==)>(a: seq<T>, b: seq<T>) returns (r: seq<T>)
    ensures r == Intersection(a, b)
  {
    r := [];
    for i := 0 to |a|
      invariant r == Intersection(a[..i], b)
    {
      ghost var before := r;
      for j := 0 to |b|
        invariant r == before + Repeat(a[i], Count(b[..j], a[i]))
      {
        assert b[..j + 1][..j] == b[..j];
        if a[i] == b[j] {
          r := r + [a[i]];
        }
      }
      assert b[..|b|] == b;
      assert a[..i + 1][..i] == a[..i];
    }
    assert a[..|a|] == a;
  }

  /** The result's length is the sum of the per-element match counts. */
  lemma {:induction false} IntersectionLength<T>(a: seq<T>, b: seq<T>)
    ensures |Intersection(a, b)| == MatchTotal(a, b)
  {
    if a != [] {
      IntersectionLength(a[..|a| - 1], b);
    }
  }

  lemma {:induction false} CountPositive<T>(b: seq<T>, x: T)
    ensures Count(b, x) > 0 <==> exists j :: 0 <= j < |b| && b[j] == x
  {
    if b != [] {
      CountPositive(b[..|b| - 1], x);
      if Count(b[..|b| - 1], x) > 0 {
        var j :| 0 <= j < |b| - 1 && b[..|b| - 1][j] == x;
        assert b[j] == x;
      }
      if exists j :: 0 <= j < |b| && b[j] == x {
        var j :| 0 <= j < |b| && b[j] == x;
        if j < |b| - 1 {
          assert b[..|b| - 1][j] == x;
        }
      }
    }
  }

  /** Every element of the intersection occurs in both inputs. */
  lemma {:induction false} IntersectionMembers<T>(a: seq<T>, b: seq<T>)
    ensures forall x :: x in Intersection(a, b) ==> x in a && x in b
  {
    if a != [] {
      IntersectionMembers(a[..|a| - 1], b);
      var last := a[|a| - 1];
      var n := Count(b, last);
      forall x | x in Intersection(a, b)
        ensures x in a && x in b
      {
        if x in Intersection(a[..|a| - 1], b) {
          assert x in a[..|a| - 1];
        } else {
          assert x in Repeat(last, n);
          assert n > 0 && x == last;
          CountPositive(b, last);
        }
      }
    }
  }

  /** Either input empty gives an empty intersection. */
  lemma {:induction false} IntersectionOfEmpty<T>(a: seq<T>, b: seq<T>)
    ensures a == [] || b == [] ==> Intersection(a, b) == []
  {
    if a != [] && b == [] {
      IntersectionOfEmpty(a[..|a| - 1], b);
    }
  }

  /** HasIntersection is true exactly when FindIntersection is non-empty. */
  lemma {:induction false} IntersectsIffNonEmpty<T>(a: seq<T>, b: seq<T>)
    ensures Intersects(a, b) <==> Intersection(a, b) != []
  {
    if a != [] {
      var init, last := a[..|a| - 1], a[|a| - 1];
      IntersectsIffNonEmpty(init, b);
      CountPositive(b, last);
      if Intersects(a, b) {
        var i, j :| 0 <= i < |a| && 0 <= j < |b| && a[i] == b[j];
        if i < |a| - 1 {
          assert init[i] == b[j];
        }
      }
      if Intersects(init, b) {
        var i, j :| 0 <= i < |init| && 0 <= j < |b| && init[i] == b[j];
        assert a[i] == b[j];
      }
    }
  }
}
