/** Paths over points, their length and what a reversal does to it, over exact
    reals. A missing coordinate is `None`, and `None` as a
    distance behaves like NaN: it never compares smaller. The square root is a
    parameter; only that it is never negative matters. */
module RoutePaths {
  import opened Prelude

  type Point = seq<Option<real>>
  type Distance = Option<real>

  const EPSILON: real := 0.000000000001

  predicate Less(a: Distance, b: Distance) {
    a.Some? && b.Some? && a.value < b.value
  }

  function Plus(a: Distance, b: Distance): Distance {
    if a.Some? && b.Some? then Some(a.value + b.value) else None
  }

  /** Sum of the squared differences over the coordinates both points have. */
  function SquaresTo(a: Point, b: Point): (r: Distance)
    ensures r.Some? ==> r.value >= 0.0
    decreases |a|
  {
    if a == [] || b == [] then Some(0.0)
    else if a[0].None? || b[0].None? then None
    else
      Plus(Some(Square(a[0].value - b[0].value)), SquaresTo(a[1..], b[1..]))
  }

  function Square(x: real): (r: real)
    ensures r >= 0.0
  {
    x * x
  }

  predicate IsComplete(a: Point) {
    forall c :: 0 <= c < |a| ==> a[c].Some?
  }

  datatype Plane = Plane(points: seq<Point>, start: Option<Point>, root: real -> real) {
    ghost predicate Valid() {
      forall x :: x >= 0.0 ==> root(x) >= 0.0
    }

    function Apart(a: Point, b: Point): Distance {
      var s := SquaresTo(a, b);
      if s.Some? then Some(root(s.value)) else None
    }

    /** Node `|points|` is the anchor the path starts from. */
    function Edge(i: nat, j: nat): Distance
      requires i <= |points| && j <= |points|
    {
      if i == |points| && j == |points| then Some(0.0)
      else if i == |points| then (if start.Some? then Apart(start.value, points[j]) else Some(0.0))
      else if j == |points| then Some(0.0)
      else Apart(points[i], points[j])
    }

    function Weight(i: nat, j: nat): real
      requires i <= |points| && j <= |points|
    {
      Edge(i, j).GetOr(0.0)
    }

    /** All points have the dimensions routed over, of which there is one, and
        the first point misses none: it is what the dimensions come from. */
    ghost predicate Routed() {
      points != [] ==>
        && points[0] != [] && IsComplete(points[0])
        && (forall k :: 0 <= k < |points| ==> |points[k]| == |points[0]|)
        && (start.Some? ==> |start.value| == |points[0]|)
    }
  }

  /** A path visits the anchor, then points. */
  ghost predicate IsPath(p: Plane, path: seq<nat>) {
    && path != [] && path[0] == |p.points|
    && forall k :: 1 <= k < |path| ==> path[k] < |p.points|
  }

  ghost predicate IsPermutation(order: seq<nat>, n: nat) {
    && |order| == n
    && (forall k :: 0 <= k < n ==> order[k] < n)
    && (forall i :: 0 <= i < n ==> i in order)
    && forall k, m :: 0 <= k < m < n ==> order[k] != order[m]
  }

  /** The sum of the weights of the first `k` edges. */
  function Length(p: Plane, path: seq<nat>, k: nat): real
    requires k < |path| && forall m :: 0 <= m < |path| ==> path[m] <= |p.points|
  {
    if k == 0 then 0.0 else Length(p, path, k - 1) + p.Weight(path[k - 1], path[k])
  }

  function Total(p: Plane, path: seq<nat>): real
    requires path != [] && forall m :: 0 <= m < |path| ==> path[m] <= |p.points|
  {
    Length(p, path, |path| - 1)
  }

  function Reversed(path: seq<nat>, i: nat, j: nat): (r: seq<nat>)
    requires i <= j < |path|
    ensures |r| == |path|
  {
    seq(|path|, k requires 0 <= k < |path| => if i <= k <= j then path[i + j - k] else path[k])
  }

  /** The two edges a reversal of `path[i..=j]` removes. */
  function Before(p: Plane, path: seq<nat>, i: nat, j: nat): Distance
    requires IsPath(p, path) && 1 <= i < j < |path|
  {
    Plus(p.Edge(path[i - 1], path[i]), if j + 1 < |path| then p.Edge(path[j], path[j + 1]) else Some(0.0))
  }

  /** The two edges it puts in their place. */
  function After(p: Plane, path: seq<nat>, i: nat, j: nat): Distance
    requires IsPath(p, path) && 1 <= i < j < |path|
  {
    Plus(p.Edge(path[i - 1], path[j]), if j + 1 < |path| then p.Edge(path[i], path[j + 1]) else Some(0.0))
  }

  predicate Improves(p: Plane, path: seq<nat>, i: nat, j: nat)
    requires IsPath(p, path) && 1 <= i < j < |path|
  {
    Less(Plus(After(p, path, i, j), Some(EPSILON)), Before(p, path, i, j))
  }

  /** No reversal of a segment shortens the path by more than `EPSILON`. */
  ghost predicate LocallyOptimal(p: Plane, path: seq<nat>)
    requires IsPath(p, path)
  {
    forall i, j :: 1 <= i < j < |path| ==> !Improves(p, path, i, j)
  }

  /** Each point is one nearest to the point before it among those after it; a
      NaN distance counts as nearest only when all are. */
  ghost predicate Greedy(p: Plane, path: seq<nat>)
    requires IsPath(p, path)
  {
    forall k, m :: 1 <= k < m < |path| ==> Nearer(p, path[k - 1], path[k], path[m])
  }

  predicate Nearer(p: Plane, here: nat, k: nat, m: nat)
    requires here <= |p.points| && k < |p.points| && m < |p.points|
  {
    && !Less(p.Edge(here, m), p.Edge(here, k))
    && (p.Edge(here, k).None? ==> p.Edge(here, m).None?)
  }

  /** No incomplete point comes before a complete one. */
  ghost predicate CompleteFirst(p: Plane, path: seq<nat>)
    requires IsPath(p, path)
  {
    forall a, b :: 1 <= a < b < |path| && IsComplete(p.points[path[b]]) ==> IsComplete(p.points[path[a]])
  }

  // ---- Distances ----

  lemma SquareEven(x: real, y: real)
    ensures Square(x - y) == Square(y - x)
  {
    assert (x - y) * (x - y) == (y - x) * (y - x);
  }

  lemma {:induction false} SquaresSymmetric(a: Point, b: Point)
    ensures SquaresTo(a, b) == SquaresTo(b, a)
    decreases |a|
  {
    if a != [] && b != [] {
      SquaresSymmetric(a[1..], b[1..]);
      if a[0].Some? && b[0].Some? {
        SquareEven(a[0].value, b[0].value);
      }
    }
  }

  lemma {:induction false} SquaresDefined(a: Point, b: Point)
    requires |a| == |b|
    ensures SquaresTo(a, b).Some? <==> IsComplete(a) && IsComplete(b)
    decreases |a|
  {
    if a != [] {
      SquaresDefined(a[1..], b[1..]);
      assert IsComplete(a) <==> a[0].Some? && IsComplete(a[1..]) by {
        assert forall c :: 1 <= c < |a| ==> a[c] == a[1..][c - 1];
      }
      assert IsComplete(b) <==> b[0].Some? && IsComplete(b[1..]) by {
        assert forall c :: 1 <= c < |b| ==> b[c] == b[1..][c - 1];
      }
    }
  }

  /** What the points differ by in the first `n` coordinates. */
  function SumSquares(a: Point, b: Point, n: nat): real
    requires n <= |a| && n <= |b| && forall c :: 0 <= c < n ==> a[c].Some? && b[c].Some?
  {
    if n == 0 then 0.0
    else SumSquares(a, b, n - 1) + (a[n - 1].value - b[n - 1].value) * (a[n - 1].value - b[n - 1].value)
  }

  lemma {:induction false} SumSquaresTail(a: Point, b: Point, n: nat)
    requires 0 < n <= |a| && n <= |b| && forall c :: 0 <= c < n ==> a[c].Some? && b[c].Some?
    ensures forall c :: 0 <= c < n - 1 ==> a[1..][c].Some? && b[1..][c].Some?
    ensures SumSquares(a, b, n)
            == (a[0].value - b[0].value) * (a[0].value - b[0].value) + SumSquares(a[1..], b[1..], n - 1)
  {
    if n > 1 {
      SumSquaresTail(a, b, n - 1);
      assert a[1..][n - 2] == a[n - 1] && b[1..][n - 2] == b[n - 1];
    }
  }

  /** Over complete points every coordinate counts, as far as both have it. */
  lemma {:induction false} SquaresAreSummed(a: Point, b: Point)
    requires IsComplete(a) && IsComplete(b)
    ensures SquaresTo(a, b) == Some(SumSquares(a, b, if |a| < |b| then |a| else |b|))
    decreases |a|
  {
    if a != [] && b != [] {
      SumSquaresTail(a, b, if |a| < |b| then |a| else |b|);
      SquaresAreSummed(a[1..], b[1..]);
    }
  }

  /** Points of one dimension apart by nothing are the same point. */
  lemma {:induction false} NoSquaresIff(a: Point, b: Point)
    requires |a| == |b| && IsComplete(a) && IsComplete(b)
    ensures SquaresTo(a, b) == Some(0.0) <==> a == b
    decreases |a|
  {
    if a != [] {
      NoSquaresIff(a[1..], b[1..]);
      SquaresDefined(a[1..], b[1..]);
      assert a == [a[0]] + a[1..] && b == [b[0]] + b[1..];
      NoSquareIff(a[0].value - b[0].value);
    }
  }

  function Product(x: real, y: real): real {
    x * y
  }

  lemma PositiveProduct(x: real, y: real)
    requires x > 0.0 && y > 0.0
    ensures Product(x, y) > 0.0
  {
  }

  lemma NoSquareIff(x: real)
    ensures Square(x) == 0.0 <==> x == 0.0
  {
    var y := if x < 0.0 then -x else x;
    if y > 0.0 {
      PositiveProduct(y, y);
      assert Square(x) == Product(y, y);
    }
  }

  /** The edges: distances between points, and from the start where there is
      one; nothing to or from the start otherwise. */
  lemma EdgeIs(p: Plane, i: nat, j: nat)
    requires i <= |p.points| && j < |p.points|
    ensures p.Edge(i, |p.points|) == Some(0.0)
    ensures i < |p.points| && |p.points[i]| == |p.points[j]| ==>
              if IsComplete(p.points[i]) && IsComplete(p.points[j])
              then p.Edge(i, j) == Some(p.root(SumSquares(p.points[i], p.points[j], |p.points[j]|)))
              else p.Edge(i, j).None?
    ensures i == |p.points| && p.start.Some? && |p.start.value| == |p.points[j]| ==>
              if IsComplete(p.start.value) && IsComplete(p.points[j])
              then p.Edge(i, j) == Some(p.root(SumSquares(p.start.value, p.points[j], |p.points[j]|)))
              else p.Edge(i, j).None?
    ensures i == |p.points| && p.start.None? ==> p.Edge(i, j) == Some(0.0)
  {
    var a := if i < |p.points| then p.points[i] else p.start.GetOr(p.points[j]);
    if |a| == |p.points[j]| {
      SquaresDefined(a, p.points[j]);
      if IsComplete(a) && IsComplete(p.points[j]) {
        SquaresAreSummed(a, p.points[j]);
      }
    }
  }

  lemma EdgeSymmetric(p: Plane, i: nat, j: nat)
    requires i < |p.points| && j < |p.points|
    ensures p.Edge(i, j) == p.Edge(j, i)
  {
    SquaresSymmetric(p.points[i], p.points[j]);
  }

  /** Missing distances come after all others. */
  lemma NearerIs(p: Plane, here: nat, k: nat, m: nat)
    requires here <= |p.points| && k < |p.points| && m < |p.points|
    ensures Nearer(p, here, k, m) <==>
              p.Edge(here, m).None? || (p.Edge(here, k).Some? && p.Edge(here, k).value <= p.Edge(here, m).value)
  {
  }

  /** A path's length is that of its edges, one that is missing as nothing. */
  lemma TotalIs(p: Plane, path: seq<nat>, j: nat)
    requires IsPath(p, path) && j < |p.points|
    ensures Total(p, [|p.points|]) == 0.0
    ensures Total(p, path + [j])
            == Total(p, path) + match p.Edge(path[|path| - 1], j) { case Some(d) => d case None => 0.0 }
  {
    var longer := path + [j];
    assert longer[..|path|] == path[..|path|];
    LengthPrefix(p, longer, path, |path| - 1);
  }

  // ---- A reversal shortens the path ----

  lemma {:induction false} LengthPrefix(p: Plane, s: seq<nat>, t: seq<nat>, k: nat)
    requires k < |s| && k < |t| && s[..k + 1] == t[..k + 1]
    requires forall m :: 0 <= m < |s| ==> s[m] <= |p.points|
    requires forall m :: 0 <= m < |t| ==> t[m] <= |p.points|
    ensures Length(p, s, k) == Length(p, t, k)
  {
    if k > 0 {
      assert s[..k] == s[..k + 1][..k] && t[..k] == t[..k + 1][..k];
      assert s[k] == s[..k + 1][k] && t[k] == t[..k + 1][k];
      assert s[k - 1] == s[..k + 1][k - 1] && t[k - 1] == t[..k + 1][k - 1];
      LengthPrefix(p, s, t, k - 1);
    }
  }

  /** The reversed segment has the same edges, walked the other way. */
  lemma {:induction false} LengthInside(p: Plane, path: seq<nat>, i: nat, j: nat, m: nat)
    requires IsPath(p, path) && 1 <= i <= m <= j < |path|
    ensures Length(p, Reversed(path, i, j), m) - Length(p, Reversed(path, i, j), i)
         == Length(p, path, j) - Length(p, path, i + j - m)
    decreases m - i
  {
    if m > i {
      LengthInside(p, path, i, j, m - 1);
      EdgeSymmetric(p, path[i + j - m + 1], path[i + j - m]);
    }
  }

  lemma {:induction false} LengthAfter(p: Plane, path: seq<nat>, i: nat, j: nat, k: nat)
    requires IsPath(p, path) && 1 <= i <= j && j + 1 <= k < |path|
    ensures Length(p, Reversed(path, i, j), k) - Length(p, Reversed(path, i, j), j + 1)
         == Length(p, path, k) - Length(p, path, j + 1)
    decreases k
  {
    if k > j + 1 {
      LengthAfter(p, path, i, j, k - 1);
    }
  }

  function Tail(p: Plane, path: seq<nat>, a: nat, j: nat): real
    requires IsPath(p, path) && j < |path| && a <= |p.points|
  {
    if j + 1 < |path| then p.Weight(a, path[j + 1]) else 0.0
  }

  lemma HeadChange(p: Plane, path: seq<nat>, i: nat, j: nat)
    requires IsPath(p, path) && 1 <= i < j < |path|
    ensures Length(p, Reversed(path, i, j), j) - p.Weight(path[i - 1], path[j])
         == Length(p, path, j) - p.Weight(path[i - 1], path[i])
  {
    var r := Reversed(path, i, j);
    assert r[..i] == path[..i];
    LengthPrefix(p, r, path, i - 1);
    LengthInside(p, path, i, j, j);
  }

  lemma TailChange(p: Plane, path: seq<nat>, i: nat, j: nat)
    requires IsPath(p, path) && 1 <= i < j < |path|
    ensures Total(p, Reversed(path, i, j)) - Length(p, Reversed(path, i, j), j) - Tail(p, path, path[i], j)
         == Total(p, path) - Length(p, path, j) - Tail(p, path, path[j], j)
  {
    var r := Reversed(path, i, j);
    if j + 1 < |path| {
      LengthAfter(p, path, i, j, |path| - 1);
      LengthStep(p, r, j);
      LengthStep(p, path, j);
    }
  }

  lemma LengthStep(p: Plane, path: seq<nat>, j: nat)
    requires j + 1 < |path| && forall m :: 0 <= m < |path| ==> path[m] <= |p.points|
    ensures Length(p, path, j + 1) == Length(p, path, j) + p.Weight(path[j], path[j + 1])
  {
  }

  /** Only the edges at the ends of the segment change. */
  lemma ReversalTotal(p: Plane, path: seq<nat>, i: nat, j: nat)
    requires IsPath(p, path) && 1 <= i < j < |path|
    ensures IsPath(p, Reversed(path, i, j))
    ensures Total(p, Reversed(path, i, j)) - p.Weight(path[i - 1], path[j]) - Tail(p, path, path[i], j)
         == Total(p, path) - p.Weight(path[i - 1], path[i]) - Tail(p, path, path[j], j)
  {
    HeadChange(p, path, i, j);
    TailChange(p, path, i, j);
  }

  /** The edges a reversal removes and those it puts in their place. */
  ghost predicate EdgesKnown(p: Plane, path: seq<nat>, i: nat, j: nat)
    requires IsPath(p, path) && 1 <= i < j < |path|
  {
    && p.Edge(path[i - 1], path[i]).Some? && p.Edge(path[i - 1], path[j]).Some?
    && (j + 1 < |path| ==> p.Edge(path[j], path[j + 1]).Some? && p.Edge(path[i], path[j + 1]).Some?)
  }

  /** A reversal is made exactly where all distances it changes are known and it
      cuts the whole path by more than 1e-12. */
  lemma ImprovesIff(p: Plane, path: seq<nat>, i: nat, j: nat)
    requires IsPath(p, path) && 1 <= i < j < |path|
    ensures IsPath(p, Reversed(path, i, j))
    ensures Improves(p, path, i, j) <==>
              EdgesKnown(p, path, i, j) && Total(p, Reversed(path, i, j)) + 0.000000000001 < Total(p, path)
  {
    ReversalTotal(p, path, i, j);
  }

  lemma {:induction false} LengthNonNegative(p: Plane, path: seq<nat>, k: nat)
    requires p.Valid() && k < |path| && forall m :: 0 <= m < |path| ==> path[m] <= |p.points|
    ensures Length(p, path, k) >= 0.0
  {
    if k > 0 {
      LengthNonNegative(p, path, k - 1);
    }
  }

  // ---- A reversal keeps the permutation and the incomplete points last ----

  lemma ReversedIsPermutation(path: seq<nat>, i: nat, j: nat)
    requires 1 <= i < j < |path| && IsPermutation(path[1..], |path| - 1)
    ensures IsPermutation(Reversed(path, i, j)[1..], |path| - 1)
  {
    var n := |path| - 1;
    var s, t := path[1..], Reversed(path, i, j)[1..];
    forall k | 0 <= k < n
      ensures t[k] == s[if i <= k + 1 <= j then i + j - k - 2 else k]
    {
    }
    forall x | 0 <= x < n ensures x in t {
      assert x in s;
      var k :| 0 <= k < n && s[k] == x;
      assert t[if i <= k + 1 <= j then i + j - k - 2 else k] == x;
    }
  }

  lemma ReversedCompleteFirst(p: Plane, path: seq<nat>, i: nat, j: nat)
    requires IsPath(p, path) && 1 <= i < j < |path| && IsComplete(p.points[path[j]])
    requires CompleteFirst(p, path) && IsPath(p, Reversed(path, i, j))
    ensures CompleteFirst(p, Reversed(path, i, j))
  {
    var r := Reversed(path, i, j);
    forall a, b | 1 <= a < b < |r| && IsComplete(p.points[r[b]])
      ensures IsComplete(p.points[r[a]])
    {
      var a' := if i <= a <= j then i + j - a else a;
      assert r[a] == path[a'];
      if a' < j {
        assert IsComplete(p.points[path[a']]);
      } else if b > j {
        assert r[b] == path[b];
      }
    }
  }
}
