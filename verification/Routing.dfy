/** `route_index` and `route_suggestions`: nearest-neighbour construction, then
    2-opt by reversals in place. */
module Routing {
  import opened Prelude
  import opened RoutePaths

  lemma FromHolds(n: nat)
    ensures forall i :: 0 <= i < n ==> i in From(0, n)
  {
    forall i | 0 <= i < n ensures i in From(0, n) {
      assert From(0, n)[i] == i;
    }
  }

  // ---- The algorithm ----

  /** The fold over `left`: the first index at the least distance from `here`,
      or 0 when every distance is NaN. */
  method Nearest(p: Plane, here: nat, left: seq<nat>) returns (k: nat)
    requires here <= |p.points| && left != [] && forall m :: 0 <= m < |left| ==> left[m] < |p.points|
    ensures k < |left|
    ensures forall m :: 0 <= m < |left| ==> Nearer(p, here, left[k], left[m])
    ensures k > 0 ==> p.Edge(here, left[k]).Some?
    ensures forall t :: 0 <= t < k ==> p.Edge(here, left[t]) != p.Edge(here, left[k])
  {
    k := 0;
    var best: Distance := None;
    for m := 0 to |left|
      invariant k < |left|
      invariant best.None? ==> k == 0 && forall t :: 0 <= t < m ==> p.Edge(here, left[t]).None?
      invariant best.Some? ==> k < m && best == p.Edge(here, left[k])
      invariant best.Some? ==> forall t :: 0 <= t < m ==> !Less(p.Edge(here, left[t]), best)
      invariant best.Some? ==> forall t :: 0 <= t < k ==> p.Edge(here, left[t]) != best
    {
      var d := p.Edge(here, left[m]);
      if d.Some? && (best.None? || d.value < best.value) {
        k, best := m, d;
      }
    }
  }

  /** What is on the path and what is left, without repetition. */
  ghost predicate Splits(n: nat, path: seq<nat>, left: seq<nat>) {
    && |path| + |left| == n + 1
    && (forall k :: 0 <= k < |left| ==> left[k] < n && left[k] !in path)
    && (forall k, m :: 0 <= k < m < |left| ==> left[k] != left[m])
    && (forall k, m :: 0 <= k < m < |path| ==> path[k] != path[m])
    && forall i :: 0 <= i < n ==> i in path || i in left
  }

  function SwapRemove(left: seq<nat>, k: nat): seq<nat>
    requires k < |left|
  {
    var last := left[|left| - 1];
    left[k := last][..|left| - 1]
  }

  lemma SwapRemoveSplits(n: nat, path: seq<nat>, left: seq<nat>, k: nat)
    requires Splits(n, path, left) && k < |left|
    ensures Splits(n, path + [left[k]], SwapRemove(left, k))
    ensures forall x :: x in SwapRemove(left, k) ==> x in left
  {
    var rest, path' := SwapRemove(left, k), path + [left[k]];
    var end := |left| - 1;
    forall m | 0 <= m < |rest|
      ensures rest[m] == left[if m == k then end else m] && rest[m] != left[k]
    {
    }
    forall i | 0 <= i < n ensures i in path' || i in rest {
      if i !in path {
        var m :| 0 <= m < |left| && left[m] == i;
        if m == k {
          assert path'[|path|] == i;
        } else if m == end {
          assert rest[k] == i;
        } else {
          assert rest[m] == i;
        }
      } else {
        assert i in path';
      }
    }
  }

  /** Of what is left, one nearest the path's end is a complete point if any is. */
  lemma NearestIsComplete(p: Plane, path: seq<nat>, left: seq<nat>, k: nat)
    requires p.Routed() && IsPath(p, path) && k < |left|
    requires forall m :: 0 <= m < |left| ==> left[m] < |p.points|
    requires forall m :: 0 <= m < |left| ==> Nearer(p, path[|path| - 1], left[k], left[m])
    requires |path| == 1 ==> left[0] == 0 && (k > 0 ==>
               p.Edge(path[0], left[k]).Some? && p.Edge(path[0], left[0]) != p.Edge(path[0], left[k]))
    requires |path| > 1 && !IsComplete(p.points[path[|path| - 1]]) ==>
               forall m :: 0 <= m < |left| ==> !IsComplete(p.points[left[m]])
    ensures (exists m :: 0 <= m < |left| && IsComplete(p.points[left[m]])) ==> IsComplete(p.points[left[k]])
  {
    var here := path[|path| - 1];
    if m :| 0 <= m < |left| && IsComplete(p.points[left[m]]) {
      assert Nearer(p, here, left[k], left[m]);
      if |path| > 1 {
        SquaresDefined(p.points[here], p.points[left[m]]);
        SquaresDefined(p.points[here], p.points[left[k]]);
      } else if p.start.Some? {
        SquaresDefined(p.start.value, p.points[left[m]]);
        SquaresDefined(p.start.value, p.points[left[k]]);
      }
    }
  }

  /** What every step of the construction keeps. */
  ghost predicate Growing(p: Plane, path: seq<nat>, left: seq<nat>) {
    && IsPath(p, path) && Splits(|p.points|, path, left)
    && (|path| == 1 ==> left != [] && left[0] == 0)
    && Greedy(p, path)
    && (forall k, m :: 1 <= k < |path| && 0 <= m < |left| ==> Nearer(p, path[k - 1], path[k], left[m]))
    && (p.Routed() ==> CompleteFirst(p, path) && CompleteLeft(p, path, left))
  }

  /** While a complete point is left, the path holds complete points only. */
  ghost predicate CompleteLeft(p: Plane, path: seq<nat>, left: seq<nat>)
    requires IsPath(p, path) && forall m :: 0 <= m < |left| ==> left[m] < |p.points|
  {
    forall k, m :: 1 <= k < |path| && 0 <= m < |left| && IsComplete(p.points[left[m]]) ==>
      IsComplete(p.points[path[k]])
  }

  lemma GreedySnoc(p: Plane, path: seq<nat>, x: nat)
    requires IsPath(p, path) && Greedy(p, path) && x < |p.points|
    requires forall k :: 1 <= k < |path| ==> Nearer(p, path[k - 1], path[k], x)
    ensures IsPath(p, path + [x]) && Greedy(p, path + [x])
  {
  }

  lemma CompleteGrows(p: Plane, path: seq<nat>, left: seq<nat>, k: nat, rest: seq<nat>)
    requires IsPath(p, path) && k < |left| && forall m :: 0 <= m < |left| ==> left[m] < |p.points|
    requires CompleteFirst(p, path) && CompleteLeft(p, path, left)
    requires (exists m :: 0 <= m < |left| && IsComplete(p.points[left[m]])) ==> IsComplete(p.points[left[k]])
    requires forall m :: 0 <= m < |rest| ==> rest[m] in left
    ensures IsPath(p, path + [left[k]]) && CompleteFirst(p, path + [left[k]])
    ensures forall m :: 0 <= m < |rest| ==> rest[m] < |p.points|
    ensures CompleteLeft(p, path + [left[k]], rest)
  {
    forall m | 0 <= m < |rest|
      ensures rest[m] < |p.points|
      ensures IsComplete(p.points[rest[m]]) ==>
                IsComplete(p.points[left[k]]) && forall t :: 1 <= t < |path| ==> IsComplete(p.points[path[t]])
    {
      var t :| 0 <= t < |left| && left[t] == rest[m];
    }
  }

  lemma CompleteSnoc(p: Plane, path: seq<nat>, left: seq<nat>, k: nat)
    requires p.Routed() && Growing(p, path, left) && k < |left|
    requires forall m :: 0 <= m < |left| ==> Nearer(p, path[|path| - 1], left[k], left[m])
    requires k > 0 ==> p.Edge(path[|path| - 1], left[k]).Some?
                       && p.Edge(path[|path| - 1], left[0]) != p.Edge(path[|path| - 1], left[k])
    ensures IsPath(p, path + [left[k]]) && CompleteFirst(p, path + [left[k]])
    ensures Splits(|p.points|, path + [left[k]], SwapRemove(left, k))
    ensures CompleteLeft(p, path + [left[k]], SwapRemove(left, k))
  {
    NearestIsComplete(p, path, left, k);
    SwapRemoveSplits(|p.points|, path, left, k);
    CompleteGrows(p, path, left, k, SwapRemove(left, k));
  }

  lemma GrowingStep(p: Plane, path: seq<nat>, left: seq<nat>, k: nat)
    requires Growing(p, path, left) && k < |left|
    requires forall m :: 0 <= m < |left| ==> Nearer(p, path[|path| - 1], left[k], left[m])
    requires k > 0 ==> p.Edge(path[|path| - 1], left[k]).Some?
                       && p.Edge(path[|path| - 1], left[0]) != p.Edge(path[|path| - 1], left[k])
    ensures Growing(p, path + [left[k]], SwapRemove(left, k))
  {
    var path', rest := path + [left[k]], SwapRemove(left, k);
    SwapRemoveSplits(|p.points|, path, left, k);
    GreedySnoc(p, path, left[k]);
    forall t, m | 1 <= t < |path'| && 0 <= m < |rest| ensures Nearer(p, path'[t - 1], path'[t], rest[m]) {
      assert rest[m] in left;
      var u :| 0 <= u < |left| && left[u] == rest[m];
      if t < |path| {
        assert Nearer(p, path[t - 1], path[t], left[u]);
      }
    }
    if p.Routed() {
      CompleteSnoc(p, path, left, k);
    }
  }

  /** The first of the points nearest the start. */
  ghost predicate FirstNearest(p: Plane, a: nat) {
    && a < |p.points|
    && (forall b: nat :: b < |p.points| ==> Nearer(p, |p.points|, a, b))
    && forall b: nat :: b < a ==> p.Edge(|p.points|, b) != p.Edge(|p.points|, a)
  }

  /** The first stop taken was the first of the nearest. */
  ghost predicate StartsNearest(p: Plane, path: seq<nat>, left: seq<nat>) {
    if |path| == 1 then left == From(0, |p.points|) && path[0] == |p.points|
    else |path| > 1 && FirstNearest(p, path[1])
  }

  lemma StartsNearestStep(p: Plane, path: seq<nat>, left: seq<nat>, k: nat)
    requires StartsNearest(p, path, left) && k < |left|
    requires path[|path| - 1] <= |p.points| && forall m :: 0 <= m < |left| ==> left[m] < |p.points|
    requires forall m :: 0 <= m < |left| ==> Nearer(p, path[|path| - 1], left[k], left[m])
    requires forall t :: 0 <= t < k ==> p.Edge(path[|path| - 1], left[t]) != p.Edge(path[|path| - 1], left[k])
    ensures StartsNearest(p, path + [left[k]], SwapRemove(left, k))
  {
    if |path| == 1 {
      forall b: nat | b < |p.points| ensures Nearer(p, |p.points|, k, b) {
        assert Nearer(p, |p.points|, left[k], left[b]);
      }
      forall b: nat | b < k ensures p.Edge(|p.points|, b) != p.Edge(|p.points|, k) {
        assert p.Edge(|p.points|, left[b]) != p.Edge(|p.points|, left[k]);
      }
    }
  }

  /** A path the nearest-neighbour phase may end with. */
  ghost predicate NearestPath(p: Plane, path: seq<nat>) {
    IsPath(p, path) && |path| == |p.points| + 1 && IsPermutation(path[1..], |p.points|) && Greedy(p, path)
    && |path| >= 2 && FirstNearest(p, path[1])
  }

  /** When nothing is left. */
  lemma GrownUp(p: Plane, path: seq<nat>)
    requires |p.points| >= 2 && Growing(p, path, []) && StartsNearest(p, path, [])
    ensures NearestPath(p, path) && (p.Routed() ==> CompleteFirst(p, path))
  {
    var order := path[1..];
    forall i | 0 <= i < |p.points| ensures i in order {
      assert i in path && i != path[0];
    }
    assert forall k :: 0 <= k < |order| ==> order[k] == path[k + 1];
  }

  method NearestNeighbour(p: Plane) returns (path: seq<nat>)
    requires |p.points| >= 2
    ensures NearestPath(p, path) && (p.Routed() ==> CompleteFirst(p, path))
  {
    var n := |p.points|;
    path := [n];
    var left := From(0, n);
    FromHolds(n);
    while left != []
      invariant Growing(p, path, left) && StartsNearest(p, path, left)
      decreases |left|
    {
      var k := Nearest(p, path[|path| - 1], left);
      GrowingStep(p, path, left, k);
      StartsNearestStep(p, path, left, k);
      path := path + [left[k]];
      left := SwapRemove(left, k);
    }
    GrownUp(p, path);
  }

  method ReverseSegment(a: array<nat>, i: nat, j: nat)
    requires i <= j < a.Length
    modifies a
    ensures a[..] == Reversed(old(a[..]), i, j)
  {
    var lo, hi := i, j;
    while lo < hi
      invariant i <= lo <= hi + 1 && hi <= j && lo + hi == i + j
      invariant forall k :: 0 <= k < a.Length ==>
                  a[k] == if i <= k < lo || hi < k <= j then old(a[i + j - k]) else old(a[k])
    {
      a[lo], a[hi] := a[hi], a[lo];
      lo, hi := lo + 1, hi - 1;
    }
  }

  /** A segment ending at an incomplete point is never reversed: one of its
      edges is NaN, or with no start both are free. */
  lemma ImprovementEndsComplete(p: Plane, path: seq<nat>, i: nat, j: nat)
    requires p.Routed() && IsPath(p, path) && 1 <= i < j < |path| && Improves(p, path, i, j)
    ensures IsComplete(p.points[path[j]])
  {
    if j + 1 < |path| {
      SquaresDefined(p.points[path[j]], p.points[path[j + 1]]);
    } else if i > 1 {
      SquaresDefined(p.points[path[i - 1]], p.points[path[j]]);
    } else if p.start.Some? {
      SquaresDefined(p.start.value, p.points[path[j]]);
    }
  }

  /** What every step of 2-opt keeps. */
  ghost predicate Tour(p: Plane, path: seq<nat>) {
    && IsPath(p, path) && |path| == |p.points| + 1
    && IsPermutation(path[1..], |p.points|)
    && (p.Routed() ==> CompleteFirst(p, path))
  }

  lemma ReversedTour(p: Plane, path: seq<nat>, i: nat, j: nat)
    requires Tour(p, path) && 1 <= i < j < |path| && Improves(p, path, i, j)
    ensures Tour(p, Reversed(path, i, j))
    ensures Total(p, Reversed(path, i, j)) + EPSILON < Total(p, path)
  {
    ImprovesIff(p, path, i, j);
    ReversedIsPermutation(path, i, j);
    if p.Routed() {
      ImprovementEndsComplete(p, path, i, j);
      ReversedCompleteFirst(p, path, i, j);
    }
  }

  /** Since `before`, the path was shortened, or is untouched. */
  ghost predicate Shortened(p: Plane, before: seq<nat>, path: seq<nat>, improved: bool) {
    && Tour(p, before) && Tour(p, path)
    && (if improved then Total(p, path) + EPSILON < Total(p, before) else path == before)
  }

  /** No segment before `(i, j)` in the order of the sweep improves the path. */
  ghost predicate OptimalUpTo(p: Plane, path: seq<nat>, i: nat, j: nat)
    requires IsPath(p, path)
  {
    forall k, m :: 1 <= k < m < |path| && (k < i || (k == i && m < j)) ==> !Improves(p, path, k, m)
  }

  // ---- When the first stop stays ----

  /** No other stop `b` makes a first stop that pays, be it put last or before
      another stop `c`. */
  ghost predicate Anchored(p: Plane, a: nat)
    requires a < |p.points|
  {
    var n := |p.points|;
    && (forall b :: 0 <= b < n && b != a ==> !Less(Plus(p.Edge(n, b), Some(EPSILON)), p.Edge(n, a)))
    && forall b, c :: 0 <= b < n && 0 <= c < n && b != a && c != a && b != c ==> !Swaps(p, a, b, c)
  }

  /** Reversing `a .. b` pays where `a` comes first and `c` after `b`. */
  predicate Swaps(p: Plane, a: nat, b: nat, c: nat)
    requires a < |p.points| && b < |p.points| && c < |p.points|
  {
    Less(Plus(Plus(p.Edge(|p.points|, b), p.Edge(a, c)), Some(EPSILON)), Plus(p.Edge(|p.points|, a), p.Edge(b, c)))
  }

  /** A path over all points that begins at `a`. */
  ghost predicate BeginsAt(p: Plane, path: seq<nat>, a: nat) {
    IsPath(p, path) && |path| == |p.points| + 1 >= 2 && IsPermutation(path[1..], |p.points|) && path[1] == a
  }

  lemma AnchoredStays(p: Plane, path: seq<nat>, a: nat, j: nat)
    requires BeginsAt(p, path, a) && 1 < j < |path| && Anchored(p, a)
    ensures !Improves(p, path, 1, j)
  {
    assert path[1..][0] == a && path[1..][j - 1] == path[j];
    if j + 1 < |path| {
      assert path[1..][j] == path[j + 1];
      assert !Swaps(p, a, path[j], path[j + 1]);
    }
  }

  /** The permutation with `x` moved to place `k`, in exchange for what is there. */
  lemma Placed(order: seq<nat>, n: nat, k: nat, x: nat) returns (order': seq<nat>)
    requires IsPermutation(order, n) && k < n && x < n
    ensures IsPermutation(order', n) && order'[k] == x
    ensures forall m :: 0 <= m < n && m != k && order[m] != x ==> order'[m] == order[m]
  {
    assert x in order;
    var at :| 0 <= at < n && order[at] == x;
    order' := order[at := order[k]][k := x];
    forall i | 0 <= i < n ensures i in order' {
      assert i in order;
      var m :| 0 <= m < n && order[m] == i;
      assert order'[if m == at then k else if m == k then at else m] == i;
    }
  }

  lemma TourOf(p: Plane, order: seq<nat>) returns (path: seq<nat>)
    requires IsPermutation(order, |p.points|) && |p.points| >= 1
    ensures path == [|p.points|] + order && BeginsAt(p, path, order[0])
  {
    path := [|p.points|] + order;
    assert path[1..] == order;
  }

  lemma Identity(n: nat)
    ensures IsPermutation(From(0, n), n)
  {
    FromHolds(n);
  }

  /** Exactly the stops that no reversal can move from first place, whatever
      the rest of the path. */
  lemma AnchoredIff(p: Plane, a: nat)
    requires a < |p.points|
    ensures Anchored(p, a) <==> forall path, j :: BeginsAt(p, path, a) && 1 < j < |path| ==> !Improves(p, path, 1, j)
  {
    var n := |p.points|;
    if Anchored(p, a) {
      forall path, j | BeginsAt(p, path, a) && 1 < j < |path| ensures !Improves(p, path, 1, j) {
        AnchoredStays(p, path, a, j);
      }
    } else {
      Identity(n);
      var order := Placed(From(0, n), n, 0, a);
      if b :| 0 <= b < n && b != a && Less(Plus(p.Edge(n, b), Some(EPSILON)), p.Edge(n, a)) {
        order := Placed(order, n, n - 1, b);
        var path := TourOf(p, order);
        assert Improves(p, path, 1, n);
      } else {
        var b, c :| 0 <= b < n && 0 <= c < n && b != a && c != a && b != c && Swaps(p, a, b, c);
        ThreeStops(n, a, b, c);
        order := Placed(order, n, 1, b);
        order := Placed(order, n, 2, c);
        var path := TourOf(p, order);
        assert Improves(p, path, 1, 2);
      }
    }
  }

  lemma ThreeStops(n: nat, a: nat, b: nat, c: nat)
    requires a < n && b < n && c < n && a != b && a != c && b != c
    ensures n >= 3
  {
  }

  /** An anchored first stop is still the first. */
  ghost predicate KeepsFirst(p: Plane, before: seq<nat>, path: seq<nat>) {
    |before| >= 2 && |path| >= 2 && before[1] < |p.points| && (Anchored(p, before[1]) ==> path[1] == before[1])
  }

  lemma ReversalKeepsFirst(p: Plane, path: seq<nat>, i: nat, j: nat)
    requires Tour(p, path) && 1 <= i < j < |path| && Improves(p, path, i, j)
    ensures KeepsFirst(p, path, Reversed(path, i, j))
  {
    if i == 1 && Anchored(p, path[1]) {
      AnchoredStays(p, path, path[1], j);
    }
  }

  /** Reverse `path[i..=j]` if that pays. */
  method TrySegment(p: Plane, path: array<nat>, i: nat, j: nat) returns (reversed: bool)
    requires 1 <= i < j < path.Length && Tour(p, path[..])
    modifies path
    ensures Tour(p, path[..]) && reversed == Improves(p, old(path[..]), i, j)
    ensures path[..] == if reversed then Reversed(old(path[..]), i, j) else old(path[..])
    ensures reversed ==> Total(p, path[..]) + EPSILON < Total(p, old(path[..]))
    ensures KeepsFirst(p, old(path[..]), path[..])
  {
    reversed := Improves(p, path[..], i, j);
    if reversed {
      ReversedTour(p, path[..], i, j);
      ReversalKeepsFirst(p, path[..], i, j);
      ReverseSegment(path, i, j);
    }
  }

  lemma SweepStep(p: Plane, before: seq<nat>, path: seq<nat>, path': seq<nat>, i: nat, j: nat, improved: bool)
    requires 1 <= i < j < |path| && Shortened(p, before, path, improved)
    requires !improved ==> OptimalUpTo(p, path, i, j)
    requires Tour(p, path')
    requires if Improves(p, path, i, j) then Total(p, path') + EPSILON < Total(p, path) else path' == path
    ensures Shortened(p, before, path', improved || Improves(p, path, i, j))
    ensures !improved && !Improves(p, path, i, j) ==> OptimalUpTo(p, path', i, j + 1)
  {
  }

  /** One pass over all segments: it shortens the path, or finds it optimal. */
  method Sweep(p: Plane, path: array<nat>) returns (improved: bool)
    requires Tour(p, path[..]) && path.Length >= 2
    modifies path
    ensures Shortened(p, old(path[..]), path[..], improved)
    ensures !improved ==> LocallyOptimal(p, path[..])
    ensures KeepsFirst(p, old(path[..]), path[..])
  {
    improved := false;
    var i := 1;
    while i < path.Length - 1
      invariant 1 <= i
      invariant Shortened(p, old(path[..]), path[..], improved)
      invariant KeepsFirst(p, old(path[..]), path[..])
      invariant !improved ==> OptimalUpTo(p, path[..], i, 0)
    {
      var j := i + 1;
      while j < path.Length
        invariant i < j <= path.Length
        invariant Shortened(p, old(path[..]), path[..], improved)
        invariant KeepsFirst(p, old(path[..]), path[..])
        invariant !improved ==> OptimalUpTo(p, path[..], i, j)
      {
        ghost var was := path[..];
        var reversed := TrySegment(p, path, i, j);
        SweepStep(p, old(path[..]), was, path[..], i, j, improved);
        improved := improved || reversed;
        j := j + 1;
      }
      i := i + 1;
    }
  }

  /** How many times the path can still be shortened. */
  ghost function Slack(p: Plane, path: seq<nat>): int
    requires path != [] && forall m :: 0 <= m < |path| ==> path[m] <= |p.points|
  {
    (Total(p, path) / EPSILON).Floor
  }

  lemma SlackFalls(p: Plane, path: seq<nat>, shorter: seq<nat>)
    requires IsPath(p, path) && IsPath(p, shorter) && p.Valid()
    requires Total(p, shorter) + EPSILON < Total(p, path)
    ensures 0 <= Slack(p, shorter) < Slack(p, path)
  {
    LengthNonNegative(p, shorter, |shorter| - 1);
    var x, y := Total(p, shorter) / EPSILON, Total(p, path) / EPSILON;
    assert x + 1.0 < y;
  }

  method TwoOpt(p: Plane, path: array<nat>)
    requires p.Valid() && Tour(p, path[..]) && path.Length >= 2
    modifies path
    ensures Tour(p, path[..]) && LocallyOptimal(p, path[..])
    ensures Total(p, path[..]) <= Total(p, old(path[..])) && KeepsFirst(p, old(path[..]), path[..])
  {
    var improved := true;
    while improved
      invariant Tour(p, path[..]) && KeepsFirst(p, old(path[..]), path[..])
      invariant Total(p, path[..]) <= Total(p, old(path[..]))
      invariant !improved ==> LocallyOptimal(p, path[..])
      decreases Slack(p, path[..]), improved
    {
      ghost var before := path[..];
      improved := Sweep(p, path);
      if improved {
        SlackFalls(p, before, path[..]);
      }
    }
  }

  lemma FirstNearestIsOne(p: Plane, a: nat, b: nat)
    requires FirstNearest(p, a) && FirstNearest(p, b)
    ensures a == b
  {
    assert Nearer(p, |p.points|, a, b) && Nearer(p, |p.points|, b, a);
  }

  /** What is promised of the route over two points or more. */
  ghost predicate IsRoute(p: Plane, order: seq<nat>) {
    && p.points != [] && IsPermutation(order, |p.points|) && IsPath(p, [|p.points|] + order)
    && (exists nn :: NearestPath(p, nn) && Total(p, [|p.points|] + order) <= Total(p, nn))
    && LocallyOptimal(p, [|p.points|] + order)
    && (p.Routed() ==> CompleteFirst(p, [|p.points|] + order))
    && (forall a :: FirstNearest(p, a) && Anchored(p, a) ==> order[0] == a)
  }

  method RouteIndex(p: Plane) returns (order: seq<nat>)
    requires p.Valid()
    ensures if |p.points| < 2 then order == From(0, |p.points|) else IsRoute(p, order)
  {
    var n := |p.points|;
    if n < 2 {
      FromHolds(n);
      return From(0, n);
    }
    var greedy := NearestNeighbour(p);
    var path := new nat[n + 1](i requires 0 <= i < n + 1 => greedy[i]);
    assert path[..] == greedy;
    TwoOpt(p, path);
    order := path[1..];
    IsRouteOf(p, greedy, path[..]);
  }

  lemma IsRouteOf(p: Plane, nn: seq<nat>, path: seq<nat>)
    requires |p.points| >= 2 && NearestPath(p, nn) && Tour(p, path) && LocallyOptimal(p, path)
    requires Total(p, path) <= Total(p, nn) && KeepsFirst(p, nn, path)
    ensures IsRoute(p, path[1..])
  {
    var order := path[1..];
    assert [|p.points|] + order == path;
    forall a | FirstNearest(p, a) && Anchored(p, a) ensures order[0] == a {
      FirstNearestIsOne(p, a, nn[1]);
    }
  }

  /** A route does not begin where no locally optimal path does. */
  lemma OnlyOptimalStarts(p: Plane, order: seq<nat>, a: nat)
    requires IsRoute(p, order)
    requires forall path :: BeginsAt(p, path, a) ==> !LocallyOptimal(p, path)
    ensures order[0] != a
  {
    var path := TourOf(p, order);
  }

  // ---- Suggestions ----

  datatype Param = Number(value: real) | Other

  datatype Suggestion = Suggestion(id: string, params: map<string, Param>)

  predicate HasNumber(params: map<string, Param>, dim: string) {
    dim in params && params[dim].Number?
  }

  function Coordinates(dims: seq<string>, params: map<string, Param>): (r: Point)
    ensures |r| == |dims|
    ensures IsComplete(r) <==> forall c :: 0 <= c < |dims| ==> HasNumber(params, dims[c])
    ensures forall c, v :: 0 <= c < |dims| ==> (r[c] == Some(v) <==> dims[c] in params && params[dims[c]] == Number(v))
  {
    var r := seq(|dims|, c requires 0 <= c < |dims| =>
      if HasNumber(params, dims[c]) then Some(params[dims[c]].value) else None);
    assert forall c :: 0 <= c < |dims| ==> (r[c].Some? <==> HasNumber(params, dims[c]));
    r
  }

  /** The suggestion has a number in every dimension routed over: those in
      which `first` has one. */
  ghost predicate Locates(first: Suggestion, s: Suggestion) {
    forall dim :: HasNumber(first.params, dim) ==> HasNumber(s.params, dim)
  }

  /** `routed` takes each of `suggestions` once, in the order `order` says. */
  ghost predicate Reorders(routed: seq<Suggestion>, suggestions: seq<Suggestion>, order: seq<nat>) {
    && IsPermutation(order, |suggestions|) && |routed| == |suggestions|
    && forall k :: 0 <= k < |routed| ==> routed[k] == suggestions[order[k]]
  }

  /** `dims` are the keys with a number in `params`, each once. */
  ghost predicate AreDims(dims: seq<string>, params: map<string, Param>) {
    && (forall dim :: dim in dims <==> HasNumber(params, dim))
    && forall c, d :: 0 <= c < d < |dims| ==> dims[c] != dims[d]
  }

  function PlaneOver(dims: seq<string>, suggestions: seq<Suggestion>, start: Option<map<string, Param>>, root: real -> real): Plane {
    Plane(seq(|suggestions|, k requires 0 <= k < |suggestions| => Coordinates(dims, suggestions[k].params)),
          if start.Some? then Some(Coordinates(dims, start.value)) else None, root)
  }

  /** The plane has each suggestion's numbers in the dimensions routed over, and
      the start's. */
  lemma PlaneIs(dims: seq<string>, suggestions: seq<Suggestion>, start: Option<map<string, Param>>, root: real -> real)
    ensures var p := PlaneOver(dims, suggestions, start, root);
            && |p.points| == |suggestions| && p.root == root && p.start.Some? == start.Some?
            && (forall k :: 0 <= k < |suggestions| ==> |p.points[k]| == |dims|)
            && (forall k, c, v :: 0 <= k < |suggestions| && 0 <= c < |dims| ==>
                  (p.points[k][c] == Some(v) <==>
                    dims[c] in suggestions[k].params && suggestions[k].params[dims[c]] == Number(v)))
            && (start.Some? ==> |p.start.value| == |dims| && forall c, v :: 0 <= c < |dims| ==>
                  (p.start.value[c] == Some(v) <==> dims[c] in start.value && start.value[dims[c]] == Number(v)))
  {
  }

  /** The suggestions along a route over the dimensions of the first one. */
  ghost predicate AlongRoute(routed: seq<Suggestion>, suggestions: seq<Suggestion>, dims: seq<string>,
                             start: Option<map<string, Param>>, root: real -> real, order: seq<nat>) {
    && suggestions != [] && AreDims(dims, suggestions[0].params)
    && IsRoute(PlaneOver(dims, suggestions, start, root), order) && Reorders(routed, suggestions, order)
  }

  method RouteSuggestions(suggestions: seq<Suggestion>, start: Option<map<string, Param>>, root: real -> real)
    returns (routed: seq<Suggestion>)
    requires forall x :: x >= 0.0 ==> root(x) >= 0.0
    ensures exists order :: Reorders(routed, suggestions, order)
    ensures |suggestions| < 2 ==> routed == suggestions
    ensures |suggestions| >= 2 ==>
      if exists dim :: HasNumber(suggestions[0].params, dim) then
        && (exists dims, order :: AlongRoute(routed, suggestions, dims, start, root, order))
        && forall a, b :: 0 <= a < b < |routed| && Locates(suggestions[0], routed[b]) ==> Locates(suggestions[0], routed[a])
      else routed == suggestions
  {
    var n := |suggestions|;
    FromHolds(n);
    assert Reorders(suggestions, suggestions, From(0, n));
    if n < 2 {
      return suggestions;
    }
    var dims := NumericKeys(suggestions[0].params);
    if dims == [] {
      assert forall dim :: HasNumber(suggestions[0].params, dim) ==> dim in dims;
      return suggestions;
    }
    assert HasNumber(suggestions[0].params, dims[0]);
    var p := PlaneOver(dims, suggestions, start, root);
    var route := RouteIndex(p);
    routed := TakeSlots(suggestions, route);
    assert Reorders(routed, suggestions, route);
    assert AlongRoute(routed, suggestions, dims, start, root, route);
    IncompleteLast(routed, suggestions, dims, start, root, route);
  }

  method NumericKeys(params: map<string, Param>) returns (dims: seq<string>)
    ensures AreDims(dims, params)
  {
    dims := [];
    var keys := params.Keys;
    while keys != {}
      invariant keys <= params.Keys
      invariant forall dim :: dim in dims <==> HasNumber(params, dim) && dim !in keys
      invariant forall c, d :: 0 <= c < d < |dims| ==> dims[c] != dims[d]
    {
      var key :| key in keys;
      if params[key].Number? {
        dims := dims + [key];
      }
      keys := keys - {key};
    }
  }

  /** Each slot is full when it is taken: the `expect` never fires. */
  method TakeSlots(suggestions: seq<Suggestion>, route: seq<nat>) returns (routed: seq<Suggestion>)
    requires IsPermutation(route, |suggestions|)
    ensures |routed| == |suggestions|
    ensures forall k :: 0 <= k < |routed| ==> routed[k] == suggestions[route[k]]
  {
    var n := |suggestions|;
    var slots: seq<Option<Suggestion>> := seq(n, k requires 0 <= k < n => Some(suggestions[k]));
    routed := [];
    for k := 0 to n
      invariant |routed| == k && |slots| == n
      invariant forall m :: 0 <= m < k ==> routed[m] == suggestions[route[m]]
      invariant forall m :: k <= m < n ==> slots[route[m]] == Some(suggestions[route[m]])
    {
      assert slots[route[k]].Some?;
      routed := routed + [slots[route[k]].value];
      slots := slots[route[k] := None];
    }
  }

  lemma DimsLocate(dims: seq<string>, first: Suggestion, s: Suggestion)
    requires AreDims(dims, first.params)
    ensures IsComplete(Coordinates(dims, s.params)) <==> Locates(first, s)
  {
    assert forall c :: 0 <= c < |dims| ==> dims[c] in dims;
  }

  lemma PlaneIsRouted(dims: seq<string>, suggestions: seq<Suggestion>, start: Option<map<string, Param>>, root: real -> real)
    requires suggestions != [] && AreDims(dims, suggestions[0].params) && dims != []
    ensures PlaneOver(dims, suggestions, start, root).Routed()
  {
    DimsLocate(dims, suggestions[0], suggestions[0]);
  }

  lemma LocatedFirst(p: Plane, routed: seq<Suggestion>, suggestions: seq<Suggestion>, order: seq<nat>)
    requires suggestions != [] && Reorders(routed, suggestions, order) && |p.points| == |suggestions|
    requires forall k :: 0 <= k < |suggestions| ==> (IsComplete(p.points[k]) <==> Locates(suggestions[0], suggestions[k]))
    requires IsPath(p, [|p.points|] + order) && CompleteFirst(p, [|p.points|] + order)
    ensures forall a, b :: 0 <= a < b < |routed| && Locates(suggestions[0], routed[b]) ==> Locates(suggestions[0], routed[a])
  {
    var path := [|p.points|] + order;
    forall a, b | 0 <= a < b < |routed| && Locates(suggestions[0], routed[b])
      ensures Locates(suggestions[0], routed[a])
    {
      assert path[a + 1] == order[a] && path[b + 1] == order[b];
    }
  }

  /** What lacks a number in one of the dimensions comes after all the rest. */
  lemma IncompleteLast(routed: seq<Suggestion>, suggestions: seq<Suggestion>, dims: seq<string>,
                       start: Option<map<string, Param>>, root: real -> real, order: seq<nat>)
    requires AlongRoute(routed, suggestions, dims, start, root, order) && dims != []
    ensures forall a, b :: 0 <= a < b < |routed| && Locates(suggestions[0], routed[b]) ==> Locates(suggestions[0], routed[a])
  {
    var p := PlaneOver(dims, suggestions, start, root);
    PlaneIsRouted(dims, suggestions, start, root);
    forall k | 0 <= k < |suggestions| ensures IsComplete(p.points[k]) <==> Locates(suggestions[0], suggestions[k]) {
      DimsLocate(dims, suggestions[0], suggestions[k]);
    }
    LocatedFirst(p, routed, suggestions, order);
  }

  /** The documented start is not kept: here the first point is strictly the
      nearest to the start, and no path beginning with it is locally optimal. */
  lemma PathMayNotStartNearest(root: real -> real, order: seq<nat>)
    requires root(1.0) == 1.0 && root(4.0) == 2.0 && root(9.0) == 3.0
    requires root(81.0) == 9.0 && root(100.0) == 10.0 && root(144.0) == 12.0
    requires IsPermutation(order, 3) && order[0] == 0
    ensures var p := Plane([[Some(1.0)], [Some(-2.0)], [Some(10.0)]], Some([Some(0.0)]), root);
            && IsPath(p, [3] + order)
            && Less(p.Edge(3, 0), p.Edge(3, 1)) && Less(p.Edge(3, 0), p.Edge(3, 2))
            && !LocallyOptimal(p, [3] + order)
  {
    var p := Plane([[Some(1.0)], [Some(-2.0)], [Some(10.0)]], Some([Some(0.0)]), root);
    OnLine(p, p.start.value, p.points[0], 0.0, 1.0);
    OnLine(p, p.start.value, p.points[1], 0.0, -2.0);
    OnLine(p, p.start.value, p.points[2], 0.0, 10.0);
    OnLine(p, p.points[0], p.points[1], 1.0, -2.0);
    OnLine(p, p.points[0], p.points[2], 1.0, 10.0);
    OnLine(p, p.points[1], p.points[2], -2.0, 10.0);
    EdgeSymmetric(p, 1, 2);
    var path := [3] + order;
    assert path[1] == order[0] && path[2] == order[1] && path[3] == order[2];
    if order[1] == 1 {
      assert order[2] == 2;
      assert Improves(p, path, 1, 2);
    } else {
      assert order[1] == 2 && order[2] == 1;
      assert Improves(p, path, 2, 3);
    }
  }

  lemma OnLine(p: Plane, a: Point, b: Point, x: real, y: real)
    requires a == [Some(x)] && b == [Some(y)]
    ensures p.Apart(a, b) == Some(p.root(Square(x - y)))
  {
    assert |a| == 1 && |b| == 1 && a[0] == Some(x) && b[0] == Some(y);
    assert a[1..] == [] && b[1..] == [];
    assert SquaresTo(a[1..], b[1..]) == Some(0.0);
    assert a != [] && b != [];
    assert SquaresTo(a, b) == Plus(Some(Square(x - y)), SquaresTo(a[1..], b[1..]));
  }
}
