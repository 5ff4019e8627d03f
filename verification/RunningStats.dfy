/** Running statistics against the two-pass ones, over exact reals. */
module Statistics {
  import opened Prelude

  /** A finite value, or NaN or an infinity. */
  datatype Observation = Finite(value: real) | NotFinite

  /** `min` and `max` are `None` for the infinities before the first value. */
  datatype Stats = Stats(count: nat, min: Option<real>, max: Option<real>, mean: real, m2: real) {
    function Update(o: Observation): Stats {
      if o.NotFinite? then this
      else
        var x := o.value;
        var delta := x - mean;
        var mean' := mean + delta / (count + 1) as real;
        Stats(count + 1,
              Some(if min.Some? && min.value < x then min.value else x),
              Some(if max.Some? && max.value > x then max.value else x),
              mean', m2 + delta * (x - mean'))
    }

    /** What the deviation is the root of. */
    function Square(): real
      requires count >= 2
    {
      m2 / (count - 1) as real
    }

    function Updated(os: seq<Observation>): Stats {
      if os == [] then this else Updated(os[..|os| - 1]).Update(os[|os| - 1])
    }
  }

  const NO_STATS := Stats(0, None, None, 0.0, 0.0)

  class RunningStats {
    var count: nat
    var min: Option<real>
    var max: Option<real>
    var mean: real
    var m2: real

    function View(): Stats
      reads this
    {
      Stats(count, min, max, mean, m2)
    }

    constructor ()
      ensures View() == NO_STATS
    {
      count, min, max, mean, m2 := 0, None, None, 0.0, 0.0;
    }

    method Update(o: Observation)
      modifies this
      ensures View() == old(View()).Update(o)
    {
      if o.NotFinite? {
        return;
      }
      ghost var after := View().Update(o);
      var x := o.value;
      count := count + 1;
      min := Some(if min.Some? && min.value < x then min.value else x);
      max := Some(if max.Some? && max.value > x then max.value else x);
      var delta := x - mean;
      mean := mean + delta / count as real;
      assert mean == after.mean;
      var rest := x - mean;
      assert rest == x - after.mean;
      m2 := m2 + delta * rest;
      assert m2 == after.m2;
    }

    /** The mean of the finite values among the observations taken in. */
    method Mean(ghost os: seq<Observation>) returns (m: Option<real>)
      requires View() == NO_STATS.Updated(os)
      ensures m == if Values(os) == [] then None else Some(MeanOf(Values(os)))
    {
      RunningIsTwoPass(os);
      m := if count > 0 then Some(mean) else None;
    }

    /** The deviation of the finite values among the observations taken in, from
        two on; `root` is the square root. */
    method Std(root: real -> real, ghost os: seq<Observation>) returns (std: Option<real>)
      requires View() == NO_STATS.Updated(os)
      requires count >= 2 ==> TakesRoot(root, View().Square())
      ensures std.None? <==> |Values(os)| < 2
      ensures std.Some? ==> IsDeviation(std.value, Values(os))
    {
      StdIs(View(), root, os);
      std := if count < 2 then None else Some(root(m2 / (count - 1) as real));
    }
  }

  predicate TakesRoot(root: real -> real, square: real) {
    square >= 0.0 ==> root(square) >= 0.0 && root(square) * root(square) == square
  }

  /** Squared and times count less one it is the sum of the squared deviations
      from the mean. */
  predicate IsDeviation(std: real, xs: seq<real>) {
    |xs| >= 2 && IsSpread(std, |xs| - 1, Deviations(xs, MeanOf(xs)))
  }

  predicate IsSpread(std: real, n: nat, m2: real) {
    std >= 0.0 && std * std * n as real == m2
  }

  lemma StdIs(s: Stats, root: real -> real, os: seq<Observation>)
    requires s == NO_STATS.Updated(os)
    requires s.count >= 2 ==> TakesRoot(root, s.Square())
    ensures |Values(os)| == s.count
    ensures s.count >= 2 ==> IsDeviation(root(s.Square()), Values(os))
  {
    RunningIsTwoPass(os);
    if s.count >= 2 {
      RootIs(s, root);
    }
  }

  lemma RootIs(s: Stats, root: real -> real)
    requires s.count >= 2 && s.m2 >= 0.0 && TakesRoot(root, s.Square())
    ensures IsSpread(root(s.Square()), s.count - 1, s.m2)
  {
    var n := (s.count - 1) as real;
    RootTimes(s.m2, n, s.Square(), root(s.Square()));
  }

  lemma RootTimes(m2: real, n: real, square: real, r: real)
    requires m2 >= 0.0 && n > 0.0 && square == m2 / n && (square >= 0.0 ==> r >= 0.0 && r * r == square)
    ensures r >= 0.0 && r * r * n == m2
  {
    assert square * n == m2;
    assert square >= 0.0;
  }

  // ---- The two-pass statistics ----

  function Values(os: seq<Observation>): seq<real> {
    if os == [] then []
    else Values(os[..|os| - 1]) + if os[|os| - 1].Finite? then [os[|os| - 1].value] else []
  }

  function Sum(xs: seq<real>): real {
    if xs == [] then 0.0 else Sum(xs[..|xs| - 1]) + xs[|xs| - 1]
  }

  /** The sum of the deviations from `a`: zero for the mean. */
  function Balance(xs: seq<real>, a: real): real {
    if xs == [] then 0.0 else Balance(xs[..|xs| - 1], a) + (xs[|xs| - 1] - a)
  }

  /** The sum of the products of `d` with the deviations from `a`. */
  function Cross(xs: seq<real>, a: real, d: real): real {
    if xs == [] then 0.0 else Cross(xs[..|xs| - 1], a, d) + d * (xs[|xs| - 1] - a)
  }

  /** `d` for each value. */
  function Repeated(xs: seq<real>, d: real): real {
    if xs == [] then 0.0 else Repeated(xs[..|xs| - 1], d) + d
  }

  /** The sum of squared deviations from `a`. */
  function Deviations(xs: seq<real>, a: real): real {
    if xs == [] then 0.0
    else Deviations(xs[..|xs| - 1], a) + (xs[|xs| - 1] - a) * (xs[|xs| - 1] - a)
  }

  function MeanOf(xs: seq<real>): real
    requires xs != []
  {
    Sum(xs) / |xs| as real
  }

  ghost predicate IsMin(xs: seq<real>, m: real) {
    m in xs && forall x :: x in xs ==> m <= x
  }

  ghost predicate IsMax(xs: seq<real>, m: real) {
    m in xs && forall x :: x in xs ==> x <= m
  }

  lemma {:induction false} BalanceShifts(xs: seq<real>, a: real, d: real)
    ensures Balance(xs, a + d) == Balance(xs, a) - Repeated(xs, d)
  {
    if xs != [] {
      BalanceShifts(xs[..|xs| - 1], a, d);
    }
  }

  lemma SquareOfShift(x: real, a: real, d: real)
    ensures (x - (a + d)) * (x - (a + d)) == (x - a) * (x - a) - 2.0 * (d * (x - a)) + d * d
  {
  }

  lemma {:induction false} DeviationsExpand(xs: seq<real>, a: real, d: real)
    ensures Deviations(xs, a + d) == Deviations(xs, a) - 2.0 * Cross(xs, a, d) + Repeated(xs, d * d)
  {
    if xs != [] {
      DeviationsExpand(xs[..|xs| - 1], a, d);
      SquareOfShift(xs[|xs| - 1], a, d);
    }
  }

  lemma Distribute(d: real, p: real, q: real)
    ensures d * (p + q) == d * p + d * q
  {
  }

  lemma {:induction false} CrossIs(xs: seq<real>, a: real, d: real)
    ensures Cross(xs, a, d) == d * Balance(xs, a)
  {
    if xs != [] {
      CrossIs(xs[..|xs| - 1], a, d);
      Distribute(d, Balance(xs[..|xs| - 1], a), xs[|xs| - 1] - a);
    }
  }

  lemma {:induction false} RepeatedSquare(xs: seq<real>, d: real)
    ensures Repeated(xs, d * d) == d * Repeated(xs, d)
  {
    if xs != [] {
      RepeatedSquare(xs[..|xs| - 1], d);
      Distribute(d, Repeated(xs[..|xs| - 1], d), d);
    }
  }

  lemma DeviationsShift(xs: seq<real>, a: real, d: real)
    ensures Deviations(xs, a + d) == Deviations(xs, a) - 2.0 * (d * Balance(xs, a)) + d * Repeated(xs, d)
  {
    DeviationsExpand(xs, a, d);
    CrossIs(xs, a, d);
    RepeatedSquare(xs, d);
  }

  lemma {:induction false} RepeatedIs(xs: seq<real>, n: real, d: real)
    requires n == |xs| as real
    ensures Repeated(xs, d) == n * d
  {
    if xs != [] {
      RepeatedIs(xs[..|xs| - 1], n - 1.0, d);
      assert (n - 1.0) * d + d == n * d;
    }
  }

  lemma {:induction false} SumAndBalance(xs: seq<real>, a: real)
    ensures Sum(xs) == Balance(xs, a) + Repeated(xs, a)
  {
    if xs != [] {
      SumAndBalance(xs[..|xs| - 1], a);
    }
  }

  lemma SquareNotNegative(a: real)
    ensures a * a >= 0.0
  {
    if a < 0.0 {
      assert (-a) * (-a) >= 0.0;
    }
  }

  lemma {:induction false} DeviationsNotNegative(xs: seq<real>, a: real)
    ensures Deviations(xs, a) >= 0.0
  {
    if xs != [] {
      DeviationsNotNegative(xs[..|xs| - 1], a);
      SquareNotNegative(xs[|xs| - 1] - a);
    }
  }

  /** The running mean balances the values seen so far and the new one. */
  lemma MeanStep(xs: seq<real>, n': real, m: real, x: real)
    requires n' == |xs| as real + 1.0 && Balance(xs, m) == 0.0
    ensures Repeated(xs, (x - m) / n') == x - (m + (x - m) / n')
    ensures Balance(xs + [x], m + (x - m) / n') == 0.0
  {
    var d := (x - m) / n';
    assert n' * d == x - m;
    RepeatedIs(xs, n' - 1.0, d);
    assert (n' - 1.0) * d == n' * d - d;
    BalanceShifts(xs, m, d);
    assert (xs + [x])[..|xs|] == xs;
  }

  lemma ProductStep(m: real, x: real, d: real)
    ensures d * (x - (m + d)) + (x - (m + d)) * (x - (m + d)) == (x - m) * (x - (m + d))
  {
  }

  /** Welford's update of the squared deviations, when the mean moves by `d`. */
  lemma DeviationsStep(xs: seq<real>, m: real, x: real, d: real)
    requires Balance(xs, m) == 0.0 && Repeated(xs, d) == x - (m + d)
    ensures Deviations(xs + [x], m + d) == Deviations(xs, m) + (x - m) * (x - (m + d))
  {
    DeviationsShift(xs, m, d);
    ProductStep(m, x, d);
    assert (xs + [x])[..|xs|] == xs;
  }

  /** What balances is the mean. */
  lemma BalancedIsMean(xs: seq<real>, m: real)
    requires xs != [] && Balance(xs, m) == 0.0
    ensures MeanOf(xs) == m
  {
    SumAndBalance(xs, m);
    RepeatedIs(xs, |xs| as real, m);
    Quotient(|xs| as real, m);
  }

  lemma Quotient(n: real, m: real)
    requires n > 0.0
    ensures n * m / n == m
  {
  }

  /** What the running state holds of the values seen so far. */
  ghost predicate Holds(s: Stats, xs: seq<real>) {
    && s.count == |xs|
    && Balance(xs, s.mean) == 0.0
    && s.m2 == Deviations(xs, s.mean)
    && (if xs == [] then s.min.None? && s.max.None?
        else s.min.Some? && IsMin(xs, s.min.value) && s.max.Some? && IsMax(xs, s.max.value))
  }

  lemma MinMaxSnoc(s: Stats, xs: seq<real>, x: real)
    requires Holds(s, xs)
    ensures var s' := s.Update(Finite(x));
            s'.min.Some? && IsMin(xs + [x], s'.min.value) && s'.max.Some? && IsMax(xs + [x], s'.max.value)
  {
  }

  lemma WelfordStep(xs: seq<real>, n: real, m: real, x: real, d: real)
    requires n == |xs| as real + 1.0 && d == (x - m) / n && Balance(xs, m) == 0.0
    ensures Balance(xs + [x], m + d) == 0.0
    ensures Deviations(xs + [x], m + d) == Deviations(xs, m) + (x - m) * (x - (m + d))
  {
    MeanStep(xs, n, m, x);
    DeviationsStep(xs, m, x, d);
  }

  /** An update moves the mean by `d`, `1 / n` of the way to the value. */
  lemma UpdateIs(s: Stats, x: real) returns (n: real, d: real)
    ensures n == s.count as real + 1.0 && d == (x - s.mean) / n
    ensures s.Update(Finite(x)).mean == s.mean + d
    ensures s.Update(Finite(x)).m2 == s.m2 + (x - s.mean) * (x - (s.mean + d))
  {
    n := (s.count + 1) as real;
    d := (x - s.mean) / n;
  }

  lemma MovedBalances(m2: real, m2': real, xs: seq<real>, m: real, m': real, x: real, n: real, d: real)
    requires n == |xs| as real + 1.0 && d == (x - m) / n && Balance(xs, m) == 0.0 && m2 == Deviations(xs, m)
    requires m' == m + d && m2' == m2 + (x - m) * (x - (m + d))
    ensures Balance(xs + [x], m') == 0.0 && m2' == Deviations(xs + [x], m')
  {
    WelfordStep(xs, n, m, x, d);
  }

  lemma UpdateBalances(s: Stats, s': Stats, xs: seq<real>, x: real)
    requires Holds(s, xs) && s' == s.Update(Finite(x))
    ensures Balance(xs + [x], s'.mean) == 0.0 && s'.m2 == Deviations(xs + [x], s'.mean)
  {
    var n, d := UpdateIs(s, x);
    MovedBalances(s.m2, s'.m2, xs, s.mean, s'.mean, x, n, d);
  }

  lemma UpdateHolds(s: Stats, xs: seq<real>, x: real)
    requires Holds(s, xs)
    ensures Holds(s.Update(Finite(x)), xs + [x])
  {
    MinMaxSnoc(s, xs, x);
    UpdateBalances(s, s.Update(Finite(x)), xs, x);
  }

  lemma {:induction false} AlwaysHolds(os: seq<Observation>)
    ensures Holds(NO_STATS.Updated(os), Values(os))
  {
    if os != [] {
      AlwaysHolds(os[..|os| - 1]);
      var o := os[|os| - 1];
      if o.NotFinite? {
        assert Values(os) == Values(os[..|os| - 1]);
      } else {
        UpdateHolds(NO_STATS.Updated(os[..|os| - 1]), Values(os[..|os| - 1]), o.value);
      }
    }
  }

  /** After any updates the state is that of the finite values computed in two
      passes; `m2` is never negative. */
  lemma RunningIsTwoPass(os: seq<Observation>)
    ensures var s, xs := NO_STATS.Updated(os), Values(os);
            && s.count == |xs|
            && (xs == [] ==> s == NO_STATS)
            && (xs != [] ==>
                  && s.mean == MeanOf(xs) && s.m2 == Deviations(xs, MeanOf(xs))
                  && s.min.Some? && IsMin(xs, s.min.value) && s.max.Some? && IsMax(xs, s.max.value))
            && s.m2 >= 0.0
  {
    AlwaysHolds(os);
    var s, xs := NO_STATS.Updated(os), Values(os);
    DeviationsNotNegative(xs, s.mean);
    if xs != [] {
      BalancedIsMean(xs, s.mean);
    } else {
      NoneYet(os);
    }
  }

  lemma {:induction false} NoneYet(os: seq<Observation>)
    requires Values(os) == []
    ensures NO_STATS.Updated(os) == NO_STATS
  {
    if os != [] {
      NoneYet(os[..|os| - 1]);
    }
  }
}
