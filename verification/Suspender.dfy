/** When a suspender trips and when it lets the run go on, over the timed
    values of the signal it watches. */
module Suspenders {
  import opened Prelude

  type Value = int

  /** A value as the listener gets it: the one current at listen first, then
      each later post. The listener's task is polled as soon as it is woken. */
  datatype Arrival = Arrival(at: nat, value: Value)

  /** Everything the listener's queue ever holds, and when its source goes. */
  datatype Timeline = Timeline(arrivals: seq<Arrival>, closed: Option<nat>) {
    ghost predicate Valid() {
      && (forall j, k :: 0 <= j < k < |arrivals| ==> arrivals[j].at <= arrivals[k].at)
      && (closed.Some? ==> forall k :: 0 <= k < |arrivals| ==> arrivals[k].at <= closed.value)
    }
  }

  datatype Outcome =
    | Resolved(k: nat, at: nat)
    | SourceGone(at: nat)
    | Never

  /** Resolves on the first BAD value, however brief, and on nothing else. */
  method AwaitBad(line: Timeline, bad: Value -> bool) returns (outcome: Outcome)
    ensures outcome.Resolved? || outcome.Never?
    ensures outcome.Resolved? ==>
              && outcome.k < |line.arrivals| && bad(line.arrivals[outcome.k].value)
              && outcome.at == line.arrivals[outcome.k].at
              && forall j :: 0 <= j < outcome.k ==> !bad(line.arrivals[j].value)
    ensures outcome.Never? <==> forall j :: 0 <= j < |line.arrivals| ==> !bad(line.arrivals[j].value)
  {
    var i := 0;
    while i < |line.arrivals|
      invariant 0 <= i <= |line.arrivals|
      invariant forall j :: 0 <= j < i ==> !bad(line.arrivals[j].value)
    {
      if bad(line.arrivals[i].value) {
        return Resolved(i, line.arrivals[i].at);
      }
      i := i + 1;
    }
    outcome := Never;
  }

  /** Value `k` is GOOD and nothing follows it before its delay is over. */
  ghost predicate Quiet(line: Timeline, bad: Value -> bool, delay: nat, k: nat) {
    && k < |line.arrivals| && !bad(line.arrivals[k].value)
    && (k + 1 < |line.arrivals| ==> line.arrivals[k].at + delay <= line.arrivals[k + 1].at)
    && (line.closed.Some? ==> line.arrivals[k].at + delay <= line.closed.value)
  }

  /** The same, with nothing happening at the very moment it is over either.
      Without a delay there is no such moment: the GOOD value alone decides. */
  ghost predicate Decisive(line: Timeline, bad: Value -> bool, delay: Option<nat>, k: nat) {
    && k < |line.arrivals| && !bad(line.arrivals[k].value)
    && (delay.Some? ==>
          && (k + 1 < |line.arrivals| ==> line.arrivals[k].at + delay.value < line.arrivals[k + 1].at)
          && (line.closed.Some? ==> line.arrivals[k].at + delay.value < line.closed.value))
  }

  ghost predicate NoneDecisive(line: Timeline, bad: Value -> bool, delay: Option<nat>, n: nat) {
    forall j: nat :: j < n ==> !Decisive(line, bad, delay, j)
  }

  /** What the wait for a stable GOOD may come to. */
  ghost predicate GoodOutcome(line: Timeline, bad: Value -> bool, delay: Option<nat>, outcome: Outcome) {
    match outcome
    case Resolved(k, at) =>
      && Quiet(line, bad, delay.GetOr(0), k)
      && at == line.arrivals[k].at + delay.GetOr(0)
      && NoneDecisive(line, bad, delay, k)
    case SourceGone(at) => line.closed == Some(at) && NoneDecisive(line, bad, delay, |line.arrivals|)
    case Never =>
      && line.closed.None? && NoneDecisive(line, bad, delay, |line.arrivals|)
      && (line.arrivals != [] ==> bad(line.arrivals[|line.arrivals| - 1].value))
  }

  /** Resolves only when the last value is GOOD and none came during the whole
      delay since; and does so at the first such silence, unless the source
      goes before. When the delay ends at the moment the next value comes, or
      the source goes, either may be taken. */
  method AwaitGoodStable(line: Timeline, bad: Value -> bool, delay: Option<nat>) returns (outcome: Outcome)
    requires line.Valid()
    ensures GoodOutcome(line, bad, delay, outcome)
  {
    var n := |line.arrivals|;
    if n == 0 {
      return if line.closed.Some? then SourceGone(line.closed.value) else Never;
    }
    var i := 0;
    while true
      invariant 0 <= i < n && NoneDecisive(line, bad, delay, i)
      decreases n - i
    {
      while bad(line.arrivals[i].value)
        invariant 0 <= i < n && NoneDecisive(line, bad, delay, i)
        decreases n - i
      {
        if i + 1 == n {
          return if line.closed.Some? then SourceGone(line.closed.value) else Never;
        }
        i := i + 1;
      }
      var v := line.arrivals[i];
      if delay.None? {
        return Resolved(i, v.at);
      }
      var over := v.at + delay.value;
      if i + 1 < n {
        if over < line.arrivals[i + 1].at {
          return Resolved(i, over);
        } else if over == line.arrivals[i + 1].at {
          if * {
            return Resolved(i, over);
          }
        }
        i := i + 1;
      } else if line.closed.None? || over < line.closed.value {
        return Resolved(i, over);
      } else {
        if over == line.closed.value {
          if * {
            return Resolved(i, over);
          }
        }
        return SourceGone(line.closed.value);
      }
    }
  }

  /** `SignalSuspender::watch`: one that is not to resume on its own never does. */
  method Watch(line: Timeline, bad: Value -> bool, delay: Option<nat>, autoResume: bool) returns (outcome: Outcome)
    requires line.Valid()
    ensures if autoResume then GoodOutcome(line, bad, delay, outcome) else outcome == Never
  {
    if !autoResume {
      return Never;
    }
    outcome := AwaitGoodStable(line, bad, delay);
  }

  /** The value the signal has at time `t`: the last to come by then. */
  function LastBy(line: Timeline, t: nat): Option<Value> {
    LastOf(line.arrivals, t)
  }

  function LastOf(arrivals: seq<Arrival>, t: nat): Option<Value> {
    if arrivals == [] then None
    else if arrivals[|arrivals| - 1].at <= t then Some(arrivals[|arrivals| - 1].value)
    else LastOf(arrivals[..|arrivals| - 1], t)
  }

  lemma {:induction false} LastOfIs(arrivals: seq<Arrival>, k: nat, t: nat)
    requires k < |arrivals| && arrivals[k].at <= t
    requires forall j :: k < j < |arrivals| ==> t < arrivals[j].at
    ensures LastOf(arrivals, t) == Some(arrivals[k].value)
  {
    if k < |arrivals| - 1 {
      LastOfIs(arrivals[..|arrivals| - 1], k, t);
    }
  }

  /** When the wait resolves, the signal has been GOOD throughout the delay
      before. */
  lemma GoodThroughout(line: Timeline, bad: Value -> bool, delay: nat, outcome: Outcome, t: nat)
    requires line.Valid() && GoodOutcome(line, bad, Some(delay), outcome) && outcome.Resolved?
    requires delay <= outcome.at && outcome.at - delay <= t < outcome.at
    ensures LastBy(line, t).Some? && !bad(LastBy(line, t).value)
  {
    LastOfIs(line.arrivals, outcome.k, t);
  }

  /** It does resolve after a silence, and no later than that one. */
  lemma SilenceResolves(line: Timeline, bad: Value -> bool, delay: Option<nat>, outcome: Outcome, k: nat)
    requires line.Valid() && GoodOutcome(line, bad, delay, outcome) && Decisive(line, bad, delay, k)
    ensures outcome.Resolved? && outcome.k <= k && outcome.at <= line.arrivals[k].at + delay.GetOr(0)
  {
  }

  /** While the source stays, a wait that never resolves ended on a BAD value
      (or on none), and where no delay ends at the very moment a value comes
      it never resolves exactly when no silence was long enough. */
  lemma NeverIff(line: Timeline, bad: Value -> bool, delay: Option<nat>, outcome: Outcome)
    requires line.Valid() && line.closed.None? && GoodOutcome(line, bad, delay, outcome)
    ensures line.arrivals != [] && !bad(line.arrivals[|line.arrivals| - 1].value) ==> outcome.Resolved?
    ensures (forall k: nat :: Quiet(line, bad, delay.GetOr(0), k) ==> Decisive(line, bad, delay, k)) ==>
              (outcome == Never <==> forall k: nat :: !Quiet(line, bad, delay.GetOr(0), k))
  {
    if line.arrivals != [] && !bad(line.arrivals[|line.arrivals| - 1].value) {
      assert Decisive(line, bad, delay, |line.arrivals| - 1);
    }
  }

  /** Where no delay ends at the very moment something happens, there is but
      one outcome. */
  lemma OneOutcome(line: Timeline, bad: Value -> bool, delay: Option<nat>, a: Outcome, b: Outcome)
    requires line.Valid() && GoodOutcome(line, bad, delay, a) && GoodOutcome(line, bad, delay, b)
    requires forall k :: Quiet(line, bad, delay.GetOr(0), k) ==> Decisive(line, bad, delay, k)
    ensures a == b
  {
    if a.Resolved? {
      SilenceResolves(line, bad, delay, b, a.k);
    }
    if b.Resolved? {
      SilenceResolves(line, bad, delay, a, b.k);
    }
  }
}
