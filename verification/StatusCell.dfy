/** One `Status`: its phase under the lock, the threads that run its waiters
    after the lock is released, and its settle and timeout timers. */
module StatusCell {
  import opened Prelude

  type Callback = nat
  type Task = nat

  datatype End = Success | Failed(message: string) | Cancelled | TimedOut

  datatype Phase =
    | Pending(callbacks: seq<Callback>, wakers: seq<Task>)
    | Done(end: End)
  {
    /** After `finish(e)`: the first call is the only one to change anything. */
    function Finished(e: End): Phase {
      if Pending? then Done(e) else this
    }

    /** What that hands over to run: nothing but the first time. */
    function Handed(e: End): Runner {
      if Pending? then Runner(callbacks, wakers, e) else Runner([], [], e)
    }

    /** After `add_callback(c)`. */
    function Registered(c: Callback): Phase {
      if Pending? then Pending(callbacks + [c], wakers) else this
    }

    /** After a task's `poll`; it is stored once however often it polls. */
    function Polled(t: Task): Phase {
      if Pending? && t !in wakers then Pending(callbacks, wakers + [t]) else this
    }
  }

  /** A thread past the lock with waiters to run: callbacks, then wakers. */
  datatype Runner = Runner(callbacks: seq<Callback>, wakers: seq<Task>, end: End)

  class Inner {
    var phase: Phase

    constructor ()
      ensures phase == Pending([], [])
    {
      phase := Pending([], []);
    }

    /** The waiters to run once the lock is released. */
    method Finish(e: End) returns (r: Runner)
      modifies this
      ensures phase == old(phase).Finished(e)
      ensures r == old(phase).Handed(e)
      ensures old(phase).Done? ==> phase == old(phase) && r.callbacks == [] && r.wakers == []
      ensures old(phase).Pending? ==> phase == Done(e) && r == Runner(old(phase).callbacks, old(phase).wakers, e)
    {
      if phase.Done? {
        return Runner([], [], e);
      }
      r := Runner(phase.callbacks, phase.wakers, e);
      phase := Done(e);
    }

    /** `Some(end)` when the caller has to run the callback itself. */
    method AddCallback(c: Callback) returns (now: Option<End>)
      modifies this
      ensures phase == old(phase).Registered(c)
      ensures old(phase).Done? ==> phase == old(phase)
      ensures old(phase).Pending? ==> phase == Pending(old(phase).callbacks + [c], old(phase).wakers)
      ensures now == if old(phase).Done? then Some(old(phase).end) else None
    {
      match phase
      case Pending(callbacks, wakers) =>
        phase := Pending(callbacks + [c], wakers);
        now := None;
      case Done(end) =>
        now := Some(end);
    }

    /** `None` is `Poll::Pending`. */
    method Poll(t: Task) returns (ready: Option<End>)
      modifies this
      ensures phase == old(phase).Polled(t)
      ensures old(phase).Done? ==> phase == old(phase)
      ensures old(phase).Pending? ==> phase.Pending? && phase.callbacks == old(phase).callbacks
      ensures old(phase).Pending? ==>
                phase.wakers == if t in old(phase).wakers then old(phase).wakers else old(phase).wakers + [t]
      ensures ready == if old(phase).Done? then Some(old(phase).end) else None
    {
      match phase
      case Pending(callbacks, wakers) =>
        if t !in wakers {
          phase := Pending(callbacks, wakers + [t]);
        }
        ready := None;
      case Done(end) =>
        ready := Some(end);
    }
  }

  /** `next` numbers the callbacks as they register. `waiting` are the tasks
      last told Pending and not woken since. `settling` is the time the settle
      timer was started, `spent` whether the setter was used, `reported` the
      error it gave. */
  datatype System = System(
    phase: Phase,
    runners: seq<Runner>,
    next: nat,
    ran: seq<(Callback, End)>,
    waiting: set<Task>,
    now: nat,
    spent: bool,
    settling: Option<nat>,
    reported: Option<End>,
    endedAt: nat,
    timeout: Option<nat>,
    settle: nat)
  {
    function Deadline(): Option<nat> {
      if timeout.Some? then Some(timeout.value + settle) else None
    }
  }

  datatype Action =
    | AddCallback
    | Poll(t: Task)
    | Cancel
    | Succeed
    | Fail(e: End)
    | SettleTimer
    | TimeoutTimer
    | Run(i: nat)
    | Tick(d: nat)

  function Start(timeout: Option<nat>, settle: nat): System {
    System(Pending([], []), [], 0, [], {}, 0, false, None, None, 0, timeout, settle)
  }

  /** `finish` by some thread, which goes on to run the waiters. */
  function Finish(s: System, e: End): System {
    s.(phase := s.phase.Finished(e),
       endedAt := if s.phase.Pending? then s.now else s.endedAt,
       runners := if s.phase.Pending? then s.runners + [s.phase.Handed(e)] else s.runners)
  }

  /** One waiter of one runner. */
  function RunOne(s: System, i: nat): System
    requires i < |s.runners|
  {
    var r := s.runners[i];
    if r.callbacks != [] then
      s.(ran := s.ran + [(r.callbacks[0], r.end)], runners := s.runners[i := r.(callbacks := r.callbacks[1..])])
    else if r.wakers != [] then
      s.(waiting := s.waiting - {r.wakers[0]}, runners := s.runners[i := r.(wakers := r.wakers[1..])])
    else s
  }

  /** Disabled actions change nothing. A producer may report any error, one
      another status ended with included. */
  function Act(s: System, a: Action): System {
    match a
    case AddCallback =>
      var s' := s.(phase := s.phase.Registered(s.next), next := s.next + 1);
      if s.phase.Pending? then s' else s'.(runners := s.runners + [Runner([s.next], [], s.phase.end)])
    case Poll(t) =>
      s.(phase := s.phase.Polled(t), waiting := if s.phase.Pending? then s.waiting + {t} else s.waiting - {t})
    case Cancel => Finish(s, Cancelled)
    case Succeed =>
      if s.spent then s
      else if s.settle == 0 then Finish(s.(spent := true, settling := Some(s.now)), Success)
      else s.(spent := true, settling := Some(s.now))
    case Fail(e) =>
      if s.spent || e.Success? then s else Finish(s.(spent := true, reported := Some(e)), e)
    case SettleTimer =>
      if s.settling.Some? && s.settling.value + s.settle <= s.now then Finish(s, Success) else s
    case TimeoutTimer =>
      if s.Deadline().Some? && s.Deadline().value <= s.now then Finish(s, TimedOut) else s
    case Run(i) => if i < |s.runners| then RunOne(s, i) else s
    case Tick(d) => s.(now := s.now + d)
  }

  function After(s: System, actions: seq<Action>): System
    decreases |actions|
  {
    if actions == [] then s else Act(After(s, actions[..|actions| - 1]), actions[|actions| - 1])
  }

  function Count(cs: seq<Callback>, c: Callback): nat {
    if cs == [] then 0 else (if cs[0] == c then 1 else 0) + Count(cs[1..], c)
  }

  /** How often `c` is in the hands of the runners. */
  function InHands(runners: seq<Runner>, c: Callback): nat {
    if runners == [] then 0
    else InHands(runners[..|runners| - 1], c) + Count(runners[|runners| - 1].callbacks, c)
  }

  /** How often `c` has run. */
  function Runs(ran: seq<(Callback, End)>, c: Callback): nat {
    if ran == [] then 0 else Runs(ran[..|ran| - 1], c) + (if ran[|ran| - 1].0 == c then 1 else 0)
  }

  function Queued(phase: Phase, c: Callback): nat {
    if phase.Pending? then Count(phase.callbacks, c) else 0
  }

  function Held(s: System, c: Callback): nat {
    Queued(s.phase, c) + InHands(s.runners, c) + Runs(s.ran, c)
  }

  /** Every callback registered is queued, in a runner's hands, or has run. */
  ghost predicate Conserved(s: System) {
    forall c: Callback :: Held(s, c) == if c < s.next then 1 else 0
  }

  /** Before the end nothing runs; after it everything runs with that end. */
  ghost predicate OneEnd(s: System) {
    match s.phase
    case Pending(_, _) => s.runners == [] && s.ran == []
    case Done(e) =>
      && (forall i :: 0 <= i < |s.runners| ==> s.runners[i].end == e)
      && (forall i :: 0 <= i < |s.ran| ==> s.ran[i].1 == e)
  }

  /** A task last told Pending is stored, or in the hands of a runner. */
  ghost predicate Heard(s: System) {
    forall t :: t in s.waiting ==>
      || (s.phase.Pending? && t in s.phase.wakers)
      || exists i :: 0 <= i < |s.runners| && t in s.runners[i].wakers
  }

  /** Success lands no sooner than the settle time after it was reported, a
      timeout that was not reported no sooner than its deadline, and a failure
      is the one reported. */
  ghost predicate Timed(s: System) {
    && (s.settling.Some? || s.reported.Some? ==> s.spent)
    && (s.phase.Done? ==>
          && s.endedAt <= s.now
          && (s.phase.end.Success? ==> s.settling.Some? && s.settling.value + s.settle <= s.endedAt)
          && (s.phase.end.TimedOut? ==>
                s.reported == Some(TimedOut) || (s.Deadline().Some? && s.Deadline().value <= s.endedAt))
          && (s.phase.end.Failed? ==> s.reported == Some(s.phase.end)))
  }

  ghost predicate Safe(s: System) {
    Conserved(s) && OneEnd(s) && Heard(s) && Timed(s)
  }

  // ---- Runners ----

  lemma {:induction false} CountSnoc(cs: seq<Callback>, d: Callback, c: Callback)
    ensures Count(cs + [d], c) == Count(cs, c) + (if d == c then 1 else 0)
    decreases |cs|
  {
    if cs == [] {
      assert cs + [d] == [d] && [d][1..] == [];
    } else {
      CountSnoc(cs[1..], d, c);
      assert (cs + [d])[1..] == cs[1..] + [d];
    }
  }

  lemma InHandsSnoc(runners: seq<Runner>, r: Runner, c: Callback)
    ensures InHands(runners + [r], c) == InHands(runners, c) + Count(r.callbacks, c)
  {
    assert (runners + [r])[..|runners|] == runners;
  }

  lemma {:induction false} InHandsUpdate(runners: seq<Runner>, i: nat, r: Runner, c: Callback)
    requires i < |runners|
    ensures InHands(runners[i := r], c) == InHands(runners, c) + Count(r.callbacks, c) - Count(runners[i].callbacks, c)
    decreases |runners|
  {
    var last := |runners| - 1;
    var init := runners[..last];
    if i < last {
      InHandsUpdate(init, i, r, c);
      assert runners[i := r][..last] == init[i := r];
    } else {
      assert runners[i := r][..last] == init;
    }
  }

  lemma RunsSnoc(ran: seq<(Callback, End)>, d: Callback, e: End, c: Callback)
    ensures Runs(ran + [(d, e)], c) == Runs(ran, c) + (if d == c then 1 else 0)
  {
    assert (ran + [(d, e)])[..|ran|] == ran;
  }

  // ---- Each action keeps the system safe ----

  lemma FinishConserved(s: System, e: End)
    requires Conserved(s) && OneEnd(s)
    ensures Conserved(Finish(s, e))
  {
    if s.phase.Pending? {
      var r := Runner(s.phase.callbacks, s.phase.wakers, e);
      forall c: Callback ensures Held(Finish(s, e), c) == Held(s, c) {
        InHandsSnoc(s.runners, r, c);
      }
    }
  }

  lemma FinishSafe(s: System, e: End)
    requires Safe(s)
    requires s.phase.Pending? && e.Success? ==> s.settling.Some? && s.settling.value + s.settle <= s.now
    requires s.phase.Pending? && e.TimedOut? ==>
               s.reported == Some(e) || (s.Deadline().Some? && s.Deadline().value <= s.now)
    requires s.phase.Pending? && e.Failed? ==> s.reported == Some(e)
    ensures Safe(Finish(s, e))
  {
    FinishConserved(s, e);
    if s.phase.Pending? {
      assert Finish(s, e).runners[|s.runners|] == Runner(s.phase.callbacks, s.phase.wakers, e);
    }
  }

  lemma AddCallbackConserved(s: System)
    requires Conserved(s)
    ensures Conserved(Act(s, AddCallback))
  {
    var s' := Act(s, AddCallback);
    forall c: Callback ensures Held(s', c) == Held(s, c) + if c == s.next then 1 else 0 {
      if s.phase.Pending? {
        CountSnoc(s.phase.callbacks, s.next, c);
      } else {
        InHandsSnoc(s.runners, Runner([s.next], [], s.phase.end), c);
        assert [s.next] == [] + [s.next];
        CountSnoc([], s.next, c);
      }
    }
  }

  lemma StillHeard(s: System, s': System)
    requires Heard(s) && s.phase.Done? && s'.phase == s.phase && s'.waiting <= s.waiting
    requires |s.runners| <= |s'.runners|
    requires forall t, i :: 0 <= i < |s.runners| && t in s.runners[i].wakers && t in s'.waiting ==>
               t in s'.runners[i].wakers
    ensures Heard(s')
  {
    forall t | t in s'.waiting ensures exists i :: 0 <= i < |s'.runners| && t in s'.runners[i].wakers {
      var i :| 0 <= i < |s.runners| && t in s.runners[i].wakers;
      assert t in s'.runners[i].wakers;
    }
  }

  lemma AddCallbackSafe(s: System)
    requires Safe(s)
    ensures Safe(Act(s, AddCallback))
  {
    AddCallbackConserved(s);
    if s.phase.Done? {
      StillHeard(s, Act(s, AddCallback));
    }
  }

  lemma PollSafe(s: System, t: Task)
    requires Safe(s)
    ensures Safe(Act(s, Poll(t)))
  {
    var s' := Act(s, Poll(t));
    forall c: Callback ensures Held(s', c) == Held(s, c) {
    }
    if s.phase.Done? {
      StillHeard(s, s');
    }
  }

  lemma RunCallbackConserved(s: System, i: nat)
    requires Conserved(s) && i < |s.runners| && s.runners[i].callbacks != []
    ensures Conserved(RunOne(s, i))
  {
    var r := s.runners[i];
    forall c: Callback ensures Held(RunOne(s, i), c) == Held(s, c) {
      InHandsUpdate(s.runners, i, r.(callbacks := r.callbacks[1..]), c);
      RunsSnoc(s.ran, r.callbacks[0], r.end, c);
    }
  }

  lemma RunCallbackSafe(s: System, i: nat)
    requires Safe(s) && i < |s.runners| && s.runners[i].callbacks != []
    ensures Safe(RunOne(s, i))
  {
    RunCallbackConserved(s, i);
    StillHeard(s, RunOne(s, i));
  }

  lemma WakeSafe(s: System, i: nat)
    requires Safe(s) && i < |s.runners| && s.runners[i].callbacks == [] && s.runners[i].wakers != []
    ensures Safe(RunOne(s, i))
  {
    var r := s.runners[i];
    var s' := RunOne(s, i);
    forall c: Callback ensures Held(s', c) == Held(s, c) {
      InHandsUpdate(s.runners, i, r.(wakers := r.wakers[1..]), c);
    }
    assert forall t :: t in r.wakers ==> t == r.wakers[0] || t in r.wakers[1..];
    StillHeard(s, s');
  }

  lemma SpentSafe(s: System, settling: Option<nat>, reported: Option<End>)
    requires Safe(s) && (s.phase.Done? && s.phase.end.Success? ==> settling == s.settling)
    requires s.reported.None? || reported == s.reported
    ensures Safe(s.(spent := true, settling := settling, reported := reported))
  {
    assert forall c: Callback :: Held(s.(spent := true, settling := settling, reported := reported), c) == Held(s, c);
  }

  lemma SucceedSafe(s: System)
    requires Safe(s)
    ensures Safe(Act(s, Succeed))
  {
    if !s.spent {
      SpentSafe(s, Some(s.now), s.reported);
      if s.settle == 0 {
        FinishSafe(s.(spent := true, settling := Some(s.now)), Success);
      }
    }
  }

  lemma TickSafe(s: System, d: nat)
    requires Safe(s)
    ensures Safe(Act(s, Tick(d)))
  {
    assert forall c: Callback :: Held(Act(s, Tick(d)), c) == Held(s, c);
  }

  lemma ActSafe(s: System, a: Action)
    requires Safe(s)
    ensures Safe(Act(s, a))
  {
    match a {
      case AddCallback => AddCallbackSafe(s);
      case Poll(t) => PollSafe(s, t);
      case Cancel => FinishSafe(s, Cancelled);
      case Succeed => SucceedSafe(s);
      case Fail(e) =>
        if !s.spent && !e.Success? {
          SpentSafe(s, s.settling, Some(e));
          FinishSafe(s.(spent := true, reported := Some(e)), e);
        }
      case SettleTimer =>
        if s.settling.Some? && s.settling.value + s.settle <= s.now {
          FinishSafe(s, Success);
        }
      case TimeoutTimer =>
        if s.Deadline().Some? && s.Deadline().value <= s.now {
          FinishSafe(s, TimedOut);
        }
      case Run(i) =>
        if i < |s.runners| && s.runners[i].callbacks != [] {
          RunCallbackSafe(s, i);
        } else if i < |s.runners| && s.runners[i].wakers != [] {
          WakeSafe(s, i);
        }
      case Tick(d) => TickSafe(s, d);
    }
  }

  lemma {:induction false} AlwaysSafe(timeout: Option<nat>, settle: nat, actions: seq<Action>)
    ensures Safe(After(Start(timeout, settle), actions))
    decreases |actions|
  {
    if actions != [] {
      AlwaysSafe(timeout, settle, actions[..|actions| - 1]);
      ActSafe(After(Start(timeout, settle), actions[..|actions| - 1]), actions[|actions| - 1]);
    }
  }

  // ---- The claims ----

  /** What ends a pending status, and with what: a cancel; an error from a
      setter not used before; its success, at once or once the settle time is
      over; and the timeout, once that and the settle time are. */
  ghost predicate Lands(s: System, a: Action, e: End) {
    match a
    case Cancel => e == Cancelled
    case Fail(error) => !s.spent && error != Success && e == error
    case Succeed => !s.spent && s.settle == 0 && e == Success
    case SettleTimer => s.settling.Some? && s.settling.value + s.settle <= s.now && e == Success
    case TimeoutTimer => s.timeout.Some? && s.timeout.value + s.settle <= s.now && e == TimedOut
    case _ => false
  }

  /** A pending status ends with `e` exactly then, and at the time it is. */
  lemma EndsIff(s: System, a: Action, e: End)
    requires s.phase.Pending?
    ensures Act(s, a).phase == Done(e) <==> Lands(s, a, e)
    ensures Act(s, a).phase.Done? ==> Act(s, a).endedAt == s.now
  {
  }

  /** A task waits from when it is told Pending until a runner wakes it, or it
      polls again and is told the end. */
  lemma WaitsIff(s: System, a: Action, t: Task)
    ensures t in Act(s, a).waiting <==>
              if a == Poll(t) then s.phase.Pending? else t in s.waiting && !Wakes(s, a, t)
  {
  }

  predicate Wakes(s: System, a: Action, t: Task) {
    a.Run? && a.i < |s.runners| && s.runners[a.i].callbacks == [] && s.runners[a.i].wakers != []
    && s.runners[a.i].wakers[0] == t
  }

  /** The setter counts once: it is spent by its first use, and the settle time
      runs from the success it reported; only time passing moves the clock. */
  lemma SetterIs(s: System, a: Action)
    ensures var s' := Act(s, a);
            && (s'.spent <==> s.spent || a.Succeed? || (a.Fail? && a.e != Success))
            && s'.settling == (if a.Succeed? && !s.spent then Some(s.now) else s.settling)
            && s'.now == (if a.Tick? then s.now + a.d else s.now)
            && s'.timeout == s.timeout && s'.settle == s.settle
    ensures var first := Start(s.timeout, s.settle);
            first.phase == Pending([], []) && !first.spent && first.settling.None? && first.now == 0
            && first.timeout == s.timeout && first.settle == s.settle
  {
  }

  /** Once a status has ended, nothing changes its end. */
  lemma {:induction false} EndIsFinal(s: System, actions: seq<Action>)
    requires s.phase.Done?
    ensures After(s, actions).phase == s.phase
    decreases |actions|
  {
    if actions != [] {
      EndIsFinal(s, actions[..|actions| - 1]);
    }
  }

  ghost predicate Quiescent(s: System) {
    s.phase.Done? && forall i :: 0 <= i < |s.runners| ==> s.runners[i].callbacks == [] && s.runners[i].wakers == []
  }

  lemma {:induction false} NoneLeft(runners: seq<Runner>, c: Callback)
    requires forall i :: 0 <= i < |runners| ==> runners[i].callbacks == []
    ensures InHands(runners, c) == 0
    decreases |runners|
  {
    if runners != [] {
      NoneLeft(runners[..|runners| - 1], c);
    }
  }

  lemma {:induction false} RunsCount(ran: seq<(Callback, End)>, i: nat, j: nat)
    requires i <= j < |ran| && ran[i].0 == ran[j].0
    ensures Runs(ran, ran[i].0) >= if i < j then 2 else 1
    decreases |ran|
  {
    var init := ran[..|ran| - 1];
    if j < |ran| - 1 {
      RunsCount(init, i, j);
    } else if i < j {
      RunsCount(init, i, i);
    }
  }

  /** In every interleaving no callback runs twice, and each runs with the
      status's one end. */
  lemma CallbacksRunAtMostOnce(timeout: Option<nat>, settle: nat, actions: seq<Action>)
    ensures var s := After(Start(timeout, settle), actions);
            && (forall i, j :: 0 <= i < j < |s.ran| ==> s.ran[i].0 != s.ran[j].0)
            && (forall i :: 0 <= i < |s.ran| ==> s.phase == Done(s.ran[i].1))
  {
    AlwaysSafe(timeout, settle, actions);
    var s := After(Start(timeout, settle), actions);
    forall i, j | 0 <= i < j < |s.ran| ensures s.ran[i].0 != s.ran[j].0 {
      assert Held(s, s.ran[i].0) <= 1;
      if s.ran[i].0 == s.ran[j].0 {
        RunsCount(s.ran, i, j);
      }
    }
  }

  /** No wakeup and no callback is lost: once the runners are through, every
      callback registered - early or late - has run exactly once and no task
      last told Pending is left unwoken. */
  lemma NothingIsLost(timeout: Option<nat>, settle: nat, actions: seq<Action>)
    ensures var s := After(Start(timeout, settle), actions);
            Quiescent(s) ==>
              && s.waiting == {}
              && forall c: Callback :: Runs(s.ran, c) == if c < s.next then 1 else 0
  {
    AlwaysSafe(timeout, settle, actions);
    var s := After(Start(timeout, settle), actions);
    if Quiescent(s) {
      forall c: Callback ensures Runs(s.ran, c) == if c < s.next then 1 else 0 {
        NoneLeft(s.runners, c);
        assert Held(s, c) == if c < s.next then 1 else 0;
      }
    }
  }

  /** What the runners still have to run. */
  function ToRun(runners: seq<Runner>): nat {
    if runners == [] then 0
    else
      var r := runners[|runners| - 1];
      ToRun(runners[..|runners| - 1]) + |r.callbacks| + |r.wakers|
  }

  lemma {:induction false} ToRunUpdate(runners: seq<Runner>, i: nat, r: Runner)
    requires i < |runners|
    ensures ToRun(runners[i := r]) + |runners[i].callbacks| + |runners[i].wakers|
            == ToRun(runners) + |r.callbacks| + |r.wakers|
    decreases |runners|
  {
    var last := |runners| - 1;
    if i < last {
      ToRunUpdate(runners[..last], i, r);
      assert runners[i := r][..last] == runners[..last][i := r];
    } else {
      assert runners[i := r][..last] == runners[..last];
    }
  }

  /** A runner that has something to run gets on with it. */
  lemma RunGetsOn(s: System, i: nat)
    requires i < |s.runners| && (s.runners[i].callbacks != [] || s.runners[i].wakers != [])
    ensures var s' := Act(s, Run(i)); s'.phase == s.phase && ToRun(s'.runners) == ToRun(s.runners) - 1
  {
    var r := s.runners[i];
    ToRunUpdate(s.runners, i, if r.callbacks != [] then r.(callbacks := r.callbacks[1..]) else r.(wakers := r.wakers[1..]));
  }

  lemma {:induction false} AfterCons(s: System, a: Action, actions: seq<Action>)
    ensures After(s, []) == s && After(s, [a] + actions) == After(Act(s, a), actions)
    decreases |actions|
  {
    var all := [a] + actions;
    if actions == [] {
      assert all[..0] == [] && all == [a];
    } else {
      AfterCons(s, a, actions[..|actions| - 1]);
      assert all[..|all| - 1] == [a] + actions[..|actions| - 1] && all[|all| - 1] == actions[|actions| - 1];
    }
  }

  /** An ended status comes to where nothing is left to run. */
  lemma {:induction false} RunnersGetThrough(s: System) returns (more: seq<Action>)
    requires s.phase.Done?
    ensures Quiescent(After(s, more))
    decreases ToRun(s.runners)
  {
    more := [];
    if i :| 0 <= i < |s.runners| && (s.runners[i].callbacks != [] || s.runners[i].wakers != []) {
      RunGetsOn(s, i);
      var rest := RunnersGetThrough(Act(s, Run(i)));
      AfterCons(s, Run(i), rest);
      more := [Run(i)] + rest;
    }
  }

  /** Unless the producer itself reported one, a timeout never beats its
      deadline `timeout + settle`; a success never lands before its settle time
      is over, and a failure is one reported. */
  lemma EndsInTime(timeout: Option<nat>, settle: nat, actions: seq<Action>)
    ensures var s := After(Start(timeout, settle), actions);
            && (s.phase == Done(TimedOut) && Fail(TimedOut) !in actions ==>
                  timeout.Some? && timeout.value + settle <= s.endedAt <= s.now)
            && (s.phase == Done(Success) ==> s.spent && s.settling.Some? && s.settling.value + settle <= s.endedAt <= s.now)
            && (s.phase.Done? && s.phase.end.Failed? ==> Fail(s.phase.end) in actions)
  {
    AlwaysSafe(timeout, settle, actions);
    KeepsTimes(timeout, settle, actions);
  }

  lemma KeepsStep(s: System, a: Action)
    ensures var s' := Act(s, a);
            && s'.timeout == s.timeout && s'.settle == s.settle
            && (s'.reported == s.reported || (s'.reported.Some? && a == Fail(s'.reported.value)))
  {
  }

  lemma {:induction false} KeepsTimes(timeout: Option<nat>, settle: nat, actions: seq<Action>)
    ensures var s := After(Start(timeout, settle), actions);
            s.timeout == timeout && s.settle == settle && (s.reported.Some? ==> Fail(s.reported.value) in actions)
    decreases |actions|
  {
    if actions != [] {
      var init := actions[..|actions| - 1];
      KeepsTimes(timeout, settle, init);
      KeepsStep(After(Start(timeout, settle), init), actions[|actions| - 1]);
    }
  }
}
