/** Settings applied when a device is staged and undone when it is unstaged. */
module StageSigs {
  import opened Prelude

  type Reg = nat
  type Value = int

  /** `original` is what the signal held before this setting was applied,
      until it is restored. Different keys may address the same signal. */
  datatype Setting = Setting(key: string, reg: Reg, desired: Value, original: Option<Value>)

  /** The device's settings and the signals they write. */
  datatype State = State(settings: seq<Setting>, store: map<Reg, Value>) {
    ghost predicate Known() {
      forall i :: 0 <= i < |settings| ==> settings[i].reg in store
    }

    ghost predicate Unapplied() {
      forall i :: 0 <= i < |settings| ==> settings[i].original.None?
    }

    function Apply(i: nat): (s: State)
      requires i < |settings| && Known()
      ensures s.Known() && |s.settings| == |settings|
    {
      var it := settings[i];
      State(settings[i := it.(original := Some(store[it.reg]))], store[it.reg := it.desired])
    }

    /** The captured value is consumed even when writing it back fails, be it
        that the write lands all the same or not. */
    function Restore(i: nat, lands: bool): (s: State)
      requires i < |settings| && Known()
      ensures s.Known() && |s.settings| == |settings|
    {
      var it := settings[i];
      if it.original.None? then this
      else State(settings[i := it.(original := None)], if lands then store[it.reg := it.original.value] else store)
    }

    /** The first `n` settings applied in order. */
    function Applied(n: nat): (s: State)
      requires n <= |settings| && Known()
      ensures s.Known() && |s.settings| == |settings|
    {
      if n == 0 then this else Applied(n - 1).Apply(n - 1)
    }

    /** The first `n` settings restored from the last to the first. */
    function Restored(n: nat, lands: nat -> bool): (s: State)
      requires n <= |settings| && Known()
      ensures s.Known() && |s.settings| == |settings|
      decreases n
    {
      if n == 0 then this else Restore(n - 1, lands(n - 1)).Restored(n - 1, lands)
    }

    /** The apply that fails: reading, or writing, which may have landed. */
    function Failed(fault: Fault): (s: State)
      requires fault.at < |settings| && Known()
      ensures s.Known() && |s.settings| == |settings|
    {
      var it := settings[fault.at];
      if fault.landed then this.(store := store[it.reg := it.desired]) else this
    }

    function RolledBack(fault: Fault, lands: nat -> bool): (s: State)
      requires fault.at < |settings| && Known()
      ensures s.Known() && |s.settings| == |settings|
    {
      Applied(fault.at).Failed(fault).Restored(fault.at, lands)
    }
  }

  /** Which setting's apply fails, if any, and whether its write landed all
      the same. */
  datatype Fault = Fault(at: nat, landed: bool)

  datatype Error = RedundantStaging | ApplyFailed(at: nat) | RestoreFailed(at: nat)

  class StagedDevice {
    var settings: seq<Setting>
    var store: map<Reg, Value>
    var staged: bool

    function View(): State
      reads this
    {
      State(settings, store)
    }

    constructor (store: map<Reg, Value>)
      ensures View() == State([], store) && !staged
    {
      settings, staged := [], false;
      this.store := store;
    }

    /** A setting with the same key is replaced in its place. */
    method Push(setting: Setting)
      modifies this`settings
      ensures settings == Pushed(old(settings), setting, 0)
    {
      var i := 0;
      while i < |settings|
        invariant 0 <= i <= |settings| && settings == old(settings)
        invariant Pushed(settings, setting, i) == Pushed(settings, setting, 0)
      {
        if settings[i].key == setting.key {
          settings := settings[i := setting];
          return;
        }
        i := i + 1;
      }
      settings := settings + [setting];
    }

    method Stage(fault: Option<Fault>, lands: nat -> bool) returns (r: Option<Error>)
      requires View().Known()
      modifies this
      ensures (View(), staged, r) == StageOf(old(View()), old(staged), fault, lands)
    {
      if staged {
        return Some(RedundantStaging);
      }
      staged := true;
      var i := 0;
      while i < |settings|
        invariant View().Known() && |settings| == |old(settings)| && 0 <= i <= |settings| && staged
        invariant View() == old(View()).Applied(i)
        invariant fault.Some? && fault.value.at < |settings| ==> i <= fault.value.at
      {
        if fault.Some? && fault.value.at == i {
          if fault.value.landed {
            store := store[settings[i].reg := settings[i].desired];
          }
          RestoreDown(i, lands);
          staged := false;
          return Some(ApplyFailed(i));
        }
        ApplySetting(i);
        i := i + 1;
      }
      r := None;
    }

    method ApplySetting(i: nat)
      requires i < |settings| && View().Known()
      modifies this`settings, this`store
      ensures View() == old(View()).Apply(i)
    {
      var it := settings[i];
      var current := store[it.reg];
      store := store[it.reg := it.desired];
      settings := settings[i := it.(original := Some(current))];
    }

    /** `ok` tells whether the restore succeeds, `lands` whether its write lands. */
    method RestoreSetting(i: nat, ok: bool, lands: bool) returns (failed: bool)
      requires i < |settings| && View().Known()
      modifies this`settings, this`store
      ensures View() == old(View()).Restore(i, lands)
      ensures failed <==> old(settings)[i].original.Some? && !ok
    {
      var it := settings[i];
      settings := settings[i := it.(original := None)];
      if it.original.Some? && lands {
        store := store[it.reg := it.original.value];
      }
      failed := it.original.Some? && !ok;
    }

    method RestoreDown(n: nat, lands: nat -> bool)
      requires n <= |settings| && View().Known()
      modifies this`settings, this`store
      ensures View() == old(View()).Restored(n, lands)
    {
      var i := n;
      while i > 0
        invariant View().Known() && |settings| == |old(settings)| && 0 <= i <= n
        invariant View().Restored(i, lands) == old(View()).Restored(n, lands)
      {
        i := i - 1;
        var _ := RestoreSetting(i, lands(i), lands(i));
      }
    }

    /** `ok` tells which restores succeed, `lands` which of the writes land. */
    method Unstage(ok: nat -> bool, lands: nat -> bool) returns (first: Option<Error>)
      requires View().Known()
      modifies this
      ensures View() == old(View()).Restored(|old(settings)|, lands) && !staged
      ensures first == FirstError(old(settings), |old(settings)|, ok)
    {
      first := None;
      ghost var all := View();
      var i := |settings|;
      while i > 0
        invariant View().Known() && |settings| == |all.settings| && 0 <= i <= |settings|
        invariant View().Restored(i, lands) == all.Restored(|settings|, lands)
        invariant forall k :: 0 <= k < i ==> settings[k] == all.settings[k]
        invariant Either(first, FirstError(all.settings, i, ok)) == FirstError(all.settings, |settings|, ok)
      {
        i := i - 1;
        var failed := RestoreSetting(i, ok(i), lands(i));
        if failed && first.None? {
          first := Some(RestoreFailed(i));
        }
      }
      staged := false;
    }
  }

  /** The first restore to fail, from the last setting back. */
  function FirstError(settings: seq<Setting>, n: nat, ok: nat -> bool): Option<Error>
    requires n <= |settings|
  {
    if n == 0 then None
    else if settings[n - 1].original.Some? && !ok(n - 1) then Some(RestoreFailed(n - 1))
    else FirstError(settings, n - 1, ok)
  }

  function Either(first: Option<Error>, other: Option<Error>): Option<Error> {
    if first.Some? then first else other
  }

  ghost predicate FailsAt(settings: seq<Setting>, ok: nat -> bool, i: nat)
    requires i < |settings|
  {
    settings[i].original.Some? && !ok(i)
  }

  /** The error is that of the last of the settings whose restore fails, which
      is the first to be tried. */
  lemma {:induction false} FirstErrorIs(settings: seq<Setting>, n: nat, ok: nat -> bool)
    requires n <= |settings|
    ensures FirstError(settings, n, ok).None? <==> forall i :: 0 <= i < n ==> !FailsAt(settings, ok, i)
    ensures forall e :: FirstError(settings, n, ok) == Some(e) <==>
              exists i :: 0 <= i < n && e == RestoreFailed(i) && FailsAt(settings, ok, i)
                          && forall j :: i < j < n ==> !FailsAt(settings, ok, j)
  {
    if n > 0 {
      FirstErrorIs(settings, n - 1, ok);
      if !FailsAt(settings, ok, n - 1) {
        forall i | 0 <= i < n && FailsAt(settings, ok, i) ensures i < n - 1 {
        }
      }
    }
  }

  function Pushed(settings: seq<Setting>, setting: Setting, i: nat): seq<Setting>
    requires i <= |settings|
    decreases |settings| - i
  {
    if i == |settings| then settings + [setting]
    else if settings[i].key == setting.key then settings[i := setting]
    else Pushed(settings, setting, i + 1)
  }

  function StageOf(s: State, staged: bool, fault: Option<Fault>, lands: nat -> bool): (State, bool, Option<Error>)
    requires s.Known()
  {
    if staged then (s, true, Some(RedundantStaging))
    else if fault.Some? && fault.value.at < |s.settings|
    then (s.RolledBack(fault.value, lands), false, Some(ApplyFailed(fault.value.at)))
    else (s.Applied(|s.settings|), true, None)
  }

  // ---- Restoring undoes applying ----

  /** The first of the first `n` settings that writes `r`. */
  function FirstOn(settings: seq<Setting>, n: nat, r: Reg): Option<nat>
    requires n <= |settings|
  {
    if n == 0 then None
    else
      var before := FirstOn(settings, n - 1, r);
      if before.Some? then before else if settings[n - 1].reg == r then Some(n - 1) else None
  }

  lemma {:induction false} AppliedKeeps(s: State, n: nat, k: nat)
    requires n <= k < |s.settings| && s.Known()
    ensures s.Applied(n).settings[k] == s.settings[k]
  {
    if n > 0 {
      AppliedKeeps(s, n - 1, k);
    }
  }

  lemma {:induction false} AppliedRegs(s: State, n: nat, k: nat)
    requires n <= |s.settings| && k < |s.settings| && s.Known()
    ensures s.Applied(n).settings[k].(original := None) == s.settings[k].(original := None)
    ensures s.Applied(n).store.Keys == s.store.Keys
  {
    if n > 0 {
      AppliedRegs(s, n - 1, k);
      AppliedRegs(s, n - 1, n - 1);
    }
  }

  /** The settings applied to `s`, and signals written by anybody since. */
  function Meanwhile(s: State, n: nat, mid: map<Reg, Value>): (now: State)
    requires n <= |s.settings| && s.Known() && mid.Keys == s.store.Keys
    ensures now.Known() && |now.settings| == |s.settings|
  {
    assert forall k :: 0 <= k < |s.settings| ==> s.Applied(n).settings[k].reg in mid by {
      forall k | 0 <= k < |s.settings| ensures s.Applied(n).settings[k].reg in mid {
        AppliedRegs(s, n, k);
      }
    }
    State(s.Applied(n).settings, mid)
  }

  /** The signals once the last of the settings applied is restored. */
  function Back(s: State, n: nat, mid: map<Reg, Value>, landed: bool): (back: map<Reg, Value>)
    requires 0 < n <= |s.settings| && s.Known() && mid.Keys == s.store.Keys
    ensures back.Keys == s.store.Keys
  {
    var r := s.settings[n - 1].reg;
    AppliedRegs(s, n - 1, n - 1);
    if landed then mid[r := s.Applied(n - 1).store[r]] else mid
  }

  lemma RestoreLast(s: State, n: nat, mid: map<Reg, Value>, landed: bool)
    requires 0 < n <= |s.settings| && s.Known() && s.Unapplied() && mid.Keys == s.store.Keys
    ensures Meanwhile(s, n, mid).Restore(n - 1, landed) == Meanwhile(s, n - 1, Back(s, n, mid, landed))
  {
    AppliedKeeps(s, n - 1, n - 1);
    AppliedRegs(s, n - 1, n - 1);
    var a := s.Applied(n - 1);
    assert a.settings[n - 1].original.None?;
    assert s.Applied(n).settings[n - 1 := a.settings[n - 1]] == a.settings;
  }

  /** The first of the first `n` settings on `r` whose restore lands. */
  function FirstBack(settings: seq<Setting>, n: nat, lands: nat -> bool, r: Reg): (i: Option<nat>)
    requires n <= |settings|
    ensures i.Some? ==> i.value < n
  {
    if n == 0 then None
    else
      var before := FirstBack(settings, n - 1, lands, r);
      if before.Some? then before else if settings[n - 1].reg == r && lands(n - 1) then Some(n - 1) else None
  }

  /** What `r` holds once the first `n` settings are applied: what the last of
      them on it desires. */
  function Held(s: State, n: nat, r: Reg): Value
    requires n <= |s.settings| && r in s.store
  {
    if n == 0 then s.store[r]
    else if s.settings[n - 1].reg == r then s.settings[n - 1].desired
    else Held(s, n - 1, r)
  }

  /** What `r` holds once the first `n` settings are restored, if it held `now`:
      what it held before the first setting whose restore lands. */
  function Undone(s: State, n: nat, lands: nat -> bool, r: Reg, now: Value): Value
    requires n <= |s.settings| && r in s.store
  {
    var back := FirstBack(s.settings, n, lands, r);
    if back.Some? then Held(s, back.value, r) else now
  }

  lemma {:induction false} AppliedHolds(s: State, n: nat, r: Reg)
    requires n <= |s.settings| && s.Known() && r in s.store
    ensures s.Applied(n).store.Keys == s.store.Keys && s.Applied(n).store[r] == Held(s, n, r)
  {
    if n > 0 {
      AppliedHolds(s, n - 1, r);
      AppliedKeeps(s, n - 1, n - 1);
    }
  }

  /** Restoring the first `n` settings takes everything captured back, and
      leaves each signal as `Undone` says - whatever was written meanwhile. */
  lemma {:induction false} RestoreUndoes(s: State, n: nat, mid: map<Reg, Value>, lands: nat -> bool, r: Reg)
    requires n <= |s.settings| && s.Known() && s.Unapplied() && mid.Keys == s.store.Keys && r in mid
    ensures var back := Meanwhile(s, n, mid).Restored(n, lands);
            back.settings == s.settings && back.store.Keys == mid.Keys && back.store[r] == Undone(s, n, lands, r, mid[r])
    decreases n
  {
    if n > 0 {
      RestoreLast(s, n, mid, lands(n - 1));
      RestoreUndoes(s, n - 1, Back(s, n, mid, lands(n - 1)), lands, r);
      UndoneStep(s, n, mid, lands, r);
    }
  }

  lemma UndoneStep(s: State, n: nat, mid: map<Reg, Value>, lands: nat -> bool, r: Reg)
    requires 0 < n <= |s.settings| && s.Known() && mid.Keys == s.store.Keys && r in mid
    ensures Undone(s, n, lands, r, mid[r]) == Undone(s, n - 1, lands, r, Back(s, n, mid, lands(n - 1))[r])
  {
    AppliedHolds(s, n - 1, r);
  }

  /** So a signal with settings gets its value back if the restore of the first
      of them lands, and one without stays as it is. */
  lemma {:induction false} FirstRestored(s: State, n: nat, lands: nat -> bool, r: Reg, now: Value)
    requires n <= |s.settings| && r in s.store
    ensures var first := FirstOn(s.settings, n, r);
            && (first.None? ==>
                  && Held(s, n, r) == s.store[r] && FirstBack(s.settings, n, lands, r).None?
                  && Undone(s, n, lands, r, now) == now)
            && (first.Some? && lands(first.value) ==>
                  FirstBack(s.settings, n, lands, r) == first && Undone(s, n, lands, r, now) == s.store[r])
  {
    if n > 0 {
      FirstRestored(s, n - 1, lands, r, now);
    }
  }

  /** Restoring what was not applied, or was restored before, is nothing. */
  lemma {:induction false} RestoreOfNothing(s: State, n: nat, lands: nat -> bool)
    requires n <= |s.settings| && s.Known() && s.Unapplied()
    ensures s.Restored(n, lands) == s
  {
    if n > 0 {
      RestoreOfNothing(s, n - 1, lands);
    }
  }

  /** What a stage that fails leaves `r` at. */
  function Left(s: State, fault: Fault, lands: nat -> bool, r: Reg): Value
    requires fault.at < |s.settings| && r in s.store
  {
    var it := s.settings[fault.at];
    Undone(s, fault.at, lands, r, if fault.landed && r == it.reg then it.desired else Held(s, fault.at, r))
  }

  /** A stage that fails is rolled back signal by signal, whatever became of
      the failed write and of the rollback's own. No setting stays applied. */
  lemma FailedStageReturns(s: State, fault: Fault, lands: nat -> bool, r: Reg)
    requires s.Known() && s.Unapplied() && fault.at < |s.settings| && r in s.store
    ensures var back := s.RolledBack(fault, lands);
            back.settings == s.settings && back.store.Keys == s.store.Keys && back.store[r] == Left(s, fault, lands, r)
  {
    var n := fault.at;
    AppliedKeeps(s, n, n);
    AppliedRegs(s, n, n);
    AppliedHolds(s, n, r);
    var mid := s.Applied(n).Failed(fault).store;
    assert s.Applied(n).Failed(fault) == Meanwhile(s, n, mid);
    RestoreUndoes(s, n, mid, lands, r);
  }

  lemma FailedStageUnapplies(s: State, fault: Fault, lands: nat -> bool)
    requires s.Known() && s.Unapplied() && fault.at < |s.settings|
    ensures s.RolledBack(fault, lands).settings == s.settings
  {
    FailedStageReturns(s, fault, lands, s.settings[fault.at].reg);
  }

  /** Each signal is left at what it held before. */
  ghost predicate LeavesNothing(s: State, fault: Fault, lands: nat -> bool)
    requires fault.at < |s.settings|
  {
    forall r :: r in s.store ==> Left(s, fault, lands, r) == s.store[r]
  }

  /** A stage that fails leaves the device as it was exactly then. */
  lemma FailedStageLeavesNothing(s: State, fault: Fault, lands: nat -> bool)
    requires s.Known() && s.Unapplied() && fault.at < |s.settings|
    ensures s.RolledBack(fault, lands) == s <==> LeavesNothing(s, fault, lands)
  {
    FailedStageReturns(s, fault, lands, s.settings[fault.at].reg);
    var back := s.RolledBack(fault, lands);
    forall r | r in s.store ensures back.store[r] == Left(s, fault, lands, r) {
      FailedStageReturns(s, fault, lands, r);
    }
    if LeavesNothing(s, fault, lands) {
      assert back.store == s.store;
    }
  }

  /** Where the whole rollback lands, that is: the failed write did not land, or
      changed nothing, or its signal was also written by an earlier setting,
      whose restore undoes it. */
  lemma CleanRollback(s: State, fault: Fault, lands: nat -> bool)
    requires s.Known() && fault.at < |s.settings| && forall i :: 0 <= i < fault.at ==> lands(i)
    ensures var it := s.settings[fault.at];
            LeavesNothing(s, fault, lands) <==>
              !fault.landed || s.store[it.reg] == it.desired || FirstOn(s.settings, fault.at, it.reg).Some?
  {
    var n, it := fault.at, s.settings[fault.at];
    forall r | r in s.store
      ensures r != it.reg || !fault.landed || FirstOn(s.settings, n, r).Some? ==> Left(s, fault, lands, r) == s.store[r]
      ensures r == it.reg && fault.landed && FirstOn(s.settings, n, r).None? ==> Left(s, fault, lands, r) == it.desired
    {
      FirstRestored(s, n, lands, r, if fault.landed && r == it.reg then it.desired else Held(s, n, r));
      FirstOnIs(s.settings, n, r);
    }
  }

  lemma {:induction false} FirstOnIs(settings: seq<Setting>, n: nat, r: Reg)
    requires n <= |settings|
    ensures FirstOn(settings, n, r).Some? ==> FirstOn(settings, n, r).value < n
  {
    if n > 0 {
      FirstOnIs(settings, n - 1, r);
    }
  }

  /** One setting whose write is reported failed, and lands all the same. */
  lemma LandedWriteStays(reg: Reg, was: Value, desired: Value, lands: nat -> bool)
    requires was != desired
    ensures var s := State([Setting("gain", reg, desired, None)], map[reg := was]);
            s.Known() && s.RolledBack(Fault(0, true), lands).store == map[reg := desired]
  {
    var s := State([Setting("gain", reg, desired, None)], map[reg := was]);
    FailedStageReturns(s, Fault(0, true), lands, reg);
  }

  /** Two settings; applying the second fails, and so does taking the first
      back. */
  lemma FailedRollbackStays(a: Reg, b: Reg, was: Value, desired: Value, other: Value)
    requires a != b && was != desired
    ensures var s := State([Setting("gain", a, desired, None), Setting("mode", b, other, None)], map[a := was, b := other]);
            && s.Known() && var back := s.RolledBack(Fault(1, false), _ => false).store;
               a in back && back[a] == desired
  {
    var s := State([Setting("gain", a, desired, None), Setting("mode", b, other, None)], map[a := was, b := other]);
    FailedStageReturns(s, Fault(1, false), _ => false, a);
  }

  // ---- Whole runs ----

  /** `entry` is what the signals held when the device was last staged. */
  datatype System = System(s: State, staged: bool, entry: map<Reg, Value>)

  datatype Action =
    | Stage(fault: Option<Fault>, lands: nat -> bool)
    | Unstage(lands: nat -> bool)
    | Write(r: Reg, v: Value)
    | Push(setting: Setting)
    | Clear

  /** Settings are pushed and cleared only while unstaged, and address signals
      there are. Any write may fail, and land or not. */
  ghost predicate Enabled(x: System, a: Action) {
    match a
    case Stage(_, _) => true
    case Unstage(_) => true
    case Write(r, _) => r in x.s.store
    case Push(setting) => !x.staged && setting.reg in x.s.store && setting.original.None?
    case Clear => !x.staged
  }

  function Act(x: System, a: Action): System
    requires x.s.Known()
  {
    match a
    case Stage(fault, lands) =>
      var (s, staged, r) := StageOf(x.s, x.staged, fault, lands);
      System(s, staged, if r.None? then x.s.store else x.entry)
    case Unstage(lands) => x.(s := x.s.Restored(|x.s.settings|, lands), staged := false)
    case Write(r, v) => x.(s := x.s.(store := x.s.store[r := v]))
    case Push(setting) => x.(s := x.s.(settings := Pushed(x.s.settings, setting, 0)))
    case Clear => x.(s := x.s.(settings := []))
  }

  /** While staged, the captured values are those of the stage that was not
      rejected. */
  ghost predicate Holds(x: System) {
    && x.s.Known()
    && (if !x.staged then x.s.Unapplied()
        else
          var s := Entry(x);
          && s.Known() && s.Unapplied() && s.store.Keys == x.s.store.Keys
          && x.s == Meanwhile(s, |s.settings|, x.s.store))
  }

  /** The state the device was staged from. */
  function Entry(x: System): State {
    State(seq(|x.s.settings|, i requires 0 <= i < |x.s.settings| => x.s.settings[i].(original := None)), x.entry)
  }

  lemma EntryOfApplied(s: State)
    requires s.Known() && s.Unapplied()
    ensures Entry(System(s.Applied(|s.settings|), true, s.store)) == s
  {
    forall k | 0 <= k < |s.settings|
      ensures s.Applied(|s.settings|).settings[k].(original := None) == s.settings[k]
    {
      AppliedRegs(s, |s.settings|, k);
    }
    assert Entry(System(s.Applied(|s.settings|), true, s.store)).settings == s.settings;
  }

  lemma StageHolds(x: System, fault: Option<Fault>, lands: nat -> bool)
    requires Holds(x) && Enabled(x, Stage(fault, lands))
    ensures Holds(Act(x, Stage(fault, lands)))
  {
    if !x.staged {
      if fault.Some? && fault.value.at < |x.s.settings| {
        FailedStageUnapplies(x.s, fault.value, lands);
      } else {
        EntryOfApplied(x.s);
        AppliedKeys(x.s, |x.s.settings|);
      }
    }
  }

  lemma {:induction false} AppliedKeys(s: State, n: nat)
    requires n <= |s.settings| && s.Known()
    ensures s.Applied(n).store.Keys == s.store.Keys
  {
    if n > 0 {
      AppliedKeys(s, n - 1);
      AppliedRegs(s, n - 1, n - 1);
    }
  }

  /** What an unstage leaves, in a state a run can reach. */
  lemma UnstageReturns(x: System, lands: nat -> bool, r: Reg)
    requires Holds(x) && r in x.s.store
    ensures var back := x.s.Restored(|x.s.settings|, lands);
            var first := FirstOn(x.s.settings, |x.s.settings|, r);
            && back.Unapplied() && back.store.Keys == x.s.store.Keys
            && (!x.staged ==> back == x.s)
            && (x.staged ==>
                  && r in x.entry
                  && back.store[r] == Undone(Entry(x), |x.s.settings|, lands, r, x.s.store[r])
                  && (first.None? ==> back.store[r] == x.s.store[r])
                  && (first.Some? && lands(first.value) ==> back.store[r] == x.entry[r]))
  {
    if x.staged {
      RestoreUndoes(Entry(x), |x.s.settings|, x.s.store, lands, r);
      FirstRestored(Entry(x), |x.s.settings|, lands, r, x.s.store[r]);
      SameRegs(Entry(x).settings, x.s.settings, |x.s.settings|, r);
    } else {
      RestoreOfNothing(x.s, |x.s.settings|, lands);
    }
  }

  lemma {:induction false} SameRegs(a: seq<Setting>, b: seq<Setting>, n: nat, r: Reg)
    requires |a| == |b| && n <= |a| && forall k :: 0 <= k < n ==> a[k].reg == b[k].reg
    ensures FirstOn(a, n, r) == FirstOn(b, n, r)
  {
    if n > 0 {
      SameRegs(a, b, n - 1, r);
    }
  }

  lemma {:induction false} PushedHas(settings: seq<Setting>, setting: Setting, i: nat)
    requires i <= |settings|
    ensures forall s :: s in Pushed(settings, setting, i) ==> s in settings || s == setting
    decreases |settings| - i
  {
    if i < |settings| && settings[i].key != setting.key {
      PushedHas(settings, setting, i + 1);
    }
  }

  ghost predicate DistinctKeys(settings: seq<Setting>) {
    forall j, k :: 0 <= j < k < |settings| ==> settings[j].key != settings[k].key
  }

  /** There is one setting a key, the last one pushed. */
  lemma {:induction false} PushedIs(settings: seq<Setting>, setting: Setting, i: nat)
    requires DistinctKeys(settings) && i <= |settings|
    requires forall k :: 0 <= k < i ==> settings[k].key != setting.key
    ensures DistinctKeys(Pushed(settings, setting, i))
    ensures forall s :: s in Pushed(settings, setting, i) <==> s == setting || (s in settings && s.key != setting.key)
    ensures |Pushed(settings, setting, i)|
            == |settings| + if exists k :: 0 <= k < |settings| && settings[k].key == setting.key then 0 else 1
    ensures forall k :: 0 <= k < |settings| ==>
              Pushed(settings, setting, i)[k] == if settings[k].key == setting.key then setting else settings[k]
    decreases |settings| - i
  {
    if i == |settings| {
    } else if settings[i].key == setting.key {
      var all := settings[i := setting];
      assert all[i] == setting;
      forall s | s in settings && s.key != setting.key ensures s in all {
        var k :| 0 <= k < |settings| && settings[k] == s;
        assert all[k] == s;
      }
    } else {
      PushedIs(settings, setting, i + 1);
    }
  }

  lemma PushHolds(x: System, setting: Setting)
    requires Holds(x) && Enabled(x, Push(setting))
    ensures Holds(Act(x, Push(setting)))
  {
    PushedHas(x.s.settings, setting, 0);
    var all := Pushed(x.s.settings, setting, 0);
    forall i | 0 <= i < |all| ensures all[i].reg in x.s.store && all[i].original.None? {
      assert all[i] in x.s.settings || all[i] == setting;
    }
  }

  lemma UnstageHolds(x: System, lands: nat -> bool)
    requires Holds(x)
    ensures Holds(Act(x, Unstage(lands)))
  {
    if x.s.settings != [] {
      UnstageReturns(x, lands, x.s.settings[0].reg);
    }
  }

  lemma WriteHolds(x: System, r: Reg, v: Value)
    requires Holds(x) && Enabled(x, Write(r, v))
    ensures Holds(Act(x, Write(r, v)))
  {
    var x' := Act(x, Write(r, v));
    assert x'.s.store.Keys == x.s.store.Keys;
    assert Entry(x') == Entry(x);
  }

  lemma ActHolds(x: System, a: Action)
    requires Holds(x) && Enabled(x, a)
    ensures Holds(Act(x, a))
  {
    match a
    case Stage(fault, lands) => StageHolds(x, fault, lands);
    case Unstage(lands) => UnstageHolds(x, lands);
    case Write(r, v) => WriteHolds(x, r, v);
    case Push(setting) => PushHolds(x, setting);
    case Clear =>
  }

  ghost predicate Behaviour(run: seq<System>, actions: seq<Action>) {
    && |run| == |actions| + 1 && run[0].s.settings == [] && !run[0].staged
    && forall k :: 0 <= k < |actions| ==>
         run[k].s.Known() && Enabled(run[k], actions[k]) && run[k + 1] == Act(run[k], actions[k])
  }

  lemma {:induction false} BehaviourHolds(run: seq<System>, actions: seq<Action>, k: nat)
    requires Behaviour(run, actions) && k < |run|
    ensures Holds(run[k])
  {
    if k > 0 {
      BehaviourHolds(run, actions, k - 1);
      ActHolds(run[k - 1], actions[k - 1]);
    }
  }

  /** The settings pushed since they were last cleared. */
  function AsPushed(actions: seq<Action>, k: nat): seq<Setting>
    requires k <= |actions|
  {
    if k == 0 then []
    else match actions[k - 1]
      case Push(setting) => Pushed(AsPushed(actions, k - 1), setting, 0)
      case Clear => []
      case _ => AsPushed(actions, k - 1)
  }

  /** In every run the settings are those pushed, each with its key, signal and
      desired value; no stage and no unstage changes them. */
  lemma {:induction false} SettingsAsPushed(run: seq<System>, actions: seq<Action>, k: nat)
    requires Behaviour(run, actions) && k < |run|
    ensures Erased(run[k].s.settings) == Erased(AsPushed(actions, k))
  {
    if k > 0 {
      SettingsAsPushed(run, actions, k - 1);
      BehaviourHolds(run, actions, k - 1);
      var x, a := run[k - 1], actions[k - 1];
      match a {
        case Stage(fault, ok) => StageErased(x, fault, ok);
        case Unstage(ok) => RestoredErased(x.s, |x.s.settings|, ok);
        case Push(setting) =>
          PushedErased(x.s.settings, setting, 0);
          PushedErased(AsPushed(actions, k - 1), setting, 0);
        case _ =>
      }
    }
  }

  function Erased(settings: seq<Setting>): (r: seq<Setting>)
    ensures |r| == |settings|
  {
    seq(|settings|, i requires 0 <= i < |settings| => settings[i].(original := None))
  }

  lemma StageErased(x: System, fault: Option<Fault>, ok: nat -> bool)
    requires Holds(x)
    ensures Erased(Act(x, Stage(fault, ok)).s.settings) == Erased(x.s.settings)
  {
    if !x.staged {
      if fault.Some? && fault.value.at < |x.s.settings| {
        FailedStageUnapplies(x.s, fault.value, ok);
      } else {
        forall i | 0 <= i < |x.s.settings|
          ensures x.s.Applied(|x.s.settings|).settings[i].(original := None) == x.s.settings[i].(original := None)
        {
          AppliedRegs(x.s, |x.s.settings|, i);
        }
      }
    }
  }

  lemma {:induction false} RestoredErased(s: State, n: nat, ok: nat -> bool)
    requires n <= |s.settings| && s.Known()
    ensures Erased(s.Restored(n, ok).settings) == Erased(s.settings)
    decreases n
  {
    if n > 0 {
      RestoredErased(s.Restore(n - 1, ok(n - 1)), n - 1, ok);
    }
  }

  lemma {:induction false} PushedErased(settings: seq<Setting>, setting: Setting, i: nat)
    requires i <= |settings|
    ensures Erased(Pushed(settings, setting, i)) == Pushed(Erased(settings), setting.(original := None), i)
    decreases |settings| - i
  {
    if i < |settings| && settings[i].key != setting.key {
      PushedErased(settings, setting, i + 1);
    }
  }

  /** After a stage that succeeds each signal holds what the last setting on it
      desires, and one without settings what it held; and a value written by
      others stays till the next step. */
  lemma StageApplies(run: seq<System>, actions: seq<Action>, k: nat, r: Reg)
    requires Behaviour(run, actions) && k < |actions| && r in run[k].s.store
    ensures var x, x' := run[k], run[k + 1];
            && (actions[k].Stage? && !x.staged && x'.staged ==>
                  r in x'.s.store && x'.s.store[r] == Held(x.s, |x.s.settings|, r) && x'.entry == x.s.store)
            && (actions[k].Write? ==> x'.s.store == x.s.store[actions[k].r := actions[k].v])
            && (actions[k].Stage? && x.staged ==> x' == x)
  {
    if actions[k].Stage? {
      AppliedHolds(run[k].s, |run[k].s.settings|, r);
    }
  }

  /** In every run - whatever others write while the device is staged, and
      however often staging it again is tried - an unstage leaves each signal
      at what it held, as the device was staged, before the first setting on it
      whose restore lands, and any other as it is. That is its value at entry
      if the first setting on it is restored. */
  lemma UnstageReturnsToEntry(run: seq<System>, actions: seq<Action>, k: nat, r: Reg)
    requires Behaviour(run, actions) && k < |actions| && actions[k].Unstage? && run[k].staged && r in run[k].s.store
    ensures var x, n, lands := run[k], |run[k].s.settings|, actions[k].lands;
            var first := FirstOn(x.s.settings, n, r);
            && r in x.entry && r in run[k + 1].s.store
            && run[k + 1].s.store[r] == Undone(Entry(x), n, lands, r, x.s.store[r])
            && (first.None? ==> run[k + 1].s.store[r] == x.s.store[r])
            && (first.Some? && lands(first.value) ==> run[k + 1].s.store[r] == x.entry[r])
  {
    BehaviourHolds(run, actions, k);
    UnstageReturns(run[k], actions[k].lands, r);
  }

  /** A second unstage changes nothing. */
  lemma SecondUnstageIsNothing(run: seq<System>, actions: seq<Action>, k: nat)
    requires Behaviour(run, actions) && k < |actions| && actions[k].Unstage? && !run[k].staged
    ensures run[k + 1] == run[k]
  {
    BehaviourHolds(run, actions, k);
    RestoreOfNothing(run[k].s, |run[k].s.settings|, actions[k].lands);
  }

  /** In every run, whatever its rollback meets: a stage that fails changes
      nothing if and only if each signal is left at what it held. */
  lemma FailedStageIsUndone(run: seq<System>, actions: seq<Action>, k: nat)
    requires Behaviour(run, actions) && k < |actions| && actions[k].Stage? && !run[k].staged
    requires actions[k].fault.Some? && actions[k].fault.value.at < |run[k].s.settings|
    ensures run[k + 1] == run[k] <==> LeavesNothing(run[k].s, actions[k].fault.value, actions[k].lands)
  {
    BehaviourHolds(run, actions, k);
    FailedStageLeavesNothing(run[k].s, actions[k].fault.value, actions[k].lands);
  }
}
