/** A detector's prepare, kickoff and complete. What the control and the
    writers answer is an input of each operation. */
module Detectors {
  import opened Prelude

  type Keys = map<string, string>

  datatype TriggerInfo = TriggerInfo(numberOfEvents: nat, collectionsPerEvent: nat) {
    function Collections(): nat {
      numberOfEvents * collectionsPerEvent
    }
  }

  const DEFAULT_INFO := TriggerInfo(1, 1)

  datatype PrepareCtx = PrepareCtx(info: TriggerInfo, baseline: nat, dataKeys: Keys, singles: nat) {
    /** Where the prepared collections end. */
    function End(): nat {
      baseline + info.Collections()
    }
  }

  datatype KickoffCtx = KickoffCtx(written: nat, requested: nat, isLast: bool) {
    function Target(): nat {
      written + requested
    }
  }

  /** What a writer was last opened for, and the keys it reported then. */
  datatype Open = Open(perEvent: nat, keys: Keys)

  datatype Error =
    | ControlFailed
    | StopFailed
    | OpenFailed
    | Disagree
    | NotPrepared
    | NotStreamable
    | BeyondPrepared
    | MultipleEvents
    | NotKickedOff
    | WriterClosed
    | TimedOut
    | IdleFailed
    | DisarmFailed
    | ArmFailed

  /** An attempt to open every writer and set up the single data logics; one
      that fails may have opened some of the writers. A writer opened again may
      start over: `written'` are the indices after. */
  datatype Attempt = Attempt(ok: bool, opened': seq<Option<Open>>, written': seq<nat>) {
    ghost predicate For(info: TriggerInfo, writers: nat) {
      && |opened'| == writers && |written'| == writers
      && (ok ==> forall w :: 0 <= w < writers ==> opened'[w].Some? && opened'[w].value.perEvent == info.collectionsPerEvent)
    }
  }

  datatype Answers = Answers(controlOk: bool, stopOk: bool, attempt: Attempt)

  /** `written` and `opens` are the writers', one entry each; `running` when the
      last attempt to open them succeeded and they were not told to stop since. */
  datatype Detector = Detector(
    prepared: Option<PrepareCtx>,
    kickedOff: Option<KickoffCtx>,
    eventsToKickoff: nat,
    written: seq<nat>,
    opens: seq<Option<Open>>,
    running: bool,
    singleLogics: nat)

  /** The writers' keys together; a later writer's win. */
  function Merged(opens: seq<Option<Open>>): Keys {
    if opens == [] then map[]
    else
      var last := opens[|opens| - 1];
      Merged(opens[..|opens| - 1]) + if last.Some? then last.value.keys else map[]
  }

  predicate AllTheSame(written: seq<nat>) {
    forall i :: 0 <= i < |written| ==> written[i] == written[0]
  }

  /** The index all writers are at; an error when they differ. */
  function CollectionsWritten(written: seq<nat>): Result<nat, Error> {
    if written == [] then Ok(0) else if AllTheSame(written) then Ok(written[0]) else Err(Disagree)
  }

  function PrepareDataLogics(d: Detector, info: TriggerInfo, attempt: Attempt): (Detector, Result<(Keys, nat), Error>) {
    (d.(opens := attempt.opened', written := attempt.written', running := attempt.ok),
     if attempt.ok then Ok((Merged(attempt.opened'), if info.Collections() == 1 then d.singleLogics else 0))
     else Err(OpenFailed))
  }

  /** The prepare is taken before the data logics are opened again, so that a
      failure leaves none behind. */
  function Reprepared(d: Detector, info: TriggerInfo, answers: Answers): (Detector, Result<PrepareCtx, Error>) {
    var previous := d.prepared;
    var taken := d.(prepared := None);
    var (d', keys) :=
      if previous.Some? && previous.value.info.collectionsPerEvent == info.collectionsPerEvent then
        (taken, Ok((previous.value.dataKeys, previous.value.singles)))
      else if previous.Some? && !answers.stopOk then (taken.(running := false), Err(StopFailed))
      else PrepareDataLogics(taken, info, answers.attempt);
    if keys.Err? then (d', Err(keys.error))
    else
      var written := CollectionsWritten(d'.written);
      if written.Err? then (d', Err(written.error))
      else
        var ctx := PrepareCtx(info, written.value, keys.value.0, keys.value.1);
        (d'.(prepared := Some(ctx)), Ok(ctx))
  }

  function PrepareFor(d: Detector, info: TriggerInfo, answers: Answers): (Detector, Result<PrepareCtx, Error>) {
    if !answers.controlOk then (d, Err(ControlFailed))
    else
      var (d', ctx) := Reprepared(d, info, answers);
      if ctx.Err? then (d', ctx) else (d'.(eventsToKickoff := info.numberOfEvents), ctx)
  }

  function StageDetector(d: Detector, disarmed: bool): Detector {
    if disarmed then d.(prepared := None, kickedOff := None, eventsToKickoff := 0, running := false) else d
  }

  /** The prepare and the kickoff stay. */
  function UnstageDetector(d: Detector, disarmed: bool): Detector {
    if disarmed then d.(running := false) else d
  }

  function KickOff(d: Detector): (Detector, Result<KickoffCtx, Error>) {
    if d.prepared.None? then (d, Err(NotPrepared))
    else if d.written == [] then (d, Err(NotStreamable))
    else
      var written := CollectionsWritten(d.written);
      if written.Err? then (d, Err(written.error))
      else
        var requested := d.eventsToKickoff * d.prepared.value.info.collectionsPerEvent;
        var last := written.value + requested;
        if last > d.prepared.value.End() then (d, Err(BeyondPrepared))
        else
          var kickoff := KickoffCtx(written.value, requested, last == d.prepared.value.End());
          (d.(kickedOff := Some(kickoff)), Ok(kickoff))
  }

  /** The prepare a trigger goes by. */
  function TriggerPrepare(d: Detector, answers: Answers): (Detector, Result<PrepareCtx, Error>) {
    if d.prepared.None? then PrepareFor(d, DEFAULT_INFO, answers)
    else if d.prepared.value.info.numberOfEvents != 1 then (d, Err(MultipleEvents))
    else Reprepared(d, d.prepared.value.info, answers)
  }

  // ---- Waiting for the writers ----

  /** What ended a wait for a change of an index. */
  datatype Event = Changed | Closed | Late

  /** One round: the indices seen, and what happened after if they fell short. */
  datatype Look = Look(written: seq<nat>, next: Event)

  /** `Waiting` when no more rounds are given. */
  datatype Outcome = Reached | Failed(error: Error) | Waiting

  predicate AllReach(written: seq<nat>, target: nat) {
    forall w :: 0 <= w < |written| ==> written[w] >= target
  }

  function Least(written: seq<nat>): (m: nat)
    requires written != []
    ensures m in written && forall w :: 0 <= w < |written| ==> m <= written[w]
  {
    var last := written[|written| - 1];
    if |written| == 1 then last
    else
      var m := Least(written[..|written| - 1]);
      if m <= last then m else last
  }

  /** The first round that settles the wait. */
  ghost predicate SettledAt(looks: seq<Look>, target: nat, k: nat) {
    && k < |looks|
    && (forall j :: 0 <= j < k ==> !AllReach(looks[j].written, target) && looks[j].next.Changed?)
    && (AllReach(looks[k].written, target) || !looks[k].next.Changed?)
  }

  /** The wait, round by round. */
  function Wait(writers: nat, target: nat, looks: seq<Look>): Outcome {
    if writers == 0 then Reached
    else if looks == [] then Waiting
    else if AllReach(looks[0].written, target) then Reached
    else match looks[0].next
      case Changed => Wait(writers, target, looks[1..])
      case Closed => Failed(WriterClosed)
      case Late => Failed(TimedOut)
  }

  /** Wait until every writer has reached `target`. */
  method WaitForIndex(writers: nat, target: nat, looks: seq<Look>) returns (outcome: Outcome)
    requires forall k :: 0 <= k < |looks| ==> |looks[k].written| == writers
    ensures outcome == Wait(writers, target, looks)
  {
    var rest := looks;
    while writers > 0 && rest != []
      invariant forall k :: 0 <= k < |rest| ==> |rest[k].written| == writers
      invariant Wait(writers, target, rest) == Wait(writers, target, looks)
      decreases |rest|
    {
      if Least(rest[0].written) >= target {
        return Reached;
      }
      match rest[0].next
      case Changed => rest := rest[1..];
      case Closed => return Failed(WriterClosed);
      case Late => return Failed(TimedOut);
    }
    outcome := if writers == 0 then Reached else Waiting;
  }

  class StandardDetector {
    var prepared: Option<PrepareCtx>
    var kickedOff: Option<KickoffCtx>
    var eventsToKickoff: nat
    var written: seq<nat>
    var opens: seq<Option<Open>>
    var running: bool
    const singleLogics: nat

    function View(): Detector
      reads this
    {
      Detector(prepared, kickedOff, eventsToKickoff, written, opens, running, singleLogics)
    }

    constructor (writers: nat, singleLogics: nat)
      ensures View() == NewDetector(writers, singleLogics)
      ensures prepared.None? && kickedOff.None? && eventsToKickoff == 0 && !running
      ensures this.singleLogics == singleLogics && |written| == |opens| == writers
    {
      prepared, kickedOff, eventsToKickoff, running := None, None, 0, false;
      written, opens := seq(writers, _ => 0), seq(writers, _ => None);
      this.singleLogics := singleLogics;
    }

    method UpdatePrepareContext(info: TriggerInfo, answers: Answers) returns (r: Result<PrepareCtx, Error>)
      modifies this
      ensures (View(), r) == Reprepared(old(View()), info, answers)
    {
      var previous := prepared;
      prepared := None;
      var keys: Keys, singles: nat;
      if previous.Some? && previous.value.info.collectionsPerEvent == info.collectionsPerEvent {
        keys, singles := previous.value.dataKeys, previous.value.singles;
      } else {
        if previous.Some? {
          running := false;
          if !answers.stopOk {
            return Err(StopFailed);
          }
        }
        opens, written, running := answers.attempt.opened', answers.attempt.written', answers.attempt.ok;
        if !answers.attempt.ok {
          return Err(OpenFailed);
        }
        keys, singles := Merged(opens), if info.Collections() == 1 then singleLogics else 0;
      }
      var now := CollectionsWritten(written);
      if now.Err? {
        return Err(now.error);
      }
      var ctx := PrepareCtx(info, now.value, keys, singles);
      prepared := Some(ctx);
      r := Ok(ctx);
    }

    method Prepare(info: TriggerInfo, answers: Answers) returns (r: Result<PrepareCtx, Error>)
      modifies this
      ensures (View(), r) == PrepareFor(old(View()), info, answers)
    {
      if !answers.controlOk {
        return Err(ControlFailed);
      }
      r := UpdatePrepareContext(info, answers);
      if r.Ok? {
        eventsToKickoff := info.numberOfEvents;
      }
    }

    /** The contexts are gone even when the data logics fail to stop. */
    method Stage(disarmed: bool, stopOk: bool) returns (failed: Option<Error>)
      modifies this
      ensures View() == StageDetector(old(View()), disarmed)
      ensures failed == if !disarmed then Some(DisarmFailed) else if !stopOk then Some(StopFailed) else None
    {
      if !disarmed {
        return Some(DisarmFailed);
      }
      prepared, kickedOff, eventsToKickoff, running := None, None, 0, false;
      failed := if stopOk then None else Some(StopFailed);
    }

    method Unstage(disarmed: bool, stopOk: bool) returns (failed: Option<Error>)
      modifies this`running
      ensures View() == UnstageDetector(old(View()), disarmed)
      ensures failed == if !disarmed then Some(DisarmFailed) else if !stopOk then Some(StopFailed) else None
    {
      if !disarmed {
        return Some(DisarmFailed);
      }
      running := false;
      failed := if stopOk then None else Some(StopFailed);
    }

    method Trigger(answers: Answers, armOk: bool, looks: seq<Look>, idleOk: bool) returns (outcome: Outcome)
      requires forall k :: 0 <= k < |looks| ==> |looks[k].written| == |written|
      requires |answers.attempt.opened'| == |answers.attempt.written'| == |written|
      modifies this
      ensures View() == TriggerPrepare(old(View()), answers).0
      ensures outcome == Triggered(old(View()), answers, armOk, looks, idleOk)
    {
      var ctx: Result<PrepareCtx, Error>;
      if prepared.None? {
        ctx := Prepare(DEFAULT_INFO, answers);
      } else if prepared.value.info.numberOfEvents != 1 {
        ctx := Err(MultipleEvents);
      } else {
        ctx := UpdatePrepareContext(prepared.value.info, answers);
      }
      if ctx.Err? {
        return Failed(ctx.error);
      }
      if !armOk {
        return Failed(ArmFailed);
      }
      outcome := WaitForIndex(|written|, ctx.value.baseline + ctx.value.info.collectionsPerEvent, looks);
      if outcome == Reached && !idleOk {
        outcome := Failed(IdleFailed);
      }
    }

    method PlanKickoff() returns (r: Result<KickoffCtx, Error>)
      modifies this
      ensures (View(), r) == KickOff(old(View()))
    {
      if prepared.None? {
        return Err(NotPrepared);
      }
      var ctx := prepared.value;
      if written == [] {
        return Err(NotStreamable);
      }
      var now := CollectionsWritten(written);
      if now.Err? {
        return Err(now.error);
      }
      var requested := eventsToKickoff * ctx.info.collectionsPerEvent;
      var last := now.value + requested;
      if last > ctx.End() {
        return Err(BeyondPrepared);
      }
      var kickoff := KickoffCtx(now.value, requested, last == ctx.End());
      kickedOff := Some(kickoff);
      r := Ok(kickoff);
    }

    /** What is asked for is recorded even when arming then fails. */
    method Kickoff(armOk: bool) returns (failed: Option<Error>)
      modifies this
      ensures View() == KickOff(old(View())).0
      ensures failed == if KickOff(old(View())).1.Err? then Some(KickOff(old(View())).1.error)
                        else if armOk then None else Some(ArmFailed)
    {
      var kickoff := PlanKickoff();
      failed := if kickoff.Err? then Some(kickoff.error) else if armOk then None else Some(ArmFailed);
    }

    /** `idle` tells whether the hardware's idle was awaited. */
    method Complete(looks: seq<Look>, idleOk: bool) returns (outcome: Outcome, idle: bool)
      requires forall k :: 0 <= k < |looks| ==> |looks[k].written| == |written|
      ensures (outcome, idle) == Completed(View(), looks, idleOk)
    {
      if kickedOff.None? {
        return Failed(NotKickedOff), false;
      }
      var kickoff := kickedOff.value;
      outcome := WaitForIndex(|written|, kickoff.Target(), looks);
      idle := outcome == Reached && kickoff.isLast;
      if idle && !idleOk {
        outcome := Failed(IdleFailed);
      }
    }
  }

  function NewDetector(writers: nat, singleLogics: nat): Detector {
    Detector(None, None, 0, seq(writers, _ => 0), seq(writers, _ => None), false, singleLogics)
  }

  /** A trigger waits for one event past the collections written now. */
  function Triggered(d: Detector, answers: Answers, armOk: bool, looks: seq<Look>, idleOk: bool): Outcome {
    var ctx := TriggerPrepare(d, answers).1;
    if ctx.Err? then Failed(ctx.error)
    else if !armOk then Failed(ArmFailed)
    else
      var outcome := Wait(|d.written|, ctx.value.baseline + ctx.value.info.collectionsPerEvent, looks);
      if outcome == Reached && !idleOk then Failed(IdleFailed) else outcome
  }

  function Completed(d: Detector, looks: seq<Look>, idleOk: bool): (Outcome, bool) {
    if d.kickedOff.None? then (Failed(NotKickedOff), false)
    else
      var outcome := Wait(|d.written|, d.kickedOff.value.Target(), looks);
      if outcome == Reached && d.kickedOff.value.isLast then (if idleOk then Reached else Failed(IdleFailed), true)
      else (outcome, false)
  }

  lemma {:induction false} WaitSettles(writers: nat, target: nat, looks: seq<Look>)
    requires writers > 0
    ensures Wait(writers, target, looks) == Reached ==>
              exists k: nat :: SettledAt(looks, target, k) && AllReach(looks[k].written, target)
    ensures Wait(writers, target, looks).Failed? ==>
              exists k: nat :: SettledAt(looks, target, k) && !AllReach(looks[k].written, target)
                          && Wait(writers, target, looks) == Failed(if looks[k].next.Closed? then WriterClosed else TimedOut)
    ensures Wait(writers, target, looks) == Waiting ==>
              forall k :: 0 <= k < |looks| ==> !AllReach(looks[k].written, target) && looks[k].next.Changed?
  {
    if looks == [] {
    } else if AllReach(looks[0].written, target) || !looks[0].next.Changed? {
      assert SettledAt(looks, target, 0);
    } else {
      WaitSettles(writers, target, looks[1..]);
      forall k: nat | SettledAt(looks[1..], target, k) ensures SettledAt(looks, target, k + 1) {
        assert looks[1..][k] == looks[k + 1];
        forall j | 0 <= j < k + 1 ensures !AllReach(looks[j].written, target) && looks[j].next.Changed? {
          assert j > 0 ==> looks[1..][j - 1] == looks[j];
        }
      }
    }
  }

  /** A wait ends well exactly when some round sees all writers at the target
      before a writer closes or is late. */
  lemma {:induction false} WaitIff(writers: nat, target: nat, looks: seq<Look>)
    requires writers > 0
    ensures Wait(writers, target, looks) == Reached <==>
              exists k: nat :: SettledAt(looks, target, k) && AllReach(looks[k].written, target)
    ensures Wait(writers, target, looks).Failed? <==>
              exists k: nat :: SettledAt(looks, target, k) && !AllReach(looks[k].written, target)
  {
    WaitSettles(writers, target, looks);
    forall j: nat, k: nat | SettledAt(looks, target, j) && SettledAt(looks, target, k) ensures j == k {
      SettledOnce(looks, target, j, k);
    }
  }

  lemma SettledOnce(looks: seq<Look>, target: nat, j: nat, k: nat)
    requires SettledAt(looks, target, j) && SettledAt(looks, target, k)
    ensures j == k
  {
  }

  // ---- What is prepared, triggered and kicked off ----

  /** The data logics can stay as they are. */
  predicate Suits(previous: Option<PrepareCtx>, info: TriggerInfo) {
    previous.Some? && previous.value.info.collectionsPerEvent == info.collectionsPerEvent
  }

  /** All writers are at one index. */
  ghost predicate Agree(written: seq<nat>) {
    forall v, w :: 0 <= v < |written| && 0 <= w < |written| ==> written[v] == written[w]
  }

  /** `ctx` is for `info`, from where every writer is now. */
  ghost predicate FromHere(ctx: PrepareCtx, info: TriggerInfo, written: seq<nat>) {
    && ctx.info == info
    && (forall w :: 0 <= w < |written| ==> written[w] == ctx.baseline)
    && (written == [] ==> ctx.baseline == 0)
  }

  /** The writers are as they were, or as the attempt to open them left them. */
  ghost predicate Opened(d: Detector, d': Detector, info: TriggerInfo, answers: Answers) {
    if Suits(d.prepared, info) then d'.opens == d.opens && d'.written == d.written && d'.running == d.running
    else if d.prepared.Some? && !answers.stopOk then d'.opens == d.opens && d'.written == d.written && !d'.running
    else d'.opens == answers.attempt.opened' && d'.written == answers.attempt.written' && d'.running == answers.attempt.ok
  }

  /** A context is made if and only if the writers are open as they should be
      and agree, and is recorded; it starts where every writer is. Otherwise no
      prepare is left, and the error tells why. Single data logics take part in
      a single collection only, as the writers were last opened for. */
  lemma ReprepareStartsHere(d: Detector, info: TriggerInfo, answers: Answers)
    ensures var (d', r) := Reprepared(d, info, answers);
            && Opened(d, d', info, answers)
            && d'.kickedOff == d.kickedOff && d'.eventsToKickoff == d.eventsToKickoff && d'.singleLogics == d.singleLogics
            && (r.Ok? <==> (Suits(d.prepared, info) || ((d.prepared.Some? ==> answers.stopOk) && answers.attempt.ok))
                           && Agree(d'.written))
            && (r.Ok? ==>
                  && d'.prepared == Some(r.value) && FromHere(r.value, info, d'.written)
                  && r.value.singles == (if Suits(d.prepared, info) then d.prepared.value.singles
                                         else if info.numberOfEvents == 1 && info.collectionsPerEvent == 1 then d.singleLogics
                                         else 0))
            && (r.Err? ==>
                  && d'.prepared.None?
                  && (r.error == StopFailed <==> !Suits(d.prepared, info) && d.prepared.Some? && !answers.stopOk)
                  && (r.error == Disagree <==>
                        (Suits(d.prepared, info) || ((d.prepared.Some? ==> answers.stopOk) && answers.attempt.ok)))
                  && r.error in {StopFailed, OpenFailed, Disagree})
  {
    OneCollection(info.numberOfEvents, info.collectionsPerEvent);
  }

  lemma OneCollection(events: nat, perEvent: nat)
    ensures events * perEvent == 1 <==> events == 1 && perEvent == 1
  {
    if events > 1 && perEvent > 0 {
      assert events * perEvent >= events;
    }
    if perEvent > 1 && events > 0 {
      assert events * perEvent >= perEvent;
    }
  }

  /** A prepare lets the next kickoff have all of its events. A control that
      fails, fails it first and changes nothing. */
  lemma PrepareStartsHere(d: Detector, info: TriggerInfo, answers: Answers)
    ensures var (d', r) := PrepareFor(d, info, answers);
            && (!answers.controlOk ==> d' == d && r == Err(ControlFailed))
            && (answers.controlOk ==>
                  && r == Reprepared(d, info, answers).1
                  && d'.(eventsToKickoff := 0) == Reprepared(d, info, answers).0.(eventsToKickoff := 0))
            && d'.eventsToKickoff == (if r.Ok? then info.numberOfEvents else d.eventsToKickoff)
            && (r.Ok? ==> d'.prepared == Some(r.value) && FromHere(r.value, info, d'.written))
  {
  }

  /** A kickoff that is not refused asks for all the events set, from where
      every writer is, and is the last if that is where the prepare ends. */
  lemma KickoffIs(d: Detector)
    ensures var (d', r) := KickOff(d);
            && (r.Ok? <==>
                  && d.prepared.Some? && d.written != [] && Agree(d.written)
                  && d.written[0] + d.eventsToKickoff * d.prepared.value.info.collectionsPerEvent <= d.prepared.value.End())
            && (r.Ok? ==>
                  && d'.kickedOff == Some(r.value)
                  && (forall w :: 0 <= w < |d.written| ==> d.written[w] == r.value.written)
                  && r.value.requested == d.eventsToKickoff * d.prepared.value.info.collectionsPerEvent
                  && (r.value.isLast <==> r.value.written + r.value.requested == d.prepared.value.End()))
            && (r.Err? ==>
                  && d' == d
                  && (r.error == NotPrepared <==> d.prepared.None?)
                  && (r.error == NotStreamable <==> d.prepared.Some? && d.written == [])
                  && (r.error == Disagree <==> d.prepared.Some? && !Agree(d.written))
                  && r.error in {NotPrepared, NotStreamable, Disagree, BeyondPrepared})
            && d'.(kickedOff := None) == d.(kickedOff := None)
  {
  }

  /** A kickoff right after a prepare asks for the whole of it. */
  lemma WholePrepare(d: Detector, info: TriggerInfo, answers: Answers)
    requires PrepareFor(d, info, answers).1.Ok? && PrepareFor(d, info, answers).0.written != []
    ensures var (d', r) := KickOff(PrepareFor(d, info, answers).0);
            r.Ok? && r.value.requested == info.numberOfEvents * info.collectionsPerEvent && r.value.isLast
  {
    var ready := PrepareFor(d, info, answers).0;
    PrepareStartsHere(d, info, answers);
    KickoffIs(ready);
    assert Agree(ready.written);
  }

  /** A stage that disarms leaves nothing to kick off, to complete or to go by:
      what a trigger then goes by is the implicit prepare. */
  lemma StageForgets(d: Detector, answers: Answers, looks: seq<Look>, idleOk: bool)
    ensures var d' := StageDetector(d, true);
            && d'.written == d.written && d'.opens == d.opens && d'.singleLogics == d.singleLogics && !d'.running
            && d'.eventsToKickoff == 0
            && KickOff(d').1 == Err(NotPrepared)
            && Completed(d', looks, idleOk) == (Failed(NotKickedOff), false)
            && TriggerPrepare(d', answers) == PrepareFor(d', TriggerInfo(1, 1), answers)
    ensures StageDetector(d, false) == d
  {
  }

  /** An unstage leaves them, and a trigger goes by its own prepare, or by one
      for a single event, which it starts again where the writers are; it is
      refused for more. */
  lemma TriggerGoesBy(d: Detector, answers: Answers)
    ensures UnstageDetector(d, true) == d.(running := false) && UnstageDetector(d, false) == d
    ensures d.prepared.None? ==> TriggerPrepare(d, answers) == PrepareFor(d, TriggerInfo(1, 1), answers)
    ensures d.prepared.Some? && d.prepared.value.info.numberOfEvents == 1 ==>
              TriggerPrepare(d, answers) == Reprepared(d, d.prepared.value.info, answers)
    ensures d.prepared.Some? && d.prepared.value.info.numberOfEvents != 1 ==>
              TriggerPrepare(d, answers) == (d, Err(MultipleEvents))
  {
  }

  /** Every writer is `n` past where it was at `start`. */
  predicate Past(written: seq<nat>, start: seq<nat>, n: nat)
    requires |written| == |start|
  {
    forall w :: 0 <= w < |written| ==> written[w] >= start[w] + n
  }

  /** Round `k` is the first to see that, and all writers were there till then. */
  predicate PastFirst(looks: seq<Look>, start: seq<nat>, n: nat, k: nat)
    requires k < |looks| && forall j :: 0 <= j < |looks| ==> |looks[j].written| == |start|
  {
    && Past(looks[k].written, start, n)
    && forall j :: 0 <= j < k ==> !Past(looks[j].written, start, n) && looks[j].next.Changed?
  }

  /** A trigger ends well if and only if it was prepared, armed and idle in the
      end, and some round saw every writer past its index at the trigger by the
      collections of one event, before any writer closed or was late. */
  lemma TriggerIff(d: Detector, answers: Answers, armOk: bool, looks: seq<Look>, idleOk: bool)
    requires |answers.attempt.written'| == |d.written| && forall k :: 0 <= k < |looks| ==> |looks[k].written| == |d.written|
    ensures var (d', ctx) := TriggerPrepare(d, answers);
            && |d'.written| == |d.written|
            && (Triggered(d, answers, armOk, looks, idleOk) == Reached <==>
                  && ctx.Ok? && armOk && idleOk
                  && (d.written == [] ||
                      exists k :: 0 <= k < |looks| && PastFirst(looks, d'.written, ctx.value.info.collectionsPerEvent, k)))
  {
    var (d', ctx) := TriggerPrepare(d, answers);
    if ctx.Ok? && d.written != [] {
      var n := ctx.value.info.collectionsPerEvent;
      WaitIff(|d.written|, ctx.value.baseline + n, looks);
      TriggerStartsHere(d, answers);
      forall k | 0 <= k < |looks|
        ensures Past(looks[k].written, d'.written, n) <==> AllReach(looks[k].written, ctx.value.baseline + n)
      {
        PastBaseline(looks[k].written, d'.written, ctx.value.baseline, n);
      }
      SettledByPast(looks, d'.written, ctx.value.baseline, n);
    }
  }

  lemma TriggerStartsHere(d: Detector, answers: Answers)
    requires TriggerPrepare(d, answers).1.Ok?
    ensures var (d', ctx) := TriggerPrepare(d, answers); FromHere(ctx.value, ctx.value.info, d'.written)
  {
  }

  lemma PastBaseline(written: seq<nat>, start: seq<nat>, baseline: nat, n: nat)
    requires |written| == |start| && forall w :: 0 <= w < |start| ==> start[w] == baseline
    ensures Past(written, start, n) <==> AllReach(written, baseline + n)
  {
  }

  lemma SettledByPast(looks: seq<Look>, start: seq<nat>, baseline: nat, n: nat)
    requires forall k :: 0 <= k < |looks| ==> |looks[k].written| == |start|
    requires forall k :: 0 <= k < |looks| ==> (Past(looks[k].written, start, n) <==> AllReach(looks[k].written, baseline + n))
    ensures (exists k: nat :: SettledAt(looks, baseline + n, k) && AllReach(looks[k].written, baseline + n)) <==>
            exists k :: 0 <= k < |looks| && PastFirst(looks, start, n, k)
  {
    if k: nat :| SettledAt(looks, baseline + n, k) && AllReach(looks[k].written, baseline + n) {
      assert PastFirst(looks, start, n, k);
    }
    if k :| 0 <= k < |looks| && PastFirst(looks, start, n, k) {
      assert SettledAt(looks, baseline + n, k);
    }
  }

  /** What stops a trigger first is what it reports. */
  lemma TriggerFails(d: Detector, answers: Answers, armOk: bool, looks: seq<Look>, idleOk: bool)
    ensures var ctx, r := TriggerPrepare(d, answers).1, Triggered(d, answers, armOk, looks, idleOk);
            && (ctx.Err? ==> r == Failed(ctx.error))
            && (r == Failed(ArmFailed) <==> ctx.Ok? && !armOk)
            && (r == Failed(IdleFailed) ==> ctx.Ok? && armOk && !idleOk)
            && (ctx.Ok? && armOk && r != Reached && r != Failed(IdleFailed) ==>
                  r == Wait(|d.written|, ctx.value.baseline + ctx.value.info.collectionsPerEvent, looks))
  {
    var ctx := TriggerPrepare(d, answers).1;
    if ctx.Ok? {
      WaitEnds(|d.written|, ctx.value.baseline + ctx.value.info.collectionsPerEvent, looks);
    } else {
      assert ctx.error != ArmFailed && ctx.error != IdleFailed;
    }
  }

  lemma {:induction false} WaitEnds(writers: nat, target: nat, looks: seq<Look>)
    ensures Wait(writers, target, looks) in {Reached, Waiting, Failed(WriterClosed), Failed(TimedOut)}
  {
    if writers > 0 && looks != [] {
      WaitEnds(writers, target, looks[1..]);
    }
  }

  /** A complete ends well if and only if there was a kickoff, some round saw
      every writer at its target in time, and where the kickoff was the last
      the hardware idled. */
  lemma CompleteIff(d: Detector, looks: seq<Look>, idleOk: bool)
    ensures var (outcome, idle) := Completed(d, looks, idleOk);
            && (outcome == Reached <==>
                  && d.kickedOff.Some? && (d.kickedOff.value.isLast ==> idleOk)
                  && (d.written == [] || exists k: nat :: SettledAt(looks, d.kickedOff.value.Target(), k)
                                                        && AllReach(looks[k].written, d.kickedOff.value.Target())))
            && (outcome == Failed(IdleFailed) <==> idle && !idleOk)
            && (idle ==> d.kickedOff.Some? && d.kickedOff.value.isLast && outcome in {Reached, Failed(IdleFailed)})
            && (outcome == Failed(NotKickedOff) <==> d.kickedOff.None?)
            && (d.kickedOff.Some? ==>
                  d.kickedOff.value.Target() == d.kickedOff.value.written + d.kickedOff.value.requested)
  {
    if d.kickedOff.Some? && d.written != [] {
      WaitIff(|d.written|, d.kickedOff.value.Target(), looks);
      WaitSettles(|d.written|, d.kickedOff.value.Target(), looks);
    }
  }

  // ---- Whole runs ----

  /** `requests` are the collections asked for by the kickoffs since the last
      prepare, `settled` whether the last one was completed. */
  datatype System = System(d: Detector, requests: seq<KickoffCtx>, settled: bool)

  datatype Action =
    | Stage(disarmed: bool)
    | Unstage(disarmed: bool)
    | Prepare(info: TriggerInfo, answers: Answers)
    | Trigger(answers: Answers)
    | SetEvents(n: nat)
    | Kickoff
    | Complete(looks: seq<Look>, idleOk: bool)
    | Write(written: seq<nat>)

  predicate Grows(before: seq<nat>, after: seq<nat>) {
    |after| == |before| && forall w :: 0 <= w < |before| ==> before[w] <= after[w]
  }

  /** What a client and its writers may do: indices only grow, a round shows
      what was written by then, and a kickoff is completed before the next. */
  ghost predicate Enabled(s: System, a: Action) {
    match a
    case Prepare(info, answers) => answers.attempt.For(info, |s.d.written|)
    case Trigger(answers) =>
      answers.attempt.For(if s.d.prepared.Some? then s.d.prepared.value.info else DEFAULT_INFO, |s.d.written|)
    case Kickoff => s.settled
    case Complete(looks, _) =>
      forall k :: 0 <= k < |looks| ==> Grows(looks[k].written, s.d.written)
    case Write(written) => Grows(s.d.written, written)
    case _ => true
  }

  function Act(s: System, a: Action): System {
    match a
    case Stage(disarmed) => s.(d := StageDetector(s.d, disarmed))
    case Unstage(disarmed) => s.(d := UnstageDetector(s.d, disarmed))
    case Prepare(info, answers) => if !answers.controlOk then s else System(PrepareFor(s.d, info, answers).0, [], true)
    case Trigger(answers) =>
      if (if s.d.prepared.Some? then s.d.prepared.value.info.numberOfEvents != 1 else !answers.controlOk) then s
      else System(TriggerPrepare(s.d, answers).0, [], true)
    case SetEvents(n) => s.(d := s.d.(eventsToKickoff := n))
    case Kickoff =>
      var (d, r) := KickOff(s.d);
      if r.Ok? then System(d, s.requests + [r.value], false) else s
    case Complete(looks, idleOk) =>
      if Completed(s.d, looks, idleOk).0 == Reached then s.(settled := true) else s
    case Write(written) => s.(d := s.d.(written := written))
  }

  /** Each kickoff made is one more request, open until a complete sees its
      target; a prepare starts afresh, and nothing else touches the requests. */
  lemma RequestsAre(s: System, a: Action)
    ensures var s' := Act(s, a);
            && (a.Kickoff? && KickOff(s.d).1.Ok? ==>
                  && s'.requests == s.requests + [KickOff(s.d).1.value] && !s'.settled
                  && s'.d.kickedOff == Some(KickOff(s.d).1.value))
            && (a.Kickoff? && KickOff(s.d).1.Err? ==> s' == s)
            && (a.Complete? ==>
                  s' == s.(settled := s.settled || Completed(s.d, a.looks, a.idleOk).0 == Reached))
            && (a.Prepare? && a.answers.controlOk ==>
                  s'.d == PrepareFor(s.d, a.info, a.answers).0 && s'.requests == [] && s'.settled)
            && (a.Trigger? && TriggerPrepare(s.d, a.answers).1.Ok? ==>
                  s'.d == TriggerPrepare(s.d, a.answers).0 && s'.requests == [] && s'.settled)
            && (a.Write? ==> s' == s.(d := s.d.(written := a.written)))
            && (a.SetEvents? ==> s' == s.(d := s.d.(eventsToKickoff := a.n)))
            && (a.Stage? || a.Unstage? || a.SetEvents? ==> s'.requests == s.requests && s'.settled == s.settled)
  {
  }

  /** The recorded prepare goes by what its writers were last opened for. */
  ghost predicate KeysCurrent(d: Detector) {
    && |d.opens| == |d.written|
    && (d.prepared.Some? ==>
          && (forall w :: 0 <= w < |d.opens| ==>
                d.opens[w].Some? && d.opens[w].value.perEvent == d.prepared.value.info.collectionsPerEvent)
          && d.prepared.value.dataKeys == Merged(d.opens))
  }

  /** The merged keys are the writers' keys, each as the last writer that
      reports it does. */
  lemma {:induction false} MergedIs(opens: seq<Option<Open>>, key: string)
    ensures key in Merged(opens) <==> exists w :: 0 <= w < |opens| && opens[w].Some? && key in opens[w].value.keys
    ensures forall w :: 0 <= w < |opens| && opens[w].Some? && key in opens[w].value.keys
                        && (forall v :: w < v < |opens| && opens[v].Some? ==> key !in opens[v].value.keys) ==>
              key in Merged(opens) && Merged(opens)[key] == opens[w].value.keys[key]
  {
    if opens != [] {
      var init := opens[..|opens| - 1];
      MergedIs(init, key);
      assert forall w :: 0 <= w < |init| ==> init[w] == opens[w];
      if key in Merged(init) {
        var w :| 0 <= w < |init| && init[w].Some? && key in init[w].value.keys;
        assert opens[w].Some? && key in opens[w].value.keys;
      }
    }
  }

  lemma RepreparedKeys(d: Detector, info: TriggerInfo, answers: Answers)
    requires KeysCurrent(d) && answers.attempt.For(info, |d.written|)
    ensures KeysCurrent(Reprepared(d, info, answers).0)
  {
  }

  lemma ActKeepsKeys(s: System, a: Action)
    requires KeysCurrent(s.d) && Enabled(s, a)
    ensures KeysCurrent(Act(s, a).d)
  {
    match a {
      case Prepare(info, answers) => RepreparedKeys(s.d, info, answers);
      case Trigger(answers) =>
        RepreparedKeys(s.d, if s.d.prepared.Some? then s.d.prepared.value.info else DEFAULT_INFO, answers);
      case _ =>
    }
  }

  ghost predicate Behaviour(run: seq<System>, actions: seq<Action>) {
    && |run| == |actions| + 1
    && forall k :: 0 <= k < |actions| ==> Enabled(run[k], actions[k]) && run[k + 1] == Act(run[k], actions[k])
  }

  /** In every run, on every path of every prepare and trigger, failed ones
      included: a recorded prepare has the keys the writers reported when they
      were last opened, which was for its collections per event. */
  lemma {:induction false} KeysAlwaysCurrent(run: seq<System>, actions: seq<Action>, writers: nat, singles: nat, k: nat)
    requires Behaviour(run, actions) && run[0] == System(NewDetector(writers, singles), [], true) && k < |run|
    ensures KeysCurrent(run[k].d)
  {
    if k > 0 {
      KeysAlwaysCurrent(run, actions, writers, singles, k - 1);
      ActKeepsKeys(run[k - 1], actions[k - 1]);
    }
  }

  // ---- Whether the writers are open ----

  /** The info a prepare or trigger goes by, where it comes that far. */
  function InfoOf(s: System, a: Action): Option<TriggerInfo> {
    match a
    case Prepare(info, answers) => if answers.controlOk then Some(info) else None
    case Trigger(answers) =>
      if s.d.prepared.Some? && s.d.prepared.value.info.numberOfEvents == 1 then Some(s.d.prepared.value.info)
      else if s.d.prepared.None? && answers.controlOk then Some(DEFAULT_INFO) else None
    case _ => None
  }

  /** The action opens every writer. */
  predicate Opens(s: System, a: Action) {
    && InfoOf(s, a).Some? && !Suits(s.d.prepared, InfoOf(s, a).value)
    && (s.d.prepared.Some? ==> a.answers.stopOk)
    && a.answers.attempt.ok
  }

  lemma OpensStep(s: System, a: Action)
    ensures Opens(s, a) ==> Act(s, a).d.running
    ensures !Opens(s, a) && Act(s, a).d.prepared.Some? ==>
              s.d.prepared.Some? && Act(s, a).d.running == (s.d.running && a != Unstage(true))
  {
  }

  /** Action `j` opened every writer and no unstage came since. */
  ghost predicate OpenFrom(run: seq<System>, actions: seq<Action>, j: nat, k: nat)
    requires j < k <= |actions| && |run| == |actions| + 1
  {
    Opens(run[j], actions[j]) && forall i :: j < i < k ==> actions[i] != Unstage(true)
  }

  ghost predicate SomeOpenFrom(run: seq<System>, actions: seq<Action>, k: nat)
    requires k <= |actions| && |run| == |actions| + 1
  {
    exists j: nat :: j < k && OpenFrom(run, actions, j, k)
  }

  lemma SomeOpenStep(run: seq<System>, actions: seq<Action>, k: nat)
    requires k < |actions| && |run| == |actions| + 1
    ensures SomeOpenFrom(run, actions, k + 1) <==>
              Opens(run[k], actions[k]) || (SomeOpenFrom(run, actions, k) && actions[k] != Unstage(true))
  {
    if SomeOpenFrom(run, actions, k) && actions[k] != Unstage(true) {
      var j: nat :| j < k && OpenFrom(run, actions, j, k);
      assert OpenFrom(run, actions, j, k + 1);
    }
    if SomeOpenFrom(run, actions, k + 1) {
      var j: nat :| j < k + 1 && OpenFrom(run, actions, j, k + 1);
      assert j < k ==> OpenFrom(run, actions, j, k);
    }
    assert OpenFrom(run, actions, k, k + 1) <==> Opens(run[k], actions[k]);
  }

  /** In every run: the writers of a recorded prepare are open if and only if
      the detector was not unstaged since they were opened. */
  lemma {:induction false} OpenUnlessUnstaged(run: seq<System>, actions: seq<Action>, writers: nat, singles: nat, k: nat)
    requires Behaviour(run, actions) && run[0] == System(NewDetector(writers, singles), [], true) && k < |run|
    requires run[k].d.prepared.Some?
    ensures run[k].d.running <==> SomeOpenFrom(run, actions, k)
  {
    if k > 0 {
      OpensStep(run[k - 1], actions[k - 1]);
      SomeOpenStep(run, actions, k - 1);
      if !Opens(run[k - 1], actions[k - 1]) {
        OpenUnlessUnstaged(run, actions, writers, singles, k - 1);
      }
    }
  }

  /** A prepare after an unstage, for as many collections per event as before,
      succeeds and leaves the writers closed. */
  lemma UnstagedStaysClosed(d: Detector, info: TriggerInfo, answers: Answers)
    requires Suits(d.prepared, info) && answers.controlOk && CollectionsWritten(d.written).Ok?
    ensures var (d', r) := PrepareFor(UnstageDetector(d, true), info, answers);
            r.Ok? && d'.prepared == Some(r.value) && !d'.running
  {
  }

  // ---- Between prepares ----

  function Total(requests: seq<KickoffCtx>): nat {
    if requests == [] then 0
    else Total(requests[..|requests| - 1]) + requests[|requests| - 1].requested
  }

  /** Disjoint and increasing, from `lo` on and up to `hi`. */
  ghost predicate Ordered(requests: seq<KickoffCtx>, lo: nat, hi: nat) {
    && (forall i :: 0 <= i < |requests| ==> lo <= requests[i].written && requests[i].Target() <= hi)
    && forall i, j :: 0 <= i < j < |requests| ==> requests[i].Target() <= requests[j].written
  }

  /** The requests fit in the prepared range one after the other, and await
      idle exactly where they end it. */
  ghost predicate Within(s: System) {
    s.d.prepared.Some? && s.d.written != [] ==>
      && Ordered(s.requests, s.d.prepared.value.baseline, s.d.prepared.value.End())
      && (forall i :: 0 <= i < |s.requests| ==> (s.requests[i].isLast <==> s.requests[i].Target() == s.d.prepared.value.End()))
      && (forall w :: 0 <= w < |s.d.written| ==> s.d.prepared.value.baseline <= s.d.written[w])
      && (s.requests != [] ==> s.d.kickedOff == Some(s.requests[|s.requests| - 1]))
      && (s.requests != [] && s.settled ==> AllReach(s.d.written, s.requests[|s.requests| - 1].Target()))
  }

  lemma ReachedMeansWritten(d: Detector, looks: seq<Look>, idleOk: bool)
    requires forall k :: 0 <= k < |looks| ==> Grows(looks[k].written, d.written)
    requires Completed(d, looks, idleOk).0 == Reached
    ensures d.kickedOff.Some? && AllReach(d.written, d.kickedOff.value.Target())
  {
    if d.written != [] {
      WaitSettles(|d.written|, d.kickedOff.value.Target(), looks);
      var k: nat :| SettledAt(looks, d.kickedOff.value.Target(), k) && AllReach(looks[k].written, d.kickedOff.value.Target());
      assert Grows(looks[k].written, d.written);
    }
  }

  lemma OrderedSnoc(requests: seq<KickoffCtx>, r: KickoffCtx, lo: nat, hi: nat)
    requires Ordered(requests, lo, hi) && lo <= r.written && r.Target() <= hi
    requires requests != [] ==> requests[|requests| - 1].Target() <= r.written
    ensures Ordered(requests + [r], lo, hi)
  {
    forall i | 0 <= i < |requests| ensures requests[i].Target() <= r.written {
      assert requests[i].Target() <= requests[|requests| - 1].Target();
    }
  }

  lemma KickoffWithin(s: System)
    requires Within(s) && s.settled
    ensures Within(Act(s, Kickoff))
  {
    var (d, r) := KickOff(s.d);
    KickoffIs(s.d);
    if r.Ok? {
      var ctx := s.d.prepared.value;
      assert s.requests != [] ==> s.requests[|s.requests| - 1].Target() <= s.d.written[0];
      OrderedSnoc(s.requests, r.value, ctx.baseline, ctx.End());
      assert d.written == s.d.written && d.prepared == s.d.prepared;
    }
  }

  lemma ActKeepsWithin(s: System, a: Action)
    requires Within(s) && Enabled(s, a)
    ensures Within(Act(s, a))
  {
    match a {
      case Kickoff => KickoffWithin(s);
      case Complete(looks, idleOk) =>
        if Completed(s.d, looks, idleOk).0 == Reached {
          ReachedMeansWritten(s.d, looks, idleOk);
        }
      case _ =>
    }
  }

  lemma {:induction false} BehaviourWithin(run: seq<System>, actions: seq<Action>, writers: nat, singles: nat, k: nat)
    requires Behaviour(run, actions) && run[0] == System(NewDetector(writers, singles), [], true) && k < |run|
    ensures Within(run[k])
  {
    if k > 0 {
      BehaviourWithin(run, actions, writers, singles, k - 1);
      ActKeepsWithin(run[k - 1], actions[k - 1]);
    }
  }

  lemma {:induction false} TotalFits(requests: seq<KickoffCtx>, lo: nat, hi: nat)
    requires lo <= hi && Ordered(requests, lo, hi)
    ensures lo + Total(requests) <= hi
  {
    if requests != [] {
      TotalFits(requests[..|requests| - 1], lo, requests[|requests| - 1].written);
    }
  }

  /** In every run, between prepares: the kickoffs, each completed before the
      next, ask for disjoint, increasing stretches of the prepared range, and
      for no more in all than was prepared. */
  lemma KickoffsFitThePrepare(run: seq<System>, actions: seq<Action>, writers: nat, singles: nat, k: nat)
    requires Behaviour(run, actions) && run[0] == System(NewDetector(writers, singles), [], true) && k < |run|
    requires run[k].d.prepared.Some? && run[k].d.written != []
    ensures Ordered(run[k].requests, run[k].d.prepared.value.baseline, run[k].d.prepared.value.End())
    ensures Total(run[k].requests) <= run[k].d.prepared.value.info.Collections()
  {
    BehaviourWithin(run, actions, writers, singles, k);
    TotalFits(run[k].requests, run[k].d.prepared.value.baseline, run[k].d.prepared.value.End());
  }

  /** A complete ends well only once every writer has written all that the
      kickoff asked for. */
  lemma CompleteMeansWritten(run: seq<System>, actions: seq<Action>, k: nat)
    requires Behaviour(run, actions) && k < |actions| && actions[k].Complete?
    requires Completed(run[k].d, actions[k].looks, actions[k].idleOk).0 == Reached
    ensures run[k].d.kickedOff.Some? && AllReach(run[k].d.written, run[k].d.kickedOff.value.Target())
  {
    ReachedMeansWritten(run[k].d, actions[k].looks, actions[k].idleOk);
  }

  /** Idle is awaited, once the writers are there, by exactly the kickoffs
      that end at the prepared end. */
  lemma IdleAtTheEnd(run: seq<System>, actions: seq<Action>, writers: nat, singles: nat, k: nat)
    requires Behaviour(run, actions) && run[0] == System(NewDetector(writers, singles), [], true)
    requires k < |actions| && actions[k].Complete? && run[k].requests != []
    requires run[k].d.prepared.Some? && run[k].d.written != []
    ensures run[k].d.kickedOff.Some?
    ensures var kickoff := run[k].d.kickedOff.value;
            Completed(run[k].d, actions[k].looks, actions[k].idleOk).1 <==>
              kickoff.Target() == run[k].d.prepared.value.End()
              && Wait(|run[k].d.written|, kickoff.Target(), actions[k].looks) == Reached
  {
    BehaviourWithin(run, actions, writers, singles, k);
  }
}
