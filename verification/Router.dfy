/** The router that forwards the documents of optimization runs to a list of
    sinks that is read at the start of each run. */
module Router {
  import opened Prelude

  type Uid = nat
  type Sink = nat

  /** `matching` when the start's `run_key` is one of the two routed. */
  datatype Document =
    | Start(uid: Uid, matching: bool)
    | Descriptor(uid: Uid, run: Uid, name: Option<string>)
    | Event(descriptor: Uid)
    | Stop(run: Uid)
    | Other

  datatype RoutedRun = RoutedRun(sinks: seq<Sink>, primary: set<Uid>)

  datatype State = State(sinks: seq<Sink>, runs: map<Uid, RoutedRun>, descriptors: map<Uid, Uid>) {
    function Targets(doc: Document): (State, seq<Sink>) {
      match doc
      case Start(uid, matching) =>
        if matching then (this.(runs := runs[uid := RoutedRun(sinks, {})]), sinks) else (this, [])
      case Descriptor(uid, run, name) =>
        if run !in runs || name != Some("primary") then (this, [])
        else
          var r := runs[run];
          (this.(runs := runs[run := r.(primary := r.primary + {uid})], descriptors := descriptors[uid := run]), r.sinks)
      case Event(d) =>
        (this, if d in descriptors && descriptors[d] in runs then runs[descriptors[d]].sinks else [])
      case Stop(run) =>
        if run !in runs then (this, [])
        else (this.(runs := runs - {run}, descriptors := descriptors - runs[run].primary), runs[run].sinks)
      case Other => (this, [])
    }
  }

  class OptimizationRouter {
    var sinks: seq<Sink>
    var runs: map<Uid, RoutedRun>
    var descriptors: map<Uid, Uid>

    function View(): State
      reads this
    {
      State(sinks, runs, descriptors)
    }

    constructor (sinks: seq<Sink>)
      ensures View() == State(sinks, map[], map[])
    {
      this.sinks := sinks;
      runs, descriptors := map[], map[];
    }

    /** Where to forward a document, keeping track of the runs. */
    method Targets(doc: Document) returns (targets: seq<Sink>)
      modifies this
      ensures (View(), targets) == old(View()).Targets(doc)
    {
      match doc
      case Start(uid, matching) =>
        if !matching {
          return [];
        }
        runs := runs[uid := RoutedRun(sinks, {})];
        targets := sinks;
      case Descriptor(uid, run, name) =>
        if run !in runs || name != Some("primary") {
          return [];
        }
        var r := runs[run];
        runs := runs[run := r.(primary := r.primary + {uid})];
        descriptors := descriptors[uid := run];
        targets := r.sinks;
      case Event(d) =>
        targets := if d in descriptors && descriptors[d] in runs then runs[descriptors[d]].sinks else [];
      case Stop(run) =>
        if run !in runs {
          return [];
        }
        var r := runs[run];
        runs := runs - {run};
        Forget(r.primary);
        targets := r.sinks;
      case Other =>
        targets := [];
    }

    method Forget(uids: set<Uid>)
      modifies this`descriptors
      ensures descriptors == old(descriptors) - uids
    {
      var rest := uids;
      while rest != {}
        invariant rest <= uids && descriptors == old(descriptors) - (uids - rest)
        decreases |rest|
      {
        var uid :| uid in rest;
        descriptors := descriptors - {uid};
        rest := rest - {uid};
        assert uids - rest == (uids - (rest + {uid})) + {uid};
      }
    }
  }

  // ---- What ought to be forwarded, read off the log alone ----

  /** The list is edited, or a document comes. */
  datatype Entry = Edit(sinks: seq<Sink>) | Emit(doc: Document)

  function Init(log: seq<Entry>): seq<Entry>
    requires log != []
  {
    log[..|log| - 1]
  }

  function Last(log: seq<Entry>): Entry
    requires log != []
  {
    log[|log| - 1]
  }

  /** The list as last edited. */
  function SinksAfter(first: seq<Sink>, log: seq<Entry>): seq<Sink> {
    if log == [] then first
    else if Last(log).Edit? then Last(log).sinks
    else SinksAfter(first, Init(log))
  }

  /** The sinks of a run started and not stopped: the list at its start. */
  function InFlight(first: seq<Sink>, log: seq<Entry>, run: Uid): Option<seq<Sink>> {
    if log == [] then None
    else if Last(log) == Emit(Start(run, true)) then Some(SinksAfter(first, Init(log)))
    else if Last(log) == Emit(Stop(run)) then None
    else InFlight(first, Init(log), run)
  }

  /** The run a primary descriptor was emitted for, while that was in flight. */
  function Owner(first: seq<Sink>, log: seq<Entry>, descriptor: Uid): Option<Uid> {
    if log == [] then None
    else if Last(log).Emit? && Last(log).doc.Descriptor? && Last(log).doc.uid == descriptor
            && Last(log).doc.name == Some("primary") && InFlight(first, Init(log), Last(log).doc.run).Some?
    then Some(Last(log).doc.run)
    else Owner(first, Init(log), descriptor)
  }

  function Expected(first: seq<Sink>, log: seq<Entry>, doc: Document): seq<Sink> {
    match doc
    case Start(_, matching) => if matching then SinksAfter(first, log) else []
    case Descriptor(_, run, name) => if name == Some("primary") then InFlight(first, log, run).GetOr([]) else []
    case Event(d) =>
      var owner := Owner(first, log, d);
      if owner.Some? then InFlight(first, log, owner.value).GetOr([]) else []
    case Stop(run) => InFlight(first, log, run).GetOr([])
    case Other => []
  }

  /** No start reuses a uid, and a descriptor's uid names one run only, however
      often it is emitted. */
  ghost predicate Fresh(log: seq<Entry>) {
    log == [] ||
    (Fresh(Init(log)) &&
     match Last(log)
     case Emit(Start(uid, true)) => Emit(Start(uid, true)) !in Init(log)
     case Emit(Descriptor(uid, run, _)) =>
       forall e :: e in Init(log) && e.Emit? && e.doc.Descriptor? && e.doc.uid == uid ==> e.doc.run == run
     case _ => true)
  }

  function After(first: seq<Sink>, log: seq<Entry>): State {
    if log == [] then State(first, map[], map[])
    else match Last(log)
      case Edit(sinks) => After(first, Init(log)).(sinks := sinks)
      case Emit(doc) => After(first, Init(log)).Targets(doc).0
  }

  // ---- The router agrees with its log ----

  ghost predicate RunsAgree(s: State, first: seq<Sink>, log: seq<Entry>) {
    && s.sinks == SinksAfter(first, log)
    && forall run: Uid :: (run in s.runs <==> InFlight(first, log, run).Some?)
                          && (run in s.runs ==> s.runs[run].sinks == InFlight(first, log, run).value)
  }

  ghost predicate DescriptorsAgree(s: State, first: seq<Sink>, log: seq<Entry>) {
    && (forall d: Uid :: d in s.descriptors ==> Owner(first, log, d) == Some(s.descriptors[d]) && s.descriptors[d] in s.runs)
    && (forall d: Uid :: Owner(first, log, d).Some? && Owner(first, log, d).value in s.runs ==> d in s.descriptors)
    && forall run: Uid, d: Uid :: run in s.runs ==> (d in s.runs[run].primary <==> Owner(first, log, d) == Some(run))
  }

  lemma {:induction false} OwnedWasEmitted(first: seq<Sink>, log: seq<Entry>, d: Uid)
    requires Owner(first, log, d).Some?
    ensures Emit(Descriptor(d, Owner(first, log, d).value, Some("primary"))) in log
    ensures Emit(Start(Owner(first, log, d).value, true)) in log
  {
    if Owner(first, Init(log), d) == Owner(first, log, d) {
      OwnedWasEmitted(first, Init(log), d);
    } else {
      InFlightWasStarted(first, Init(log), Last(log).doc.run);
    }
  }

  lemma {:induction false} InFlightWasStarted(first: seq<Sink>, log: seq<Entry>, run: Uid)
    requires InFlight(first, log, run).Some?
    ensures Emit(Start(run, true)) in log
  {
    if Last(log) != Emit(Start(run, true)) {
      InFlightWasStarted(first, Init(log), run);
    }
  }

  lemma {:induction false} RunsDoAgree(first: seq<Sink>, log: seq<Entry>)
    ensures RunsAgree(After(first, log), first, log)
  {
    if log != [] {
      RunsDoAgree(first, Init(log));
    }
  }

  lemma StartAgrees(s: State, first: seq<Sink>, log: seq<Entry>, uid: Uid)
    requires RunsAgree(s, first, log) && DescriptorsAgree(s, first, log)
    requires Emit(Start(uid, true)) !in log
    ensures DescriptorsAgree(s.Targets(Start(uid, true)).0, first, log + [Emit(Start(uid, true))])
  {
    var log' := log + [Emit(Start(uid, true))];
    assert Init(log') == log;
    forall d: Uid | Owner(first, log, d).Some? ensures Owner(first, log, d).value != uid {
      OwnedWasEmitted(first, log, d);
    }
    assert forall d: Uid :: Owner(first, log', d) == Owner(first, log, d);
  }

  lemma DescriptorAgrees(s: State, first: seq<Sink>, log: seq<Entry>, uid: Uid, run: Uid, name: Option<string>)
    requires RunsAgree(s, first, log) && DescriptorsAgree(s, first, log)
    requires forall e :: e in log && e.Emit? && e.doc.Descriptor? && e.doc.uid == uid ==> e.doc.run == run
    ensures DescriptorsAgree(s.Targets(Descriptor(uid, run, name)).0, first, log + [Emit(Descriptor(uid, run, name))])
  {
    var log' := log + [Emit(Descriptor(uid, run, name))];
    assert Init(log') == log;
    if Owner(first, log, uid).Some? {
      OwnedWasEmitted(first, log, uid);
    }
    assert forall d: Uid :: d != uid ==> Owner(first, log', d) == Owner(first, log, d);
  }

  lemma StopAgrees(s: State, first: seq<Sink>, log: seq<Entry>, run: Uid)
    requires RunsAgree(s, first, log) && DescriptorsAgree(s, first, log)
    ensures DescriptorsAgree(s.Targets(Stop(run)).0, first, log + [Emit(Stop(run))])
  {
    var log' := log + [Emit(Stop(run))];
    assert Init(log') == log;
    assert forall d: Uid :: Owner(first, log', d) == Owner(first, log, d);
  }

  lemma {:induction false} DescriptorsDoAgree(first: seq<Sink>, log: seq<Entry>)
    requires Fresh(log)
    ensures DescriptorsAgree(After(first, log), first, log)
  {
    if log != [] {
      var s := After(first, Init(log));
      DescriptorsDoAgree(first, Init(log));
      RunsDoAgree(first, Init(log));
      assert log == Init(log) + [Last(log)];
      match Last(log) {
        case Emit(Start(uid, matching)) =>
          if matching {
            StartAgrees(s, first, Init(log), uid);
          } else {
            assert forall d: Uid :: Owner(first, log, d) == Owner(first, Init(log), d);
          }
        case Emit(Descriptor(uid, run, name)) => DescriptorAgrees(s, first, Init(log), uid, run, name);
        case Emit(Stop(run)) => StopAgrees(s, first, Init(log), run);
        case _ => assert forall d: Uid :: Owner(first, log, d) == Owner(first, Init(log), d);
      }
    }
  }

  /** For any interleaving of runs with fresh uids, descriptors sent again and
      edits of the list between and during runs included: a document goes to
      exactly the sinks the log says it should. */
  lemma RoutesExactly(first: seq<Sink>, log: seq<Entry>, doc: Document)
    requires Fresh(log)
    ensures After(first, log).Targets(doc).1 == Expected(first, log, doc)
  {
    RunsDoAgree(first, log);
    DescriptorsDoAgree(first, log);
  }

  /** Every descriptor kept is of a run in flight that lists it. */
  lemma NoStrayDescriptors(first: seq<Sink>, log: seq<Entry>, d: Uid)
    requires Fresh(log) && d in After(first, log).descriptors
    ensures var s := After(first, log);
            s.descriptors[d] in s.runs && d in s.runs[s.descriptors[d]].primary
  {
    DescriptorsDoAgree(first, log);
  }

  /** Once every matching run started has stopped, both maps are empty. */
  lemma EmptyInTheEnd(first: seq<Sink>, log: seq<Entry>)
    requires Fresh(log) && forall run: Uid :: InFlight(first, log, run).None?
    ensures After(first, log).runs == map[] && After(first, log).descriptors == map[]
  {
    RunsDoAgree(first, log);
    DescriptorsDoAgree(first, log);
  }

  // ---- What the log functions mean ----

  /** A run is in flight from its matching start to its stop, and keeps the
      list as it was at that start. */
  lemma {:induction false} InFlightIff(first: seq<Sink>, log: seq<Entry>, run: Uid)
    requires Fresh(log)
    ensures InFlight(first, log, run).Some? <==>
              exists i :: 0 <= i < |log| && log[i] == Emit(Start(run, true)) && Emit(Stop(run)) !in log[i..]
    ensures forall i :: 0 <= i < |log| && log[i] == Emit(Start(run, true)) && InFlight(first, log, run).Some? ==>
              InFlight(first, log, run) == Some(SinksAfter(first, log[..i]))
  {
    if log != [] {
      var init, last := Init(log), Last(log);
      InFlightIff(first, init, run);
      forall i | 0 <= i < |init| ensures log[i] == init[i] && log[..i] == init[..i] && log[i..] == init[i..] + [last] {
      }
      if last == Emit(Start(run, true)) {
        assert Emit(Stop(run)) !in log[|log| - 1..];
      }
    }
  }
}
