/** The engine, its monitor pumps and the wire. The engine handles one message
    at a time and broadcasts what a call returned before the next message; the
    pumps run beside it and compose events of streams already declared. */
module WireOrder {
  import opened Prelude
  import opened Documents
  import opened Compose
  import opened Bundling

  /** `outbox` is what the engine still has to broadcast for the message in
      hand, `install` the generations it installs after that. `inflight` holds
      the events the pumps composed and have not dispatched. `lost` names the
      streams whose current descriptor was minted but dropped unsent, `everLost`
      those that were in `lost` at some point. */
  datatype System = System(
    b: Bundler,
    outbox: seq<Doc>,
    install: seq<EventDescriptor>,
    pumped: set<string>,
    inflight: seq<Doc>,
    wire: seq<Doc>,
    lost: set<string>,
    everLost: set<string>)
  {
    predicate Idle() {
      outbox == [] && install == []
    }

    /** The wire as it will be once the message in hand is done. */
    function Sent(): seq<Doc> {
      wire + outbox
    }
  }

  datatype Action =
    | Handle(op: Op)
    | SaveLosing
    | Configure(order: seq<string>, objectName: string, config: Configuration)
    | Broadcast
    | Swap
    | StartPump(stream: string)
    | StopPump(stream: string)
    | Pump(stream: string, data: map<string, Json>, timestamps: map<string, Json>)
    | Dispatch(k: nat)

  /** The engine rejects a configure inside an open bundle; a checkpoint may be
      taken there, by a message that is not the checkpoint's own. */
  ghost predicate Enabled(s: System, a: Action) {
    match a
    case Handle(op) => s.Idle() && !op.Install?
    case SaveLosing => s.Idle()
    case Configure(order, _, _) =>
      && s.Idle() && s.b.open.None?
      && (forall n :: n in order <==> n in s.b.descriptors)
      && (forall i, j :: 0 <= i < j < |order| ==> order[i] != order[j])
    case Broadcast => s.outbox != []
    case Swap => s.outbox == [] && s.install != []
    case StartPump(stream) => s.Idle() && stream in s.b.descriptors
    case StopPump(_) => true
    case Pump(stream, _, _) => stream in s.pumped
    case Dispatch(k) => k < |s.inflight|
  }

  function DescribedBy(docs: seq<Doc>): set<string> {
    set i | 0 <= i < |docs| && docs[i].DescriptorDoc? && docs[i].d.name.Some? :: docs[i].d.name.value
  }

  function Named(ds: seq<EventDescriptor>): set<string> {
    set i | 0 <= i < |ds| && ds[i].name.Some? :: ds[i].name.value
  }

  function AsDocs(ds: seq<EventDescriptor>): seq<Doc> {
    seq(|ds|, i requires 0 <= i < |ds| => DescriptorDoc(ds[i]))
  }

  /** `SaveLosing` is a `save` whose asset drain fails: the engine returns the
      error and the documents `save` composed are dropped. */
  function Act(s: System, a: Action): System {
    match a
    case Handle(op) =>
      var (b, reply) := s.b.Step(op);
      var docs := Returned(reply);
      s.(b := b, outbox := docs, lost := s.lost - DescribedBy(docs))
    case SaveLosing =>
      var (b, reply) := s.b.Step(Save);
      var gone := DescribedBy(Returned(reply));
      s.(b := b, lost := s.lost + gone, everLost := s.everLost + gone)
    case Configure(order, objectName, config) =>
      var ds := s.b.Candidates(order, objectName, config);
      s.(b := s.b.(bundle := s.b.bundle.Drawn(|ds|)), outbox := AsDocs(ds), install := ds)
    case Broadcast =>
      if s.outbox == [] then s else s.(wire := s.wire + [s.outbox[0]], outbox := s.outbox[1..])
    case Swap => s.(b := s.b.Step(Install(s.install)).0, install := [], lost := s.lost - Named(s.install))
    case StartPump(stream) => s.(pumped := s.pumped + {stream})
    case StopPump(stream) => s.(pumped := s.pumped - {stream})
    case Pump(stream, data, timestamps) =>
      var (b, reply) := s.b.Step(Direct(stream, data, timestamps));
      s.(b := b, inflight := s.inflight + Returned(reply))
    case Dispatch(k) =>
      if k >= |s.inflight| then s
      else s.(wire := s.wire + [s.inflight[k]], inflight := s.inflight[..k] + s.inflight[k + 1..])
  }

  function Start(startUid: Uid, nextUid: Uid): System {
    System(Bundler(Bundle(startUid, map[], nextUid), map[], None, None), [], [], {}, [], [], {}, {})
  }

  /** The states after each action, `Enabled` at its turn. */
  ghost predicate Behaviour(run: seq<System>, actions: seq<Action>) {
    && |run| == |actions| + 1
    && (exists startUid, nextUid: Uid :: nextUid > 0 && run[0] == Start(startUid, nextUid))
    && forall i :: 0 <= i < |actions| ==> Enabled(run[i], actions[i]) && run[i + 1] == Act(run[i], actions[i])
  }

  /** The stream and the descriptor uid a document names, if it names one. */
  predicate Refers(doc: Doc, stream: string, uid: Uid) {
    || (doc.EventDoc? && doc.stream == stream && doc.e.descriptor == uid)
    || (doc.PageDoc? && doc.stream == stream && doc.page.descriptor == uid)
  }

  /** The stream's descriptor with this uid is among `docs`. */
  ghost predicate HasDescriptor(docs: seq<Doc>, stream: string, uid: Uid) {
    exists j :: 0 <= j < |docs| && IsDescriptor(docs[j], stream, uid)
  }

  predicate IsDescriptor(doc: Doc, stream: string, uid: Uid) {
    doc.DescriptorDoc? && doc.d.uid == uid && doc.d.name == Some(stream)
  }

  /** Every event and page of a stream never lost follows its descriptor. */
  ghost predicate DescriptorFirst(docs: seq<Doc>, everLost: set<string>) {
    forall k, stream, uid :: 0 <= k < |docs| && Refers(docs[k], stream, uid) && stream !in everLost ==>
      HasDescriptor(docs[..k], stream, uid)
  }

  predicate SameShape(d: EventDescriptor, e: EventDescriptor) {
    && d.name == e.name && d.runStart == e.runStart
    && d.schema.dataKeys == e.schema.dataKeys
    && d.schema.hints == e.schema.hints
    && d.schema.objectKeys == e.schema.objectKeys
    && d.schema.configuration.Keys == e.schema.configuration.Keys
  }

  /** A generation of one of the bundler's streams: named, minted, and with
      that stream's schema. */
  ghost predicate Generation(b: Bundler, d: EventDescriptor) {
    && d.name.Some? && d.name.value in b.bundle.streams
    && 0 < d.uid < b.bundle.nextUid
    && SameShape(d, b.bundle.streams[d.name.value].descriptor)
  }

  ghost predicate Caches(b: Bundler) {
    && b.InSync()
    && forall n :: n in b.bundle.streams ==>
         && b.bundle.streams[n].descriptor.name == Some(n)
         && b.bundle.streams[n].descriptor.runStart == b.bundle.startUid
         && Generation(b, b.bundle.streams[n].descriptor)
  }

  /** The generations the system holds: current, waiting, or sent. */
  ghost predicate Known(s: System, d: EventDescriptor) {
    || (d.name.Some? && d.name.value in s.b.bundle.streams && s.b.bundle.streams[d.name.value].descriptor == d)
    || d in s.install
    || DescriptorDoc(d) in s.Sent()
  }

  ghost predicate Generations(s: System) {
    && (forall d :: Known(s, d) ==> Generation(s.b, d))
    && (forall d, e :: Known(s, d) && Known(s, e) && d.uid == e.uid ==> d == e)
  }

  /** The current descriptor of a stream is broadcast, or about to be, if and
      only if it was not lost. */
  ghost predicate CurrentSent(s: System) {
    && s.lost <= s.everLost && s.lost <= s.b.bundle.streams.Keys
    && forall n :: n in s.b.bundle.streams ==>
         (n !in s.lost <==> HasDescriptor(s.Sent(), n, s.b.bundle.streams[n].descriptor.uid))
  }

  ghost predicate InstallSent(s: System) {
    forall i :: 0 <= i < |s.install| ==> DescriptorDoc(s.install[i]) in s.Sent()
  }

  ghost predicate PumpsCovered(s: System) {
    && s.pumped <= s.b.bundle.streams.Keys
    && (forall n :: n in s.pumped && n !in s.everLost ==>
          n in s.b.bundle.streams && HasDescriptor(s.wire, n, s.b.bundle.streams[n].descriptor.uid))
    && (forall k, n, uid :: 0 <= k < |s.inflight| && Refers(s.inflight[k], n, uid) && n !in s.everLost ==>
          HasDescriptor(s.wire, n, uid))
    && (forall k :: 0 <= k < |s.inflight| ==> s.inflight[k].EventDoc?)
  }

  ghost predicate Safe(s: System) {
    && Caches(s.b)
    && Generations(s)
    && CurrentSent(s)
    && InstallSent(s)
    && PumpsCovered(s)
    && DescriptorFirst(s.Sent(), s.everLost)
  }

  // ---- Calls of the bundler ----

  /** The streams keep their descriptors; a stream that is new is the one the
      documents start by describing. */
  ghost predicate Adds(b: Bundler, b': Bundler, docs: seq<Doc>) {
    && b'.InSync() && b.bundle.nextUid <= b'.bundle.nextUid && b'.bundle.startUid == b.bundle.startUid
    && (forall n :: n in b.bundle.streams ==>
          n in b'.bundle.streams && b'.bundle.streams[n].descriptor == b.bundle.streams[n].descriptor)
    && (forall n :: n in b'.bundle.streams && n !in b.bundle.streams ==>
          && docs != [] && docs[0] == DescriptorDoc(b'.bundle.streams[n].descriptor)
          && b'.bundle.streams[n].descriptor.name == Some(n)
          && b'.bundle.streams[n].descriptor.runStart == b.bundle.startUid
          && b.bundle.nextUid <= b'.bundle.streams[n].descriptor.uid < b'.bundle.nextUid)
  }

  /** A document names the current descriptor of its stream, a descriptor comes
      first, and an event of a new stream does not. */
  predicate NamesCurrent(b: Bundler, b': Bundler, doc: Doc, first: bool) {
    match doc
    case DescriptorDoc(d) =>
      && first && d.name.Some? && d.name.value in b'.bundle.streams
      && d == b'.bundle.streams[d.name.value].descriptor
    case EventDoc(n, e) =>
      && n in b'.bundle.streams && e.descriptor == b'.bundle.streams[n].descriptor.uid
      && (n in b.bundle.streams || !first)
    case PageDoc(n, page) =>
      && n in b'.bundle.streams && page.descriptor == b'.bundle.streams[n].descriptor.uid
      && (n in b.bundle.streams || !first)
    case SpanDoc(_, _, _) => true
  }

  /** What every call but an install does to the descriptors, and what the
      documents it returns name. */
  ghost predicate Tells(b: Bundler, b': Bundler, docs: seq<Doc>) {
    && Adds(b, b', docs)
    && forall k :: 0 <= k < |docs| ==> NamesCurrent(b, b', docs[k], k == 0)
  }

  ghost predicate SameStreams(b: Bundler, b': Bundler) {
    && b'.InSync() && b.bundle.nextUid <= b'.bundle.nextUid && b'.bundle.startUid == b.bundle.startUid
    && b'.bundle.streams.Keys == b.bundle.streams.Keys
    && forall n :: n in b.bundle.streams ==> b'.bundle.streams[n].descriptor == b.bundle.streams[n].descriptor
  }

  lemma MovedSameStreams(b: Bundler, stream: string, n: nat, drawn: nat)
    requires b.InSync()
    ensures SameStreams(b, b.Moved(stream, n, drawn))
  {
  }

  lemma MovedTells(b: Bundler, stream: string, n: nat, drawn: nat, docs: seq<Doc>)
    requires Caches(b) && stream in b.bundle.streams
    requires |docs| <= 1 && forall k :: 0 <= k < |docs| ==> NamesCurrent(b, b, docs[k], k == 0)
    ensures Tells(b, b.Moved(stream, n, drawn), docs)
  {
    MovedSameStreams(b, stream, n, drawn);
  }

  lemma ComposedTells(b: Bundler, stream: string, data: map<string, Json>, timestamps: map<string, Json>)
    requires Caches(b)
    ensures Tells(b, b.Composed(stream, data, timestamps).0, Returned(b.Composed(stream, data, timestamps).1))
  {
    if stream in b.bundle.streams {
      MovedTells(b, stream, 1, 1, Returned(b.Composed(stream, data, timestamps).1));
    }
  }

  lemma PreparedTells(b: Bundler, stream: string, objs: seq<StreamObject>)
    requires Caches(b)
    ensures var b' := b.Prepared(stream, objs);
            && Tells(b, b', [DescriptorDoc(b'.bundle.streams[stream].descriptor)])
            && b'.bundle.streams[stream].descriptor.name == Some(stream)
  {
    var b' := b.Prepared(stream, objs);
    if stream in b.bundle.streams {
      assert b.descriptors[stream := b.descriptors[stream]] == b.descriptors;
      assert b' == b;
    }
  }

  /** A descriptor, then the event it describes. */
  lemma PreparedThenMovedTells(b: Bundler, ready: Bundler, after: Bundler, d: Doc, e: Doc)
    requires Tells(b, ready, [d]) && SameStreams(ready, after)
    requires NamesCurrent(b, ready, e, false)
    ensures Tells(b, after, [d, e])
  {
    var docs := [d, e];
    assert docs[0] == d == [d][0] && docs[1] == e;
    assert NamesCurrent(b, ready, [d][0], true);
    assert NamesCurrent(b, after, d, true) && NamesCurrent(b, after, e, false);
  }

  lemma RecordedTells(b: Bundler, o: OpenBundle)
    requires Caches(b)
    ensures Tells(b, b.Recorded(o).0, Returned(b.Recorded(o).1))
  {
    var s := o.streamName;
    if b.NeedsDescriptor(s) {
      var ready := b.Prepared(s, o.objs);
      PreparedTells(b, s, o.objs);
      var d := DescriptorDoc(ready.bundle.streams[s].descriptor);
      var e := EventDoc(s, ready.bundle.NextEvent(s, Values(o.readings), Times(o.readings)));
      MovedSameStreams(ready, s, 1, 1);
      PreparedThenMovedTells(b, ready, ready.Moved(s, 1, 1), d, e);
      assert [d] + [e] == [d, e];
    } else {
      ComposedTells(b, s, Values(o.readings), Times(o.readings));
    }
  }

  lemma CountingTells(b: Bundler, op: Op)
    requires Caches(b) && (op.Page? || op.Advance?)
    ensures Tells(b, b.Step(op).0, Returned(b.Step(op).1))
  {
    if op.stream in b.bundle.streams {
      MovedTells(b, op.stream, op.n, if op.Page? then op.n else 0, Returned(b.Step(op).1));
    }
  }

  lemma RewindTells(b: Bundler)
    requires Caches(b)
    ensures Tells(b, b.Step(Rewind).0, [])
  {
  }

  lemma QuietTells(b: Bundler, op: Op)
    requires Caches(b)
    requires op.Create? || op.AddRead? || op.DropBundle? || op.Checkpoint? || op.ClearCheckpoint?
    ensures Tells(b, b.Step(op).0, Returned(b.Step(op).1))
  {
  }

  lemma SaveTells(b: Bundler)
    requires Caches(b)
    ensures Tells(b, b.Step(Save).0, Returned(b.Step(Save).1))
  {
    if b.open.Some? && b.open.value.objs != [] {
      var closed := b.(open := None);
      ClosedCaches(b);
      RecordedTells(closed, b.open.value);
      SameBundleTells(b, closed, closed.Recorded(b.open.value).0, Returned(closed.Recorded(b.open.value).1));
    }
  }

  lemma ClosedCaches(b: Bundler)
    requires Caches(b)
    ensures Caches(b.(open := None))
  {
  }

  lemma SameBundleTells(b: Bundler, c: Bundler, b': Bundler, docs: seq<Doc>)
    requires Tells(c, b', docs) && c.bundle == b.bundle
    ensures Tells(b, b', docs)
  {
    forall k | 0 <= k < |docs| ensures NamesCurrent(b, b', docs[k], k == 0) {
      assert NamesCurrent(c, b', docs[k], k == 0);
    }
  }

  lemma StepTells(b: Bundler, op: Op)
    requires Caches(b) && !op.Install?
    ensures Tells(b, b.Step(op).0, Returned(b.Step(op).1))
  {
    match op {
      case Save => SaveTells(b);
      case Direct(stream, data, timestamps) => ComposedTells(b, stream, data, timestamps);
      case Declare(stream, objs) => PreparedTells(b, stream, objs);
      case Page(_, _, _, _) => CountingTells(b, op);
      case Advance(_, _) => CountingTells(b, op);
      case Rewind => RewindTells(b);
      case _ => QuietTells(b, op);
    }
  }

  /** A `save` of a bundle with readings is never refused for an unknown
      stream, and what it records names the descriptor `descriptor_uid` gives. */
  lemma NonEmptySaveSucceeds(b: Bundler)
    requires Caches(b) && b.open.Some? && b.open.value.objs != []
    ensures var (b', reply) := b.Step(Save);
            var stream := b.open.value.streamName;
            && reply.Docs? && reply.docs != []
            && reply.docs[|reply.docs| - 1].EventDoc?
            && stream in b'.descriptors
            && reply.docs[|reply.docs| - 1].e.descriptor == b'.descriptors[stream]
  {
    SaveTells(b);
    var o := b.open.value;
    var ready := if b.NeedsDescriptor(o.streamName) then b.(open := None).Prepared(o.streamName, o.objs) else b;
    assert o.streamName in ready.bundle.streams;
  }

  // ---- Documents in order ----

  lemma HasMore(docs: seq<Doc>, more: seq<Doc>, n: string, uid: Uid)
    requires HasDescriptor(docs, n, uid)
    ensures HasDescriptor(docs + more, n, uid)
  {
    var j :| 0 <= j < |docs| && IsDescriptor(docs[j], n, uid);
    assert IsDescriptor((docs + more)[j], n, uid);
  }

  lemma HasEither(docs: seq<Doc>, more: seq<Doc>, n: string, uid: Uid)
    ensures HasDescriptor(docs + more, n, uid) <==> HasDescriptor(docs, n, uid) || HasDescriptor(more, n, uid)
  {
    if HasDescriptor(docs, n, uid) {
      HasMore(docs, more, n, uid);
    }
    if HasDescriptor(more, n, uid) {
      var j :| 0 <= j < |more| && IsDescriptor(more[j], n, uid);
      assert IsDescriptor((docs + more)[|docs| + j], n, uid);
    }
  }

  lemma FirstAppended(docs: seq<Doc>, more: seq<Doc>, everLost: set<string>)
    requires DescriptorFirst(docs, everLost)
    requires forall k, n, uid :: 0 <= k < |more| && Refers(more[k], n, uid) && n !in everLost ==>
               HasDescriptor(docs + more[..k], n, uid)
    ensures DescriptorFirst(docs + more, everLost)
  {
    forall k, n, uid | 0 <= k < |docs + more| && Refers((docs + more)[k], n, uid) && n !in everLost
      ensures HasDescriptor((docs + more)[..k], n, uid)
    {
      if k < |docs| {
        assert (docs + more)[..k] == docs[..k];
      } else {
        assert (docs + more)[..k] == docs + more[..k - |docs|];
        assert Refers(more[k - |docs|], n, uid);
      }
    }
  }

  /** A pump's event slipped in between the wire and what is to follow. */
  lemma FirstInserted(wire: seq<Doc>, e: Doc, rest: seq<Doc>, everLost: set<string>)
    requires DescriptorFirst(wire + rest, everLost)
    requires forall n, uid :: Refers(e, n, uid) && n !in everLost ==> HasDescriptor(wire, n, uid)
    ensures DescriptorFirst(wire + [e] + rest, everLost)
  {
    var all := wire + [e] + rest;
    forall k, n, uid | 0 <= k < |all| && Refers(all[k], n, uid) && n !in everLost
      ensures HasDescriptor(all[..k], n, uid)
    {
      if k < |wire| {
        assert all[..k] == (wire + rest)[..k] && all[k] == (wire + rest)[k];
      } else if k == |wire| {
        assert all[..k] == wire;
      } else {
        var r := rest[..k - 1 - |wire|];
        assert (wire + rest)[k - 1] == all[k];
        assert (wire + rest)[..k - 1] == wire + r;
        assert all[..k] == wire + [e] + r;
        HasEither(wire, r, n, uid);
        HasEither(wire, [e], n, uid);
        HasEither(wire + [e], r, n, uid);
      }
    }
  }

  lemma FirstMonotone(docs: seq<Doc>, everLost: set<string>, more: set<string>)
    requires DescriptorFirst(docs, everLost) && everLost <= more
    ensures DescriptorFirst(docs, more)
  {
  }

  // ---- Each action keeps the system safe ----

  lemma TellsCaches(b: Bundler, b': Bundler, docs: seq<Doc>)
    requires Caches(b) && Tells(b, b', docs)
    ensures Caches(b')
    ensures forall d :: Generation(b, d) ==> Generation(b', d)
  {
  }

  /** After a call, with its documents queued or dropped. */
  function Called(s: System, b': Bundler, docs: seq<Doc>): System {
    s.(b := b', outbox := docs, lost := s.lost - DescribedBy(docs))
  }

  lemma CalledGenerations(s: System, b': Bundler, docs: seq<Doc>, s': System)
    requires Safe(s) && s.Idle() && Tells(s.b, b', docs)
    requires s'.b == b' && s'.install == [] && s'.wire == s.wire && (s'.outbox == docs || s'.outbox == [])
    ensures Generations(s')
  {
    TellsCaches(s.b, b', docs);
    forall d | Known(s', d)
      ensures Generation(b', d)
      ensures Known(s, d) || (docs != [] && docs[0] == DescriptorDoc(d) && d.uid >= s.b.bundle.nextUid)
    {
      if DescriptorDoc(d) in s'.outbox {
        var n := d.name.value;
        assert b'.bundle.streams[n].descriptor == d;
      }
    }
  }

  lemma DescribedByHas(docs: seq<Doc>, n: string)
    ensures n in DescribedBy(docs) <==> exists uid :: HasDescriptor(docs, n, uid)
  {
    if n in DescribedBy(docs) {
      var i :| 0 <= i < |docs| && docs[i].DescriptorDoc? && docs[i].d.name == Some(n);
      assert IsDescriptor(docs[i], n, docs[i].d.uid);
      assert HasDescriptor(docs, n, docs[i].d.uid);
    }
    forall uid | HasDescriptor(docs, n, uid) ensures n in DescribedBy(docs) {
      var j :| 0 <= j < |docs| && IsDescriptor(docs[j], n, uid);
      assert docs[j].d.name.value == n;
    }
  }

  lemma CalledCurrent(s: System, b': Bundler, docs: seq<Doc>, n: string)
    requires Safe(s) && s.Idle() && Tells(s.b, b', docs) && n in b'.bundle.streams
    ensures n in DescribedBy(docs) <==> HasDescriptor(docs, n, b'.bundle.streams[n].descriptor.uid)
    ensures n !in DescribedBy(docs) ==> n in s.b.bundle.streams
    ensures n !in s.b.bundle.streams ==> !HasDescriptor(s.wire, n, b'.bundle.streams[n].descriptor.uid)
  {
    var uid := b'.bundle.streams[n].descriptor.uid;
    DescribedByHas(docs, n);
    if n in DescribedBy(docs) {
      assert IsDescriptor(docs[0], n, uid);
    }
    if n !in s.b.bundle.streams {
      assert IsDescriptor(docs[0], n, uid);
      assert HasDescriptor(docs, n, uid);
      WireUidsBelow(s, n, uid);
    }
  }

  lemma WireUidsBelow(s: System, n: string, uid: Uid)
    requires Safe(s)
    ensures HasDescriptor(s.wire, n, uid) ==> uid < s.b.bundle.nextUid
  {
    if HasDescriptor(s.wire, n, uid) {
      var j :| 0 <= j < |s.wire| && IsDescriptor(s.wire[j], n, uid);
      assert s.wire[j] == DescriptorDoc(s.wire[j].d) && s.wire[j] in s.Sent();
      assert Known(s, s.wire[j].d);
    }
  }

  lemma CalledSafe(s: System, b': Bundler, docs: seq<Doc>)
    requires Safe(s) && s.Idle() && Tells(s.b, b', docs)
    ensures Safe(Called(s, b', docs))
  {
    var s' := Called(s, b', docs);
    TellsCaches(s.b, b', docs);
    CalledGenerations(s, b', docs, s');
    assert s.Sent() == s.wire;
    forall n | n in b'.bundle.streams
      ensures n !in s'.lost <==> HasDescriptor(s'.Sent(), n, b'.bundle.streams[n].descriptor.uid)
    {
      CalledCurrent(s, b', docs, n);
      HasEither(s.wire, docs, n, b'.bundle.streams[n].descriptor.uid);
    }
    CalledFirst(s, b', docs);
  }

  lemma CalledFirst(s: System, b': Bundler, docs: seq<Doc>)
    requires Safe(s) && s.Idle() && Tells(s.b, b', docs)
    ensures DescriptorFirst(s.wire + docs, s.everLost)
  {
    assert s.Sent() == s.wire;
    forall k, n, uid | 0 <= k < |docs| && Refers(docs[k], n, uid) && n !in s.everLost
      ensures HasDescriptor(s.wire + docs[..k], n, uid)
    {
      assert NamesCurrent(s.b, b', docs[k], k == 0);
      if n in s.b.bundle.streams {
        HasMore(s.wire, docs[..k], n, uid);
      } else {
        assert docs[..k][0] == DescriptorDoc(b'.bundle.streams[n].descriptor);
        assert IsDescriptor(docs[..k][0], n, uid);
        HasEither(s.wire, docs[..k], n, uid);
      }
    }
    FirstAppended(s.wire, docs, s.everLost);
  }

  lemma SaveLosingSafe(s: System)
    requires Safe(s) && s.Idle()
    ensures Safe(Act(s, SaveLosing))
  {
    var (b', reply) := s.b.Step(Save);
    var docs := Returned(reply);
    var s' := Act(s, SaveLosing);
    StepTells(s.b, Save);
    TellsCaches(s.b, b', docs);
    CalledGenerations(s, b', docs, s');
    assert s.Sent() == s.wire == s'.Sent();
    forall n | n in b'.bundle.streams
      ensures n !in s'.lost <==> HasDescriptor(s'.Sent(), n, b'.bundle.streams[n].descriptor.uid)
    {
      CalledCurrent(s, b', docs, n);
      if n in DescribedBy(docs) {
        SaveDescribesNew(s.b, n);
      }
    }
    FirstMonotone(s.wire, s.everLost, s'.everLost);
  }

  /** `save` returns a descriptor only when it declares the stream. */
  lemma SaveDescribesNew(b: Bundler, n: string)
    requires Caches(b)
    requires n in DescribedBy(Returned(b.Step(Save).1))
    ensures n !in b.bundle.streams
  {
  }

  // ---- Reconfiguration ----

  /** New generations of declared streams, their uids the next ones drawn. */
  ghost predicate NextGenerations(b: Bundler, ds: seq<EventDescriptor>) {
    forall i :: 0 <= i < |ds| ==> NextAfter(b, ds[i], i)
  }

  predicate NextAfter(b: Bundler, d: EventDescriptor, drawn: nat) {
    && d.uid == b.bundle.nextUid + drawn
    && d.name.Some? && d.name.value in b.bundle.streams
    && SameShape(d, b.bundle.streams[d.name.value].descriptor)
  }

  lemma {:induction false} CandidatesAre(b: Bundler, order: seq<string>, objectName: string, config: Configuration)
    requires Caches(b)
    ensures NextGenerations(b, b.Candidates(order, objectName, config))
    decreases |order|
  {
    if order != [] {
      var n := order[|order| - 1];
      var before := b.Candidates(order[..|order| - 1], objectName, config);
      CandidatesAre(b, order[..|order| - 1], objectName, config);
      if b.bundle.Describes(n, objectName) {
        NextGenerationIs(b, n, |before|, objectName, config);
      }
    }
  }

  lemma NextGenerationIs(b: Bundler, n: string, drawn: nat, objectName: string, config: Configuration)
    requires Caches(b) && b.bundle.Describes(n, objectName)
    ensures NextAfter(b, b.bundle.Drawn(drawn).NextGeneration(n, objectName, config), drawn)
  {
    var d := b.bundle.streams[n].descriptor;
    var e := b.bundle.Drawn(drawn).NextGeneration(n, objectName, config);
    assert e.schema.configuration.Keys == d.schema.configuration.Keys;
    assert d.name == Some(n);
  }

  lemma NextUidsAbove(b: Bundler, ds: seq<EventDescriptor>, n: string, uid: Uid)
    requires NextGenerations(b, ds)
    ensures HasDescriptor(AsDocs(ds), n, uid) ==> uid >= b.bundle.nextUid
  {
    if HasDescriptor(AsDocs(ds), n, uid) {
      var j :| 0 <= j < |AsDocs(ds)| && IsDescriptor(AsDocs(ds)[j], n, uid);
      assert NextAfter(b, ds[j], j);
    }
  }

  lemma ConfigureSafe(s: System, order: seq<string>, objectName: string, config: Configuration)
    requires Safe(s) && s.Idle()
    ensures Safe(Act(s, Configure(order, objectName, config)))
  {
    var s' := Act(s, Configure(order, objectName, config));
    var ds := s'.install;
    CandidatesAre(s.b, order, objectName, config);
    assert s.Sent() == s.wire;
    ConfigureGenerations(s, s', ds);
    forall n | n in s'.b.bundle.streams
      ensures n !in s'.lost <==> HasDescriptor(s'.Sent(), n, s'.b.bundle.streams[n].descriptor.uid)
    {
      var uid := s.b.bundle.streams[n].descriptor.uid;
      HasEither(s.wire, AsDocs(ds), n, uid);
      assert Generation(s.b, s.b.bundle.streams[n].descriptor);
      NextUidsAbove(s.b, ds, n, uid);
    }
    forall i | 0 <= i < |ds| ensures DescriptorDoc(ds[i]) in s'.Sent() {
      assert s'.Sent()[|s.wire| + i] == DescriptorDoc(ds[i]);
    }
    FirstAppended(s.wire, AsDocs(ds), s.everLost);
  }

  lemma NextGenerationsFresh(b: Bundler, ds: seq<EventDescriptor>, b': Bundler)
    requires Caches(b) && NextGenerations(b, ds) && b' == b.(bundle := b.bundle.Drawn(|ds|))
    ensures Caches(b')
    ensures forall d :: d in ds ==> Generation(b', d) && d.uid >= b.bundle.nextUid
    ensures forall d, e :: d in ds && e in ds && d.uid == e.uid ==> d == e
    ensures forall d :: Generation(b, d) ==> Generation(b', d) && d.uid < b.bundle.nextUid
  {
    forall d | d in ds ensures exists i :: 0 <= i < |ds| && ds[i] == d && NextAfter(b, d, i) {
      var i :| 0 <= i < |ds| && ds[i] == d;
      assert NextAfter(b, ds[i], i);
    }
  }

  lemma ConfigureKnown(s: System, s': System, d: EventDescriptor)
    requires s.Idle() && s'.wire == s.wire && s'.outbox == AsDocs(s'.install)
    requires s'.b.bundle.streams == s.b.bundle.streams
    requires Known(s', d)
    ensures d in s'.install || Known(s, d)
  {
    if DescriptorDoc(d) in AsDocs(s'.install) {
      var i :| 0 <= i < |s'.install| && AsDocs(s'.install)[i] == DescriptorDoc(d);
      assert s'.install[i] == d;
    }
  }

  lemma ConfigureGenerations(s: System, s': System, ds: seq<EventDescriptor>)
    requires Caches(s.b) && Generations(s) && s.Idle()
    requires s' == s.(b := s.b.(bundle := s.b.bundle.Drawn(|ds|)), outbox := AsDocs(ds), install := ds)
    requires NextGenerations(s.b, ds)
    ensures Generations(s') && Caches(s'.b)
  {
    NextGenerationsFresh(s.b, ds, s'.b);
    forall d | Known(s', d) ensures d in ds || (Known(s, d) && Generation(s.b, d)) {
      ConfigureKnown(s, s', d);
    }
  }

  lemma NamedSnoc(ds: seq<EventDescriptor>, d: EventDescriptor)
    requires d.name.Some?
    ensures Named(ds + [d]) == Named(ds) + {d.name.value}
  {
    forall n ensures n in Named(ds + [d]) <==> n in Named(ds) + {d.name.value} {
      if n in Named(ds) {
        var i :| 0 <= i < |ds| && ds[i].name == Some(n);
        assert (ds + [d])[i].name == Some(n);
      }
      if n == d.name.value {
        assert (ds + [d])[|ds|].name == Some(n);
      }
    }
  }

  /** `b'` is `b` with generations of `ds` current for the streams they name. */
  ghost predicate Swapped(b: Bundler, b': Bundler, ds: seq<EventDescriptor>) {
    && b'.InSync()
    && b'.bundle.nextUid == b.bundle.nextUid && b'.bundle.startUid == b.bundle.startUid
    && b'.bundle.streams.Keys == b.bundle.streams.Keys
    && forall n :: n in b.bundle.streams ==>
         if n in Named(ds) then
           b'.bundle.streams[n].descriptor in ds && b'.bundle.streams[n].descriptor.name == Some(n)
         else b'.bundle.streams[n].descriptor == b.bundle.streams[n].descriptor
  }

  function InstallOne(b: Bundler, d: EventDescriptor): Bundler
    requires d.name.Some?
  {
    b.(bundle := b.bundle.Installed(d.name.value, d), descriptors := b.descriptors[d.name.value := d.uid])
  }

  lemma InstallOneIs(b: Bundler, d: EventDescriptor)
    requires b.InSync() && d.name.Some? && d.name.value in b.bundle.streams && d.uid != 0
    ensures var b' := InstallOne(b, d);
            && b'.InSync()
            && b'.bundle.nextUid == b.bundle.nextUid && b'.bundle.startUid == b.bundle.startUid
            && b'.bundle.streams.Keys == b.bundle.streams.Keys
            && forall n :: n in b.bundle.streams ==>
                 b'.bundle.streams[n].descriptor == if n == d.name.value then d else b.bundle.streams[n].descriptor
  {
  }

  lemma SwappedOne(b: Bundler, b': Bundler, ds: seq<EventDescriptor>, d: EventDescriptor)
    requires Swapped(b, b', ds)
    requires d.name.Some? && d.name.value in b.bundle.streams && d.uid != 0
    ensures Swapped(b, InstallOne(b', d), ds + [d])
  {
    NamedSnoc(ds, d);
    InstallOneIs(b', d);
  }

  lemma {:induction false} InstalledAre(b: Bundler, ds: seq<EventDescriptor>)
    requires b.InSync()
    requires forall i :: 0 <= i < |ds| ==> ds[i].name.Some? && ds[i].name.value in b.bundle.streams && ds[i].uid != 0
    ensures Swapped(b, b.InstalledAll(ds), ds)
    decreases |ds|
  {
    if ds != [] {
      var init, d := ds[..|ds| - 1], ds[|ds| - 1];
      InstalledAre(b, init);
      SwappedOne(b, b.InstalledAll(init), init, d);
      assert init + [d] == ds;
    }
  }

  /** Generations of a stream share its schema, so a swap keeps them so. */
  lemma SwappedGenerations(s: System, s': System)
    requires Caches(s.b) && Generations(s) && Swapped(s.b, s'.b, s.install)
    requires s'.install == [] && s'.Sent() == s.Sent()
    ensures Caches(s'.b) && Generations(s')
  {
    forall n | n in s.b.bundle.streams
      ensures Known(s, s'.b.bundle.streams[n].descriptor)
      ensures s'.b.bundle.streams[n].descriptor.name == Some(n)
    {
    }
    forall d | Generation(s.b, d) ensures Generation(s'.b, d) {
      var n := d.name.value;
      assert Generation(s.b, s'.b.bundle.streams[n].descriptor);
    }
    forall d | Known(s', d) ensures Known(s, d) {
    }
  }

  lemma SwappedSent(s: System, s': System, n: string)
    requires InstallSent(s) && Swapped(s.b, s'.b, s.install) && n in s.b.bundle.streams && n in Named(s.install)
    ensures HasDescriptor(s.Sent(), n, s'.b.bundle.streams[n].descriptor.uid)
  {
    var d := s'.b.bundle.streams[n].descriptor;
    var i :| 0 <= i < |s.install| && s.install[i] == d;
    assert DescriptorDoc(d) in s.Sent();
    var j :| 0 <= j < |s.Sent()| && s.Sent()[j] == DescriptorDoc(d);
    assert IsDescriptor(s.Sent()[j], n, d.uid);
  }

  lemma InstallNamed(s: System)
    requires Generations(s) && Caches(s.b)
    ensures Swapped(s.b, s.b.InstalledAll(s.install), s.install)
  {
    forall i | 0 <= i < |s.install| ensures Generation(s.b, s.install[i]) {
      assert Known(s, s.install[i]);
    }
    InstalledAre(s.b, s.install);
  }

  lemma SwapSafe(s: System)
    requires Safe(s) && s.outbox == []
    ensures Safe(Act(s, Swap))
  {
    var s' := Act(s, Swap);
    InstallNamed(s);
    assert s.Sent() == s.wire == s'.Sent();
    SwappedGenerations(s, s');
    forall n | n in Named(s.install) && n in s.b.bundle.streams
      ensures HasDescriptor(s.wire, n, s'.b.bundle.streams[n].descriptor.uid)
    {
      SwappedSent(s, s', n);
    }
    SwappedCurrent(s, s');
  }

  lemma SwappedCurrent(s: System, s': System)
    requires CurrentSent(s) && Swapped(s.b, s'.b, s.install) && s'.Sent() == s.Sent()
    requires s'.lost == s.lost - Named(s.install) && s'.everLost == s.everLost
    requires forall n :: n in Named(s.install) && n in s.b.bundle.streams ==>
               HasDescriptor(s.Sent(), n, s'.b.bundle.streams[n].descriptor.uid)
    ensures CurrentSent(s')
  {
  }

  // ---- Wire and pumps ----

  /** The same descriptors everywhere: what was safe about them still is. */
  lemma KeepsDescriptors(s: System, s': System)
    requires Caches(s.b) && Generations(s) && CurrentSent(s) && InstallSent(s)
    requires SameStreams(s.b, s'.b) && s'.install == s.install && s'.lost == s.lost && s'.everLost == s.everLost
    requires forall doc: Doc :: doc.DescriptorDoc? ==> (doc in s'.Sent() <==> doc in s.Sent())
    ensures Caches(s'.b) && Generations(s') && CurrentSent(s') && InstallSent(s')
  {
    forall d ensures Known(s', d) <==> Known(s, d) {
    }
    forall n, uid ensures HasDescriptor(s'.Sent(), n, uid) <==> HasDescriptor(s.Sent(), n, uid) {
      HasIsMembership(s'.Sent(), n, uid);
      HasIsMembership(s.Sent(), n, uid);
    }
  }

  lemma HasIsMembership(docs: seq<Doc>, n: string, uid: Uid)
    ensures HasDescriptor(docs, n, uid) <==> exists doc :: doc in docs && IsDescriptor(doc, n, uid)
  {
  }

  lemma BroadcastSafe(s: System)
    requires Safe(s) && s.outbox != []
    ensures Safe(Act(s, Broadcast))
  {
    var s' := Act(s, Broadcast);
    assert s'.Sent() == s.Sent();
    KeepsDescriptors(s, s');
    forall n, uid | HasDescriptor(s.wire, n, uid) ensures HasDescriptor(s'.wire, n, uid) {
      HasMore(s.wire, [s.outbox[0]], n, uid);
    }
  }

  lemma StartPumpSafe(s: System, stream: string)
    requires Safe(s) && s.Idle() && stream in s.b.descriptors
    ensures Safe(Act(s, StartPump(stream)))
  {
    assert s.Sent() == s.wire;
    KeepsDescriptors(s, Act(s, StartPump(stream)));
  }

  lemma StopPumpSafe(s: System, stream: string)
    requires Safe(s)
    ensures Safe(Act(s, StopPump(stream)))
  {
    KeepsDescriptors(s, Act(s, StopPump(stream)));
  }

  lemma ComposedSameStreams(b: Bundler, stream: string, data: map<string, Json>, timestamps: map<string, Json>)
    requires b.InSync() && stream in b.bundle.streams
    ensures var (b', reply) := b.Step(Direct(stream, data, timestamps));
            && SameStreams(b, b')
            && reply == Docs([EventDoc(stream, b.bundle.NextEvent(stream, data, timestamps))])
  {
  }

  lemma PumpSafe(s: System, stream: string, data: map<string, Json>, timestamps: map<string, Json>)
    requires Safe(s) && stream in s.pumped
    ensures Safe(Act(s, Pump(stream, data, timestamps)))
  {
    var s' := Act(s, Pump(stream, data, timestamps));
    ComposedSameStreams(s.b, stream, data, timestamps);
    KeepsDescriptors(s, s');
    var e := EventDoc(stream, s.b.bundle.NextEvent(stream, data, timestamps));
    assert s'.inflight == s.inflight + [e];
    PumpedCovered(s, s', e);
  }

  lemma PumpedCovered(s: System, s': System, e: Doc)
    requires PumpsCovered(s) && SameStreams(s.b, s'.b)
    requires s'.wire == s.wire && s'.pumped == s.pumped && s'.everLost == s.everLost && s'.inflight == s.inflight + [e]
    requires e.EventDoc? && e.stream in s.pumped && e.stream in s.b.bundle.streams
    requires e.e.descriptor == s.b.bundle.streams[e.stream].descriptor.uid
    ensures PumpsCovered(s')
  {
    forall k, n, uid | 0 <= k < |s'.inflight| && Refers(s'.inflight[k], n, uid) && n !in s.everLost
      ensures HasDescriptor(s.wire, n, uid)
    {
      if k < |s.inflight| {
        assert Refers(s.inflight[k], n, uid);
      }
    }
  }

  lemma DispatchSafe(s: System, k: nat)
    requires Safe(s) && k < |s.inflight|
    ensures Safe(Act(s, Dispatch(k)))
  {
    var s' := Act(s, Dispatch(k));
    var e := s.inflight[k];
    FirstInserted(s.wire, e, s.outbox, s.everLost);
    assert s'.Sent() == s.wire + [e] + s.outbox;
    KeepsDescriptors(s, s');
    DispatchedCovered(s, s', k);
  }

  lemma DispatchedCovered(s: System, s': System, k: nat)
    requires PumpsCovered(s) && k < |s.inflight| && s' == Act(s, Dispatch(k))
    ensures PumpsCovered(s')
  {
    forall n, uid | HasDescriptor(s.wire, n, uid) ensures HasDescriptor(s'.wire, n, uid) {
      HasMore(s.wire, [s.inflight[k]], n, uid);
    }
    forall i | 0 <= i < |s'.inflight|
      ensures s'.inflight[i] == s.inflight[if i < k then i else i + 1]
    {
    }
  }

  lemma ActSafe(s: System, a: Action)
    requires Safe(s) && Enabled(s, a)
    ensures Safe(Act(s, a))
  {
    match a {
      case Handle(op) =>
        StepTells(s.b, op);
        CalledSafe(s, s.b.Step(op).0, Returned(s.b.Step(op).1));
      case SaveLosing => SaveLosingSafe(s);
      case Configure(order, objectName, config) => ConfigureSafe(s, order, objectName, config);
      case Broadcast => BroadcastSafe(s);
      case Swap => SwapSafe(s);
      case StartPump(stream) => StartPumpSafe(s, stream);
      case StopPump(stream) => StopPumpSafe(s, stream);
      case Pump(stream, data, timestamps) => PumpSafe(s, stream, data, timestamps);
      case Dispatch(k) => DispatchSafe(s, k);
    }
  }

  lemma {:induction false} BehaviourSafe(run: seq<System>, actions: seq<Action>, i: nat)
    requires Behaviour(run, actions) && i <= |actions|
    ensures Safe(run[i])
  {
    if i > 0 {
      BehaviourSafe(run, actions, i - 1);
      ActSafe(run[i - 1], actions[i - 1]);
    }
  }

  // ---- The claims ----

  /** At every point of every interleaving: an event or page on the wire
      follows its stream's descriptor of that uid, unless that stream once lost
      a descriptor; and a uid on the wire names one descriptor only. */
  lemma EventsFollowDescriptors(run: seq<System>, actions: seq<Action>, i: nat)
    requires Behaviour(run, actions) && i <= |actions|
    ensures DescriptorFirst(run[i].wire, run[i].everLost)
    ensures forall d, e :: DescriptorDoc(d) in run[i].wire && DescriptorDoc(e) in run[i].wire && d.uid == e.uid ==> d == e
  {
    BehaviourSafe(run, actions, i);
    var s := run[i];
    forall k, n, uid | 0 <= k < |s.wire| && Refers(s.wire[k], n, uid) && n !in s.everLost
      ensures HasDescriptor(s.wire[..k], n, uid)
    {
      assert s.Sent()[..k] == s.wire[..k] && s.Sent()[k] == s.wire[k];
    }
    forall d, e | DescriptorDoc(d) in s.wire && DescriptorDoc(e) in s.wire && d.uid == e.uid ensures d == e {
      assert Known(s, d) && Known(s, e);
    }
  }

  /** A run in which no `save` lost its documents loses nothing. */
  lemma {:induction false} NothingLost(run: seq<System>, actions: seq<Action>, i: nat)
    requires Behaviour(run, actions) && i <= |actions|
    requires forall j :: 0 <= j < |actions| ==> !actions[j].SaveLosing?
    ensures run[i].everLost == {}
  {
    if i > 0 {
      NothingLost(run, actions, i - 1);
    }
  }

  /** A `save` that declares `n` and whose asset drain fails. */
  predicate Loses(s: System, a: Action, n: string) {
    a.SaveLosing? && s.b.open.Some? && s.b.open.value.objs != [] && s.b.open.value.streamName == n
    && n !in s.b.descriptors
  }

  /** What sends a current descriptor of `n` again: declaring the stream, or
      installing a reconfiguration of it. */
  predicate Resends(s: System, a: Action, n: string) {
    (a.Handle? && a.op.Declare? && a.op.stream == n) || (a.Swap? && n in Named(s.install))
  }

  lemma SaveDescribes(b: Bundler, n: string)
    requires b.InSync()
    ensures n in DescribedBy(Returned(b.Step(Save).1)) <==>
              b.open.Some? && b.open.value.objs != [] && b.open.value.streamName == n && n !in b.descriptors
  {
    if b.open.Some? && b.open.value.objs != [] {
      var reply := b.Step(Save).1;
      assert reply.docs[0].DescriptorDoc? ==> reply.docs[0].d.name.Some?;
    }
  }

  lemma DeclareDescribes(b: Bundler, stream: string, objs: seq<StreamObject>, n: string)
    requires Caches(b)
    ensures n in DescribedBy(Returned(b.Step(Declare(stream, objs)).1)) <==> n == stream
  {
    var docs := Returned(b.Step(Declare(stream, objs)).1);
    assert docs[0].d.name == Some(stream);
  }

  lemma LostStep(s: System, a: Action, n: string)
    requires Safe(s) && Enabled(s, a)
    ensures n in Act(s, a).lost <==> Loses(s, a, n) || (n in s.lost && !Resends(s, a, n))
  {
    if a == SaveLosing || a == Handle(Save) {
      SaveDescribes(s.b, n);
    } else if a.Handle? && a.op.Declare? {
      DeclareDescribes(s.b, a.op.stream, a.op.objs, n);
    }
  }

  /** The descriptor minted by call `j` was lost, and none was sent since. */
  ghost predicate Unsent(run: seq<System>, actions: seq<Action>, i: nat, j: nat, n: string)
    requires j < i <= |actions| && |run| == |actions| + 1
  {
    Loses(run[j], actions[j], n) && forall k :: j < k < i ==> !Resends(run[k], actions[k], n)
  }

  ghost predicate SomeUnsent(run: seq<System>, actions: seq<Action>, i: nat, n: string)
    requires i <= |actions| && |run| == |actions| + 1
  {
    exists j: nat :: j < i && Unsent(run, actions, i, j, n)
  }

  lemma UnsentLonger(run: seq<System>, actions: seq<Action>, i: nat, j: nat, n: string)
    requires j < i < |actions| && |run| == |actions| + 1
    ensures Unsent(run, actions, i + 1, j, n) <==> Unsent(run, actions, i, j, n) && !Resends(run[i], actions[i], n)
  {
  }

  lemma SomeUnsentStep(run: seq<System>, actions: seq<Action>, i: nat, n: string)
    requires i < |actions| && |run| == |actions| + 1
    ensures SomeUnsent(run, actions, i + 1, n) <==>
              Loses(run[i], actions[i], n) || (SomeUnsent(run, actions, i, n) && !Resends(run[i], actions[i], n))
  {
    if SomeUnsent(run, actions, i, n) && !Resends(run[i], actions[i], n) {
      var j: nat :| j < i && Unsent(run, actions, i, j, n);
      UnsentLonger(run, actions, i, j, n);
    }
    if SomeUnsent(run, actions, i + 1, n) {
      var j: nat :| j < i + 1 && Unsent(run, actions, i + 1, j, n);
      if j < i {
        UnsentLonger(run, actions, i, j, n);
      }
    }
    assert Unsent(run, actions, i + 1, i, n) <==> Loses(run[i], actions[i], n);
  }

  lemma {:induction false} LostIff(run: seq<System>, actions: seq<Action>, i: nat, n: string)
    requires Behaviour(run, actions) && i <= |actions|
    ensures n in run[i].lost <==> SomeUnsent(run, actions, i, n)
  {
    if i > 0 {
      LostIff(run, actions, i - 1, n);
      BehaviourSafe(run, actions, i - 1);
      LostStep(run[i - 1], actions[i - 1], n);
      SomeUnsentStep(run, actions, i - 1, n);
    }
  }

  ghost predicate SomeLost(run: seq<System>, actions: seq<Action>, i: nat, n: string)
    requires i <= |actions| && |run| == |actions| + 1
  {
    exists j: nat :: j < i && Loses(run[j], actions[j], n)
  }

  lemma SomeLostStep(run: seq<System>, actions: seq<Action>, i: nat, n: string)
    requires i < |actions| && |run| == |actions| + 1
    ensures SomeLost(run, actions, i + 1, n) <==> SomeLost(run, actions, i, n) || Loses(run[i], actions[i], n)
  {
  }

  lemma EverLostStep(s: System, a: Action, n: string)
    requires Safe(s)
    ensures n in Act(s, a).everLost <==> n in s.everLost || Loses(s, a, n)
  {
    if a.SaveLosing? {
      SaveDescribes(s.b, n);
    }
  }

  /** A stream once lost a descriptor if and only if some failing `save`
      declared it. */
  lemma {:induction false} EverLostIff(run: seq<System>, actions: seq<Action>, i: nat, n: string)
    requires Behaviour(run, actions) && i <= |actions|
    ensures n in run[i].everLost <==> SomeLost(run, actions, i, n)
  {
    if i > 0 {
      EverLostIff(run, actions, i - 1, n);
      BehaviourSafe(run, actions, i - 1);
      EverLostStep(run[i - 1], actions[i - 1], n);
      SomeLostStep(run, actions, i - 1, n);
    }
  }

  /** The call returns a descriptor of `n`: it declares the stream, or is a
      `save` that has to. */
  predicate Describes(s: System, a: Action, n: string) {
    && a.Handle?
    && ((a.op.Declare? && a.op.stream == n)
        || (a.op.Save? && s.b.open.Some? && s.b.open.value.objs != [] && s.b.open.value.streamName == n
            && n !in s.b.descriptors))
  }

  /** Only what is to be broadcast next can be a current descriptor. */
  ghost predicate FrontOnly(s: System) {
    forall k, n :: 0 < k < |s.outbox| && n in s.b.bundle.streams ==>
      !IsDescriptor(s.outbox[k], n, s.b.bundle.streams[n].descriptor.uid)
  }

  /** It is the stream's, which the wire has not. */
  ghost predicate Waits(s: System, n: string) {
    && n in s.b.bundle.streams && s.outbox != []
    && IsDescriptor(s.outbox[0], n, s.b.bundle.streams[n].descriptor.uid)
    && !HasDescriptor(s.wire, n, s.b.bundle.streams[n].descriptor.uid)
  }

  lemma OnTheWire(s: System, n: string)
    requires FrontOnly(s) && n in s.b.bundle.streams
    ensures var uid := s.b.bundle.streams[n].descriptor.uid;
            HasDescriptor(s.wire, n, uid) <==> HasDescriptor(s.Sent(), n, uid) && !Waits(s, n)
  {
    HasEither(s.wire, s.outbox, n, s.b.bundle.streams[n].descriptor.uid);
  }

  lemma CalledWaits(s: System, b': Bundler, docs: seq<Doc>, n: string)
    requires Safe(s) && s.Idle() && Tells(s.b, b', docs)
    ensures FrontOnly(Called(s, b', docs))
    ensures Waits(Called(s, b', docs), n) <==> n in DescribedBy(docs) && (n in s.b.bundle.streams ==> n in s.lost)
  {
    forall k | 0 < k < |docs| ensures !docs[k].DescriptorDoc? {
      assert NamesCurrent(s.b, b', docs[k], k == 0);
    }
    assert s.Sent() == s.wire;
    if n in b'.bundle.streams {
      CalledCurrent(s, b', docs, n);
    } else {
      assert n !in DescribedBy(docs) by {
        forall k | 0 <= k < |docs| && docs[k].DescriptorDoc? ensures docs[k].d.name != Some(n) {
          assert NamesCurrent(s.b, b', docs[k], k == 0);
        }
      }
    }
  }

  lemma HandledDescribes(s: System, op: Op, n: string)
    requires Caches(s.b) && !op.Install?
    ensures n in DescribedBy(Returned(s.b.Step(op).1)) <==> Describes(s, Handle(op), n)
  {
    if op.Save? {
      SaveDescribes(s.b, n);
    } else if op.Declare? {
      DeclareDescribes(s.b, op.stream, op.objs, n);
    }
  }

  lemma HandledWaits(s: System, op: Op, n: string)
    requires Safe(s) && Enabled(s, Handle(op))
    ensures FrontOnly(Act(s, Handle(op)))
    ensures Waits(Act(s, Handle(op)), n) <==> Describes(s, Handle(op), n) && (n in s.b.descriptors ==> n in s.lost)
  {
    StepTells(s.b, op);
    CalledWaits(s, s.b.Step(op).0, Returned(s.b.Step(op).1), n);
    HandledDescribes(s, op, n);
  }

  lemma ConfiguredWaits(s: System, order: seq<string>, objectName: string, config: Configuration, n: string)
    requires Safe(s) && s.Idle()
    ensures var s' := Act(s, Configure(order, objectName, config)); FrontOnly(s') && !Waits(s', n)
  {
    var s' := Act(s, Configure(order, objectName, config));
    CandidatesAre(s.b, order, objectName, config);
    forall k, m | 0 <= k < |s'.outbox| && m in s.b.bundle.streams
      ensures !IsDescriptor(s'.outbox[k], m, s.b.bundle.streams[m].descriptor.uid)
    {
      assert NextAfter(s.b, s'.install[k], k);
      assert Generation(s.b, s.b.bundle.streams[m].descriptor);
    }
  }

  lemma WaitsStep(s: System, a: Action, n: string)
    requires Safe(s) && Enabled(s, a) && FrontOnly(s)
    ensures FrontOnly(Act(s, a))
    ensures Waits(Act(s, a), n) <==>
              (Describes(s, a, n) && (n in s.b.descriptors ==> n in s.lost)) || (Waits(s, n) && !a.Broadcast?)
  {
    match a {
      case Handle(op) => HandledWaits(s, op, n);
      case Configure(order, objectName, config) => ConfiguredWaits(s, order, objectName, config, n);
      case Pump(stream, data, timestamps) => ComposedSameStreams(s.b, stream, data, timestamps);
      case Dispatch(k) =>
        if n in s.b.bundle.streams {
          HasEither(s.wire, [s.inflight[k]], n, s.b.bundle.streams[n].descriptor.uid);
        }
      case _ =>
    }
  }

  /** The message taken at `j` returned a descriptor the wire had not. */
  ghost predicate Announces(run: seq<System>, actions: seq<Action>, j: nat, n: string)
    requires j < |actions| && |run| == |actions| + 1
  {
    Describes(run[j], actions[j], n) && (n in run[j].b.descriptors ==> SomeUnsent(run, actions, j, n))
  }

  ghost predicate Holds(run: seq<System>, actions: seq<Action>, i: nat, j: nat, n: string)
    requires j < i <= |actions| && |run| == |actions| + 1
  {
    Announces(run, actions, j, n) && forall k :: j < k < i ==> !actions[k].Broadcast?
  }

  /** Such a message is in hand and nothing of it was broadcast yet. */
  ghost predicate Awaited(run: seq<System>, actions: seq<Action>, i: nat, n: string)
    requires i <= |actions| && |run| == |actions| + 1
  {
    exists j: nat :: j < i && Holds(run, actions, i, j, n)
  }

  lemma AwaitedStep(run: seq<System>, actions: seq<Action>, i: nat, n: string)
    requires i < |actions| && |run| == |actions| + 1
    ensures Awaited(run, actions, i + 1, n) <==>
              Announces(run, actions, i, n) || (Awaited(run, actions, i, n) && !actions[i].Broadcast?)
  {
    if Awaited(run, actions, i, n) && !actions[i].Broadcast? {
      var j: nat :| j < i && Holds(run, actions, i, j, n);
      assert Holds(run, actions, i + 1, j, n);
    }
    if Awaited(run, actions, i + 1, n) {
      var j: nat :| j < i + 1 && Holds(run, actions, i + 1, j, n);
      assert j < i ==> Holds(run, actions, i, j, n);
    }
    assert Holds(run, actions, i + 1, i, n) <==> Announces(run, actions, i, n);
  }

  lemma {:induction false} AwaitedIff(run: seq<System>, actions: seq<Action>, i: nat, n: string)
    requires Behaviour(run, actions) && i <= |actions|
    ensures FrontOnly(run[i])
    ensures Waits(run[i], n) <==> Awaited(run, actions, i, n)
  {
    if i > 0 {
      AwaitedIff(run, actions, i - 1, n);
      BehaviourSafe(run, actions, i - 1);
      LostIff(run, actions, i - 1, n);
      WaitsStep(run[i - 1], actions[i - 1], n);
      AwaitedStep(run, actions, i - 1, n);
    }
  }

  /** The next event composed on a declared stream, by engine or pump, names
      the stream's current descriptor. That is sent with the message in hand at
      the latest if and only if no failing `save` declared the stream, or the
      stream was declared again, or reconfigured, since. It is on the wire if
      and only if, besides, no message that has yet to broadcast it is in hand;
      between messages there is none. */
  lemma NextEventIsDescribed(run: seq<System>, actions: seq<Action>, i: nat, stream: string,
                             data: map<string, Json>, timestamps: map<string, Json>)
    requires Behaviour(run, actions) && i <= |actions| && stream in run[i].b.bundle.streams
    ensures var s := run[i];
            && stream in s.b.descriptors
            && s.b.bundle.NextEvent(stream, data, timestamps).descriptor == s.b.descriptors[stream]
            && (HasDescriptor(s.Sent(), stream, s.b.descriptors[stream]) <==> !SomeUnsent(run, actions, i, stream))
            && (HasDescriptor(s.wire, stream, s.b.descriptors[stream]) <==>
                  !SomeUnsent(run, actions, i, stream) && !Awaited(run, actions, i, stream))
            && (s.Idle() ==> !Awaited(run, actions, i, stream))
  {
    BehaviourSafe(run, actions, i);
    LostIff(run, actions, i, stream);
    AwaitedIff(run, actions, i, stream);
    OnTheWire(run[i], stream);
  }

  // ---- Nothing else is lost, and nothing sent twice ----

  /** What step `a` composes to be sent. */
  function ToSend(s: System, a: Action): seq<Doc> {
    match a
    case Handle(op) => Returned(s.b.Step(op).1)
    case Configure(order, objectName, config) => AsDocs(s.b.Candidates(order, objectName, config))
    case Pump(stream, data, timestamps) => Returned(s.b.Step(Direct(stream, data, timestamps)).1)
    case _ => []
  }

  function AllToSend(run: seq<System>, actions: seq<Action>, i: nat): multiset<Doc>
    requires i <= |actions| && |run| == |actions| + 1
  {
    if i == 0 then multiset{} else AllToSend(run, actions, i - 1) + multiset(ToSend(run[i - 1], actions[i - 1]))
  }

  /** Sent, or still to be. */
  function OnTheWay(s: System): multiset<Doc> {
    multiset(s.wire) + multiset(s.outbox) + multiset(s.inflight)
  }

  lemma MovedOver(wire: seq<Doc>, docs: seq<Doc>, k: nat)
    requires k < |docs|
    ensures multiset(wire + [docs[k]]) + multiset(docs[..k] + docs[k + 1..]) == multiset(wire) + multiset(docs)
  {
    assert docs == docs[..k] + [docs[k]] + docs[k + 1..];
  }

  /** `docs` come to what the engine or the pumps have still to send. */
  lemma ComesToSend(s: System, s': System, docs: seq<Doc>)
    requires s'.wire == s.wire
    requires || (s.outbox == [] && s'.outbox == docs && s'.inflight == s.inflight)
             || (s'.outbox == s.outbox && s'.inflight == s.inflight + docs)
    ensures OnTheWay(s') == OnTheWay(s) + multiset(docs)
  {
  }

  lemma SameTogether(w: multiset<Doc>, o: multiset<Doc>, i: multiset<Doc>, w': multiset<Doc>, o': multiset<Doc>, i': multiset<Doc>)
    requires (w' + o' == w + o && i' == i) || (w' + i' == w + i && o' == o)
    ensures w' + o' + i' == w + o + i
  {
    assert w + o + i == w + i + o && w' + o' + i' == w' + i' + o';
  }

  lemma BroadcastSends(s: System, s': System)
    requires s.outbox != [] && s'.wire == s.wire + [s.outbox[0]] && s'.outbox == s.outbox[1..] && s'.inflight == s.inflight
    ensures OnTheWay(s') == OnTheWay(s)
  {
    MovedOver(s.wire, s.outbox, 0);
    assert s.outbox[..0] + s'.outbox == s'.outbox;
    SameTogether(multiset(s.wire), multiset(s.outbox), multiset(s.inflight),
                 multiset(s'.wire), multiset(s'.outbox), multiset(s.inflight));
  }

  lemma DispatchSends(s: System, s': System, k: nat)
    requires k < |s.inflight| && s'.wire == s.wire + [s.inflight[k]] && s'.outbox == s.outbox
    requires s'.inflight == s.inflight[..k] + s.inflight[k + 1..]
    ensures OnTheWay(s') == OnTheWay(s)
  {
    MovedOver(s.wire, s.inflight, k);
    SameTogether(multiset(s.wire), multiset(s.outbox), multiset(s.inflight),
                 multiset(s'.wire), multiset(s.outbox), multiset(s'.inflight));
  }

  lemma SentStep(s: System, a: Action)
    requires Enabled(s, a)
    ensures OnTheWay(Act(s, a)) == OnTheWay(s) + multiset(ToSend(s, a))
  {
    match a {
      case Broadcast => BroadcastSends(s, Act(s, a));
      case Dispatch(k) => DispatchSends(s, Act(s, a), k);
      case Pump(_, _, _) => ComesToSend(s, Act(s, a), ToSend(s, a));
      case Handle(_) => ComesToSend(s, Act(s, a), ToSend(s, a));
      case Configure(_, _, _) => ComesToSend(s, Act(s, a), ToSend(s, a));
      case _ =>
    }
  }

  /** In every run what was composed, but for what a failing `save` drops, is
      on the wire or on its way there, each document once for each time. */
  lemma {:induction false} AllIsSent(run: seq<System>, actions: seq<Action>, i: nat)
    requires Behaviour(run, actions) && i <= |actions|
    ensures OnTheWay(run[i]) == AllToSend(run, actions, i)
  {
    if i > 0 {
      AllIsSent(run, actions, i - 1);
      SentStep(run[i - 1], actions[i - 1]);
    }
  }

  // ---- What a configure changes ----

  ghost predicate Carries(b: Bundler, d: EventDescriptor, objectName: string, config: Configuration) {
    && d.name.Some? && b.bundle.Describes(d.name.value, objectName)
    && d.uid >= b.bundle.nextUid
    && Redescribes(d, b.bundle.streams[d.name.value].descriptor, objectName, config)
  }

  lemma {:induction false} CandidatesCarry(b: Bundler, order: seq<string>, objectName: string, config: Configuration)
    requires Caches(b)
    ensures var ds := b.Candidates(order, objectName, config);
            && (forall i :: 0 <= i < |ds| ==> Carries(b, ds[i], objectName, config))
            && forall n :: n in Named(ds) <==> n in order && b.bundle.Describes(n, objectName)
    decreases |order|
  {
    if order != [] {
      var n := order[|order| - 1];
      var before := b.Candidates(order[..|order| - 1], objectName, config);
      CandidatesCarry(b, order[..|order| - 1], objectName, config);
      if b.bundle.Describes(n, objectName) {
        NamedSnoc(before, b.bundle.Drawn(|before|).NextGeneration(n, objectName, config));
      }
    }
  }

  /** A stream between a configure and what follows it: reconfigured if its
      descriptor lists the object, and else left alone. */
  ghost predicate Reconfigured(b: Bundler, b': Bundler, n: string, objectName: string, config: Configuration)
    requires n in b.bundle.streams
  {
    && n in b'.bundle.streams
    && var prev, next := b.bundle.streams[n].descriptor, b'.bundle.streams[n].descriptor;
       if objectName in prev.schema.configuration
       then Redescribes(next, prev, objectName, config) && next.uid >= b.bundle.nextUid > prev.uid
       else next == prev
  }

  /** Generations that carry the configuration, one for each stream that lists
      the object. */
  ghost predicate AllCarry(b: Bundler, ds: seq<EventDescriptor>, objectName: string, config: Configuration) {
    && (forall i :: 0 <= i < |ds| ==> Carries(b, ds[i], objectName, config))
    && forall n :: n in Named(ds) <==> b.bundle.Describes(n, objectName)
  }

  lemma SwapReconfigures(b: Bundler, c: Bundler, b': Bundler, ds: seq<EventDescriptor>, objectName: string, config: Configuration, n: string)
    requires Caches(b) && n in b.bundle.streams && AllCarry(b, ds, objectName, config)
    requires SameStreams(b, c) && Swapped(c, b', ds)
    ensures Reconfigured(b, b', n, objectName, config)
  {
    assert Generation(b, b.bundle.streams[n].descriptor);
    if n in Named(ds) {
      var d := b'.bundle.streams[n].descriptor;
      var i :| 0 <= i < |ds| && ds[i] == d;
      assert Carries(b, ds[i], objectName, config);
    }
  }

  lemma SameStreamsTwice(a: Bundler, b: Bundler, c: Bundler)
    requires SameStreams(a, b) && SameStreams(b, c)
    ensures SameStreams(a, c)
  {
  }

  lemma UntilSwapped(s: System, a: Action)
    requires Safe(s) && Enabled(s, a) && s.install != [] && !a.Swap?
    ensures SameStreams(s.b, Act(s, a).b) && Act(s, a).install == s.install
  {
    if a.Pump? {
      ComposedSameStreams(s.b, a.stream, a.data, a.timestamps);
    }
  }

  lemma ConfigureKeeps(s: System, a: Action)
    requires Safe(s) && a.Configure?
    ensures SameStreams(s.b, Act(s, a).b)
  {
  }

  lemma StepUntilSwap(run: seq<System>, actions: seq<Action>, j: nat)
    requires Behaviour(run, actions) && j < |actions| && run[j].install != [] && !actions[j].Swap?
    ensures SameStreams(run[j].b, run[j + 1].b) && run[j + 1].install == run[j].install
  {
    BehaviourSafe(run, actions, j);
    UntilSwapped(run[j], actions[j]);
  }

  /** From a configure that has something to do to its swap only pumps and
      broadcasts come between. */
  lemma {:induction false} UntilSwap(run: seq<System>, actions: seq<Action>, k: nat, i: nat)
    requires Behaviour(run, actions) && k < i <= |actions| && actions[k].Configure? && run[k + 1].install != []
    requires forall j :: k < j < i ==> !actions[j].Swap?
    ensures SameStreams(run[k].b, run[i].b) && run[i].install == run[k + 1].install
  {
    if i > k + 1 {
      UntilSwap(run, actions, k, i - 1);
      StepUntilSwap(run, actions, i - 1);
      SameStreamsTwice(run[k].b, run[i - 1].b, run[i].b);
    } else {
      NothingToConfigure(run, actions, k);
    }
  }

  /** There is nothing to do exactly when no stream lists the object. */
  lemma NothingToConfigure(run: seq<System>, actions: seq<Action>, k: nat)
    requires Behaviour(run, actions) && k < |actions| && actions[k].Configure?
    ensures run[k + 1].install == [] <==> forall n :: !run[k].b.bundle.Describes(n, actions[k].objectName)
    ensures SameStreams(run[k].b, run[k + 1].b)
  {
    BehaviourSafe(run, actions, k);
    ConfigureKeeps(run[k], actions[k]);
    ConfigureCarries(run[k], actions[k]);
    NamedNone(run[k + 1].install);
  }

  lemma NamedNone(ds: seq<EventDescriptor>)
    ensures ds != [] && ds[0].name.Some? ==> ds[0].name.value in Named(ds)
    ensures ds == [] ==> Named(ds) == {}
  {
  }

  lemma ConfigureCarries(s: System, a: Action)
    requires Safe(s) && a.Configure? && Enabled(s, a)
    ensures AllCarry(s.b, Act(s, a).install, a.objectName, a.config)
  {
    CandidatesCarry(s.b, a.order, a.objectName, a.config);
  }

  /** In every run: by the swap that ends a configure, every stream whose
      descriptor lists the object has a descriptor with the new configuration,
      which the wire has, and every other object's configuration and every
      other stream is as before. The swap leaves the counters alone. */
  lemma ConfigureTakesEffect(run: seq<System>, actions: seq<Action>, k: nat, m: nat, n: string)
    requires Behaviour(run, actions) && k < m < |actions| && actions[k].Configure? && actions[m].Swap?
    requires run[k + 1].install != [] && forall i :: k < i < m ==> !actions[i].Swap?
    requires n in run[k].b.bundle.streams
    ensures Reconfigured(run[k].b, run[m + 1].b, n, actions[k].objectName, actions[k].config)
    ensures run[k].b.bundle.Describes(n, actions[k].objectName) ==>
              HasDescriptor(run[m + 1].wire, n, run[m + 1].b.bundle.streams[n].descriptor.uid)
    ensures run[m + 1].b.bundle.Count(n) == run[m].b.bundle.Count(n)
  {
    var a, ds := actions[k], run[k + 1].install;
    ConfigureAt(run, actions, k);
    UntilSwap(run, actions, k, m);
    SwapAt(run, actions, m, n);
    SwapReconfigures(run[k].b, run[m].b, run[m + 1].b, ds, a.objectName, a.config, n);
    if n in Named(ds) {
      SwapSends(run[m], run[m + 1], n);
    }
  }

  lemma ConfigureAt(run: seq<System>, actions: seq<Action>, k: nat)
    requires Behaviour(run, actions) && k < |actions| && actions[k].Configure?
    ensures Caches(run[k].b) && AllCarry(run[k].b, run[k + 1].install, actions[k].objectName, actions[k].config)
  {
    BehaviourSafe(run, actions, k);
    ConfigureCarries(run[k], actions[k]);
  }

  lemma SwapAt(run: seq<System>, actions: seq<Action>, m: nat, n: string)
    requires Behaviour(run, actions) && m < |actions| && actions[m].Swap?
    ensures Swapped(run[m].b, run[m + 1].b, run[m].install)
    ensures CurrentSent(run[m + 1]) && run[m + 1].outbox == [] && run[m + 1].lost == run[m].lost - Named(run[m].install)
    ensures run[m + 1].b.bundle.Count(n) == run[m].b.bundle.Count(n)
  {
    SentAt(run, actions, m + 1);
    SwappedAt(run, actions, m);
    InstalledCount(run[m].b, run[m].install, n);
  }

  lemma SwappedAt(run: seq<System>, actions: seq<Action>, m: nat)
    requires Behaviour(run, actions) && m < |actions| && actions[m].Swap?
    ensures Swapped(run[m].b, run[m + 1].b, run[m].install)
  {
    BehaviourSafe(run, actions, m);
    InstallNamed(run[m]);
  }

  lemma SentAt(run: seq<System>, actions: seq<Action>, i: nat)
    requires Behaviour(run, actions) && i <= |actions|
    ensures CurrentSent(run[i])
  {
    BehaviourSafe(run, actions, i);
  }

  lemma SwapSends(t: System, t': System, n: string)
    requires CurrentSent(t') && t'.outbox == [] && t'.lost == t.lost - Named(t.install)
    requires n in Named(t.install) && n in t'.b.bundle.streams
    ensures HasDescriptor(t'.wire, n, t'.b.bundle.streams[n].descriptor.uid)
  {
    assert t'.Sent() == t'.wire;
  }

  lemma {:induction false} InstalledCount(b: Bundler, ds: seq<EventDescriptor>, n: string)
    ensures b.InstalledAll(ds).bundle.Count(n) == b.bundle.Count(n)
    decreases |ds|
  {
    if ds != [] {
      InstalledCount(b, ds[..|ds| - 1], n);
    }
  }

  /** Every descriptor on the wire is of the run. */
  lemma WireIsOfTheRun(run: seq<System>, actions: seq<Action>, i: nat, d: EventDescriptor)
    requires Behaviour(run, actions) && i <= |actions| && DescriptorDoc(d) in run[i].wire
    ensures d.runStart == run[0].b.bundle.startUid && d.uid > 0 && d.name.Some?
  {
    BehaviourSafe(run, actions, i);
    assert Known(run[i], d);
    StartUidStays(run, actions, i);
  }

  lemma {:induction false} StartUidStays(run: seq<System>, actions: seq<Action>, i: nat)
    requires Behaviour(run, actions) && i <= |actions|
    ensures run[i].b.bundle.startUid == run[0].b.bundle.startUid
  {
    if i > 0 {
      StartUidStays(run, actions, i - 1);
      StartUidKept(run[i - 1], actions[i - 1]);
    }
  }

  lemma StartUidKept(s: System, a: Action)
    requires Enabled(s, a)
    ensures Act(s, a).b.bundle.startUid == s.b.bundle.startUid
  {
    match a {
      case Handle(op) => StepKeepsStartUid(s.b, op);
      case SaveLosing => StepKeepsStartUid(s.b, Save);
      case Swap => InstalledStartUid(s.b, s.install);
      case _ =>
    }
  }

  lemma StepKeepsStartUid(b: Bundler, op: Op)
    requires !op.Install?
    ensures b.Step(op).0.bundle.startUid == b.bundle.startUid
  {
  }

  lemma {:induction false} InstalledStartUid(b: Bundler, ds: seq<EventDescriptor>)
    ensures b.InstalledAll(ds).bundle.startUid == b.bundle.startUid
    decreases |ds|
  {
    if ds != [] {
      InstalledStartUid(b, ds[..|ds| - 1]);
    }
  }

  /** A stream's schema never changes: its descriptors on the wire differ in
      uid and configuration values alone. */
  lemma SchemaIsFixed(run: seq<System>, actions: seq<Action>, i: nat, d: EventDescriptor, e: EventDescriptor)
    requires Behaviour(run, actions) && i <= |actions|
    requires DescriptorDoc(d) in run[i].wire && DescriptorDoc(e) in run[i].wire && d.name == e.name
    ensures SameShape(d, e)
  {
    BehaviourSafe(run, actions, i);
    assert Known(run[i], d) && Known(run[i], e);
  }

  function Filled(b: Bundler, obj: StreamObject): Bundler {
    b.(open := Some(OpenBundle("p", map[], [obj])))
  }

  lemma FilledBy(s: System, obj: StreamObject)
    requires s.Idle() && s.b.open.None?
    ensures var s' := Act(Act(s, Handle(Create("p"))), Handle(AddRead(obj, map[])));
            s' == s.(b := Filled(s.b, obj)) && Act(s, Handle(Create("p"))).Idle()
  {
    var s1 := Act(s, Handle(Create("p")));
    assert forall lost: set<string> :: lost - DescribedBy([]) == lost;
    assert s1 == s.(b := s.b.(open := Some(OpenBundle("p", map[], []))));
    var none: map<string, Reading> := map[];
    assert none + none == none && [] + [obj] == [obj];
  }

  lemma SaveMints(b: Bundler, obj: StreamObject)
    requires "p" !in b.descriptors && "p" !in b.bundle.streams && b.bundle.nextUid > 0
    ensures var b' := Filled(b, obj).Step(Save).0;
            b'.open.None? && "p" in b'.bundle.streams && !b'.NeedsDescriptor("p")
  {
  }

  lemma SaveIsBare(b: Bundler, obj: StreamObject)
    requires "p" in b.bundle.streams && !b.NeedsDescriptor("p")
    ensures var reply := Filled(b, obj).Step(Save).1;
            reply.Docs? && |reply.docs| == 1 && reply.docs[0].EventDoc?
  {
  }

  lemma BehaviourSnoc(run: seq<System>, actions: seq<Action>, a: Action)
    returns (run': seq<System>, actions': seq<Action>)
    requires Behaviour(run, actions) && Enabled(run[|actions|], a)
    ensures Behaviour(run', actions') && run'[|actions'|] == Act(run[|actions|], a)
  {
    run', actions' := run + [Act(run[|actions|], a)], actions + [a];
    assert run'[0] == run[0];
    forall i | 0 <= i < |actions'| ensures Enabled(run'[i], actions'[i]) && run'[i + 1] == Act(run'[i], actions'[i]) {
      if i < |actions| {
        assert run'[i] == run[i] && run'[i + 1] == run[i + 1] && actions'[i] == actions[i];
      }
    }
  }

  /** A bundle with one read, opened by an idle engine. */
  lemma FillFrom(run: seq<System>, actions: seq<Action>, obj: StreamObject)
    returns (run': seq<System>, actions': seq<Action>)
    requires Behaviour(run, actions) && run[|actions|].Idle() && run[|actions|].b.open.None?
    ensures Behaviour(run', actions')
    ensures run'[|actions'|] == run[|actions|].(b := Filled(run[|actions|].b, obj))
  {
    FilledBy(run[|actions|], obj);
    run', actions' := BehaviourSnoc(run, actions, Handle(Create("p")));
    run', actions' := BehaviourSnoc(run', actions', Handle(AddRead(obj, map[])));
  }

  /** The condition matters. A first `save` on a stream whose asset drain fails
      drops the descriptor; the next `save` on it sends a bare event. */
  lemma LostDescriptorLeavesBareEvent(obj: StreamObject, startUid: Uid)
    returns (run: seq<System>, actions: seq<Action>)
    ensures Behaviour(run, actions)
    ensures var s := run[|actions|]; s.Idle() && |s.wire| == 1 && s.wire[0].EventDoc?
  {
    run, actions := [Start(startUid, 1)], [];
    SaveMints(run[0].b, obj);
    run, actions := FillFrom(run, actions, obj);
    run, actions := BehaviourSnoc(run, actions, SaveLosing);
    SaveIsBare(run[|actions|].b, obj);
    run, actions := FillFrom(run, actions, obj);
    run, actions := BehaviourSnoc(run, actions, Handle(Save));
    run, actions := BehaviourSnoc(run, actions, Broadcast);
  }
}
