/** Rewinding to a checkpoint and re-issuing the same calls. */
module Replay {
  import opened Prelude
  import opened Documents
  import opened Compose
  import opened Bundling

  /** The calls a checkpoint region may hold; a reconfiguration is excluded. */
  predicate InRegion(op: Op) {
    !op.Install? && !op.Checkpoint? && !op.ClearCheckpoint? && !op.Rewind?
  }

  ghost predicate Region(ops: seq<Op>) {
    forall i :: 0 <= i < |ops| ==> InRegion(ops[i])
  }

  function Run(b: Bundler, ops: seq<Op>): (r: (Bundler, seq<Reply>))
    ensures |r.1| == |ops|
    decreases |ops|
  {
    if ops == [] then (b, [])
    else
      var (b', reply) := b.Step(ops[0]);
      var (last, replies) := Run(b', ops[1..]);
      (last, [reply] + replies)
  }

  /** The document with its own uid blanked; a descriptor is kept as it is. */
  function Faceless(doc: Doc): Doc {
    match doc
    case EventDoc(s, e) => EventDoc(s, e.(uid := 0))
    case PageDoc(s, page) => PageDoc(s, page.(uids := []))
    case _ => doc
  }

  function Descriptor(docs: seq<Doc>): Option<EventDescriptor> {
    if docs != [] && docs[0].DescriptorDoc? then Some(docs[0].d) else None
  }

  /** What follows the descriptor a reply may start with: at most one document. */
  function Record(docs: seq<Doc>): Option<Doc> {
    var rest := if docs != [] && docs[0].DescriptorDoc? then docs[1..] else docs;
    if rest == [] then None else Some(Faceless(rest[0]))
  }

  /** The same error; or the same event, page or span, and no descriptor but
      the one the first reply carried. */
  predicate Repeats(first: Reply, again: Reply) {
    match first
    case Rejected(why) => again == Rejected(why)
    case Docs(docs) =>
      && again.Docs?
      && Record(again.docs) == Record(docs)
      && (Descriptor(again.docs).Some? ==> Descriptor(again.docs) == Descriptor(docs))
  }

  ghost predicate AllRepeat(first: seq<Reply>, again: seq<Reply>) {
    && |first| == |again|
    && forall i :: 0 <= i < |first| ==> Repeats(first[i], again[i])
  }

  /** No call composes for a stream that is undeclared at that point and is in
      `declared`, the streams declared by the end of the region. */
  predicate NeverEarly(b: Bundler, ops: seq<Op>, declared: set<string>)
    decreases |ops|
  {
    ops == [] || (Timely(b, ops[0], declared) && NeverEarly(b.Step(ops[0]).0, ops[1..], declared))
  }

  predicate Timely(b: Bundler, op: Op, declared: set<string>) {
    Composes(op) && op.stream !in b.bundle.streams ==> op.stream !in declared
  }

  /** Equal but for how many uids were drawn. */
  predicate Alike(a: Bundler, c: Bundler) {
    a.(bundle := a.bundle.(nextUid := 0)) == c.(bundle := c.bundle.(nextUid := 0))
  }

  /** `a` is in the first pass, `c` at the same call of a replay; `last` are
      the streams at the end of the first pass. */
  ghost predicate Tracks(a: Bundler, c: Bundler, last: map<string, StreamState>) {
    && a.InSync() && c.InSync()
    && c.open == a.open && c.seqSnapshot == a.seqSnapshot
    && c.bundle.startUid == a.bundle.startUid
    && c.bundle.streams.Keys == last.Keys
    && (forall s :: s in last ==> c.bundle.streams[s].descriptor == last[s].descriptor)
    && Grows(a.bundle.streams, last)
  }

  /** Every stream of `a` is in `b` with the same descriptor. */
  ghost predicate Grows(a: map<string, StreamState>, b: map<string, StreamState>) {
    forall s :: s in a ==> s in b && a[s].descriptor == b[s].descriptor
  }

  predicate Level(a: Bundler, c: Bundler, stream: string) {
    a.bundle.Count(stream) == c.bundle.Count(stream)
  }

  /** Both counters of each stream move alike. */
  ghost predicate MovesAlike(a: Bundler, c: Bundler, a': Bundler, c': Bundler) {
    forall s :: Level(a', c', s) <==> Level(a, c, s)
  }

  /** What a call of the region leaves alone, and that it only adds streams. */
  ghost predicate Extends(b: Bundler, b': Bundler) {
    && b'.InSync()
    && Grows(b.bundle.streams, b'.bundle.streams)
    && b'.seqSnapshot == b.seqSnapshot
    && b'.bundle.startUid == b.bundle.startUid
  }

  lemma MovedExtends(b: Bundler, stream: string, n: nat, drawn: nat)
    requires b.InSync()
    ensures Extends(b, b.Moved(stream, n, drawn))
  {
  }

  lemma PreparedExtends(b: Bundler, stream: string, objs: seq<StreamObject>)
    requires b.InSync()
    ensures Extends(b, b.Prepared(stream, objs))
  {
  }

  lemma RecordedExtends(b: Bundler, o: OpenBundle)
    requires b.InSync()
    ensures Extends(b, b.Recorded(o).0)
    ensures o.streamName in b.Recorded(o).0.bundle.streams
  {
    if b.NeedsDescriptor(o.streamName) {
      PreparedExtends(b, o.streamName, o.objs);
      MovedExtends(b.Prepared(o.streamName, o.objs), o.streamName, 1, 1);
    } else {
      MovedExtends(b, o.streamName, 1, 1);
    }
  }

  lemma StepExtends(b: Bundler, op: Op)
    requires b.InSync() && InRegion(op)
    ensures Extends(b, b.Step(op).0)
  {
    match op {
      case Save =>
        if b.open.Some? && b.open.value.objs != [] {
          RecordedExtends(b.(open := None), b.open.value);
        }
      case Direct(stream, _, _) => MovedExtends(b, stream, 1, 1);
      case Page(stream, n, _, _) => MovedExtends(b, stream, n, n);
      case Advance(stream, n) => MovedExtends(b, stream, n, 0);
      case Declare(stream, objs) => PreparedExtends(b, stream, objs);
      case _ =>
    }
  }

  lemma {:induction false} RunGrows(b: Bundler, ops: seq<Op>)
    requires b.InSync() && Region(ops)
    ensures Grows(b.bundle.streams, Run(b, ops).0.bundle.streams)
    ensures Run(b, ops).0.InSync()
    ensures Run(b, ops).0.seqSnapshot == b.seqSnapshot
    ensures Run(b, ops).0.bundle.startUid == b.bundle.startUid
    decreases |ops|
  {
    if ops != [] {
      StepExtends(b, ops[0]);
      RunGrows(b.Step(ops[0]).0, ops[1..]);
    }
  }

  lemma MovedTracks(a: Bundler, c: Bundler, last: map<string, StreamState>, stream: string, n: nat, drawn: nat)
    requires Tracks(a, c, last)
    ensures stream in a.bundle.streams ==> Tracks(a.Moved(stream, n, drawn), c.Moved(stream, n, drawn), last)
    ensures stream !in a.bundle.streams ==> Tracks(a, c.Moved(stream, n, drawn), last)
  {
  }

  lemma MovedAlike(a: Bundler, c: Bundler, stream: string, n: nat, drawn: nat)
    requires stream in a.bundle.streams <==> stream in c.bundle.streams
    ensures MovesAlike(a, c, a.Moved(stream, n, drawn), c.Moved(stream, n, drawn))
  {
  }

  predicate Composes(op: Op) {
    op.Direct? || op.Page? || op.Advance?
  }

  function Width(op: Op): nat
    requires Composes(op)
  {
    if op.Direct? then 1 else op.n
  }

  function Draws(op: Op): nat
    requires Composes(op)
  {
    if op.Advance? then 0 else Width(op)
  }

  lemma ComposingUnfolds(b: Bundler, op: Op)
    requires Composes(op)
    ensures b.Step(op).0 == b.Moved(op.stream, Width(op), Draws(op)).(bundle := b.Step(op).0.bundle)
    ensures op.stream in b.bundle.streams ==> b.Step(op).0 == b.Moved(op.stream, Width(op), Draws(op)) && b.Step(op).1.Docs?
    ensures op.stream !in b.bundle.streams ==> b.Step(op) == (b, Rejected(UnknownStream))
  {
  }

  /** A call shows the counter it starts from, except as a page of no rows. */
  predicate Shows(op: Op) {
    op.Direct? || op.Advance? || (op.Page? && op.n > 0)
  }

  lemma ComposingReplies(a: Bundler, c: Bundler, op: Op)
    requires Composes(op) && op.stream in a.bundle.streams && op.stream in c.bundle.streams
    requires a.bundle.streams[op.stream].descriptor == c.bundle.streams[op.stream].descriptor
    ensures Repeats(a.Step(op).1, c.Step(op).1) <==> (Shows(op) ==> Level(a, c, op.stream))
  {
    if op.Page? && op.n > 0 {
      assert From(a.bundle.Count(op.stream) + 1, op.n)[0] == a.bundle.Count(op.stream) + 1;
      assert From(c.bundle.Count(op.stream) + 1, op.n)[0] == c.bundle.Count(op.stream) + 1;
    }
  }

  /** A call composing for `stream` by moving its counter. */
  lemma ComposingTracks(a: Bundler, c: Bundler, last: map<string, StreamState>, op: Op)
    requires Tracks(a, c, last) && Composes(op)
    ensures Tracks(a.Step(op).0, c.Step(op).0, last)
    ensures !Timely(a, op, last.Keys) ==> !Repeats(a.Step(op).1, c.Step(op).1)
  {
    ComposingUnfolds(a, op);
    ComposingUnfolds(c, op);
    MovedTracks(a, c, last, op.stream, Width(op), Draws(op));
  }

  lemma ComposingRepeats(a: Bundler, c: Bundler, last: map<string, StreamState>, op: Op)
    requires Tracks(a, c, last) && Composes(op) && Timely(a, op, last.Keys)
    ensures MovesAlike(a, c, a.Step(op).0, c.Step(op).0)
    ensures Repeats(a.Step(op).1, c.Step(op).1) <==> (op.stream in a.bundle.streams && Shows(op) ==> Level(a, c, op.stream))
  {
    ComposingUnfolds(a, op);
    ComposingUnfolds(c, op);
    if op.stream in a.bundle.streams {
      assert op.stream in last;
      MovedAlike(a, c, op.stream, Width(op), Draws(op));
      ComposingReplies(a, c, op);
    }
  }

  lemma PreparedTracks(a: Bundler, c: Bundler, last: map<string, StreamState>, stream: string, objs: seq<StreamObject>)
    requires Tracks(a, c, last)
    requires Grows(a.Prepared(stream, objs).bundle.streams, last)
    ensures Tracks(a.Prepared(stream, objs), c, last)
    ensures c.Prepared(stream, objs) == c
    ensures MovesAlike(a, c, a.Prepared(stream, objs), c)
  {
    var a' := a.Prepared(stream, objs);
    PreparedExtends(a, stream, objs);
    assert stream in a'.bundle.streams && stream in last;
    assert c.descriptors[stream] == c.bundle.streams[stream].descriptor.uid;
    assert c.descriptors[stream := c.descriptors[stream]] == c.descriptors;
  }

  function Ready(b: Bundler, o: OpenBundle): Bundler {
    if b.NeedsDescriptor(o.streamName) then b.Prepared(o.streamName, o.objs) else b
  }

  function Event(o: OpenBundle): Op {
    Direct(o.streamName, Values(o.readings), Times(o.readings))
  }

  /** `save` is `prepare_stream` if need be, then the event. */
  lemma RecordedUnfolds(b: Bundler, o: OpenBundle)
    requires b.InSync()
    ensures b.Recorded(o).0 == Ready(b, o).Step(Event(o)).0
    ensures b.Recorded(o).1.Docs? && Ready(b, o).Step(Event(o)).1.Docs?
    ensures Record(b.Recorded(o).1.docs) == Record(Ready(b, o).Step(Event(o)).1.docs)
    ensures !b.NeedsDescriptor(o.streamName) ==> b.Recorded(o).1 == b.Step(Event(o)).1
  {
  }

  /** `save` in both passes: the first may declare the stream, the replay finds
      it declared. */
  lemma RecordedTracks(a: Bundler, c: Bundler, last: map<string, StreamState>, o: OpenBundle)
    requires Tracks(a, c, last)
    requires Grows(a.Recorded(o).0.bundle.streams, last)
    ensures Tracks(a.Recorded(o).0, c.Recorded(o).0, last)
    ensures MovesAlike(a, c, a.Recorded(o).0, c.Recorded(o).0)
    ensures Repeats(a.Recorded(o).1, c.Recorded(o).1) <==> Level(a, c, o.streamName)
  {
    var s := o.streamName;
    RecordedExtends(a, o);
    RecordedUnfolds(a, o);
    RecordedUnfolds(c, o);
    var ready := Ready(a, o);
    if a.NeedsDescriptor(s) {
      MovedExtends(ready, s, 1, 1);
      assert Grows(ready.bundle.streams, last);
      PreparedTracks(a, c, last, s, o.objs);
    }
    assert s in last && !c.NeedsDescriptor(s);
    ComposingTracks(ready, c, last, Event(o));
    ComposingRepeats(ready, c, last, Event(o));
  }

  /** The call composes for `stream` what shows its counter. */
  predicate NumberedBy(b: Bundler, op: Op, stream: string) {
    if op.Save? then b.open.Some? && b.open.value.objs != [] && b.open.value.streamName == stream
    else Shows(op) && op.stream == stream && stream in b.bundle.streams
  }

  /** Some call of the region does. */
  predicate NumberedIn(b: Bundler, ops: seq<Op>, stream: string)
    decreases |ops|
  {
    ops != [] && (NumberedBy(b, ops[0], stream) || NumberedIn(b.Step(ops[0]).0, ops[1..], stream))
  }

  lemma SavedTracks(a: Bundler, c: Bundler, last: map<string, StreamState>)
    requires Tracks(a, c, last)
    requires Grows(a.Step(Save).0.bundle.streams, last)
    ensures Tracks(a.Step(Save).0, c.Step(Save).0, last)
    ensures MovesAlike(a, c, a.Step(Save).0, c.Step(Save).0)
    ensures Repeats(a.Step(Save).1, c.Step(Save).1) <==> forall s :: NumberedBy(a, Save, s) ==> Level(a, c, s)
  {
    if a.open.Some? && a.open.value.objs != [] {
      RecordedTracks(a.(open := None), c.(open := None), last, a.open.value);
      assert NumberedBy(a, Save, a.open.value.streamName);
    }
  }

  lemma UncountedTracks(a: Bundler, c: Bundler, last: map<string, StreamState>, op: Op)
    requires Tracks(a, c, last)
    requires op.Create? || op.AddRead? || op.DropBundle?
    ensures Tracks(a.Step(op).0, c.Step(op).0, last)
    ensures a.Step(op).0.bundle == a.bundle && c.Step(op).0.bundle == c.bundle
    ensures Repeats(a.Step(op).1, c.Step(op).1)
  {
  }

  lemma StepTracks(a: Bundler, c: Bundler, last: map<string, StreamState>, op: Op)
    requires Tracks(a, c, last) && InRegion(op)
    requires Grows(a.Step(op).0.bundle.streams, last)
    ensures Tracks(a.Step(op).0, c.Step(op).0, last)
    ensures Timely(a, op, last.Keys) ==>
              && MovesAlike(a, c, a.Step(op).0, c.Step(op).0)
              && (Repeats(a.Step(op).1, c.Step(op).1) <==> forall s :: NumberedBy(a, op, s) ==> Level(a, c, s))
    ensures !Timely(a, op, last.Keys) ==> !Repeats(a.Step(op).1, c.Step(op).1)
  {
    if op.Save? {
      SavedTracks(a, c, last);
    } else if op.Declare? {
      PreparedTracks(a, c, last, op.stream, op.objs);
    } else if Composes(op) {
      ComposingTracks(a, c, last, op);
      if Timely(a, op, last.Keys) {
        ComposingRepeats(a, c, last, op);
        assert op.stream in a.bundle.streams && Shows(op) ==> NumberedBy(a, op, op.stream);
      }
    } else {
      UncountedTracks(a, c, last, op);
    }
  }

  lemma AllRepeatSplits(first: seq<Reply>, again: seq<Reply>)
    requires |first| == |again| > 0
    ensures AllRepeat(first, again) <==> Repeats(first[0], again[0]) && AllRepeat(first[1..], again[1..])
  {
    if Repeats(first[0], again[0]) && AllRepeat(first[1..], again[1..]) {
      forall i | 0 <= i < |first| ensures Repeats(first[i], again[i]) {
        if i > 0 {
          assert Repeats(first[1..][i - 1], again[1..][i - 1]);
        }
      }
    }
  }

  /** The streams whose numbers the region shows start it level. */
  ghost predicate LevelWhereShown(a: Bundler, c: Bundler, ops: seq<Op>) {
    forall s :: NumberedIn(a, ops, s) ==> Level(a, c, s)
  }

  lemma {:induction false} RunTracks(a: Bundler, c: Bundler, ops: seq<Op>)
    requires Region(ops)
    requires Tracks(a, c, Run(a, ops).0.bundle.streams)
    ensures var last := Run(a, ops).0.bundle.streams;
            && Tracks(Run(a, ops).0, Run(c, ops).0, last)
            && (NeverEarly(a, ops, last.Keys) ==> MovesAlike(a, c, Run(a, ops).0, Run(c, ops).0))
            && (AllRepeat(Run(a, ops).1, Run(c, ops).1) <==> NeverEarly(a, ops, last.Keys) && LevelWhereShown(a, c, ops))
    decreases |ops|
  {
    if ops != [] {
      var op, rest := ops[0], ops[1..];
      var a', c' := a.Step(op).0, c.Step(op).0;
      var last := Run(a, ops).0.bundle.streams;
      StepExtends(a, op);
      RunGrows(a', rest);
      StepTracks(a, c, last, op);
      RunTracks(a', c', rest);
      AllRepeatSplits(Run(a, ops).1, Run(c, ops).1);
      assert Run(a, ops).1[1..] == Run(a', rest).1 && Run(c, ops).1[1..] == Run(c', rest).1;
    }
  }

  // ---- A region that starts inside an open bundle ----

  predicate OfBundle(op: Op) {
    op.Create? || op.AddRead? || op.Save? || op.DropBundle?
  }

  ghost predicate NoneOfBundle(ops: seq<Op>) {
    forall i :: 0 <= i < |ops| ==> !OfBundle(ops[i])
  }

  function Closed(b: Bundler): Bundler {
    b.(open := None)
  }

  /** Calls that are not the bundle's do not see it. */
  lemma {:induction false} RunUnbundled(b: Bundler, ops: seq<Op>)
    requires Region(ops) && NoneOfBundle(ops)
    ensures Run(Closed(b), ops) == (Closed(Run(b, ops).0), Run(b, ops).1)
    ensures Run(b, ops).0.open == b.open
    ensures forall declared :: NeverEarly(Closed(b), ops, declared) <==> NeverEarly(b, ops, declared)
    ensures forall s :: NumberedIn(Closed(b), ops, s) <==> NumberedIn(b, ops, s)
    decreases |ops|
  {
    if ops != [] {
      assert !OfBundle(ops[0]) && InRegion(ops[0]);
      StepUnbundled(b, ops[0]);
      RunUnbundled(b.Step(ops[0]).0, ops[1..]);
    }
  }

  lemma StepUnbundled(b: Bundler, op: Op)
    requires InRegion(op) && !OfBundle(op)
    ensures Closed(b).Step(op) == (Closed(b.Step(op).0), b.Step(op).1)
    ensures b.Step(op).0.open == b.open
    ensures forall declared :: Timely(Closed(b), op, declared) <==> Timely(b, op, declared)
    ensures forall s :: NumberedBy(Closed(b), op, s) <==> NumberedBy(b, op, s)
  {
  }

  /** The first of the bundle's calls is answered otherwise when the bundle is
      open than when it is not. */
  lemma {:induction false} RunBundledDiffers(b: Bundler, c: Bundler, ops: seq<Op>)
    requires Region(ops) && !NoneOfBundle(ops) && b.open.Some? && c.open.None?
    ensures !AllRepeat(Run(b, ops).1, Run(c, ops).1)
    decreases |ops|
  {
    AllRepeatSplits(Run(b, ops).1, Run(c, ops).1);
    var b', c', rest := b.Step(ops[0]).0, c.Step(ops[0]).0, ops[1..];
    assert InRegion(ops[0]);
    if OfBundle(ops[0]) {
      assert !Repeats(b.Step(ops[0]).1, c.Step(ops[0]).1);
    } else {
      StepUnbundled(b, ops[0]);
      StepUnbundled(c, ops[0]);
      assert NoneOfBundle(rest) ==> NoneOfBundle(ops) by {
        forall i | NoneOfBundle(rest) && 0 <= i < |ops| ensures !OfBundle(ops[i]) {
          assert i > 0 ==> ops[i] == rest[i - 1];
        }
      }
      RunBundledDiffers(b', c', rest);
      assert Run(b, ops).1[1..] == Run(b', rest).1 && Run(c, ops).1[1..] == Run(c', rest).1;
    }
  }

  // ---- Rewind and replay ----

  /** What a rewind at the end of the region sets the stream's counter to: the
      snapshot's, 0 if it lacks the stream, and with no snapshot what it was. */
  function Rewound(b: Bundler, ops: seq<Op>, stream: string): nat {
    if b.seqSnapshot.Some?
    then if stream in b.seqSnapshot.value then b.seqSnapshot.value[stream] else 0
    else Run(b, ops).0.bundle.Count(stream)
  }

  /** The region does not continue a bundle begun before it; no call composed
      for a stream before the region declared it; and the rewind takes each
      counter the region shows back to where it began. */
  ghost predicate Repeatable(b: Bundler, ops: seq<Op>) {
    && (b.open.Some? ==> NoneOfBundle(ops))
    && NeverEarly(b, ops, Run(b, ops).0.bundle.streams.Keys)
    && forall s :: NumberedIn(b, ops, s) ==> Rewound(b, ops, s) == b.bundle.Count(s)
  }

  lemma {:induction false} NumberedIsDeclared(b: Bundler, ops: seq<Op>, stream: string)
    requires b.InSync() && Region(ops) && NumberedIn(b, ops, stream)
    ensures stream in Run(b, ops).0.bundle.streams
    decreases |ops|
  {
    var b' := b.Step(ops[0]).0;
    StepExtends(b, ops[0]);
    RunGrows(b', ops[1..]);
    if NumberedBy(b, ops[0], stream) {
      if ops[0].Save? {
        RecordedExtends(Closed(b), b.open.value);
      }
    } else {
      NumberedIsDeclared(b', ops[1..], stream);
    }
  }

  /** Whatever pass of the region a rewind ends, the next is in the first's
      tracks. */
  lemma RewindTracks(b: Bundler, ops: seq<Op>, end: Bundler, again: Bundler)
    requires b.InSync() && b.open.None? && Region(ops)
    requires Tracks(Run(b, ops).0, end, Run(b, ops).0.bundle.streams)
    requires again.bundle.nextUid > 0 && Alike(again, end.Step(Rewind).0)
    ensures Tracks(b, again, Run(b, ops).0.bundle.streams)
    ensures forall s :: s in Run(b, ops).0.bundle.streams ==>
              again.bundle.Count(s) == if b.seqSnapshot.Some? then Rewound(b, ops, s) else end.bundle.Count(s)
  {
    RunGrows(b, ops);
  }

  /** A rewind and a replay, from any state that equals the rewound one but for
      the uids drawn: it starts in the tracks of the first pass, at the
      counters the rewind set. */
  lemma AgainTracks(b: Bundler, ops: seq<Op>, again: Bundler)
    requires b.InSync() && Region(ops) && (b.open.Some? ==> NoneOfBundle(ops))
    requires again.bundle.nextUid > 0 && Alike(again, Run(b, ops).0.Step(Rewind).0)
    ensures var last := Run(b, ops).0.bundle.streams;
            && last == Run(Closed(b), ops).0.bundle.streams
            && Run(Closed(b), ops).1 == Run(b, ops).1
            && Tracks(Closed(b), again, last)
            && (NeverEarly(Closed(b), ops, last.Keys) <==> NeverEarly(b, ops, last.Keys))
            && (forall s :: NumberedIn(Closed(b), ops, s) <==> NumberedIn(b, ops, s))
            && (forall s :: s in last ==> again.bundle.Count(s) == Rewound(b, ops, s))
  {
    if b.open.Some? {
      RunUnbundled(b, ops);
    } else {
      assert Closed(b) == b;
    }
    RunGrows(Closed(b), ops);
    var end := Run(Closed(b), ops).0;
    RewindTracks(Closed(b), ops, end, again);
  }

  /** Calls from whatever state - inside an open bundle, with any snapshot or
      none - then a rewind, then the same calls again. The replies repeat if
      and only if the region is repeatable. */
  lemma ReplayRepeats(b: Bundler, ops: seq<Op>, again: Bundler)
    requires b.InSync() && Region(ops)
    requires again.bundle.nextUid > 0 && Alike(again, Run(b, ops).0.Step(Rewind).0)
    ensures AllRepeat(Run(b, ops).1, Run(again, ops).1) <==> Repeatable(b, ops)
  {
    if b.open.Some? && !NoneOfBundle(ops) {
      RunBundledDiffers(b, again, ops);
    } else {
      AgainTracks(b, ops, again);
      RunTracks(Closed(b), again, ops);
      forall s | NumberedIn(b, ops, s)
        ensures Level(Closed(b), again, s) <==> Rewound(b, ops, s) == b.bundle.Count(s)
      {
        NumberedIsDeclared(b, ops, s);
      }
    }
  }

  /** The replay then ends like the first pass, but for a bundle open all along,
      if and only if every counter went back to where it began. */
  lemma ReplayEndsAlike(b: Bundler, ops: seq<Op>, again: Bundler)
    requires b.InSync() && Region(ops)
    requires again.bundle.nextUid > 0 && Alike(again, Run(b, ops).0.Step(Rewind).0)
    requires Repeatable(b, ops)
    ensures var (first, second) := (Run(b, ops).0, Run(again, ops).0);
            Alike(if b.open.Some? then Closed(first) else first, second) <==>
              forall s :: s in first.bundle.streams ==> Rewound(b, ops, s) == b.bundle.Count(s)
  {
    AgainTracks(b, ops, again);
    RunTracks(Closed(b), again, ops);
    var first, second := Run(Closed(b), ops).0, Run(again, ops).0;
    if b.open.Some? {
      RunUnbundled(b, ops);
    } else {
      assert Closed(b) == b;
    }
    LevelIsAlike(first, second);
    forall s | s in first.bundle.streams
      ensures Level(first, second, s) <==> Rewound(b, ops, s) == b.bundle.Count(s)
    {
      assert Level(first, second, s) <==> Level(Closed(b), again, s);
    }
  }

  lemma LevelIsAlike(a: Bundler, c: Bundler)
    requires Tracks(a, c, a.bundle.streams)
    ensures Alike(a, c) <==> forall s :: s in a.bundle.streams ==> Level(a, c, s)
  {
    assert c.descriptors == a.descriptors;
    if forall s :: s in a.bundle.streams ==> Level(a, c, s) {
      forall s | s in a.bundle.streams ensures c.bundle.streams[s] == a.bundle.streams[s] {
        assert Level(a, c, s);
      }
      assert c.bundle.streams == a.bundle.streams;
    }
  }

  /** A checkpoint just taken, inside an open bundle or not. */
  ghost predicate AtCheckpoint(b: Bundler) {
    b.InSync() && b.seqSnapshot == Some(b.bundle.Counters())
  }

  /** After a checkpoint the counters are taken back. */
  lemma CheckpointTakesBack(b: Bundler, ops: seq<Op>)
    requires AtCheckpoint(b) && Region(ops)
    ensures Repeatable(b, ops) <==>
              (b.open.Some? ==> NoneOfBundle(ops)) && NeverEarly(b, ops, Run(b, ops).0.bundle.streams.Keys)
    ensures forall s :: Rewound(b, ops, s) == b.bundle.Count(s)
  {
  }

  lemma {:induction false} CountsGrow(b: Bundler, ops: seq<Op>, stream: string)
    requires b.InSync() && Region(ops)
    ensures Run(b, ops).0.bundle.Count(stream) >= b.bundle.Count(stream)
    ensures Run(b, ops).0.bundle.Count(stream) > b.bundle.Count(stream) ==> NumberedIn(b, ops, stream)
    decreases |ops|
  {
    if ops != [] {
      StepExtends(b, ops[0]);
      StepCounts(b, ops[0], stream);
      CountsGrow(b.Step(ops[0]).0, ops[1..], stream);
    }
  }

  lemma StepCounts(b: Bundler, op: Op, stream: string)
    requires b.InSync() && InRegion(op)
    ensures b.Step(op).0.bundle.Count(stream) >= b.bundle.Count(stream)
    ensures b.Step(op).0.bundle.Count(stream) > b.bundle.Count(stream) ==> NumberedBy(b, op, stream)
  {
    if op.Save? && b.open.Some? && b.open.value.objs != [] {
      RecordedUnfolds(Closed(b), b.open.value);
    }
  }

  /** With no checkpoint since the run was opened, or since one was cleared,
      nothing is taken back: the region may show no counter that it moves. */
  lemma UncheckpointedRepeats(b: Bundler, ops: seq<Op>)
    requires b.InSync() && b.seqSnapshot.None? && Region(ops)
    ensures Repeatable(b, ops) <==>
              && (b.open.Some? ==> NoneOfBundle(ops))
              && NeverEarly(b, ops, Run(b, ops).0.bundle.streams.Keys)
              && forall s :: Run(b, ops).0.bundle.Count(s) == b.bundle.Count(s)
  {
    forall s ensures NumberedIn(b, ops, s) || Run(b, ops).0.bundle.Count(s) == b.bundle.Count(s) {
      CountsGrow(b, ops, s);
    }
  }

  /** The state and replies of the `n`-th pass; pass 0 is the first. */
  function Pass(b: Bundler, ops: seq<Op>, n: nat): (Bundler, seq<Reply>) {
    if n == 0 then Run(b, ops) else Run(Pass(b, ops, n - 1).0.Step(Rewind).0, ops)
  }

  /** Each pass of a repeatable region is in the first's tracks, with every
      counter the region shows where it began. */
  lemma {:induction false} PassTracks(b: Bundler, ops: seq<Op>, n: nat)
    requires b.InSync() && b.open.None? && Region(ops) && Repeatable(b, ops)
    ensures var first, end := Run(b, ops).0, Pass(b, ops, n).0;
            && Tracks(first, end, first.bundle.streams)
            && (forall s :: NumberedIn(b, ops, s) ==> Level(first, end, s))
            && AllRepeat(Run(b, ops).1, Pass(b, ops, n).1)
  {
    RunGrows(b, ops);
    if n > 0 {
      PassTracks(b, ops, n - 1);
      var end := Pass(b, ops, n - 1).0;
      var again := end.Step(Rewind).0;
      RewindTracks(b, ops, end, again);
      forall s | NumberedIn(b, ops, s) ensures Level(b, again, s) {
        NumberedIsDeclared(b, ops, s);
      }
      RunTracks(b, again, ops);
    } else {
      RepeatsItself(Run(b, ops).1);
    }
  }

  lemma RepeatsItself(replies: seq<Reply>)
    ensures AllRepeat(replies, replies)
  {
  }

  /** However often the region is rewound: all passes repeat the first if and
      only if it is repeatable. */
  lemma EveryPassRepeats(b: Bundler, ops: seq<Op>)
    requires b.InSync() && Region(ops)
    ensures (forall n: nat :: AllRepeat(Run(b, ops).1, Pass(b, ops, n).1)) <==> Repeatable(b, ops)
  {
    var again := Run(b, ops).0.Step(Rewind).0;
    RunGrows(b, ops);
    ReplayRepeats(b, ops, again);
    assert Pass(b, ops, 1) == Run(again, ops);
    if Repeatable(b, ops) {
      RepeatableClosed(b, ops);
      forall n: nat ensures AllRepeat(Run(b, ops).1, Pass(b, ops, n).1) {
        if b.open.Some? {
          PassUnbundled(b, ops, n);
        }
        PassTracks(Closed(b), ops, n);
      }
    } else {
      assert Pass(b, ops, 0) == Run(b, ops);
      assert !AllRepeat(Run(b, ops).1, Pass(b, ops, 1).1);
    }
  }

  lemma RepeatableClosed(b: Bundler, ops: seq<Op>)
    requires b.InSync() && Region(ops) && Repeatable(b, ops)
    ensures Repeatable(Closed(b), ops)
    ensures Run(Closed(b), ops).1 == Run(b, ops).1
  {
    if b.open.Some? {
      RunUnbundled(b, ops);
    } else {
      assert Closed(b) == b;
    }
  }

  lemma {:induction false} PassUnbundled(b: Bundler, ops: seq<Op>, n: nat)
    requires Region(ops) && NoneOfBundle(ops)
    ensures Closed(Pass(b, ops, n).0) == Closed(Pass(Closed(b), ops, n).0)
    ensures Pass(b, ops, n).1 == Pass(Closed(b), ops, n).1
  {
    RunUnbundled(b, ops);
    if n > 0 {
      PassUnbundled(b, ops, n - 1);
    }
  }

  // ---- Regions that do not repeat ----

  /** A replay moves the counters on but neither the snapshot nor, since calls
      replayed are not remembered again, the start of what the next rewind
      replays. So `later` calls repeat after that only if they show no counter
      moved by the region replayed before them. */
  lemma RegionAfterReplay(b: Bundler, ops: seq<Op>, later: seq<Op>)
    requires AtCheckpoint(b) && b.open.None? && Region(ops) && Repeatable(b, ops) && Region(later)
    ensures var now := Pass(b, ops, 1).0;
            Repeatable(now, later) <==>
              && (now.open.Some? ==> NoneOfBundle(later))
              && NeverEarly(now, later, Run(now, later).0.bundle.streams.Keys)
              && forall s :: NumberedIn(now, later, s) ==> Run(b, ops).0.bundle.Count(s) == b.bundle.Count(s)
  {
    var again := Run(b, ops).0.Step(Rewind).0;
    RunGrows(b, ops);
    assert Pass(b, ops, 0) == Run(b, ops);
    var now := Pass(b, ops, 1).0;
    assert now == Run(again, ops).0;
    CheckpointTakesBack(b, ops);
    ReplayEndsAlike(b, ops, again);
    assert forall s :: Rewound(now, later, s) == b.bundle.Count(s);
    assert forall s :: now.bundle.Count(s) == Run(b, ops).0.bundle.Count(s);
  }

  /** An event, a pause and a replay, another event, and its replay after
      another pause: that has the first event's number. */
  lemma NumberIsUsedAgain(startUid: Uid, objs: seq<StreamObject>)
    ensures var b := Bundler(Bundle(startUid, map[], 1), map[], None, None).Step(Declare("m", objs)).0.Step(Checkpoint).0;
            var event := Direct("m", map[], map[]);
            var now := Pass(b, [event], 1).0;
            var again := Run(now, [event]).0.Step(Rewind).0;
            && AtCheckpoint(b)
            && now.bundle.Count("m") == 1
            && Run(now, [event]).0.bundle.Count("m") == 2
            && Run(again, [event]).0.bundle.Count("m") == 1
  {
    var b := Bundler(Bundle(startUid, map[], 1), map[], None, None).Step(Declare("m", objs)).0.Step(Checkpoint).0;
    var event := Direct("m", map[], map[]);
    assert Pass(b, [event], 0) == Run(b, [event]);
    OneEvent(b);
    OneEvent(Run(b, [event]).0.Step(Rewind).0);
    var now := Pass(b, [event], 1).0;
    OneEvent(now);
    OneEvent(Run(now, [event]).0.Step(Rewind).0);
  }

  lemma OneEvent(b: Bundler)
    ensures var event := Direct("m", map[], map[]); Run(b, [event]) == (b.Step(event).0, [b.Step(event).1])
  {
    var ops := [Direct("m", map[], map[])];
    var (b', reply) := b.Step(ops[0]);
    assert ops[1..] == [];
    assert Run(b', ops[1..]) == (b', []);
    assert [reply] + [] == [reply];
  }

  /** A region that starts inside a bundle and saves it. */
  lemma OpenBundleIsNotRepeated(startUid: Uid, obj: StreamObject)
    ensures var b := Bundler(Bundle(startUid, map[], 1), map[], Some(OpenBundle("m", map[], [obj])), Some(map[]));
            var again := Run(b, [Save]).0.Step(Rewind).0;
            && AtCheckpoint(b)
            && Run(b, [Save]).1[0].Docs?
            && Run(again, [Save]).1[0] == Rejected(NoOpenBundle)
  {
    var b := Bundler(Bundle(startUid, map[], 1), map[], Some(OpenBundle("m", map[], [obj])), Some(map[]));
    assert b.bundle.Counters() == map[];
    RecordedUnfolds(Closed(b), b.open.value);
  }

  /** A region with no checkpoint before it: its event is number 1, then 2. */
  lemma UncheckpointedIsNotRepeated(startUid: Uid, objs: seq<StreamObject>)
    ensures var b := Bundler(Bundle(startUid, map[], 1), map[], None, None).Step(Declare("m", objs)).0;
            var event := Direct("m", map[], map[]);
            var again := Run(b, [event]).0.Step(Rewind).0;
            b.InSync() && Run(b, [event]).0.bundle.Count("m") == 1 && Run(again, [event]).0.bundle.Count("m") == 2
  {
    var b := Bundler(Bundle(startUid, map[], 1), map[], None, None).Step(Declare("m", objs)).0;
    OneEvent(b);
    OneEvent(Run(b, [Direct("m", map[], map[])]).0.Step(Rewind).0);
  }

  /** An event for a stream the region declares later is rejected in the first
      pass and composed in the replay. */
  lemma EarlyEventIsNotRepeated(startUid: Uid, objs: seq<StreamObject>)
    ensures var b := Bundler(Bundle(startUid, map[], 1), map[], None, Some(map[]));
            var ops := [Direct("m", map[], map[]), Declare("m", objs)];
            var again := Run(b, ops).0.Step(Rewind).0;
            && AtCheckpoint(b)
            && Run(b, ops).1[0] == Rejected(UnknownStream)
            && Run(again, ops).1[0].Docs?
  {
    var b := Bundler(Bundle(startUid, map[], 1), map[], None, Some(map[]));
    var ops := [Direct("m", map[], map[]), Declare("m", objs)];
    assert b.bundle.Counters() == map[];
    assert ops[1..] == [Declare("m", objs)] && ops[1..][1..] == [];
    assert b.Step(ops[0]) == (b, Rejected(UnknownStream));
    var (declared, _) := b.Step(ops[1]);
    assert Run(b, ops[1..]).0 == declared;
    assert Run(b, ops).0 == declared;
    assert "m" in declared.Step(Rewind).0.bundle.streams;
  }
}
