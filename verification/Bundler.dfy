/** `RunBundler`: the open event bundle, the descriptor uid cache and the
    checkpoint snapshot of one run, over its `RunBundle`. `Bundler.Step` is the
    specification of every call; the class is proved against it. */
module Bundling {
  import opened Prelude
  import opened Documents
  import opened Compose

  datatype Reading = Reading(value: Json, timestamp: Json)

  datatype StreamObject = StreamObject(
    owner: Option<string>,
    dataKeys: map<string, DataKey>,
    hintFields: Option<seq<string>>,
    configuration: Configuration)

  datatype OpenBundle = OpenBundle(
    streamName: string,
    readings: map<string, Reading>,
    objs: seq<StreamObject>)

  datatype BundleError = StillOpen | NoOpenBundle | Collision | UnknownStream

  /** A document with the stream it belongs to. `SpanDoc` stands for the
      `StreamDatum`s the collect drain stamps with a span of the counter. */
  datatype Doc =
    | DescriptorDoc(d: EventDescriptor)
    | EventDoc(stream: string, e: Event)
    | PageDoc(stream: string, page: EventPage)
    | SpanDoc(stream: string, first: nat, width: nat)

  datatype Reply = Docs(docs: seq<Doc>) | Rejected(why: BundleError)

  datatype Op =
    | Create(stream: string)
    | AddRead(obj: StreamObject, readings: map<string, Reading>)
    | Save
    | DropBundle
    | Declare(stream: string, objs: seq<StreamObject>)
    | Direct(stream: string, data: map<string, Json>, timestamps: map<string, Json>)
    | Page(stream: string, n: nat, columns: map<string, seq<Json>>, times: map<string, seq<Json>>)
    | Advance(stream: string, n: nat)
    | Install(descriptors: seq<EventDescriptor>)
    | Checkpoint
    | ClearCheckpoint
    | Rewind

  function Returned(r: Reply): seq<Doc> {
    if r.Docs? then r.docs else []
  }

  const EMPTY_SCHEMA := Schema(map[], map[], map[], map[])

  /** The object's data keys, each stamped with its name. */
  function Stamped(obj: StreamObject): map<string, DataKey> {
    map k | k in obj.dataKeys ::
      if obj.owner.Some? then obj.dataKeys[k].(objectName := obj.owner) else obj.dataKeys[k]
  }

  /** One more object folded into a schema; what it declares wins. */
  function Joined(s: Schema, obj: StreamObject): Schema {
    if obj.owner.None? then s.(dataKeys := s.dataKeys + Stamped(obj))
    else
      var name := obj.owner.value;
      Schema(s.dataKeys + Stamped(obj),
             s.configuration[name := obj.configuration],
             if obj.hintFields.Some? then s.hints[name := obj.hintFields.value] else s.hints,
             s.objectKeys[name := obj.dataKeys.Keys])
  }

  function Shape(objs: seq<StreamObject>): Schema {
    if objs == [] then EMPTY_SCHEMA
    else Joined(Shape(objs[..|objs| - 1]), objs[|objs| - 1])
  }

  datatype Bundler = Bundler(
    bundle: Bundle,
    descriptors: map<string, Uid>,
    open: Option<OpenBundle>,
    seqSnapshot: Option<map<string, nat>>)
  {
    /** The two descriptor caches agree on the streams and on their uids. */
    ghost predicate InSync() {
      && bundle.nextUid > 0
      && descriptors.Keys == bundle.streams.Keys
      && (forall s :: s in descriptors ==>
            descriptors[s] == bundle.streams[s].descriptor.uid && descriptors[s] != 0)
    }

    predicate NeedsDescriptor(stream: string) {
      stream !in descriptors || descriptors[stream] == 0
    }

    function Prepared(stream: string, objs: seq<StreamObject>): Bundler {
      var b := bundle.Declared(stream, Shape(objs));
      this.(bundle := b, descriptors := descriptors[stream := b.streams[stream].descriptor.uid])
    }

    /** The counter of `stream` moved on by `n` and `drawn` uids drawn. */
    function Moved(stream: string, n: nat, drawn: nat): Bundler {
      this.(bundle := bundle.Advanced(stream, n).Drawn(drawn))
    }

    /** The stream's `event()`, as documents. */
    function Composed(stream: string, data: map<string, Json>, timestamps: map<string, Json>): (Bundler, Reply) {
      if stream in bundle.streams
      then (Moved(stream, 1, 1),
            Docs([EventDoc(stream, bundle.NextEvent(stream, data, timestamps))]))
      else (this, Rejected(UnknownStream))
    }

    /** `save` once a bundle with readings has been taken out of `open`. */
    function Recorded(o: OpenBundle): (Bundler, Reply) {
      var ready := if NeedsDescriptor(o.streamName) then Prepared(o.streamName, o.objs) else this;
      var (after, reply) := ready.Composed(o.streamName, Values(o.readings), Times(o.readings));
      if reply.Rejected? || !NeedsDescriptor(o.streamName) then (after, reply)
      else (after, Docs([DescriptorDoc(ready.bundle.streams[o.streamName].descriptor)] + reply.docs))
    }

    function InstalledAll(ds: seq<EventDescriptor>): Bundler
      decreases |ds|
    {
      if ds == [] then this
      else
        var d := ds[|ds| - 1];
        var before := InstalledAll(ds[..|ds| - 1]);
        if d.name.None? then before
        else before.(bundle := before.bundle.Installed(d.name.value, d),
                     descriptors := before.descriptors[d.name.value := d.uid])
    }

    function Step(op: Op): (Bundler, Reply) {
      match op
      case Create(stream) =>
        if open.Some? then (this, Rejected(StillOpen))
        else (this.(open := Some(OpenBundle(stream, map[], []))), Docs([]))
      case AddRead(obj, readings) =>
        if open.None? then (this, Rejected(NoOpenBundle))
        else if readings.Keys * open.value.readings.Keys != {} then (this, Rejected(Collision))
        else (this.(open := Some(open.value.(readings := open.value.readings + readings,
                                             objs := open.value.objs + [obj]))), Docs([]))
      case Save =>
        if open.None? then (this, Rejected(NoOpenBundle))
        else if open.value.objs == [] then (this.(open := None), Docs([]))
        else this.(open := None).Recorded(open.value)
      case DropBundle =>
        if open.None? then (this, Rejected(NoOpenBundle)) else (this.(open := None), Docs([]))
      case Declare(stream, objs) =>
        var after := Prepared(stream, objs);
        (after, Docs([DescriptorDoc(after.bundle.streams[stream].descriptor)]))
      case Direct(stream, data, timestamps) => Composed(stream, data, timestamps)
      case Page(stream, n, columns, times) =>
        if stream in bundle.streams
        then (Moved(stream, n, n),
              Docs([PageDoc(stream, bundle.NextPage(stream, n, columns, times))]))
        else (this, Rejected(UnknownStream))
      case Advance(stream, n) =>
        if stream in bundle.streams
        then (Moved(stream, n, 0),
              Docs([SpanDoc(stream, bundle.Count(stream) + 1, n)]))
        else (this, Rejected(UnknownStream))
      case Install(ds) => (InstalledAll(ds), Docs([]))
      case Checkpoint => (this.(seqSnapshot := Some(bundle.Counters())), Docs([]))
      case ClearCheckpoint => (this.(seqSnapshot := None), Docs([]))
      case Rewind =>
        (this.(open := None,
               bundle := if seqSnapshot.Some? then bundle.Restored(seqSnapshot.value) else bundle),
         Docs([]))
    }

    /** The candidates `compose_reconfigure` makes walking `order`. */
    function Candidates(order: seq<string>, objectName: string, config: Configuration): seq<EventDescriptor> {
      if order == [] then []
      else
        var before := Candidates(order[..|order| - 1], objectName, config);
        var s := order[|order| - 1];
        if bundle.Describes(s, objectName)
        then before + [bundle.Drawn(|before|).NextGeneration(s, objectName, config)]
        else before
    }
  }

  function Values(readings: map<string, Reading>): map<string, Json> {
    map k | k in readings :: readings[k].value
  }

  function Times(readings: map<string, Reading>): map<string, Json> {
    map k | k in readings :: readings[k].timestamp
  }

  /** A bundle is open from its create to the save, drop or rewind that ends
      it, and has then the stream and all that was read into it. */
  lemma OpenIff(b: Bundler, op: Op)
    ensures var b' := b.Step(op).0;
            && (b'.open.Some? <==> op.Create? || (b.open.Some? && !op.Save? && !op.DropBundle? && !op.Rewind?))
            && (op.Create? && b.open.None? ==> b'.open == Some(OpenBundle(op.stream, map[], [])))
            && (b.open.Some? && b'.open.Some? ==>
                  && b'.open.value.streamName == b.open.value.streamName
                  && (b'.open.value == b.open.value || (op.AddRead? && b'.open.value.objs == b.open.value.objs + [op.obj])))
  {
    if op.Install? {
      InstallKeepsOpen(b, op.descriptors);
    }
  }

  lemma {:induction false} InstallKeepsOpen(b: Bundler, ds: seq<EventDescriptor>)
    ensures b.InstalledAll(ds).open == b.open
    decreases |ds|
  {
    if ds != [] {
      InstallKeepsOpen(b, ds[..|ds| - 1]);
    }
  }

  /** What is refused, why, and that it changes nothing. */
  lemma Refusals(b: Bundler, op: Op)
    requires b.InSync()
    ensures var (b', reply) := b.Step(op);
            && (reply.Rejected? ==> b' == b)
            && (reply == Rejected(StillOpen) <==> op.Create? && b.open.Some?)
            && (reply == Rejected(NoOpenBundle) <==> (op.AddRead? || op.Save? || op.DropBundle?) && b.open.None?)
            && (reply == Rejected(Collision) <==>
                  op.AddRead? && b.open.Some? && exists key :: key in op.readings && key in b.open.value.readings)
            && (reply == Rejected(UnknownStream) <==>
                  (op.Direct? || op.Page? || op.Advance?) && op.stream !in b.bundle.streams)
  {
    if op.AddRead? && b.open.Some? {
      var shared := op.readings.Keys * b.open.value.readings.Keys;
      assert forall key :: key in shared <==> key in op.readings && key in b.open.value.readings;
    }
  }

  class RunBundler {
    const bundle: RunBundle
    var descriptors: map<string, Uid>
    var open: Option<OpenBundle>
    var seqSnapshot: Option<map<string, nat>>

    ghost function Model(): Bundler
      reads this, bundle
    {
      Bundler(bundle.Model(), descriptors, open, seqSnapshot)
    }

    constructor (bundle: RunBundle)
      ensures this.bundle == bundle
      ensures Model() == Bundler(bundle.Model(), map[], None, None)
    {
      this.bundle := bundle;
      descriptors := map[];
      open := None;
      seqSnapshot := None;
    }

    method DoCreate(stream: string) returns (r: Reply)
      modifies this
      ensures (Model(), r) == old(Model()).Step(Create(stream))
    {
      if open.Some? {
        return Rejected(StillOpen);
      }
      open := Some(OpenBundle(stream, map[], []));
      r := Docs([]);
    }

    method DoAddRead(obj: StreamObject, readings: map<string, Reading>) returns (r: Reply)
      modifies this
      ensures (Model(), r) == old(Model()).Step(AddRead(obj, readings))
    {
      if open.None? {
        return Rejected(NoOpenBundle);
      }
      var o := open.value;
      if readings.Keys * o.readings.Keys != {} {
        return Rejected(Collision);
      }
      open := Some(o.(readings := o.readings + readings, objs := o.objs + [obj]));
      r := Docs([]);
    }

    method PrepareStream(stream: string, objs: seq<StreamObject>) returns (d: EventDescriptor)
      modifies this, bundle
      ensures Model() == old(Model()).Prepared(stream, objs)
      ensures stream in bundle.streams && d == bundle.streams[stream].descriptor
    {
      var dataKeys: map<string, DataKey> := map[];
      var configuration: map<string, Configuration> := map[];
      var hints: map<string, seq<string>> := map[];
      var objectKeys: map<string, set<string>> := map[];
      for i := 0 to |objs|
        invariant Schema(dataKeys, configuration, hints, objectKeys) == Shape(objs[..i])
      {
        assert objs[..i + 1][..i] == objs[..i];
        var obj := objs[i];
        dataKeys := dataKeys + Stamped(obj);
        if obj.owner.Some? {
          var name := obj.owner.value;
          objectKeys := objectKeys[name := obj.dataKeys.Keys];
          if obj.hintFields.Some? {
            hints := hints[name := obj.hintFields.value];
          }
          configuration := configuration[name := obj.configuration];
        }
      }
      assert objs[..|objs|] == objs;
      var isNew;
      d, isNew := bundle.Descriptor(stream, Schema(dataKeys, configuration, hints, objectKeys));
      descriptors := descriptors[stream := d.uid];
    }

    method DoDeclareStream(stream: string, objs: seq<StreamObject>) returns (r: Reply)
      modifies this, bundle
      ensures (Model(), r) == old(Model()).Step(Declare(stream, objs))
    {
      var d := PrepareStream(stream, objs);
      r := Docs([DescriptorDoc(d)]);
    }

    method DoSave() returns (r: Reply)
      modifies this, bundle
      ensures (Model(), r) == old(Model()).Step(Save)
    {
      if open.None? {
        return Rejected(NoOpenBundle);
      }
      var o := open.value;
      open := None;
      if o.objs == [] {
        return Docs([]);
      }
      var out: seq<Doc> := [];
      if o.streamName !in descriptors || descriptors[o.streamName] == 0 {
        var d := PrepareStream(o.streamName, o.objs);
        out := [DescriptorDoc(d)];
      }
      var e := bundle.Event(o.streamName, Values(o.readings), Times(o.readings));
      if e.None? {
        return Rejected(UnknownStream);
      }
      assert [] + [EventDoc(o.streamName, e.value)] == [EventDoc(o.streamName, e.value)];
      r := Docs(out + [EventDoc(o.streamName, e.value)]);
    }

    method DoDropBundle() returns (r: Reply)
      modifies this
      ensures (Model(), r) == old(Model()).Step(DropBundle)
    {
      if open.None? {
        return Rejected(NoOpenBundle);
      }
      open := None;
      r := Docs([]);
    }

    method DoCheckpoint()
      modifies this
      ensures Model() == old(Model()).Step(Checkpoint).0
    {
      var snapshot := bundle.SnapshotSeqNums();
      seqSnapshot := Some(snapshot);
    }

    method DoClearCheckpoint()
      modifies this
      ensures Model() == old(Model()).Step(ClearCheckpoint).0
    {
      seqSnapshot := None;
    }

    method DoRewind()
      modifies this, bundle
      ensures Model() == old(Model()).Step(Rewind).0
    {
      open := None;
      if seqSnapshot.Some? {
        bundle.RestoreSeqNums(seqSnapshot.value);
      }
    }

    /** `order` is the order in which the hash map yielded its names. */
    method ComposeReconfigure(objectName: string, config: Configuration)
      returns (out: seq<EventDescriptor>, ghost order: seq<string>)
      modifies bundle
      ensures forall s :: s in order <==> s in descriptors
      ensures forall i, j :: 0 <= i < j < |order| ==> order[i] != order[j]
      ensures out == old(Model()).Candidates(order, objectName, config)
      ensures Model() == old(Model()).(bundle := old(bundle.Model()).Drawn(|out|))
    {
      out, order := [], [];
      var left := descriptors.Keys;
      while left != {}
        invariant left <= descriptors.Keys
        invariant forall s :: s in order <==> s in descriptors && s !in left
        invariant forall i, j :: 0 <= i < j < |order| ==> order[i] != order[j]
        invariant out == old(Model()).Candidates(order, objectName, config)
        invariant Model() == old(Model()).(bundle := old(bundle.Model()).Drawn(|out|))
      {
        var name :| name in left;
        left := left - {name};
        assert (order + [name])[..|order|] == order;
        order := order + [name];
        var d := bundle.ComposeRedescribe(name, objectName, config);
        if d.Some? {
          out := out + [d.value];
        }
      }
    }

    method InstallReconfigured(ds: seq<EventDescriptor>)
      modifies this, bundle
      ensures Model() == old(Model()).Step(Install(ds)).0
    {
      for i := 0 to |ds|
        invariant Model() == old(Model()).InstalledAll(ds[..i])
      {
        assert ds[..i + 1][..i] == ds[..i];
        var d := ds[i];
        if d.name.Some? {
          bundle.InstallDescriptor(d.name.value, d);
          descriptors := descriptors[d.name.value := d.uid];
        }
      }
      assert ds[..|ds|] == ds;
    }

    method DescriptorUid(stream: string) returns (r: Option<Uid>)
      ensures r == if Model().NeedsDescriptor(stream) then None else Some(descriptors[stream])
    {
      r := if stream in descriptors && descriptors[stream] != 0 then Some(descriptors[stream]) else None;
    }
  }
}
