/** `RunBundle`: the per-run composer. It caches one current descriptor per
    stream name and numbers the stream's events. */
module Compose {
  import opened Prelude
  import opened Documents

  datatype StreamState = StreamState(descriptor: EventDescriptor, seqNum: nat)

  /** The value of a `RunBundle`; `nextUid` is the supply `new_uid` draws from. */
  datatype Bundle = Bundle(startUid: Uid, streams: map<string, StreamState>, nextUid: Uid) {

    /** The last `seq_num` used on `stream`; 0 for one never declared. */
    function Count(stream: string): nat {
      if stream in streams then streams[stream].seqNum else 0
    }

    function Fresh(name: string, schema: Schema): EventDescriptor {
      EventDescriptor(nextUid, startUid, Some(name), schema)
    }

    /** After `descriptor(name, schema)`: the first definition wins. */
    function Declared(name: string, schema: Schema): Bundle {
      if name in streams then this
      else this.(streams := streams[name := StreamState(Fresh(name, schema), 0)],
                 nextUid := nextUid + 1)
    }

    /** Whether `objectName` is part of the stream's current descriptor. */
    predicate Describes(stream: string, objectName: string) {
      stream in streams && objectName in streams[stream].descriptor.schema.configuration
    }

    /** The next generation of a stream's descriptor, not installed. */
    function NextGeneration(stream: string, objectName: string, config: Configuration): EventDescriptor
      requires stream in streams
    {
      var d := streams[stream].descriptor;
      d.(uid := nextUid,
         schema := d.schema.(configuration := d.schema.configuration[objectName := config]))
    }

    /** After `install_descriptor`: the counter is kept. */
    function Installed(stream: string, d: EventDescriptor): Bundle {
      if stream in streams
      then this.(streams := streams[stream := streams[stream].(descriptor := d)])
      else this
    }

    /** The counter of `stream` moved on by `n`. */
    function Advanced(stream: string, n: nat): Bundle {
      if stream in streams
      then this.(streams := streams[stream := streams[stream].(seqNum := streams[stream].seqNum + n)])
      else this
    }

    /** After `n` fresh uids were drawn. */
    function Drawn(n: nat): Bundle {
      this.(nextUid := nextUid + n)
    }

    function NextEvent(stream: string, data: map<string, Json>, timestamps: map<string, Json>): Event
      requires stream in streams
    {
      Event(nextUid, streams[stream].descriptor.uid, streams[stream].seqNum + 1, data, timestamps)
    }

    function NextPage(stream: string, n: nat, data: map<string, seq<Json>>, timestamps: map<string, seq<Json>>): EventPage
      requires stream in streams
    {
      EventPage(From(nextUid, n), streams[stream].descriptor.uid, From(streams[stream].seqNum + 1, n), data, timestamps)
    }

    function Counters(): map<string, nat> {
      map s | s in streams :: streams[s].seqNum
    }

    /** After `restore_seq_nums`: a stream the snapshot lacks goes back to 0. */
    function Restored(snapshot: map<string, nat>): Bundle {
      this.(streams := map s | s in streams ::
              streams[s].(seqNum := if s in snapshot then snapshot[s] else 0))
    }
  }

  /** `next` is `prev` but for its uid and the configuration of `objectName`,
      which is `config`. */
  ghost predicate Redescribes(next: EventDescriptor, prev: EventDescriptor, objectName: string, config: Configuration) {
    var was, now := prev.schema.configuration, next.schema.configuration;
    && next.name == prev.name && next.runStart == prev.runStart
    && next.schema.dataKeys == prev.schema.dataKeys && next.schema.hints == prev.schema.hints
    && next.schema.objectKeys == prev.schema.objectKeys
    && now.Keys == was.Keys && objectName in now && now[objectName] == config
    && forall o :: o in was && o != objectName ==> now[o] == was[o]
  }

  class RunBundle {
    const startUid: Uid
    var streams: map<string, StreamState>
    var nextUid: Uid

    ghost function Model(): Bundle
      reads this
    {
      Bundle(startUid, streams, nextUid)
    }

    constructor (startUid: Uid, nextUid: Uid)
      requires startUid < nextUid
      ensures Model() == Bundle(startUid, map[], nextUid)
    {
      this.startUid := startUid;
      this.streams := map[];
      this.nextUid := nextUid;
    }

    method Descriptor(name: string, schema: Schema) returns (d: EventDescriptor, isNew: bool)
      modifies this
      ensures Model() == old(Model()).Declared(name, schema)
      ensures name in streams && d == streams[name].descriptor
      ensures isNew <==> name !in old(streams)
      ensures isNew ==>
        && d.uid == old(nextUid) && d.runStart == startUid && d.name == Some(name) && d.schema == schema
        && streams[name].seqNum == 0
      ensures forall s :: s in old(streams) ==> s in streams && streams[s] == old(streams)[s]
    {
      if name in streams {
        return streams[name].descriptor, false;
      }
      d := EventDescriptor(nextUid, startUid, Some(name), schema);
      nextUid := nextUid + 1;
      streams := streams[name := StreamState(d, 0)];
      isNew := true;
    }

    method ComposeRedescribe(stream: string, objectName: string, config: Configuration)
      returns (r: Option<EventDescriptor>)
      modifies this
      ensures r.Some? <==> old(Model()).Describes(stream, objectName)
      ensures r.Some? ==>
        && r.value == old(Model()).NextGeneration(stream, objectName, config)
        && stream in streams && Redescribes(r.value, streams[stream].descriptor, objectName, config)
        && r.value.uid == old(nextUid)
        && Model() == old(Model()).Drawn(1)
      ensures r.None? ==> Model() == old(Model())
    {
      if stream !in streams {
        return None;
      }
      var d := streams[stream].descriptor;
      if objectName !in d.schema.configuration {
        return None;
      }
      var uid := nextUid;
      nextUid := nextUid + 1;
      r := Some(d.(uid := uid,
                   schema := d.schema.(configuration := d.schema.configuration[objectName := config])));
    }

    method InstallDescriptor(stream: string, d: EventDescriptor)
      modifies this
      ensures Model() == old(Model()).Installed(stream, d)
      ensures stream in old(streams) ==>
        stream in streams && streams[stream].descriptor == d && streams[stream].seqNum == old(streams)[stream].seqNum
      ensures streams.Keys == old(streams).Keys
      ensures forall s :: s in streams && s != stream ==> streams[s] == old(streams)[s]
    {
      if stream in streams {
        streams := streams[stream := streams[stream].(descriptor := d)];
      }
    }

    method Event(stream: string, data: map<string, Json>, timestamps: map<string, Json>)
      returns (r: Option<Event>)
      modifies this
      ensures r.Some? <==> stream in old(streams)
      ensures r.Some? ==>
        && r.value == old(Model()).NextEvent(stream, data, timestamps)
        && r.value.data == data && r.value.timestamps == timestamps
        && r.value.descriptor == old(streams)[stream].descriptor.uid
        && r.value.seqNum == old(streams)[stream].seqNum + 1
        && r.value.uid == old(nextUid) < nextUid
        && Model() == old(Model()).Advanced(stream, 1).Drawn(1)
      ensures r.None? ==> Model() == old(Model())
    {
      if stream !in streams {
        return None;
      }
      var st := streams[stream];
      var n := st.seqNum + 1;
      streams := streams[stream := st.(seqNum := n)];
      r := Some(Documents.Event(nextUid, st.descriptor.uid, n, data, timestamps));
      nextUid := nextUid + 1;
    }

    /** `n` is the row count; every column is left as it is given. */
    method EventPage(stream: string, data: map<string, seq<Json>>, timestamps: map<string, seq<Json>>, n: nat)
      returns (r: Option<EventPage>)
      modifies this
      ensures r.Some? <==> stream in old(streams)
      ensures r.Some? ==>
        && r.value == old(Model()).NextPage(stream, n, data, timestamps)
        && r.value.data == data && r.value.timestamps == timestamps
        && r.value.descriptor == old(streams)[stream].descriptor.uid
        && |r.value.uids| == |r.value.seqNums| == n
        && (forall i :: 0 <= i < n ==> r.value.seqNums[i] == old(streams)[stream].seqNum + 1 + i)
        && (forall i :: 0 <= i < n ==> r.value.uids[i] == old(nextUid) + i)
        && Model() == old(Model()).Advanced(stream, n).Drawn(n)
      ensures r.None? ==> Model() == old(Model())
    {
      if stream !in streams {
        return None;
      }
      var st := streams[stream];
      var start := st.seqNum;
      streams := streams[stream := st.(seqNum := start + n)];
      var uids: seq<Uid>, nums: seq<nat> := [], [];
      for i := 0 to n
        invariant uids == From(nextUid, i) && nums == From(start + 1, i)
        invariant nextUid == old(nextUid) && start == old(streams)[stream].seqNum
      {
        uids := uids + [nextUid + i];
        nums := nums + [start + 1 + i];
      }
      r := Some(Documents.EventPage(uids, st.descriptor.uid, nums, data, timestamps));
      nextUid := nextUid + n;
    }

    method PeekNextSeq(stream: string) returns (r: Option<nat>)
      ensures r == if stream in streams then Some(Model().Count(stream) + 1) else None
    {
      r := if stream in streams then Some(streams[stream].seqNum + 1) else None;
    }

    method AdvanceSeq(stream: string, n: nat) returns (declared: bool)
      modifies this
      ensures declared <==> stream in old(streams)
      ensures Model() == old(Model()).Advanced(stream, n)
    {
      declared := stream in streams;
      if declared {
        streams := streams[stream := streams[stream].(seqNum := streams[stream].seqNum + n)];
      }
    }

    method SnapshotSeqNums() returns (snapshot: map<string, nat>)
      ensures snapshot == Model().Counters()
    {
      snapshot := map s | s in streams :: streams[s].seqNum;
    }

    method RestoreSeqNums(snapshot: map<string, nat>)
      modifies this
      ensures Model() == old(Model()).Restored(snapshot)
    {
      var left := streams.Keys;
      while left != {}
        invariant left <= streams.Keys == old(streams).Keys
        invariant forall s :: s in left ==> streams[s] == old(streams)[s]
        invariant forall s :: s in streams && s !in left ==>
          streams[s] == old(streams)[s].(seqNum := if s in snapshot then snapshot[s] else 0)
        invariant nextUid == old(nextUid)
      {
        var name :| name in left;
        var value := if name in snapshot then snapshot[name] else 0;
        streams := streams[name := streams[name].(seqNum := value)];
        left := left - {name};
      }
    }

    /** The `num_events` of the `RunStop` document. */
    method Stop() returns (numEvents: map<string, nat>)
      ensures numEvents == Model().Counters()
    {
      numEvents := map[];
      var left := streams.Keys;
      while left != {}
        invariant left <= streams.Keys
        invariant numEvents.Keys == streams.Keys - left
        invariant forall s :: s in numEvents ==> numEvents[s] == streams[s].seqNum
      {
        var name :| name in left;
        numEvents := numEvents[name := streams[name].seqNum];
        left := left - {name};
      }
    }
  }
}
