/** The event-model documents a run emits. A uid is a number drawn from a
    counter that never repeats; 0 stands for the empty string, which is never
    minted. JSON values are opaque. Clock fields are left out. */
module Documents {
  import opened Prelude

  type Uid = nat
  type Json = int

  datatype DataKey = DataKey(spec: Json, objectName: Option<string>)

  datatype Configuration = Configuration(data: map<string, Json>)

  datatype EventDescriptor = EventDescriptor(
    uid: Uid,
    runStart: Uid,
    name: Option<string>,
    schema: Schema)

  /** What a descriptor says about the objects behind its stream. */
  datatype Schema = Schema(
    dataKeys: map<string, DataKey>,
    configuration: map<string, Configuration>,
    hints: map<string, seq<string>>,
    objectKeys: map<string, set<string>>)

  datatype Event = Event(
    uid: Uid,
    descriptor: Uid,
    seqNum: nat,
    data: map<string, Json>,
    timestamps: map<string, Json>)

  datatype EventPage = EventPage(
    uids: seq<Uid>,
    descriptor: Uid,
    seqNums: seq<nat>,
    data: map<string, seq<Json>>,
    timestamps: map<string, seq<Json>>)
}
