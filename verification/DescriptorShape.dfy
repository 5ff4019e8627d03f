/** What a bundle's descriptor says about the objects read into it. */
module DescriptorShape {
  import opened Prelude
  import opened Documents
  import opened Bundling

  /** One `read`: the object and what it reported, under the keys it describes. */
  datatype Read = Read(obj: StreamObject, readings: map<string, Reading>)

  ghost predicate Fits(r: Read) {
    r.readings.Keys == r.obj.dataKeys.Keys
  }

  ghost predicate AllFit(done: seq<Read>) {
    forall i :: 0 <= i < |done| ==> Fits(done[i])
  }

  ghost predicate Disjoint(done: seq<Read>) {
    forall i, j :: 0 <= i < j < |done| ==> done[i].readings.Keys * done[j].readings.Keys == {}
  }

  /** The bundler after `create(stream)` and the reads, and whether every read
      was accepted. */
  function Filled(b: Bundler, stream: string, done: seq<Read>): (Bundler, bool)
    decreases |done|
  {
    if done == [] then
      var (b', reply) := b.Step(Create(stream));
      (b', reply.Docs?)
    else
      var (before, ok) := Filled(b, stream, done[..|done| - 1]);
      var (b', reply) := before.Step(AddRead(done[|done| - 1].obj, done[|done| - 1].readings));
      (b', ok && reply.Docs?)
  }

  /** All the reads' keys. */
  function Keys(done: seq<Read>): set<string> {
    if done == [] then {} else Keys(done[..|done| - 1]) + done[|done| - 1].readings.Keys
  }

  lemma {:induction false} KeysOverlap(done: seq<Read>, keys: set<string>)
    ensures Keys(done) * keys == {} <==> forall i :: 0 <= i < |done| ==> done[i].readings.Keys * keys == {}
    decreases |done|
  {
    if done != [] {
      var init, last := done[..|done| - 1], done[|done| - 1];
      KeysOverlap(init, keys);
      assert Keys(done) * keys == Keys(init) * keys + last.readings.Keys * keys;
      assert forall i :: 0 <= i < |init| ==> init[i] == done[i];
    }
  }

  lemma DisjointSnoc(init: seq<Read>, r: Read)
    ensures Disjoint(init + [r]) <==> Disjoint(init) && Keys(init) * r.readings.Keys == {}
  {
    KeysOverlap(init, r.readings.Keys);
    var done := init + [r];
    assert forall i :: 0 <= i < |init| ==> done[i] == init[i];
    assert done[|init|] == r;
    if Disjoint(done) {
      forall i | 0 <= i < |init| ensures init[i].readings.Keys * r.readings.Keys == {} {
        assert done[i].readings.Keys * done[|init|].readings.Keys == {};
      }
      forall i, j | 0 <= i < j < |init| ensures init[i].readings.Keys * init[j].readings.Keys == {} {
        assert done[i].readings.Keys * done[j].readings.Keys == {};
      }
    }
    if Disjoint(init) && Keys(init) * r.readings.Keys == {} {
      forall i, j | 0 <= i < j < |done| ensures done[i].readings.Keys * done[j].readings.Keys == {} {
        if j < |init| {
          assert init[i].readings.Keys * init[j].readings.Keys == {};
        } else {
          assert init[i].readings.Keys * r.readings.Keys == {};
        }
      }
    }
  }

  function Objs(done: seq<Read>): seq<StreamObject> {
    seq(|done|, i requires 0 <= i < |done| => done[i].obj)
  }

  ghost predicate Holds(b: Bundler, stream: string, done: seq<Read>) {
    && b.open.Some? && b.open.value.streamName == stream
    && b.open.value.objs == Objs(done)
    && b.open.value.readings.Keys == Keys(done)
    && Reports(b.open.value.readings, done)
  }

  ghost predicate Reports(readings: map<string, Reading>, done: seq<Read>) {
    forall i, k :: 0 <= i < |done| && k in done[i].readings ==> k in readings && readings[k] == done[i].readings[k]
  }

  lemma ReportsSnoc(readings: map<string, Reading>, init: seq<Read>, r: Read)
    requires Reports(readings, init) && readings.Keys == Keys(init) && Keys(init) * r.readings.Keys == {}
    ensures Reports(readings + r.readings, init + [r])
  {
    var done := init + [r];
    forall i, k | 0 <= i < |done| && k in done[i].readings
      ensures k in readings + r.readings && (readings + r.readings)[k] == done[i].readings[k]
    {
      if i < |init| {
        assert init[i] == done[i] && k in readings && k !in Keys(init) * r.readings.Keys;
      }
    }
  }

  lemma {:induction false} FilledHolds(b: Bundler, stream: string, done: seq<Read>)
    requires b.open.None?
    ensures var (b', ok) := Filled(b, stream, done);
            && (ok <==> Disjoint(done))
            && (ok ==> Holds(b', stream, done) && b' == b.(open := b'.open))
    decreases |done|
  {
    if done != [] {
      var init, r := done[..|done| - 1], done[|done| - 1];
      FilledHolds(b, stream, init);
      DisjointSnoc(init, r);
      assert init + [r] == done;
      assert Objs(done) == Objs(init) + [r.obj];
      var before := Filled(b, stream, init).0;
      if Disjoint(done) {
        ReportsSnoc(before.open.value.readings, init, r);
      }
    }
  }

  /** What `save` returns once the reads were accepted. */
  lemma SaveReturns(b: Bundler, stream: string, done: seq<Read>)
    requires b.InSync() && b.open.Some? && Holds(b, stream, done) && done != []
    ensures var docs := Returned(b.Step(Save).1);
            var e := docs[|docs| - 1];
            && docs != [] && e.EventDoc? && e.stream == stream
            && Carries(e.e, done)
            && (if stream in b.descriptors then |docs| == 1 && e.e.descriptor == b.descriptors[stream]
                else
                  && |docs| == 2 && docs[0].DescriptorDoc?
                  && docs[0].d.name == Some(stream) && docs[0].d.schema == Shape(Objs(done))
                  && e.e.descriptor == docs[0].d.uid)
  {
    var o := b.open.value;
    assert |Objs(done)| > 0;
    assert Values(o.readings).Keys == Keys(done) && Times(o.readings).Keys == Keys(done);
  }

  /** The event has exactly what was read. */
  ghost predicate Carries(e: Event, done: seq<Read>) {
    && e.data.Keys == Keys(done) && e.timestamps.Keys == Keys(done)
    && forall i, k :: 0 <= i < |done| && k in done[i].readings ==>
         && k in e.data && e.data[k] == done[i].readings[k].value
         && k in e.timestamps && e.timestamps[k] == done[i].readings[k].timestamp
  }

  /** All the keys the objects describe, whatever they reported. */
  function Described(objs: seq<StreamObject>): set<string> {
    if objs == [] then {} else Described(objs[..|objs| - 1]) + objs[|objs| - 1].dataKeys.Keys
  }

  /** No later object describes `k`. */
  ghost predicate LastToDescribe(objs: seq<StreamObject>, i: nat, k: string) {
    i < |objs| && k in objs[i].dataKeys && forall j :: i < j < |objs| ==> k !in objs[j].dataKeys
  }

  /** The descriptor has exactly the keys described, each as the last object to
      describe it does, under that object's name. */
  lemma {:induction false} ShapeHolds(objs: seq<StreamObject>)
    ensures Shape(objs).dataKeys.Keys == Described(objs)
    ensures forall i: nat, k :: LastToDescribe(objs, i, k) ==>
              k in Shape(objs).dataKeys && Shape(objs).dataKeys[k] == Stamped(objs[i])[k]
    decreases |objs|
  {
    if objs != [] {
      var init, last := objs[..|objs| - 1], objs[|objs| - 1];
      ShapeHolds(init);
      assert Shape(objs).dataKeys == Shape(init).dataKeys + Stamped(last);
      forall i: nat, k | LastToDescribe(objs, i, k)
        ensures k in Shape(objs).dataKeys && Shape(objs).dataKeys[k] == Stamped(objs[i])[k]
      {
        if i < |init| {
          assert LastToDescribe(init, i, k) && k !in objs[|init|].dataKeys;
        }
      }
    }
  }

  /** The object's own data key, under the object's name if it has one. */
  ghost predicate IsStamped(key: DataKey, obj: StreamObject, k: string)
    requires k in obj.dataKeys
  {
    && key.spec == obj.dataKeys[k].spec
    && key.objectName == if obj.owner.Some? then obj.owner else obj.dataKeys[k].objectName
  }

  lemma {:induction false} FitMeansSameKeys(done: seq<Read>)
    requires AllFit(done)
    ensures Described(Objs(done)) == Keys(done)
    decreases |done|
  {
    if done != [] {
      var last := |done| - 1;
      assert Fits(done[last]);
      FitMeansSameKeys(done[..last]);
      assert Objs(done)[..last] == Objs(done[..last]);
    }
  }

  /** Reads are all accepted exactly when no two report a key in common, be it
      described or not. Then `save` on a new stream returns a descriptor and the
      event that names it. The event has exactly what was reported, and the
      descriptor exactly the keys described, each under the last object to
      describe it; and where every object reports what it describes these are
      the same keys, each under the object that reported it. */
  lemma FirstSaveMatchesItsDescriptor(b: Bundler, stream: string, done: seq<Read>)
    requires b.InSync() && b.open.None? && stream !in b.descriptors && done != []
    ensures Filled(b, stream, done).1 <==> Disjoint(done)
    ensures Disjoint(done) ==>
              var docs, objs := Returned(Filled(b, stream, done).0.Step(Save).1), Objs(done);
              && |docs| == 2 && docs[0].DescriptorDoc? && docs[1].EventDoc?
              && var (d, e) := (docs[0].d, docs[1].e);
              && d.name == Some(stream) && docs[1].stream == stream && e.descriptor == d.uid
              && Carries(e, done)
              && d.schema == Shape(objs) && d.schema.dataKeys.Keys == Described(objs)
              && (forall i: nat, k :: LastToDescribe(objs, i, k) ==>
                    k in d.schema.dataKeys && IsStamped(d.schema.dataKeys[k], objs[i], k))
              && (AllFit(done) ==>
                    && d.schema.dataKeys.Keys == e.data.Keys
                    && forall i: nat, k :: i < |done| && k in done[i].readings ==> LastToDescribe(objs, i, k))
  {
    FilledHolds(b, stream, done);
    if Disjoint(done) {
      SaveReturns(Filled(b, stream, done).0, stream, done);
      ShapeHolds(Objs(done));
      if AllFit(done) {
        FitMeansSameKeys(done);
        forall i: nat, k | i < |done| && k in done[i].readings ensures LastToDescribe(Objs(done), i, k) {
          OneReporter(done, i, k);
        }
      }
    }
  }

  /** Where all fit, a key is described by the object that reports it only. */
  lemma OneReporter(done: seq<Read>, i: nat, k: string)
    requires AllFit(done) && Disjoint(done) && i < |done| && k in done[i].readings
    ensures k in done[i].obj.dataKeys && forall j :: i < j < |done| ==> k !in done[j].obj.dataKeys
  {
    assert Fits(done[i]);
    forall j | i < j < |done| ensures k !in done[j].obj.dataKeys {
      assert Fits(done[j]) && k !in done[i].readings.Keys * done[j].readings.Keys;
    }
  }

  /** The last object of that name. */
  function LastNamed(objs: seq<StreamObject>, name: string): Option<StreamObject> {
    if objs == [] then None
    else if objs[|objs| - 1].owner == Some(name) then Some(objs[|objs| - 1])
    else LastNamed(objs[..|objs| - 1], name)
  }

  /** Hints come from the last object of that name that has any. */
  function LastHints(objs: seq<StreamObject>, name: string): Option<seq<string>> {
    if objs == [] then None
    else if objs[|objs| - 1].owner == Some(name) && objs[|objs| - 1].hintFields.Some? then objs[|objs| - 1].hintFields
    else LastHints(objs[..|objs| - 1], name)
  }

  /** The descriptor's configuration and object keys list exactly the named
      objects, each as its last mention has it; an object without a name gives
      data keys alone. */
  lemma {:induction false} ShapeIsLastMention(objs: seq<StreamObject>, name: string)
    ensures var schema, last := Shape(objs), LastNamed(objs, name);
            && (name in schema.configuration <==> last.Some?)
            && (name in schema.objectKeys <==> last.Some?)
            && (last.Some? ==>
                  && schema.configuration[name] == last.value.configuration
                  && schema.objectKeys[name] == last.value.dataKeys.Keys)
            && (name in schema.hints <==> LastHints(objs, name).Some?)
            && (name in schema.hints ==> LastHints(objs, name) == Some(schema.hints[name]))
    decreases |objs|
  {
    if objs != [] {
      ShapeIsLastMention(objs[..|objs| - 1], name);
    }
  }
}
