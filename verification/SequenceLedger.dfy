/** Sequence numbers over a whole run. The ledger keeps every document a call
    returned and, at a rewind, strikes out what was returned since the live
    checkpoint, as the replay will return it again. */
module SequenceLedger {
  import opened Prelude
  import opened Documents
  import opened Compose
  import opened Bundling

  datatype Ledger = Ledger(b: Bundler, log: seq<Doc>, mark: Option<nat>)

  /** The numbers one document uses up on `stream`. */
  function NumbersOf(doc: Doc, stream: string): seq<nat> {
    match doc
    case DescriptorDoc(_) => []
    case EventDoc(s, e) => if s == stream then [e.seqNum] else []
    case PageDoc(s, page) => if s == stream then page.seqNums else []
    case SpanDoc(s, first, width) => if s == stream then From(first, width) else []
  }

  function Numbers(docs: seq<Doc>, stream: string): seq<nat> {
    if docs == [] then []
    else Numbers(docs[..|docs| - 1], stream) + NumbersOf(docs[|docs| - 1], stream)
  }

  function Entered(k: Ledger, op: Op): Ledger {
    var (b, reply) := k.b.Step(op);
    match op
    case Checkpoint => Ledger(b, k.log, Some(|k.log|))
    case ClearCheckpoint => Ledger(b, k.log, None)
    case Rewind => Ledger(b, if k.mark.Some? && k.mark.value <= |k.log| then k.log[..k.mark.value] else k.log, k.mark)
    case _ => Ledger(b, k.log + Returned(reply), k.mark)
  }

  function AfterAll(k: Ledger, ops: seq<Op>): Ledger
    decreases |ops|
  {
    if ops == [] then k else Entered(AfterAll(k, ops[..|ops| - 1]), ops[|ops| - 1])
  }

  function Opened(startUid: Uid, nextUid: Uid): Ledger {
    Ledger(Bundler(Bundle(startUid, map[], nextUid), map[], None, None), [], None)
  }

  function Snapshotted(snapshot: map<string, nat>, stream: string): nat {
    if stream in snapshot then snapshot[stream] else 0
  }

  ghost predicate Balanced(k: Ledger) {
    && (forall s :: Numbers(k.log, s) == From(1, k.b.bundle.Count(s)))
    && (k.mark.Some? <==> k.b.seqSnapshot.Some?)
    && (k.mark.Some? ==>
          && k.mark.value <= |k.log|
          && forall s :: Numbers(k.log[..k.mark.value], s) == From(1, Snapshotted(k.b.seqSnapshot.value, s)))
  }

  lemma {:induction false} NumbersConcat(a: seq<Doc>, b: seq<Doc>, s: string)
    ensures Numbers(a + b, s) == Numbers(a, s) + Numbers(b, s)
    decreases |b|
  {
    if b == [] {
      assert a + b == a;
    } else {
      var init, last := b[..|b| - 1], b[|b| - 1];
      NumbersConcat(a, init, s);
      assert (a + b)[..|a + b| - 1] == a + init && (a + b)[|a + b| - 1] == last;
      Associates(Numbers(a, s), Numbers(init, s), NumbersOf(last, s));
    }
  }

  lemma Associates(a: seq<nat>, b: seq<nat>, c: seq<nat>)
    ensures (a + b) + c == a + (b + c)
  {
  }

  lemma FromConcat(start: nat, m: nat, n: nat)
    ensures From(start, m) + From(start + m, n) == From(start, m + n)
  {
  }

  lemma NumbersOne(doc: Doc, s: string)
    ensures Numbers([doc], s) == NumbersOf(doc, s)
  {
    assert [doc][..0] == [];
  }

  /** `docs` use up on `s` the numbers right after its counter in `before`,
      and its counter in `after` is moved past them. */
  ghost predicate Uses(before: Bundler, after: Bundler, docs: seq<Doc>, s: string) {
    && before.bundle.Count(s) <= after.bundle.Count(s)
    && Numbers(docs, s) == From(before.bundle.Count(s) + 1, after.bundle.Count(s) - before.bundle.Count(s))
  }

  lemma ComposedUses(b: Bundler, stream: string, data: map<string, Json>, timestamps: map<string, Json>, s: string)
    ensures var (b', reply) := b.Composed(stream, data, timestamps);
            Uses(b, b', Returned(reply), s)
  {
    var (_, reply) := b.Composed(stream, data, timestamps);
    if reply.Docs? {
      NumbersOne(reply.docs[0], s);
    }
  }

  lemma RecordedUses(b: Bundler, o: OpenBundle, s: string)
    ensures var (b', reply) := b.Recorded(o);
            Uses(b, b', Returned(reply), s)
  {
    var ready := if b.NeedsDescriptor(o.streamName) then b.Prepared(o.streamName, o.objs) else b;
    assert ready.bundle.Count(s) == b.bundle.Count(s);
    ComposedUses(ready, o.streamName, Values(o.readings), Times(o.readings), s);
    var (_, composed) := ready.Composed(o.streamName, Values(o.readings), Times(o.readings));
    if b.NeedsDescriptor(o.streamName) {
      var d := DescriptorDoc(ready.bundle.streams[o.streamName].descriptor);
      NumbersConcat([d], composed.docs, s);
      NumbersOne(d, s);
    }
  }

  lemma PageUses(b: Bundler, stream: string, n: nat, columns: map<string, seq<Json>>, times: map<string, seq<Json>>, s: string)
    requires stream in b.bundle.streams
    ensures Uses(b, b.Moved(stream, n, n), [PageDoc(stream, b.bundle.NextPage(stream, n, columns, times))], s)
  {
    NumbersOne(PageDoc(stream, b.bundle.NextPage(stream, n, columns, times)), s);
  }

  lemma AdvanceUses(b: Bundler, stream: string, n: nat, s: string)
    requires stream in b.bundle.streams
    ensures Uses(b, b.Moved(stream, n, 0), [SpanDoc(stream, b.bundle.Count(stream) + 1, n)], s)
  {
    NumbersOne(SpanDoc(stream, b.bundle.Count(stream) + 1, n), s);
  }

  lemma DeclareUses(b: Bundler, stream: string, objs: seq<StreamObject>, d: EventDescriptor, s: string)
    ensures Uses(b, b.Prepared(stream, objs), [DescriptorDoc(d)], s)
  {
    NumbersOne(DescriptorDoc(d), s);
  }

  lemma SilentUses(b: Bundler, op: Op, s: string)
    requires op.Create? || op.AddRead? || op.DropBundle? || op.Checkpoint? || op.ClearCheckpoint?
          || ((op.Page? || op.Advance?) && op.stream !in b.bundle.streams)
    ensures var (b', reply) := b.Step(op);
            Uses(b, b', Returned(reply), s)
  {
  }

  /** Except at a rewind, every call uses up exactly the numbers it returns. */
  lemma StepUses(b: Bundler, op: Op, s: string)
    requires !op.Rewind?
    ensures Uses(b, b.Step(op).0, Returned(b.Step(op).1), s)
  {
    if op.Save? {
      if b.open.Some? && b.open.value.objs != [] {
        RecordedUses(b.(open := None), b.open.value, s);
      }
    } else if op.Direct? {
      ComposedUses(b, op.stream, op.data, op.timestamps, s);
    } else if op.Install? {
      InstallKeepsCounts(b, op.descriptors, s);
    } else if op.Page? && op.stream in b.bundle.streams {
      PageUses(b, op.stream, op.n, op.columns, op.times, s);
    } else if op.Advance? && op.stream in b.bundle.streams {
      AdvanceUses(b, op.stream, op.n, s);
    } else if op.Declare? {
      DeclareUses(b, op.stream, op.objs, b.Step(op).1.docs[0].d, s);
    } else {
      SilentUses(b, op, s);
    }
  }

  lemma {:induction false} InstallKeepsCounts(b: Bundler, ds: seq<EventDescriptor>, s: string)
    ensures b.InstalledAll(ds).bundle.Count(s) == b.bundle.Count(s)
    decreases |ds|
  {
    if ds != [] {
      InstallKeepsCounts(b, ds[..|ds| - 1], s);
    }
  }

  lemma RewindStaysBalanced(k: Ledger)
    requires Balanced(k)
    ensures Balanced(Entered(k, Rewind))
  {
    if k.mark.Some? {
      var m := k.mark.value;
      assert k.log[..m][..m] == k.log[..m];
      forall s ensures Numbers(k.log[..m], s) == From(1, k.b.Step(Rewind).0.bundle.Count(s)) {
        RestoredCount(k, s);
      }
    }
  }

  lemma CheckpointStaysBalanced(k: Ledger)
    requires Balanced(k)
    ensures Balanced(Entered(k, Checkpoint))
  {
    assert k.log[..|k.log|] == k.log;
  }

  lemma KeepsSnapshot(b: Bundler, op: Op)
    requires !op.Checkpoint? && !op.ClearCheckpoint?
    ensures b.Step(op).0.seqSnapshot == b.seqSnapshot
  {
    if op.Install? { InstallKeepsSnapshot(b, op.descriptors); }
  }

  lemma ReturnStaysBalanced(k: Ledger, b: Bundler, docs: seq<Doc>)
    requires Balanced(k)
    requires b.seqSnapshot == k.b.seqSnapshot
    requires forall s :: Uses(k.b, b, docs, s)
    ensures Balanced(Ledger(b, k.log + docs, k.mark))
  {
    forall s ensures Numbers(k.log + docs, s) == From(1, b.bundle.Count(s)) {
      NumbersConcat(k.log, docs, s);
      assert Uses(k.b, b, docs, s);
      FromConcat(1, k.b.bundle.Count(s), b.bundle.Count(s) - k.b.bundle.Count(s));
    }
    if k.mark.Some? {
      assert (k.log + docs)[..k.mark.value] == k.log[..k.mark.value];
    }
  }

  lemma EnteredStaysBalanced(k: Ledger, op: Op)
    requires Balanced(k)
    ensures Balanced(Entered(k, op))
  {
    match op {
      case Rewind => RewindStaysBalanced(k);
      case Checkpoint => CheckpointStaysBalanced(k);
      case ClearCheckpoint =>
      case _ =>
        KeepsSnapshot(k.b, op);
        forall s ensures Uses(k.b, k.b.Step(op).0, Returned(k.b.Step(op).1), s) {
          StepUses(k.b, op, s);
        }
        ReturnStaysBalanced(k, k.b.Step(op).0, Returned(k.b.Step(op).1));
    }
  }

  /** After a rewind a stream's counter is the snapshot's; one the snapshot
      lacks is back at 0, whether or not it was declared since. */
  lemma RestoredCount(k: Ledger, s: string)
    requires Balanced(k) && k.mark.Some?
    ensures s in k.b.bundle.streams ==>
              k.b.Step(Rewind).0.bundle.Count(s) == Snapshotted(k.b.seqSnapshot.value, s)
    ensures s !in k.b.bundle.streams ==>
              k.b.Step(Rewind).0.bundle.Count(s) == 0 == Snapshotted(k.b.seqSnapshot.value, s)
  {
    if s !in k.b.bundle.streams {
      var m := k.mark.value;
      assert k.log == k.log[..m] + k.log[m..];
      NumbersConcat(k.log[..m], k.log[m..], s);
      assert |From(1, Snapshotted(k.b.seqSnapshot.value, s))| <= |Numbers(k.log, s)| == 0;
    }
  }

  lemma {:induction false} InstallKeepsSnapshot(b: Bundler, ds: seq<EventDescriptor>)
    ensures b.InstalledAll(ds).seqSnapshot == b.seqSnapshot
    decreases |ds|
  {
    if ds != [] {
      InstallKeepsSnapshot(b, ds[..|ds| - 1]);
    }
  }

  lemma {:induction false} AfterAllBalanced(k: Ledger, ops: seq<Op>)
    requires Balanced(k)
    ensures Balanced(AfterAll(k, ops))
    decreases |ops|
  {
    if ops != [] {
      AfterAllBalanced(k, ops[..|ops| - 1]);
      EnteredStaysBalanced(AfterAll(k, ops[..|ops| - 1]), ops[|ops| - 1]);
    }
  }

  lemma AfterAllSnoc(k: Ledger, ops: seq<Op>, op: Op)
    ensures AfterAll(k, []) == k && AfterAll(k, ops + [op]) == Entered(AfterAll(k, ops), op)
  {
    assert (ops + [op])[..|ops|] == ops;
  }

  /** The ledger keeps what calls return, in order; a rewind strikes out what
      came since the checkpoint, and the bundler is the calls' own. */
  lemma EnteredIs(k: Ledger, op: Op)
    ensures Entered(k, op).b == k.b.Step(op).0
    ensures !op.Rewind? ==> Entered(k, op).log == k.log + Returned(k.b.Step(op).1)
    ensures op.Rewind? && k.mark.Some? && k.mark.value <= |k.log| ==> Entered(k, op).log == k.log[..k.mark.value]
    ensures Entered(k, op).mark == if op.Checkpoint? then Some(|k.log|) else if op.ClearCheckpoint? then None else k.mark
  {
  }

  /** In every run, whatever mix of events, page rows, collected spans,
      reconfigurations, checkpoints and rewinds: the numbers left on a stream
      are 1, 2, .. n in that order, each once; `peek_next_seq` is n + 1 and the
      `RunStop` counts n. */
  lemma NumbersAreGapFree(startUid: Uid, nextUid: Uid, ops: seq<Op>, s: string)
    ensures var k := AfterAll(Opened(startUid, nextUid), ops);
            && Numbers(k.log, s) == From(1, k.b.bundle.Count(s))
            && (s in k.b.bundle.streams ==> k.b.bundle.Counters()[s] == |Numbers(k.log, s)|)
            && (s !in k.b.bundle.streams ==> Numbers(k.log, s) == [])
  {
    assert Balanced(Opened(startUid, nextUid));
    AfterAllBalanced(Opened(startUid, nextUid), ops);
  }

  // ---- Uids ----

  function UidsOf(doc: Doc): seq<Uid> {
    match doc
    case EventDoc(_, e) => [e.uid]
    case PageDoc(_, page) => page.uids
    case _ => []
  }

  function Uids(docs: seq<Doc>): seq<Uid> {
    if docs == [] then [] else Uids(docs[..|docs| - 1]) + UidsOf(docs[|docs| - 1])
  }

  /** Increasing, from `lo` on and below `hi`. */
  ghost predicate Rising(uids: seq<Uid>, lo: Uid, hi: Uid) {
    && lo <= hi
    && (forall i :: 0 <= i < |uids| ==> lo <= uids[i] < hi)
    && forall i, j :: 0 <= i < j < |uids| ==> uids[i] < uids[j]
  }

  lemma {:induction false} UidsConcat(a: seq<Doc>, b: seq<Doc>)
    ensures Uids(a + b) == Uids(a) + Uids(b)
    decreases |b|
  {
    if b == [] {
      assert a + b == a;
    } else {
      var init, last := b[..|b| - 1], b[|b| - 1];
      UidsConcat(a, init);
      assert (a + b)[..|a + b| - 1] == a + init && (a + b)[|a + b| - 1] == last;
      Associates(Uids(a), Uids(init), UidsOf(last));
    }
  }

  lemma UidsOne(doc: Doc)
    ensures Uids([doc]) == UidsOf(doc)
  {
    assert [doc][..0] == [];
  }

  lemma ComposedRises(b: Bundler, stream: string, data: map<string, Json>, timestamps: map<string, Json>)
    ensures var (b', reply) := b.Composed(stream, data, timestamps);
            Rising(Uids(Returned(reply)), b.bundle.nextUid, b'.bundle.nextUid)
  {
    if stream in b.bundle.streams {
      UidsOne(b.Composed(stream, data, timestamps).1.docs[0]);
    }
  }

  lemma RecordedRises(b: Bundler, o: OpenBundle)
    ensures var (b', reply) := b.Recorded(o); Rising(Uids(Returned(reply)), b.bundle.nextUid, b'.bundle.nextUid)
  {
    var ready := if b.NeedsDescriptor(o.streamName) then b.Prepared(o.streamName, o.objs) else b;
    ComposedRises(ready, o.streamName, Values(o.readings), Times(o.readings));
    var composed := ready.Composed(o.streamName, Values(o.readings), Times(o.readings)).1;
    if composed.Docs? && b.NeedsDescriptor(o.streamName) {
      var d := DescriptorDoc(ready.bundle.streams[o.streamName].descriptor);
      UidsOne(d);
      UidsConcat([d], composed.docs);
    }
  }

  lemma CountingRises(b: Bundler, op: Op)
    requires op.Page? || op.Advance? || op.Declare?
    ensures var (b', reply) := b.Step(op); Rising(Uids(Returned(reply)), b.bundle.nextUid, b'.bundle.nextUid)
  {
    var reply := b.Step(op).1;
    if reply.Docs? {
      UidsOne(reply.docs[0]);
      assert reply.docs == [reply.docs[0]];
    }
  }

  /** Events and page rows of a call have uids drawn by it. */
  lemma StepRises(b: Bundler, op: Op)
    ensures var (b', reply) := b.Step(op); Rising(Uids(Returned(reply)), b.bundle.nextUid, b'.bundle.nextUid)
  {
    match op {
      case Save =>
        if b.open.Some? && b.open.value.objs != [] {
          RecordedRises(b.(open := None), b.open.value);
        }
      case Direct(stream, data, timestamps) => ComposedRises(b, stream, data, timestamps);
      case Page(_, _, _, _) => CountingRises(b, op);
      case Advance(_, _) => CountingRises(b, op);
      case Declare(_, _) => CountingRises(b, op);
      case Install(ds) => InstallDrawsNothing(b, ds);
      case _ =>
    }
  }

  lemma {:induction false} InstallDrawsNothing(b: Bundler, ds: seq<EventDescriptor>)
    ensures b.InstalledAll(ds).bundle.nextUid == b.bundle.nextUid
    decreases |ds|
  {
    if ds != [] {
      InstallDrawsNothing(b, ds[..|ds| - 1]);
    }
  }

  lemma RisingConcat(a: seq<Uid>, b: seq<Uid>, m: Uid, hi: Uid)
    requires Rising(a, 0, m) && Rising(b, m, hi)
    ensures Rising(a + b, 0, hi)
  {
  }

  lemma RisingPrefix(a: seq<Uid>, b: seq<Uid>, hi: Uid)
    requires Rising(a + b, 0, hi)
    ensures Rising(a, 0, hi)
  {
    assert forall i :: 0 <= i < |a| ==> a[i] == (a + b)[i];
  }

  lemma EnteredRises(k: Ledger, op: Op)
    requires Rising(Uids(k.log), 0, k.b.bundle.nextUid)
    ensures Rising(Uids(Entered(k, op).log), 0, Entered(k, op).b.bundle.nextUid)
  {
    var (b, reply) := k.b.Step(op);
    var docs := Returned(reply);
    StepRises(k.b, op);
    if op.Rewind? {
      if k.mark.Some? && k.mark.value <= |k.log| {
        var m := k.mark.value;
        UidsConcat(k.log[..m], k.log[m..]);
        assert k.log == k.log[..m] + k.log[m..];
        RisingPrefix(Uids(k.log[..m]), Uids(k.log[m..]), k.b.bundle.nextUid);
      }
    } else if !op.Checkpoint? && !op.ClearCheckpoint? {
      UidsConcat(k.log, docs);
      RisingConcat(Uids(k.log), Uids(docs), k.b.bundle.nextUid, b.bundle.nextUid);
    }
  }

  /** In every run no two events or page rows share a uid, rewinds or not. */
  lemma {:induction false} UidsNeverRepeat(startUid: Uid, nextUid: Uid, ops: seq<Op>)
    ensures var k := AfterAll(Opened(startUid, nextUid), ops);
            && Rising(Uids(k.log), 0, k.b.bundle.nextUid)
            && forall i, j :: 0 <= i < j < |Uids(k.log)| ==> Uids(k.log)[i] != Uids(k.log)[j]
    decreases |ops|
  {
    if ops != [] {
      UidsNeverRepeat(startUid, nextUid, ops[..|ops| - 1]);
      EnteredRises(AfterAll(Opened(startUid, nextUid), ops[..|ops| - 1]), ops[|ops| - 1]);
    }
  }
}
