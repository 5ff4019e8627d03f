/** One backend monitor shared by any number of listeners: the fan-out of
    values to listener queues, and the cache that opens and closes the
    monitor. */
module SignalCaching {
  import opened Prelude

  type Value = int
  type Id = nat

  /** A listener's queue; `open` while its receiver is alive. Senders and
      receivers name it by its place in `Fan.channels`. */
  datatype Channel = Channel(open: bool, queue: seq<Value>)

  datatype Fan = Fan(latest: Option<Value>, listeners: seq<Id>, channels: seq<Channel>) {
    ghost predicate Valid() {
      InRange(listeners, |channels|) && Distinct(listeners)
    }

    function Post(v: Value): Fan
    {
      Fan(Some(v), Retained([], listeners, channels), Sent(channels, listeners, v))
    }

    function Listen(): Fan
    {
      Fan(latest, Retained([], listeners, channels) + [|channels|],
          channels + [Channel(true, if latest.Some? then [latest.value] else [])])
    }
  }

  predicate InRange(ids: seq<Id>, n: nat) {
    forall k :: 0 <= k < |ids| ==> ids[k] < n
  }

  predicate Distinct(ids: seq<Id>) {
    forall j, k :: 0 <= j < k < |ids| ==> ids[j] != ids[k]
  }

  /** The receiver of `tx` has not been dropped. */
  predicate Alive(channels: seq<Channel>, tx: Id) {
    tx < |channels| && channels[tx].open
  }

  /** The listeners still alive, in order, after those already `kept`. */
  function Retained(kept: seq<Id>, ids: seq<Id>, channels: seq<Channel>): seq<Id>
    decreases |ids|
  {
    if ids == [] then kept
    else Retained(if Alive(channels, ids[0]) then kept + [ids[0]] else kept, ids[1..], channels)
  }

  /** The queues after `v` was sent to `ids` in turn. */
  function Sent(channels: seq<Channel>, ids: seq<Id>, v: Value): (sent: seq<Channel>)
    ensures |sent| == |channels|
    decreases |ids|
  {
    if ids == [] then channels else Sent(SentTo(channels, ids[0], v), ids[1..], v)
  }

  /** A send fails when the receiver is gone. */
  function SentTo(channels: seq<Channel>, tx: Id, v: Value): (sent: seq<Channel>)
    ensures |sent| == |channels|
  {
    if Alive(channels, tx) then channels[tx := channels[tx].(queue := channels[tx].queue + [v])] else channels
  }

  lemma {:induction false} RetainedHas(kept: seq<Id>, ids: seq<Id>, channels: seq<Channel>, id: Id)
    ensures id in Retained(kept, ids, channels) <==> id in kept || (id in ids && Alive(channels, id))
    decreases |ids|
  {
    if ids != [] {
      RetainedHas(if Alive(channels, ids[0]) then kept + [ids[0]] else kept, ids[1..], channels, id);
      assert id in ids <==> id == ids[0] || id in ids[1..];
    }
  }

  /** Those of `ids` that are alive. */
  function AliveOf(ids: seq<Id>, channels: seq<Channel>): seq<Id> {
    if ids == [] then []
    else
      var last := ids[|ids| - 1];
      AliveOf(ids[..|ids| - 1], channels) + if last < |channels| && channels[last].open then [last] else []
  }

  lemma {:induction false} AliveOfCons(ids: seq<Id>, channels: seq<Channel>)
    requires ids != []
    ensures AliveOf(ids, channels)
            == (if ids[0] < |channels| && channels[ids[0]].open then [ids[0]] else []) + AliveOf(ids[1..], channels)
    decreases |ids|
  {
    if |ids| > 1 {
      AliveOfCons(ids[..|ids| - 1], channels);
      assert ids[..|ids| - 1][1..] == ids[1..][..|ids| - 2];
    }
  }

  /** A pass over the listeners keeps exactly those alive, in their order. */
  lemma {:induction false} RetainedIs(kept: seq<Id>, ids: seq<Id>, channels: seq<Channel>)
    ensures Retained(kept, ids, channels) == kept + AliveOf(ids, channels)
    decreases |ids|
  {
    if ids != [] {
      AliveOfCons(ids, channels);
      RetainedIs(if Alive(channels, ids[0]) then kept + [ids[0]] else kept, ids[1..], channels);
    }
  }

  /** What a post and a new listener do to the list of listeners and to the
      queues: the dead are dropped, the new one is last, alive, and its queue
      starts with the latest value. */
  lemma FanSteps(fan: Fan, v: Value)
    ensures fan.Post(v).latest == Some(v) && fan.Post(v).listeners == AliveOf(fan.listeners, fan.channels)
    ensures fan.Listen().latest == fan.latest
    ensures fan.Listen().listeners == AliveOf(fan.listeners, fan.channels) + [|fan.channels|]
    ensures fan.Listen().channels
            == fan.channels + [Channel(true, if fan.latest.Some? then [fan.latest.value] else [])]
  {
    RetainedIs([], fan.listeners, fan.channels);
  }

  lemma DistinctSnoc(ids: seq<Id>, id: Id)
    requires Distinct(ids) && id !in ids
    ensures Distinct(ids + [id])
  {
  }

  lemma DistinctTail(ids: seq<Id>)
    requires ids != [] && Distinct(ids)
    ensures Distinct(ids[1..]) && ids[0] !in ids[1..]
  {
  }

  lemma {:induction false} RetainedValid(kept: seq<Id>, ids: seq<Id>, channels: seq<Channel>)
    requires Distinct(kept) && Distinct(ids) && InRange(kept, |channels|)
    requires forall id :: id in kept ==> id !in ids
    ensures Distinct(Retained(kept, ids, channels)) && InRange(Retained(kept, ids, channels), |channels|)
    decreases |ids|
  {
    if ids != [] {
      var id := ids[0];
      DistinctTail(ids);
      DistinctSnoc(kept, id);
      RetainedValid(if Alive(channels, id) then kept + [id] else kept, ids[1..], channels);
    }
  }

  /** Each listener alive gets `v` once; nobody else gets anything. */
  lemma {:induction false} SentAt(channels: seq<Channel>, ids: seq<Id>, v: Value, i: Id)
    requires Distinct(ids) && i < |channels|
    ensures Sent(channels, ids, v)[i]
            == if i in ids && channels[i].open then channels[i].(queue := channels[i].queue + [v]) else channels[i]
    decreases |ids|
  {
    if ids != [] {
      DistinctTail(ids);
      assert i in ids <==> i == ids[0] || i in ids[1..];
      SentAt(SentTo(channels, ids[0], v), ids[1..], v, i);
    }
  }

  lemma {:induction false} RetainedOfSent(kept: seq<Id>, ids: seq<Id>, channels: seq<Channel>, tx: Id, v: Value)
    ensures Retained(kept, ids, SentTo(channels, tx, v)) == Retained(kept, ids, channels)
    decreases |ids|
  {
    if ids != [] {
      RetainedOfSent(if Alive(channels, ids[0]) then kept + [ids[0]] else kept, ids[1..], channels, tx, v);
    }
  }

  class Fanout {
    var latest: Option<Value>
    var listeners: seq<Id>
    var channels: seq<Channel>

    function View(): Fan
      reads this
    {
      Fan(latest, listeners, channels)
    }

    constructor ()
      ensures View() == Fan(None, [], [])
    {
      latest, listeners, channels := None, [], [];
    }

    /** One pass over the listeners, which also drops the dead ones. */
    method Post(v: Value) returns (replaced: Option<Value>)
      modifies this
      ensures View() == old(View()).Post(v) && replaced == old(latest)
    {
      var rest, kept: seq<Id> := listeners, [];
      while rest != []
        invariant latest == old(latest)
        invariant Sent(channels, rest, v) == Sent(old(channels), old(listeners), v)
        invariant Retained(kept, rest, channels) == Retained([], old(listeners), old(channels))
        decreases |rest|
      {
        var tx := rest[0];
        RetainedOfSent(kept, rest, channels, tx, v);
        channels := SentTo(channels, tx, v);
        if Alive(channels, tx) {
          kept := kept + [tx];
        }
        rest := rest[1..];
      }
      listeners := kept;
      replaced := latest;
      latest := Some(v);
    }

    /** The new listener's queue starts with the latest value, if any. */
    method Listen() returns (rx: Id)
      modifies this
      ensures View() == old(View()).Listen() && rx == |old(channels)|
    {
      var rest, kept: seq<Id> := listeners, [];
      while rest != []
        invariant View() == old(View())
        invariant Retained(kept, rest, channels) == Retained([], listeners, channels)
        decreases |rest|
      {
        if Alive(channels, rest[0]) {
          kept := kept + [rest[0]];
        }
        rest := rest[1..];
      }
      rx := |channels|;
      channels := channels + [Channel(true, if latest.Some? then [latest.value] else [])];
      listeners := kept + [rx];
    }

    method Clear()
      modifies this
      ensures View() == old(View()).(latest := None)
    {
      latest := None;
    }
  }

  /** `monitors` are those open at the backend, which numbers them. */
  datatype Cache = Cache(staged: bool, listeners: nat, token: Option<nat>, monitors: set<nat>, minted: nat, fan: Fan) {
    function EnsureToken(): Cache {
      if token.None? then this.(token := Some(minted), monitors := monitors + {minted}, minted := minted + 1) else this
    }

    function MaybeTeardown(): Cache {
      if !staged && listeners == 0
      then this.(token := None, monitors := if token.Some? then monitors - {token.value} else monitors,
                 fan := fan.(latest := None))
      else this
    }

    function SetStaged(b: bool): Cache {
      if b then this.(staged := b).EnsureToken() else this.(staged := b).MaybeTeardown()
    }

    /** A new listener up to the opening of the monitor, and from there on. */
    function Admit(): Cache {
      this.(listeners := listeners + 1).EnsureToken()
    }

    function Listen(): Cache
    {
      this.(fan := fan.Listen())
    }

    function DropToken(): Cache {
      this.(listeners := if listeners > 0 then listeners - 1 else 0).MaybeTeardown()
    }

    function Post(v: Value): Cache
    {
      this.(fan := fan.Post(v))
    }
  }

  class SignalCache {
    var staged: bool
    var listeners: nat
    var token: Option<nat>
    var monitors: set<nat>
    var minted: nat
    const fanout: Fanout

    function View(): Cache
      reads this, fanout
    {
      Cache(staged, listeners, token, monitors, minted, fanout.View())
    }

    constructor ()
      ensures fresh(fanout) && View() == NEW_CACHE
    {
      staged, listeners, token, monitors, minted := false, 0, None, {}, 0;
      fanout := new Fanout();
    }

    method EnsureToken()
      modifies this
      ensures View() == old(View()).EnsureToken()
    {
      if token.None? {
        token := Some(minted);
        monitors := monitors + {minted};
        minted := minted + 1;
      }
    }

    method MaybeTeardown()
      modifies this, fanout
      ensures View() == old(View()).MaybeTeardown()
    {
      if !staged && listeners == 0 {
        if token.Some? {
          monitors := monitors - {token.value};
        }
        token := None;
        fanout.Clear();
      }
    }

    method SetStaged(b: bool)
      modifies this, fanout
      ensures View() == old(View()).SetStaged(b)
    {
      staged := b;
      if b {
        EnsureToken();
      } else {
        MaybeTeardown();
      }
    }

    /** `opening` is what the backend delivers while the monitor is opened,
        before the listener registers. */
    method AddListener(opening: Option<Value>) returns (rx: Id)
      modifies this, fanout
      ensures var admitted := old(View()).Admit();
              var seeded := if old(token).None? && opening.Some? then admitted.Post(opening.value) else admitted;
              View() == seeded.Listen()
      ensures rx == |old(fanout.channels)|
    {
      listeners := listeners + 1;
      var opens := token.None?;
      EnsureToken();
      if opens && opening.Some? {
        var _ := fanout.Post(opening.value);
      }
      rx := fanout.Listen();
    }

    /** The closure that runs when a listener's token drops. */
    method DropToken()
      modifies this, fanout
      ensures View() == old(View()).DropToken()
      ensures listeners == if old(listeners) > 0 then old(listeners) - 1 else 0
    {
      listeners := if listeners > 0 then listeners - 1 else 0;
      MaybeTeardown();
    }
  }

  const NEW_CACHE := Cache(false, 0, None, {}, 0, Fan(None, [], []))

  lemma PostValid(fan: Fan, v: Value)
    requires fan.Valid()
    ensures fan.Post(v).Valid()
  {
    RetainedValid([], fan.listeners, fan.channels);
  }

  lemma ListenValid(fan: Fan)
    requires fan.Valid()
    ensures fan.Listen().Valid()
  {
    RetainedValid([], fan.listeners, fan.channels);
    DistinctSnoc(Retained([], fan.listeners, fan.channels), |fan.channels|);
  }

  // ---- Whole runs ----

  /** Where a listener registered: after how many posts, and how many of them
      were made before the monitor last opened. */
  datatype Registration = Registration(at: nat, mark: nat)

  /** `posts` is everything the backend ever delivered, `mark` how much of it
      before the monitor last opened; `received` what each receiver has taken
      from its queue; `tokens` the listener tokens not dropped. `locked` while
      a new listener holds the lock, past the opening of the monitor. */
  datatype System = System(
    cache: Cache,
    locked: bool,
    tokens: set<Id>,
    posts: seq<Value>,
    mark: nat,
    registrations: seq<Registration>,
    received: seq<seq<Value>>)

  datatype Action =
    | SetStaged(b: bool)
    | AdmitListener
    | RegisterListener
    | DropToken(i: Id)
    | DropReceiver(i: Id)
    | Post(v: Value)
    | Receive(i: Id)

  const START := System(NEW_CACHE, false, {}, [], 0, [], [])

  /** `mark` moves when the monitor opens. */
  function Reopened(s: System, c: Cache): System {
    s.(cache := c, mark := if s.cache.token.None? && c.token.Some? then |s.posts| else s.mark)
  }

  /** Disabled actions change nothing; the backend posts only while open. */
  function Act(s: System, a: Action): System
    requires |s.received| == |s.cache.fan.channels|
  {
    var fan := s.cache.fan;
    match a
    case SetStaged(b) => if s.locked then s else Reopened(s, s.cache.SetStaged(b))
    case AdmitListener => if s.locked then s else Reopened(s, s.cache.Admit()).(locked := true)
    case RegisterListener =>
      if !s.locked then s
      else s.(cache := s.cache.Listen(), locked := false, tokens := s.tokens + {|fan.channels|},
              registrations := s.registrations + [Registration(|s.posts|, s.mark)], received := s.received + [[]])
    case DropToken(i) =>
      if s.locked || i !in s.tokens then s else s.(cache := s.cache.DropToken(), tokens := s.tokens - {i})
    case DropReceiver(i) =>
      if i >= |fan.channels| then s
      else s.(cache := s.cache.(fan := fan.(channels := fan.channels[i := fan.channels[i].(open := false)])))
    case Post(v) => if s.cache.monitors == {} then s else s.(cache := s.cache.Post(v), posts := s.posts + [v])
    case Receive(i) =>
      if i >= |fan.channels| || !fan.channels[i].open || fan.channels[i].queue == [] then s
      else
        var ch := fan.channels[i];
        s.(cache := s.cache.(fan := fan.(channels := fan.channels[i := ch.(queue := ch.queue[1..])])),
           received := s.received[i := s.received[i] + [ch.queue[0]]])
  }

  /** What a listener is owed: the last post since the monitor opened, if
      there was one when it registered, and everything posted after that. */
  function Owed(posts: seq<Value>, r: Registration): seq<Value>
    requires r.at <= |posts|
  {
    if r.mark < r.at then posts[r.at - 1..] else posts[r.at..]
  }

  /** The last post since the monitor opened; nothing while it is closed. */
  function Current(s: System): Option<Value> {
    if s.cache.token.Some? && s.mark < |s.posts| then Some(s.posts[|s.posts| - 1]) else None
  }

  ghost predicate MonitorInv(s: System) {
    && (s.cache.token.Some? <==> s.cache.staged || s.cache.listeners > 0)
    && s.cache.monitors == (if s.cache.token.Some? then {s.cache.token.value} else {})
    && s.cache.listeners == |s.tokens| + (if s.locked then 1 else 0)
    && s.mark <= |s.posts|
    && s.cache.fan.latest == Current(s)
  }

  ghost predicate Served(s: System, i: Id)
    requires i < |s.cache.fan.channels| == |s.received| == |s.registrations|
    requires s.registrations[i].at <= |s.posts|
  {
    var ch := s.cache.fan.channels[i];
    && s.received[i] + ch.queue <= Owed(s.posts, s.registrations[i])
    && (ch.open ==> i in s.cache.fan.listeners && s.received[i] + ch.queue == Owed(s.posts, s.registrations[i]))
  }

  ghost predicate QueueInv(s: System) {
    && s.cache.fan.Valid()
    && |s.cache.fan.channels| == |s.received| == |s.registrations|
    && (forall i :: i in s.tokens ==> i < |s.registrations|)
    && (forall i :: 0 <= i < |s.registrations| ==> s.registrations[i].at <= |s.posts|)
    && forall i: Id :: i < |s.registrations| ==> Served(s, i)
  }

  ghost predicate Safe(s: System) {
    MonitorInv(s) && QueueInv(s)
  }

  lemma PostSafe(s: System, v: Value)
    requires Safe(s)
    ensures Safe(Act(s, Post(v)))
  {
    var s' := Act(s, Post(v));
    if s.cache.monitors != {} {
      PostValid(s.cache.fan, v);
      assert s'.cache.fan.latest == Some(s'.posts[|s'.posts| - 1]);
      forall i: Id | i < |s'.registrations| ensures Served(s', i) {
        assert Served(s, i);
        PostServed(s, v, i);
      }
    }
  }

  lemma OwedGrows(posts: seq<Value>, v: Value, r: Registration)
    requires r.at <= |posts|
    ensures Owed(posts + [v], r) == Owed(posts, r) + [v]
  {
  }

  lemma PostServed(s: System, v: Value, i: Id)
    requires QueueInv(s) && s.cache.monitors != {} && i < |s.registrations| && Served(s, i)
    ensures var s' := Act(s, Post(v));
            |s'.cache.fan.channels| == |s'.received| == |s'.registrations| == |s.registrations|
            && s'.registrations[i].at <= |s'.posts| && Served(s', i)
  {
    var s' := Act(s, Post(v));
    var ch, ch' := s.cache.fan.channels[i], s'.cache.fan.channels[i];
    OwedGrows(s.posts, v, s.registrations[i]);
    SentAt(s.cache.fan.channels, s.cache.fan.listeners, v, i);
    RetainedHas([], s.cache.fan.listeners, s.cache.fan.channels, i);
    if ch.open {
      assert ch'.queue == ch.queue + [v];
      assert s'.received[i] + ch'.queue == (s.received[i] + ch.queue) + [v];
    } else {
      assert ch' == ch;
    }
  }

  lemma RegisterServesOld(s: System, i: Id)
    requires Safe(s) && s.locked && i < |s.registrations|
    ensures var s' := Act(s, RegisterListener);
            |s'.cache.fan.channels| == |s'.received| == |s'.registrations| == |s.registrations| + 1
            && s'.registrations[i].at <= |s'.posts| && Served(s', i)
  {
    var s' := Act(s, RegisterListener);
    assert Served(s, i);
    assert s'.cache.fan.channels[i] == s.cache.fan.channels[i] && s'.received[i] == s.received[i];
    RetainedHas([], s.cache.fan.listeners, s.cache.fan.channels, i);
    assert i in s.cache.fan.listeners && s.cache.fan.channels[i].open ==> i in s'.cache.fan.listeners;
  }

  lemma RegisterServesNew(s: System)
    requires Safe(s) && s.locked
    ensures var s', n := Act(s, RegisterListener), |s.registrations|;
            |s'.cache.fan.channels| == |s'.received| == |s'.registrations| == n + 1
            && s'.registrations[n].at <= |s'.posts| && Served(s', n)
  {
    var s', n := Act(s, RegisterListener), |s.registrations|;
    assert s'.cache.fan.channels[n].queue == Owed(s.posts, s'.registrations[n]);
    assert s'.cache.fan.listeners[|s'.cache.fan.listeners| - 1] == n;
    assert s'.received[n] == [];
  }

  lemma RegisterSafe(s: System)
    requires Safe(s) && s.locked
    ensures Safe(Act(s, RegisterListener))
  {
    var s' := Act(s, RegisterListener);
    ListenValid(s.cache.fan);
    RegisterServesNew(s);
    forall i: Id | i < |s.registrations| ensures Served(s', i) {
      RegisterServesOld(s, i);
    }
    assert MonitorInv(s') by {
      assert |s.cache.fan.channels| !in s.tokens;
    }
  }

  /** A change of one channel that leaves what it got and still holds. */
  lemma OneChannelSafe(s: System, s': System, i: Id)
    requires Safe(s) && i < |s.registrations|
    requires s' == s.(cache := s'.cache, received := s'.received)
    requires s'.cache == s.cache.(fan := s.cache.fan.(channels := s'.cache.fan.channels))
    requires |s'.cache.fan.channels| == |s.cache.fan.channels| && |s'.received| == |s.received|
    requires forall k :: 0 <= k < |s.received| && k != i ==>
               s'.cache.fan.channels[k] == s.cache.fan.channels[k] && s'.received[k] == s.received[k]
    requires s'.cache.fan.channels[i].open ==> s.cache.fan.channels[i].open
    requires s'.received[i] + s'.cache.fan.channels[i].queue == s.received[i] + s.cache.fan.channels[i].queue
    ensures Safe(s')
  {
    assert MonitorInv(s');
    forall k: Id | k < |s'.registrations| ensures Served(s', k) {
      assert Served(s, k);
    }
  }

  lemma MonitorStepInv(s: System, a: Action)
    requires Safe(s) && (a.SetStaged? || a.AdmitListener? || a.DropToken?)
    ensures MonitorInv(Act(s, a))
  {
  }

  lemma OtherSafe(s: System, a: Action)
    requires Safe(s) && (a.SetStaged? || a.AdmitListener? || a.DropToken?)
    ensures Safe(Act(s, a))
  {
    MonitorStepInv(s, a);
    var s' := Act(s, a);
    assert s'.cache.fan == s.cache.fan.(latest := s'.cache.fan.latest);
    assert s' == s.(cache := s'.cache, locked := s'.locked, tokens := s'.tokens, mark := s'.mark);
    forall i: Id | i < |s'.registrations| ensures Served(s', i) {
      assert Served(s, i);
    }
  }

  lemma ActSafe(s: System, a: Action)
    requires Safe(s)
    ensures Safe(Act(s, a))
  {
    var fan := s.cache.fan;
    match a {
      case RegisterListener =>
        if s.locked {
          RegisterSafe(s);
        }
      case Post(v) => PostSafe(s, v);
      case DropReceiver(i) =>
        if i < |fan.channels| {
          OneChannelSafe(s, Act(s, a), i);
        }
      case Receive(i) =>
        if i < |fan.channels| && fan.channels[i].open && fan.channels[i].queue != [] {
          var q := fan.channels[i].queue;
          assert (s.received[i] + [q[0]]) + q[1..] == s.received[i] + q;
          OneChannelSafe(s, Act(s, a), i);
        }
      case _ => OtherSafe(s, a);
    }
  }

  ghost predicate Behaviour(run: seq<System>, actions: seq<Action>) {
    && |run| == |actions| + 1 && run[0] == START
    && forall k :: 0 <= k < |actions| ==>
         && |run[k].received| == |run[k].cache.fan.channels|
         && run[k + 1] == Act(run[k], actions[k])
  }

  lemma {:induction false} BehaviourSafe(run: seq<System>, actions: seq<Action>, k: nat)
    requires Behaviour(run, actions) && k < |run|
    ensures Safe(run[k])
  {
    if k > 0 {
      BehaviourSafe(run, actions, k - 1);
      ActSafe(run[k - 1], actions[k - 1]);
    }
  }

  /** In every interleaving: exactly one monitor is open when the signal is
      staged or has listeners, none otherwise; and the listeners counted are
      the tokens not dropped, plus the one being admitted. */
  lemma OneMonitor(run: seq<System>, actions: seq<Action>, k: nat)
    requires Behaviour(run, actions) && k < |run|
    ensures var c := run[k].cache;
            && |c.monitors| == (if c.staged || c.listeners > 0 then 1 else 0)
            && (c.token.Some? <==> c.staged || c.listeners > 0)
            && c.listeners == |run[k].tokens| + (if run[k].locked then 1 else 0)
  {
    BehaviourSafe(run, actions, k);
  }

  /** What `SetStaged` last said, `false` at first; one that comes while a
      listener is being admitted waits until it is. */
  function LastSet(run: seq<System>, actions: seq<Action>, k: nat): bool
    requires k <= |actions| && |run| == |actions| + 1
  {
    if k == 0 then false
    else if actions[k - 1].SetStaged? && !run[k - 1].locked then actions[k - 1].b
    else LastSet(run, actions, k - 1)
  }

  /** The flag is the one last set. */
  lemma {:induction false} StagedAsSet(run: seq<System>, actions: seq<Action>, k: nat)
    requires Behaviour(run, actions) && k < |run|
    ensures run[k].cache.staged == LastSet(run, actions, k)
  {
    if k > 0 {
      StagedAsSet(run, actions, k - 1);
      StagedStep(run[k - 1], actions[k - 1]);
    }
  }

  lemma StagedStep(s: System, a: Action)
    requires |s.received| == |s.cache.fan.channels|
    ensures Act(s, a).cache.staged == if a.SetStaged? && !s.locked then a.b else s.cache.staged
  {
  }

  /** How often the monitor was opened in the first `k` steps. */
  function Openings(run: seq<System>, k: nat): nat
    requires k < |run|
  {
    if k == 0 then 0
    else Openings(run, k - 1) + if run[k - 1].cache.token.None? && run[k].cache.token.Some? then 1 else 0
  }

  /** Each opening is of a new monitor: the one open is the last of as many as
      were opened. */
  lemma {:induction false} EachOpeningIsNew(run: seq<System>, actions: seq<Action>, k: nat)
    requires Behaviour(run, actions) && k < |run|
    ensures run[k].cache.minted == Openings(run, k)
    ensures run[k].cache.token.Some? ==> Openings(run, k) > 0 && run[k].cache.token.value == Openings(run, k) - 1
  {
    if k > 0 {
      EachOpeningIsNew(run, actions, k - 1);
      MintStep(run[k - 1], actions[k - 1]);
    }
  }

  lemma MintStep(s: System, a: Action)
    requires |s.received| == |s.cache.fan.channels|
    ensures var c, c' := s.cache, Act(s, a).cache;
            if c.token.None? && c'.token.Some? then c'.minted == c.minted + 1 && c'.token == Some(c.minted)
            else c'.minted == c.minted && (c'.token == c.token || c'.token.None?)
  {
  }

  /** Listener `i` registered and its receiver was not dropped since. */
  ghost predicate Listens(run: seq<System>, actions: seq<Action>, k: nat, i: Id)
    requires k <= |actions| && |run| == |actions| + 1
  {
    exists j: nat :: j < k && Registers(run, actions, j, i) && forall m :: j < m < k ==> actions[m] != DropReceiver(i)
  }

  ghost predicate Registers(run: seq<System>, actions: seq<Action>, j: nat, i: Id)
    requires j < |actions| && |run| == |actions| + 1
  {
    actions[j] == RegisterListener && run[j].locked && |run[j].cache.fan.channels| == i
  }

  /** A receiver is alive from its registration until it is dropped. */
  lemma {:induction false} AliveIff(run: seq<System>, actions: seq<Action>, k: nat, i: Id)
    requires Behaviour(run, actions) && k < |run|
    ensures Alive(run[k].cache.fan.channels, i) <==> Listens(run, actions, k, i)
  {
    if k > 0 {
      AliveIff(run, actions, k - 1, i);
      BehaviourSafe(run, actions, k - 1);
      AliveStep(run[k - 1], actions[k - 1], i);
      ListensStep(run, actions, k - 1, i);
    }
  }

  lemma AliveStep(s: System, a: Action, i: Id)
    requires Safe(s)
    ensures Alive(Act(s, a).cache.fan.channels, i) <==>
              (a == RegisterListener && s.locked && |s.cache.fan.channels| == i)
              || (Alive(s.cache.fan.channels, i) && a != DropReceiver(i))
  {
    if a.Post? && i < |s.cache.fan.channels| {
      SentAt(s.cache.fan.channels, s.cache.fan.listeners, a.v, i);
    }
  }

  lemma ListensStep(run: seq<System>, actions: seq<Action>, k: nat, i: Id)
    requires k < |actions| && |run| == |actions| + 1
    ensures Listens(run, actions, k + 1, i) <==>
              Registers(run, actions, k, i) || (Listens(run, actions, k, i) && actions[k] != DropReceiver(i))
  {
    if Listens(run, actions, k + 1, i) {
      var j: nat :| j < k + 1 && Registers(run, actions, j, i) && forall m :: j < m < k + 1 ==> actions[m] != DropReceiver(i);
    }
    if Listens(run, actions, k, i) && actions[k] != DropReceiver(i) {
      var j: nat :| j < k && Registers(run, actions, j, i) && forall m :: j < m < k ==> actions[m] != DropReceiver(i);
      assert forall m :: j < m < k + 1 ==> actions[m] != DropReceiver(i);
    }
  }

  /** The subtraction in the drop closure never saturates. */
  lemma NeverSaturates(run: seq<System>, actions: seq<Action>, k: nat)
    requires Behaviour(run, actions) && k < |actions|
    requires actions[k].DropToken? && !run[k].locked && actions[k].i in run[k].tokens
    ensures run[k].cache.listeners > 0 && run[k + 1].cache.listeners == run[k].cache.listeners - 1
  {
    BehaviourSafe(run, actions, k);
  }

  /** The cached reading is the last one delivered since the monitor opened,
      and there is none while it is closed. */
  lemma CachedIsCurrent(run: seq<System>, actions: seq<Action>, k: nat)
    requires Behaviour(run, actions) && k < |run|
    ensures run[k].cache.fan.latest == Current(run[k])
    ensures run[k].cache.monitors == {} ==> run[k].cache.fan.latest.None?
  {
    BehaviourSafe(run, actions, k);
  }

  /** Every listener whose receiver is alive has got, or has still queued, the
      reading cached when it registered, if any, and every later one: each
      once and in order. */
  lemma EveryReadingOnce(run: seq<System>, actions: seq<Action>, k: nat, i: Id)
    requires Behaviour(run, actions) && k < |run| && i < |run[k].cache.fan.channels| && run[k].cache.fan.channels[i].open
    ensures i < |run[k].registrations| && i < |run[k].received| && run[k].registrations[i].at <= |run[k].posts|
    ensures run[k].received[i] + run[k].cache.fan.channels[i].queue == Owed(run[k].posts, run[k].registrations[i])
  {
    BehaviourSafe(run, actions, k);
    assert Served(run[k], i);
  }

  /** What is owed begins with the reading that was cached at registration. */
  lemma OwedStartsWithCached(run: seq<System>, actions: seq<Action>, k: nat)
    requires Behaviour(run, actions) && k < |actions| && actions[k] == RegisterListener && run[k].locked
    ensures var n := |run[k].registrations|;
            && |run[k + 1].registrations| == n + 1 && run[k + 1].registrations[n].at <= |run[k + 1].posts|
            && Owed(run[k + 1].posts, run[k + 1].registrations[n])
               == if run[k].cache.fan.latest.Some? then [run[k].cache.fan.latest.value] else []
  {
    BehaviourSafe(run, actions, k);
    BehaviourSafe(run, actions, k + 1);
  }
}
