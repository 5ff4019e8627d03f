/** Statuses combined with `and`. A status is a node; a combined one names two
    earlier nodes. What one status reports to another is a delivery, made once
    per part in any order: each status runs its callbacks exactly once. */
module StatusTree {
  import opened Prelude
  import opened StatusCell

  type Node = nat

  datatype Kind = Leaf | And(left: Node, right: Node)

  /** `remaining` is the counter of successes still missing; `reports` the
      deliveries made so far, as (combined status, part, end of the part). */
  datatype Forest = Forest(
    kinds: seq<Kind>,
    ends: seq<Option<End>>,
    remaining: seq<nat>,
    delivered: set<(Node, bool)>,
    reports: seq<(Node, End)>)
  {
    predicate IsAnd(q: Node) {
      q < |kinds| && kinds[q].And?
    }

    predicate IsLeaf(q: Node) {
      q < |kinds| && kinds[q].Leaf?
    }

    function Part(q: Node, right: bool): Node
      requires IsAnd(q)
    {
      if right then kinds[q].right else kinds[q].left
    }

    ghost predicate Shaped() {
      && |ends| == |kinds| == |remaining|
      && forall q: Node :: IsAnd(q) ==> kinds[q].left < q && kinds[q].right < q
    }

    /** A part has ended and its callback for `q` has not run. */
    predicate Due(q: Node, right: bool)
      requires |ends| == |kinds|
      requires IsAnd(q) ==> kinds[q].left < |kinds| && kinds[q].right < |kinds|
    {
      IsAnd(q) && ends[Part(q, right)].Some? && (q, right) !in delivered
    }
  }

  predicate Fails(e: End) {
    e != Success
  }

  datatype Action =
    | NewLeaf
    | NewAnd(l: Node, r: Node)
    | FinishLeaf(x: Node, e: End)
    | Deliver(q: Node, right: bool)

  const EMPTY := Forest([], [], [], {}, [])

  /** The first end reported to a status stays. */
  function Ended(f: Forest, q: Node, e: End): (f': Forest)
    requires q < |f.ends|
    ensures f.Shaped() ==> f'.Shaped()
  {
    if f.ends[q].None? then f.(ends := f.ends[q := Some(e)]) else f
  }

  function Delivered(f: Forest, q: Node, right: bool): (f': Forest)
    requires f.Shaped() && f.Due(q, right)
    ensures f'.Shaped()
  {
    var e := f.ends[f.Part(q, right)].value;
    var g := f.(delivered := f.delivered + {(q, right)}, reports := f.reports + [(q, e)]);
    if Fails(e) then Ended(g, q, e)
    else
      var h := g.(remaining := g.remaining[q := if f.remaining[q] > 0 then f.remaining[q] - 1 else 0]);
      if f.remaining[q] == 1 then Ended(h, q, Success) else h
  }

  /** A report that is due, made at once. */
  function Reported(f: Forest, q: Node, right: bool): (f': Forest)
    requires f.Shaped()
    ensures f'.Shaped()
  {
    if f.Due(q, right) then Delivered(f, q, right) else f
  }

  function Grown(f: Forest, kind: Kind): (f': Forest)
    requires f.Shaped() && (kind.And? ==> kind.left < |f.kinds| && kind.right < |f.kinds|)
    ensures f'.Shaped()
  {
    f.(kinds := f.kinds + [kind], ends := f.ends + [None], remaining := f.remaining + [if kind.Leaf? then 0 else 2])
  }

  /** Disabled actions change nothing. A combined status registers with its
      left part, then with its right; one that has ended reports at once. */
  function Act(f: Forest, a: Action): (f': Forest)
    requires f.Shaped()
    ensures f'.Shaped()
  {
    match a
    case NewLeaf => Grown(f, Leaf)
    case NewAnd(l, r) =>
      if l < |f.kinds| && r < |f.kinds|
      then Reported(Reported(Grown(f, And(l, r)), |f.kinds|, false), |f.kinds|, true)
      else f
    case FinishLeaf(x, e) => if f.IsLeaf(x) then Ended(f, x, e) else f
    case Deliver(q, right) => Reported(f, q, right)
  }

  /** The leaves below a status; a leaf is its own. */
  function Leaves(kinds: seq<Kind>, q: Node): set<Node> {
    if q >= |kinds| then {}
    else match kinds[q]
      case Leaf => {q}
      case And(l, r) => (if l < q then Leaves(kinds, l) else {}) + (if r < q then Leaves(kinds, r) else {})
  }

  /** The first failure reported to `q`. */
  function FirstFailure(reports: seq<(Node, End)>, q: Node): (first: Option<End>)
    ensures first.Some? ==> Fails(first.value)
  {
    if reports == [] then None
    else
      var before := FirstFailure(reports[..|reports| - 1], q);
      var last := reports[|reports| - 1];
      if before.None? && last.0 == q && Fails(last.1) then Some(last.1) else before
  }

  /** How many parts have reported success to `q`: what its counter lacks. */
  function Successes(f: Forest, q: Node): nat
    requires f.Shaped() && f.IsAnd(q)
  {
    (if (q, false) in f.delivered && f.ends[f.Part(q, false)] == Some(Success) then 1 else 0)
    + (if (q, true) in f.delivered && f.ends[f.Part(q, true)] == Some(Success) then 1 else 0)
  }

  /** A combined status at every step: it has failed with the first failure
      reported to it, or succeeded with both parts, or is pending. */
  ghost predicate Follows(f: Forest, q: Node)
    requires f.Shaped() && f.IsAnd(q)
  {
    && f.remaining[q] + Successes(f, q) == 2
    && (forall right :: (q, right) in f.delivered ==> f.ends[f.Part(q, right)].Some?)
    && (FirstFailure(f.reports, q).Some? <==>
          exists right :: (q, right) in f.delivered && Fails(f.ends[f.Part(q, right)].GetOr(Success)))
    && (FirstFailure(f.reports, q).Some? ==>
          exists right :: (q, right) in f.delivered && f.ends[f.Part(q, right)] == FirstFailure(f.reports, q))
    && f.ends[q] == if FirstFailure(f.reports, q).Some? then FirstFailure(f.reports, q)
                    else if Successes(f, q) == 2 then Some(Success) else None
  }

  ghost predicate Safe(f: Forest) {
    && f.Shaped()
    && (forall q: Node, right :: (q, right) in f.delivered ==> f.IsAnd(q))
    && (forall k :: 0 <= k < |f.reports| ==> f.IsAnd(f.reports[k].0))
    && forall q: Node :: f.IsAnd(q) ==> Follows(f, q)
  }

  // ---- Each action keeps every combined status in step ----

  lemma {:induction false} NoReports(reports: seq<(Node, End)>, q: Node)
    requires forall k :: 0 <= k < |reports| ==> reports[k].0 != q
    ensures FirstFailure(reports, q).None?
    decreases |reports|
  {
    if reports != [] {
      NoReports(reports[..|reports| - 1], q);
    }
  }

  lemma FirstFailureSnoc(reports: seq<(Node, End)>, p: Node, e: End, q: Node)
    ensures FirstFailure(reports + [(p, e)], q) ==
            if FirstFailure(reports, q).None? && p == q && Fails(e) then Some(e) else FirstFailure(reports, q)
  {
    assert (reports + [(p, e)])[..|reports|] == reports;
  }

  lemma GrowSafe(f: Forest, kind: Kind)
    requires Safe(f) && (kind.And? ==> kind.left < |f.kinds| && kind.right < |f.kinds|)
    ensures Safe(Grown(f, kind))
  {
    var f' := Grown(f, kind);
    forall q: Node | f'.IsAnd(q) ensures Follows(f', q) {
      if q < |f.kinds| {
        assert f.IsAnd(q) && Follows(f, q);
      } else {
        NoReports(f.reports, q);
      }
    }
  }

  lemma EndedLeafSafe(f: Forest, x: Node, e: End)
    requires Safe(f) && f.IsLeaf(x)
    ensures Safe(Ended(f, x, e))
  {
    var f' := Ended(f, x, e);
    forall q: Node | f'.IsAnd(q) ensures Follows(f', q) {
      assert f.IsAnd(q) && Follows(f, q);
    }
  }

  lemma FollowsStill(f: Forest, f': Forest, q: Node)
    requires f.Shaped() && f'.Shaped() && f.IsAnd(q) && f'.kinds == f.kinds && Follows(f, q)
    requires f'.ends[q] == f.ends[q] && f'.remaining[q] == f.remaining[q]
    requires FirstFailure(f'.reports, q) == FirstFailure(f.reports, q)
    requires forall side :: (q, side) in f'.delivered <==> (q, side) in f.delivered
    requires forall side :: (q, side) in f.delivered ==> f'.ends[f.Part(q, side)] == f.ends[f.Part(q, side)]
    ensures Follows(f', q)
  {
  }

  /** Another status's delivery is none of `q`'s business; and an end that is
      set on `p` for the first time was not delivered to `q` before. */
  lemma DeliveredOther(f: Forest, p: Node, right: bool, q: Node)
    requires Safe(f) && f.Due(p, right) && f.IsAnd(q) && q != p
    ensures Delivered(f, p, right).Shaped() && Follows(Delivered(f, p, right), q)
  {
    var f' := Delivered(f, p, right);
    FirstFailureSnoc(f.reports, p, f.ends[f.Part(p, right)].value, q);
    assert Follows(f, q);
    forall side | (q, side) in f.delivered ensures f'.ends[f.Part(q, side)] == f.ends[f.Part(q, side)] {
    }
    FollowsStill(f, f', q);
  }

  lemma DeliveredOwn(f: Forest, q: Node, right: bool)
    requires Safe(f) && f.Due(q, right)
    ensures Delivered(f, q, right).Shaped() && Follows(Delivered(f, q, right), q)
  {
    var f' := Delivered(f, q, right);
    var e := f.ends[f.Part(q, right)].value;
    FirstFailureSnoc(f.reports, q, e, q);
    assert Follows(f, q);
    assert f'.Part(q, true) < q && f'.Part(q, false) < q;
    assert (q, right) in f'.delivered && f'.ends[f'.Part(q, right)] == Some(e);
    assert forall side :: side != right ==> ((q, side) in f'.delivered <==> (q, side) in f.delivered);
    forall side | (q, side) in f.delivered ensures (q, side) in f'.delivered && f'.ends[f'.Part(q, side)] == f.ends[f.Part(q, side)] {
    }
  }

  lemma DeliverSafe(f: Forest, q: Node, right: bool)
    requires Safe(f) && f.Due(q, right)
    ensures Safe(Delivered(f, q, right))
  {
    var f' := Delivered(f, q, right);
    forall p: Node | f'.IsAnd(p) ensures f'.Shaped() && Follows(f', p) {
      if p == q {
        DeliveredOwn(f, q, right);
      } else {
        DeliveredOther(f, q, right, p);
      }
    }
  }

  lemma ReportedSafe(f: Forest, q: Node, right: bool)
    requires Safe(f)
    ensures Safe(Reported(f, q, right))
  {
    if f.Due(q, right) {
      DeliverSafe(f, q, right);
    }
  }

  lemma ActSafe(f: Forest, a: Action)
    requires Safe(f)
    ensures Safe(Act(f, a))
  {
    match a {
      case NewLeaf => GrowSafe(f, Leaf);
      case NewAnd(l, r) =>
        if l < |f.kinds| && r < |f.kinds| {
          var g := Grown(f, And(l, r));
          GrowSafe(f, And(l, r));
          ReportedSafe(g, |f.kinds|, false);
          ReportedSafe(Reported(g, |f.kinds|, false), |f.kinds|, true);
        }
      case FinishLeaf(x, e) =>
        if f.IsLeaf(x) {
          EndedLeafSafe(f, x, e);
        }
      case Deliver(q, right) => ReportedSafe(f, q, right);
    }
  }

  /** The states of a run that starts with no status at all. */
  ghost predicate Behaviour(run: seq<Forest>, actions: seq<Action>) {
    && |run| == |actions| + 1 && run[0] == EMPTY
    && forall i :: 0 <= i < |actions| ==> run[i].Shaped() && run[i + 1] == Act(run[i], actions[i])
  }

  lemma {:induction false} BehaviourSafe(run: seq<Forest>, actions: seq<Action>, i: nat)
    requires Behaviour(run, actions) && i < |run|
    ensures Safe(run[i])
  {
    if i > 0 {
      BehaviourSafe(run, actions, i - 1);
      ActSafe(run[i - 1], actions[i - 1]);
    }
  }

  /** No callback is due. */
  ghost predicate Quiescent(f: Forest)
    requires f.Shaped()
  {
    forall q: Node, right :: !f.Due(q, right)
  }

  ghost predicate AllSucceeded(f: Forest, xs: set<Node>)
    requires |f.ends| == |f.kinds|
  {
    forall x: Node :: x in xs && x < |f.ends| ==> f.ends[x] == Some(Success)
  }

  ghost predicate SomeFailed(f: Forest, xs: set<Node>)
    requires |f.ends| == |f.kinds|
  {
    exists x: Node :: x in xs && x < |f.ends| && Fails(f.ends[x].GetOr(Success))
  }

  /** At every step a success means that all leaves succeeded, and an error is
      some leaf's error. */
  lemma {:induction false} EndComesFromLeaves(f: Forest, q: Node)
    requires Safe(f) && q < |f.kinds|
    ensures f.ends[q] == Some(Success) ==> AllSucceeded(f, Leaves(f.kinds, q))
    ensures f.ends[q].Some? && Fails(f.ends[q].value) ==>
              exists x: Node :: x in Leaves(f.kinds, q) && f.IsLeaf(x) && f.ends[x] == f.ends[q]
  {
    if f.IsAnd(q) {
      var l, r := f.kinds[q].left, f.kinds[q].right;
      EndComesFromLeaves(f, l);
      EndComesFromLeaves(f, r);
      assert Follows(f, q);
      assert f.Part(q, false) == l && f.Part(q, true) == r;
      assert f.ends[q] == Some(Success) ==> Successes(f, q) == 2 && f.ends[l] == Some(Success) && f.ends[r] == Some(Success);
      assert Leaves(f.kinds, q) == Leaves(f.kinds, l) + Leaves(f.kinds, r);
      if f.ends[q].Some? && Fails(f.ends[q].value) {
        var right :| (q, right) in f.delivered && f.ends[f.Part(q, right)] == f.ends[q];
      }
    }
  }

  /** Once no callback is due: a status has succeeded exactly when all its
      leaves have, and failed exactly when one of them has - also when leaves
      are shared, or had ended before the statuses were combined. */
  lemma {:induction false} QuiescentEnds(f: Forest, q: Node)
    requires Safe(f) && Quiescent(f) && q < |f.kinds|
    ensures f.ends[q] == Some(Success) <==> AllSucceeded(f, Leaves(f.kinds, q))
    ensures (f.ends[q].Some? && Fails(f.ends[q].value)) <==> SomeFailed(f, Leaves(f.kinds, q))
  {
    if f.IsAnd(q) {
      var l, r := f.kinds[q].left, f.kinds[q].right;
      QuiescentEnds(f, l);
      QuiescentEnds(f, r);
      QuiescentParts(f, q);
    }
  }

  lemma DeliveredParts(f: Forest, q: Node, right: bool)
    requires f.Shaped() && Quiescent(f) && f.IsAnd(q)
    ensures f.ends[f.Part(q, right)].Some? ==> (q, right) in f.delivered
  {
    assert !f.Due(q, right);
  }

  lemma QuiescentParts(f: Forest, q: Node)
    requires Safe(f) && Quiescent(f) && f.IsAnd(q)
    ensures f.ends[q] == Some(Success) <==>
              f.ends[f.Part(q, false)] == Some(Success) && f.ends[f.Part(q, true)] == Some(Success)
    ensures (f.ends[q].Some? && Fails(f.ends[q].value)) <==>
              Fails(f.ends[f.Part(q, false)].GetOr(Success)) || Fails(f.ends[f.Part(q, true)].GetOr(Success))
  {
    assert Follows(f, q);
    DeliveredParts(f, q, false);
    DeliveredParts(f, q, true);
  }

  // ---- One failure at a time: the first leaf to fail decides ----

  /** Everything due is delivered, in some order, before the next status ends. */
  function Drained(f: Forest, order: seq<(Node, bool)>): (f': Forest)
    requires f.Shaped()
    ensures f'.Shaped()
    decreases |order|
  {
    if order == [] then f
    else
      var last := order[|order| - 1];
      Act(Drained(f, order[..|order| - 1]), Deliver(last.0, last.1))
  }

  lemma {:induction false} DrainedCons(f: Forest, d: (Node, bool), order: seq<(Node, bool)>)
    requires f.Shaped()
    ensures Drained(f, []) == f && Drained(f, [d] + order) == Drained(Act(f, Deliver(d.0, d.1)), order)
    decreases |order|
  {
    var all := [d] + order;
    if order == [] {
      assert all[..0] == [] && all == [d];
    } else {
      DrainedCons(f, d, order[..|order| - 1]);
      assert all[..|all| - 1] == [d] + order[..|order| - 1] && all[|all| - 1] == order[|order| - 1];
    }
  }

  /** The deliveries there may still be. */
  function Undelivered(f: Forest): set<(Node, bool)> {
    (set q: Node, right: bool | q < |f.kinds| :: (q, right)) - f.delivered
  }

  /** Whatever has ended, its reports come to an end: there is an order to
      deliver what is due, and what that makes due, till nothing is. */
  lemma {:induction false} ReportsComeToRest(f: Forest) returns (order: seq<(Node, bool)>)
    requires f.Shaped()
    ensures Quiescent(Drained(f, order))
    decreases |Undelivered(f)|
  {
    order := [];
    if q: Node, right: bool :| f.Due(q, right) {
      var f' := Act(f, Deliver(q, right));
      assert f'.delivered == f.delivered + {(q, right)} && f'.kinds == f.kinds;
      assert Undelivered(f') == Undelivered(f) - {(q, right)} && (q, right) in Undelivered(f);
      var rest := ReportsComeToRest(f');
      DrainedCons(f, (q, right), rest);
      order := [(q, right)] + rest;
    }
  }

  ghost predicate SettledStep(f: Forest, a: Action, order: seq<(Node, bool)>, f': Forest) {
    f.Shaped() && Quiescent(f) && f' == Drained(Act(f, a), order) && Quiescent(f')
  }

  /** Since the quiescent `f` only statuses with end `e` have ended. */
  ghost predicate OnlyEnded(f: Forest, e: End, f': Forest) {
    && f.Shaped() && f'.Shaped() && f'.kinds == f.kinds && f.delivered <= f'.delivered
    && forall q: Node :: q < |f.ends| ==> f'.ends[q] == f.ends[q] || (f.ends[q].None? && f'.ends[q] == Some(e))
  }

  lemma DeliveryKeepsOnlyEnded(f: Forest, e: End, g: Forest, q: Node, right: bool)
    requires OnlyEnded(f, e, g) && Quiescent(f) && g.Due(q, right)
    ensures OnlyEnded(f, e, Delivered(g, q, right))
  {
    assert !f.Due(q, right);
    assert g.ends[g.Part(q, right)] == Some(e);
  }

  lemma {:induction false} DrainKeepsOnlyEnded(f: Forest, e: End, g: Forest, order: seq<(Node, bool)>)
    requires OnlyEnded(f, e, g) && Quiescent(f)
    ensures OnlyEnded(f, e, Drained(g, order))
    decreases |order|
  {
    if order != [] {
      var before := order[..|order| - 1];
      DrainKeepsOnlyEnded(f, e, g, before);
      var last := order[|order| - 1];
      if Drained(g, before).Due(last.0, last.1) {
        DeliveryKeepsOnlyEnded(f, e, Drained(g, before), last.0, last.1);
      }
    }
  }

  lemma {:induction false} DrainedSafe(f: Forest, order: seq<(Node, bool)>)
    requires Safe(f)
    ensures Safe(Drained(f, order))
    decreases |order|
  {
    if order != [] {
      DrainedSafe(f, order[..|order| - 1]);
      var last := order[|order| - 1];
      ActSafe(Drained(f, order[..|order| - 1]), Deliver(last.0, last.1));
    }
  }

  lemma {:induction false} DrainedKeepsKinds(f: Forest, order: seq<(Node, bool)>)
    requires f.Shaped()
    ensures Drained(f, order).kinds == f.kinds
    ensures forall q: Node :: q < |f.ends| && f.ends[q].Some? ==> Drained(f, order).ends[q] == f.ends[q]
    decreases |order|
  {
    if order != [] {
      DrainedKeepsKinds(f, order[..|order| - 1]);
    }
  }

  lemma {:induction false} LeavesOfPrefix(kinds: seq<Kind>, more: seq<Kind>, q: Node)
    requires q < |kinds|
    ensures Leaves(kinds + more, q) == Leaves(kinds, q)
  {
    assert (kinds + more)[q] == kinds[q];
    if kinds[q].And? {
      if kinds[q].left < q {
        LeavesOfPrefix(kinds, more, kinds[q].left);
      }
      if kinds[q].right < q {
        LeavesOfPrefix(kinds, more, kinds[q].right);
      }
    }
  }

  /** When a leaf `x` of a status `q` none of whose leaves has failed fails,
      `q` ends with that very failure. */
  lemma FirstFailureWins(f: Forest, x: Node, e: End, order: seq<(Node, bool)>, f': Forest, q: Node)
    requires Safe(f) && SettledStep(f, FinishLeaf(x, e), order, f')
    requires q < |f.kinds| && x in Leaves(f.kinds, q) && f.IsLeaf(x)
    requires !SomeFailed(f, Leaves(f.kinds, q)) && f.ends[x].None? && Fails(e)
    ensures f'.kinds == f.kinds && f'.ends[q] == Some(e)
  {
    var g := Act(f, FinishLeaf(x, e));
    ActSafe(f, FinishLeaf(x, e));
    DrainedSafe(g, order);
    DrainKeepsOnlyEnded(f, e, g, order);
    DrainedKeepsKinds(g, order);
    assert f'.ends[x] == Some(e);
    assert SomeFailed(f', Leaves(f'.kinds, q));
    QuiescentEnds(f', q);
    QuiescentEnds(f, q);
  }

  /** A whole run of settled steps from nothing. */
  ghost predicate SettledRun(run: seq<Forest>, actions: seq<Action>, orders: seq<seq<(Node, bool)>>) {
    && |run| == |actions| + 1 == |orders| + 1 && run[0] == EMPTY
    && forall i :: 0 <= i < |actions| ==> SettledStep(run[i], actions[i], orders[i], run[i + 1])
  }

  lemma {:induction false} SettledRunSafe(run: seq<Forest>, actions: seq<Action>, orders: seq<seq<(Node, bool)>>, i: nat)
    requires SettledRun(run, actions, orders) && i < |run|
    ensures Safe(run[i])
  {
    if i > 0 {
      SettledRunSafe(run, actions, orders, i - 1);
      assert SettledStep(run[i - 1], actions[i - 1], orders[i - 1], run[i]);
      ActSafe(run[i - 1], actions[i - 1]);
      DrainedSafe(Act(run[i - 1], actions[i - 1]), orders[i - 1]);
    }
  }

  lemma ActKeepsEnd(f: Forest, a: Action, q: Node)
    requires f.Shaped() && q < |f.ends| && f.ends[q].Some?
    ensures q < |Act(f, a).ends| && Act(f, a).ends[q] == f.ends[q]
  {
  }

  lemma {:induction false} EndsStay(run: seq<Forest>, actions: seq<Action>, orders: seq<seq<(Node, bool)>>, i: nat, j: nat, q: Node)
    requires SettledRun(run, actions, orders) && i <= j < |run|
    requires run[i].Shaped() && q < |run[i].ends| && run[i].ends[q].Some?
    ensures run[j].Shaped() && q < |run[j].ends| && run[j].ends[q] == run[i].ends[q]
    decreases j
  {
    if i < j {
      EndsStay(run, actions, orders, i, j - 1, q);
      assert SettledStep(run[j - 1], actions[j - 1], orders[j - 1], run[j]);
      ActKeepsEnd(run[j - 1], actions[j - 1], q);
      DrainedKeepsKinds(Act(run[j - 1], actions[j - 1]), orders[j - 1]);
    }
  }

  /** Over any run in which each report is delivered before the next status
      ends: a combined status ends, for good, with the failure of the first of
      its leaves to fail. */
  lemma FirstLeafToFailDecides(run: seq<Forest>, actions: seq<Action>, orders: seq<seq<(Node, bool)>>,
                               k: nat, m: nat, x: Node, e: End, q: Node)
    requires SettledRun(run, actions, orders) && k < m < |run|
    requires run[k].Shaped() && q < |run[k].kinds| && x in Leaves(run[k].kinds, q) && run[k].IsLeaf(x)
    requires !SomeFailed(run[k], Leaves(run[k].kinds, q))
    requires actions[k] == FinishLeaf(x, e) && run[k].ends[x].None? && Fails(e)
    ensures run[m].Shaped() && q < |run[m].ends| && run[m].ends[q] == Some(e)
  {
    SettledRunSafe(run, actions, orders, k);
    assert SettledStep(run[k], actions[k], orders[k], run[k + 1]);
    FirstFailureWins(run[k], x, e, orders[k], run[k + 1], q);
    EndsStay(run, actions, orders, k + 1, m, q);
  }

  /** Combining statuses of which one has failed: the left one's failure, if
      it has, and else the right one's. */
  function Earlier(l: Option<End>, r: Option<End>): Option<End> {
    if Fails(l.GetOr(Success)) then l
    else if Fails(r.GetOr(Success)) then r
    else if l == Some(Success) && r == Some(Success) then l
    else None
  }

  lemma CombinedEnd(f: Forest, l: Node, r: Node)
    requires Safe(f) && l < |f.kinds| && r < |f.kinds|
    ensures var f', q := Act(f, NewAnd(l, r)), |f.kinds|;
            && f'.kinds == f.kinds + [And(l, r)] && f'.ends[..q] == f.ends
            && f'.ends[q] == Earlier(f.ends[l], f.ends[r])
  {
    var q := |f.kinds|;
    var g := Grown(f, And(l, r));
    assert (q, false) !in f.delivered && (q, true) !in f.delivered by {
      assert !f.IsAnd(q);
    }
    var g' := Reported(g, q, false);
    var f' := Reported(g', q, true);
    assert f'.ends[..q] == g'.ends[..q] == g.ends[..q] == f.ends;
  }

  /** Over such a run, a status combined when one of its leaves has failed has
      its left part's failure, if that has failed, and else its right part's,
      for good. */
  lemma EarlierFailureDecides(run: seq<Forest>, actions: seq<Action>, orders: seq<seq<(Node, bool)>>,
                              k: nat, m: nat, l: Node, r: Node)
    requires SettledRun(run, actions, orders) && k < m < |run|
    requires run[k].Shaped() && actions[k] == NewAnd(l, r) && l < |run[k].kinds| && r < |run[k].kinds|
    requires SomeFailed(run[k], Leaves(run[k].kinds, l) + Leaves(run[k].kinds, r))
    ensures var q := |run[k].kinds|;
            && run[m].Shaped() && q < |run[m].ends|
            && run[m].ends[q] == (if Fails(run[k].ends[l].GetOr(Success)) then run[k].ends[l] else run[k].ends[r])
            && Fails(run[m].ends[q].GetOr(Success))
  {
    var f := run[k];
    SettledRunSafe(run, actions, orders, k);
    assert SettledStep(f, actions[k], orders[k], run[k + 1]);
    QuiescentEnds(f, l);
    QuiescentEnds(f, r);
    CombinedEnd(f, l, r);
    DrainedKeepsKinds(Act(f, actions[k]), orders[k]);
    EndsStay(run, actions, orders, k + 1, m, |f.kinds|);
  }

  // ---- Membership ----

  /** `contains`: is `x` one of the parts of `q`, at any depth? */
  predicate Contains(f: Forest, q: Node, x: Node)
    requires f.Shaped()
    decreases q
  {
    f.IsAnd(q) &&
    var l, r := f.kinds[q].left, f.kinds[q].right;
    l == x || Contains(f, l, x) || r == x || Contains(f, r, x)
  }

  /** A downward path of at least one step. */
  ghost predicate Descends(f: Forest, path: seq<Node>, q: Node, x: Node) {
    && |path| >= 2 && path[0] == q && path[|path| - 1] == x
    && forall i :: 0 <= i < |path| - 1 ==>
         f.IsAnd(path[i]) && (path[i + 1] == f.kinds[path[i]].left || path[i + 1] == f.kinds[path[i]].right)
  }

  lemma {:induction false} PathOf(f: Forest, q: Node, x: Node) returns (path: seq<Node>)
    requires f.Shaped() && Contains(f, q, x)
    ensures Descends(f, path, q, x)
  {
    var l, r := f.kinds[q].left, f.kinds[q].right;
    if l == x || r == x {
      path := [q, x];
    } else {
      var part := if Contains(f, l, x) then l else r;
      path := PathOf(f, part, x);
      path := [q] + path;
    }
  }

  lemma {:induction false} ContainedBy(f: Forest, path: seq<Node>, q: Node, x: Node)
    requires f.Shaped() && Descends(f, path, q, x)
    ensures Contains(f, q, x)
    decreases |path|
  {
    if |path| > 2 {
      var rest := path[1..];
      assert Descends(f, rest, path[1], x) by {
        assert forall i :: 0 <= i < |rest| ==> rest[i] == path[i + 1];
      }
      ContainedBy(f, rest, path[1], x);
    }
  }

  /** `contains` is exactly strict reachability. */
  lemma ContainsIsReachability(f: Forest, q: Node, x: Node)
    requires f.Shaped()
    ensures Contains(f, q, x) <==> exists path :: Descends(f, path, q, x)
  {
    if Contains(f, q, x) {
      var path := PathOf(f, q, x);
    }
    if path :| Descends(f, path, q, x) {
      ContainedBy(f, path, q, x);
    }
  }
}
