/** The action channel behind `RxAction`: a hot subject with no replay. Executing
    the action hands the parameter to every listener registered at that moment,
    in registration order; a listener registered later never sees it.

    Listeners are kept as an ordered list of (id, handler) pairs. The handler is an
    opaque payload `H` that this module never looks at: what a listener does with
    a delivery is decided by whoever interprets the handler (the store does, for
    listeners that call `updateState`). Deliveries are recorded, in the order they
    happen, in a trace of (listener id, parameter) pairs; the log of one listener
    is that trace filtered down to its id. */
module Actions {
  import opened Channels

  datatype Listener<H> = Listener(id: SubscriptionId, handler: H)

  /** One call of one listener with one parameter. */
  datatype Delivery<P> = Delivery(listener: SubscriptionId, parameter: P)

  /** `listeners` in registration order, the id the next subscribe will hand out,
      and every delivery made so far, oldest first. */
  datatype Action<P, H> = Action(listeners: seq<Listener<H>>, nextId: SubscriptionId, trace: seq<Delivery<P>>)

  /** The ids of a listener list, in the same order. */
  function Ids<H>(ls: seq<Listener<H>>): (r: seq<SubscriptionId>)
    ensures |r| == |ls|
    ensures forall i :: 0 <= i < |ls| ==> r[i] == ls[i].id
  {
    if |ls| == 0 then [] else [ls[0].id] + Ids(ls[1..])
  }

  ghost predicate Distinct(ids: seq<SubscriptionId>) {
    forall i, j :: 0 <= i < j < |ids| ==> ids[i] != ids[j]
  }

  /** The invariant of every action that can be reached from `Create`: no id is
      listed twice, and every id listed or delivered to was already handed out. */
  ghost predicate Valid<P, H>(a: Action<P, H>) {
    && Distinct(Ids(a.listeners))
    && (forall k :: k in Ids(a.listeners) ==> k < a.nextId)
    && (forall i :: 0 <= i < |a.trace| ==> a.trace[i].listener < a.nextId)
  }

  /** The parameters delivered to listener `id`, in delivery order. */
  function Log<P>(trace: seq<Delivery<P>>, id: SubscriptionId): seq<P> {
    if |trace| == 0 then []
    else (if trace[0].listener == id then [trace[0].parameter] else []) + Log(trace[1..], id)
  }

  /** One delivery of `p` to each listener of `ls`, in list order. */
  function Fanout<P, H>(ls: seq<Listener<H>>, p: P): (r: seq<Delivery<P>>)
    ensures |r| == |ls|
    ensures forall i :: 0 <= i < |ls| ==> r[i] == Delivery(ls[i].id, p)
  {
    if |ls| == 0 then [] else [Delivery(ls[0].id, p)] + Fanout(ls[1..], p)
  }

  /** A freshly constructed action with its subject in place: no listener, nothing
      delivered yet. */
  function Create<P, H>(): (a: Action<P, H>)
    ensures Valid(a)
    ensures a.listeners == [] && a.trace == []
  {
    Action([], 0, [])
  }

  /** `execute(p)`: `p` goes to every listener registered now, one after the other
      in registration order; the listener list itself is left alone. */
  function Execute<P, H>(a: Action<P, H>, p: P): (r: Action<P, H>)
    ensures r.listeners == a.listeners && r.nextId == a.nextId
    ensures |r.trace| == |a.trace| + |a.listeners|
    ensures r.trace[..|a.trace|] == a.trace
    ensures forall i :: 0 <= i < |a.listeners| ==> r.trace[|a.trace| + i] == Delivery(a.listeners[i].id, p)
    ensures a.listeners == [] ==> r == a
    ensures Valid(a) ==> Valid(r)
  {
    assert forall i :: 0 <= i < |a.listeners| ==> Ids(a.listeners)[i] in Ids(a.listeners);
    a.(trace := a.trace + Fanout(a.listeners, p))
  }

  /** `subscribe(h)`: `h` is appended after every existing listener, under an id
      no listener has had before; earlier deliveries are not replayed to it. */
  function Subscribe<P, H>(a: Action<P, H>, handler: H): (r: Subscribed<Action<P, H>>)
    ensures r.channel.listeners == a.listeners + [Listener(r.id, handler)]
    ensures r.channel.trace == a.trace
    ensures r.id == a.nextId && r.channel.nextId == a.nextId + 1
    ensures Valid(a) ==> Valid(r.channel) && r.id !in Ids(a.listeners)
  {
    var l := Listener(a.nextId, handler);
    assert Ids(a.listeners + [l]) == Ids(a.listeners) + [l.id];
    DistinctAppend(Ids(a.listeners), l.id);
    Subscribed(a.(listeners := a.listeners + [l], nextId := a.nextId + 1), a.nextId)
  }

  /** `ls` with every listener whose id is `id` removed, the rest in their order. */
  function Without<H>(ls: seq<Listener<H>>, id: SubscriptionId): (r: seq<Listener<H>>)
    ensures |r| <= |ls|
    ensures forall k :: k in Ids(r) <==> k in Ids(ls) && k != id
  {
    if |ls| == 0 then []
    else
      var rest := Without(ls[1..], id);
      assert forall k :: k in Ids(ls) <==> k == ls[0].id || k in Ids(ls[1..]);
      if ls[0].id == id then rest
      else
        assert forall k :: k in Ids([ls[0]] + rest) <==> k == ls[0].id || k in Ids(rest);
        [ls[0]] + rest
  }

  /** Cancelling the subscription `id` (the `Subscription` that `subscribe`
      returned): the listener is taken off the list, nothing else changes. */
  function Unsubscribe<P, H>(a: Action<P, H>, id: SubscriptionId): (r: Action<P, H>)
    ensures id !in Ids(r.listeners)
    ensures forall k :: k != id ==> (k in Ids(r.listeners) <==> k in Ids(a.listeners))
    ensures r.trace == a.trace && r.nextId == a.nextId
    ensures id !in Ids(a.listeners) ==> r == a
    ensures Valid(a) ==> forall i :: 0 <= i < |a.listeners| && a.listeners[i].id == id ==>
      r.listeners == a.listeners[..i] + a.listeners[i + 1..]
    ensures Valid(a) ==> Valid(r)
  {
    WithoutDistinct(a.listeners, id);
    WithoutShape(a.listeners, id);
    a.(listeners := Without(a.listeners, id))
  }

  /** Registers each handler of `hs` in turn: the shape of a wiring callback that
      subscribes handlers to a fresh action. */
  function SubscribeAll<P, H>(a: Action<P, H>, hs: seq<H>): (r: Action<P, H>)
    ensures r.trace == a.trace
    ensures r.nextId == a.nextId + |hs|
    ensures |r.listeners| == |a.listeners| + |hs|
    ensures r.listeners[..|a.listeners|] == a.listeners
    ensures forall i :: 0 <= i < |hs| ==> r.listeners[|a.listeners| + i] == Listener(a.nextId + i, hs[i])
    decreases |hs|
  {
    if |hs| == 0 then a
    else
      var s := Subscribe(a, hs[0]);
      var r := SubscribeAll(s.channel, hs[1..]);
      assert forall i :: 1 <= i < |hs| ==> hs[1..][i - 1] == hs[i];
      r
  }

  /** Wiring any number of handlers keeps the channel consistent. */
  lemma {:induction false} SubscribeAllValid<P, H>(a: Action<P, H>, hs: seq<H>)
    requires Valid(a)
    ensures Valid(SubscribeAll(a, hs))
    decreases |hs|
  {
    if |hs| > 0 {
      SubscribeAllValid(Subscribe(a, hs[0]).channel, hs[1..]);
    }
  }

  // ---------------------------------------------------------------------------
  // Per-listener logs

  lemma {:induction false} LogAppend<P>(t1: seq<Delivery<P>>, t2: seq<Delivery<P>>, id: SubscriptionId)
    ensures Log(t1 + t2, id) == Log(t1, id) + Log(t2, id)
  {
    if |t1| == 0 {
      assert t1 + t2 == t2;
    } else {
      var t := t1 + t2;
      var head := if t1[0].listener == id then [t1[0].parameter] else [];
      assert t[0] == t1[0];
      assert t[1..] == t1[1..] + t2;
      LogAppend(t1[1..], t2, id);
      assert Log(t, id) == head + Log(t[1..], id);
      assert Log(t1, id) == head + Log(t1[1..], id);
    }
  }

  /** Nothing has been delivered to an id that had not been handed out. */
  lemma {:induction false} LogOfUnusedId<P>(trace: seq<Delivery<P>>, bound: SubscriptionId, id: SubscriptionId)
    requires forall i :: 0 <= i < |trace| ==> trace[i].listener < bound
    requires bound <= id
    ensures Log(trace, id) == []
  {
    if |trace| > 0 {
      LogOfUnusedId(trace[1..], bound, id);
    }
  }

  lemma DistinctAppend(ids: seq<SubscriptionId>, x: SubscriptionId)
    ensures Distinct(ids) && x !in ids ==> Distinct(ids + [x])
  {
    if Distinct(ids) && x !in ids {
      forall i, j | 0 <= i < j < |ids + [x]| ensures (ids + [x])[i] != (ids + [x])[j] {
        if j == |ids| {
          assert (ids + [x])[i] == ids[i];
        }
      }
    }
  }

  lemma DistinctTail(ids: seq<SubscriptionId>)
    requires |ids| > 0 && Distinct(ids)
    ensures Distinct(ids[1..]) && ids[0] !in ids[1..]
  {
  }

  /** When every listener is listed once, a fan-out gives each listed id exactly
      one delivery and every other id none. */
  lemma {:induction false} LogFanout<P, H>(ls: seq<Listener<H>>, p: P, id: SubscriptionId)
    requires Distinct(Ids(ls))
    ensures Log(Fanout(ls, p), id) == if id in Ids(ls) then [p] else []
  {
    if |ls| > 0 {
      var f := Fanout(ls, p);
      assert f[1..] == Fanout(ls[1..], p);
      assert Ids(ls)[1..] == Ids(ls[1..]);
      DistinctTail(Ids(ls));
      LogFanout(ls[1..], p, id);
      assert id in Ids(ls) <==> id == ls[0].id || id in Ids(ls[1..]);
    }
  }

  lemma {:induction false} WithoutDistinct<H>(ls: seq<Listener<H>>, id: SubscriptionId)
    ensures Distinct(Ids(ls)) ==> Distinct(Ids(Without(ls, id)))
  {
    if |ls| > 0 && Distinct(Ids(ls)) {
      assert Ids(ls)[1..] == Ids(ls[1..]);
      DistinctTail(Ids(ls));
      WithoutDistinct(ls[1..], id);
      var rest := Without(ls[1..], id);
      if ls[0].id != id {
        var ids := Ids([ls[0]] + rest);
        assert ids[1..] == Ids(rest);
        forall i, j | 0 <= i < j < |ids|
          ensures ids[i] != ids[j]
        {
          if i == 0 {
            assert ids[j] in Ids(rest);
          }
        }
      }
    }
  }

  lemma {:induction false} WithoutAbsent<H>(ls: seq<Listener<H>>, id: SubscriptionId)
    requires id !in Ids(ls)
    ensures Without(ls, id) == ls
  {
    if |ls| > 0 {
      assert Ids(ls)[1..] == Ids(ls[1..]);
      WithoutAbsent(ls[1..], id);
      assert [ls[0]] + ls[1..] == ls;
    }
  }

  /** Removing an id that is not listed changes nothing; removing one that is
      listed once takes out exactly that entry and keeps the others in order. */
  lemma WithoutShape<H>(ls: seq<Listener<H>>, id: SubscriptionId)
    ensures id !in Ids(ls) ==> Without(ls, id) == ls
    ensures Distinct(Ids(ls)) ==> forall i :: 0 <= i < |ls| && ls[i].id == id ==>
      Without(ls, id) == ls[..i] + ls[i + 1..]
  {
    if id !in Ids(ls) {
      WithoutAbsent(ls, id);
    }
    if Distinct(Ids(ls)) {
      forall i | 0 <= i < |ls| && ls[i].id == id
        ensures Without(ls, id) == ls[..i] + ls[i + 1..]
      {
        WithoutAt(ls, id, i);
      }
    }
  }

  lemma WithoutAt<H>(ls: seq<Listener<H>>, id: SubscriptionId, i: nat)
    requires Distinct(Ids(ls))
    requires i < |ls| && ls[i].id == id
    ensures Without(ls, id) == ls[..i] + ls[i + 1..]
  {
    forall k | 0 <= k < |ls| && k != i
      ensures ls[k].id != id
    {
      assert Ids(ls)[k] != Ids(ls)[i];
    }
    WithoutOnlyAt(ls, id, i);
  }

  lemma {:induction false} WithoutOnlyAt<H>(ls: seq<Listener<H>>, id: SubscriptionId, i: nat)
    requires i < |ls| && ls[i].id == id
    requires forall k :: 0 <= k < |ls| && k != i ==> ls[k].id != id
    ensures Without(ls, id) == ls[..i] + ls[i + 1..]
    decreases i
  {
    var rest := ls[1..];
    if i == 0 {
      forall k | 0 <= k < |rest|
        ensures Ids(rest)[k] != id
      {
        assert rest[k] == ls[k + 1];
      }
      WithoutAbsent(rest, id);
      assert ls[..0] + rest == rest;
    } else {
      forall k | 0 <= k < |rest| && k != i - 1
        ensures rest[k].id != id
      {
        assert rest[k] == ls[k + 1];
      }
      WithoutOnlyAt(rest, id, i - 1);
      SpliceTail(ls, i);
    }
  }

  /** Dropping entry `i > 0` of a list is keeping its head and dropping entry
      `i - 1` of its tail. */
  lemma SpliceTail<T>(ls: seq<T>, i: nat)
    requires 0 < i < |ls|
    ensures ls[..i] + ls[i + 1..] == [ls[0]] + (ls[1..][..i - 1] + ls[1..][i..])
  {
    assert ls[1..][..i - 1] == ls[1..i] && ls[1..][i..] == ls[i + 1..];
    assert ls[..i] == [ls[0]] + ls[1..i];
    ConcatAssoc([ls[0]], ls[1..i], ls[i + 1..]);
  }

  /** Ids listed in increasing order. Ids are handed out in increasing order, so
      this says the list is in registration order. */
  ghost predicate Ascending(ids: seq<SubscriptionId>) {
    forall i, j :: 0 <= i < j < |ids| ==> ids[i] < ids[j]
  }

  lemma {:induction false} WithoutAscending<H>(ls: seq<Listener<H>>, id: SubscriptionId)
    ensures Ascending(Ids(ls)) ==> Ascending(Ids(Without(ls, id)))
  {
    if |ls| > 0 && Ascending(Ids(ls)) {
      assert Ids(ls)[1..] == Ids(ls[1..]);
      WithoutAscending(ls[1..], id);
      var rest := Without(ls[1..], id);
      if ls[0].id != id {
        var ids := Ids([ls[0]] + rest);
        assert ids[1..] == Ids(rest);
        assert forall k :: 0 <= k < |Ids(ls[1..])| ==> Ids(ls[1..])[k] > ls[0].id;
        forall i, j | 0 <= i < j < |ids|
          ensures ids[i] < ids[j]
        {
          if i == 0 {
            assert ids[j] in Ids(rest);
          }
        }
      }
    }
  }

  /** Executing adds exactly `p` to the log of every current listener and leaves
      the log of every other id untouched. */
  lemma ExecuteLog<P, H>(a: Action<P, H>, p: P, id: SubscriptionId)
    requires Valid(a)
    ensures Log(Execute(a, p).trace, id) == Log(a.trace, id) + (if id in Ids(a.listeners) then [p] else [])
  {
    LogAppend(a.trace, Fanout(a.listeners, p), id);
    LogFanout(a.listeners, p, id);
  }

  /** Delivery order is registration order: when the listeners are listed in the
      order they subscribed, of two listeners the one that subscribed first
      (the smaller id) receives `p` strictly before the other. */
  lemma ExecuteInRegistrationOrder<P, H>(a: Action<P, H>, p: P, i: nat, j: nat)
    requires Ascending(Ids(a.listeners))
    requires i < |a.listeners| && j < |a.listeners|
    requires a.listeners[i].id < a.listeners[j].id
    ensures var t := Execute(a, p).trace;
      && i < j
      && t[|a.trace| + i] == Delivery(a.listeners[i].id, p)
      && t[|a.trace| + j] == Delivery(a.listeners[j].id, p)
  {
    AscendingPositions(Ids(a.listeners), i, j);
    ExecutePositions(a, p, i, j);
  }

  lemma ExecutePositions<P, H>(a: Action<P, H>, p: P, i: nat, j: nat)
    requires i < j < |a.listeners|
    ensures var t := Execute(a, p).trace;
      && t[|a.trace| + i] == Delivery(a.listeners[i].id, p)
      && t[|a.trace| + j] == Delivery(a.listeners[j].id, p)
  {
  }

  /** In an ascending list, the smaller value sits at the earlier position. */
  lemma AscendingPositions(ids: seq<SubscriptionId>, i: nat, j: nat)
    requires Ascending(ids)
    requires i < |ids| && j < |ids| && ids[i] < ids[j]
    ensures i < j
  {
  }

  /** Cancelling twice is the same as cancelling once. */
  lemma UnsubscribeIdempotent<P, H>(a: Action<P, H>, id: SubscriptionId)
    ensures Unsubscribe(Unsubscribe(a, id), id) == Unsubscribe(a, id)
  {
    WithoutAbsent(Without(a.listeners, id), id);
  }

  // ---------------------------------------------------------------------------
  // Runs of operations

  /** What a caller can do to an action: execute it, subscribe a handler, or cancel
      a subscription. */
  datatype Op<P, H> = Exec(parameter: P) | Join(handler: H) | Leave(id: SubscriptionId)

  function Step<P, H>(a: Action<P, H>, op: Op<P, H>): (r: Action<P, H>)
    ensures r.nextId >= a.nextId
  {
    match op
    case Exec(p) => Execute(a, p)
    case Join(h) => Subscribe(a, h).channel
    case Leave(id) => Unsubscribe(a, id)
  }

  function Run<P, H>(a: Action<P, H>, ops: seq<Op<P, H>>): Action<P, H>
    decreases |ops|
  {
    if |ops| == 0 then a else Run(Step(a, ops[0]), ops[1..])
  }

  /** The parameters of the executes in `ops`, in order. */
  function Executed<P, H>(ops: seq<Op<P, H>>): seq<P> {
    if |ops| == 0 then []
    else (if ops[0].Exec? then [ops[0].parameter] else []) + Executed(ops[1..])
  }

  /** `ops` never cancels the subscription `id`. */
  ghost predicate Keeps<P, H>(ops: seq<Op<P, H>>, id: SubscriptionId) {
    forall i :: 0 <= i < |ops| ==> !(ops[i].Leave? && ops[i].id == id)
  }

  lemma KeepsTail<P, H>(ops: seq<Op<P, H>>, id: SubscriptionId)
    requires |ops| > 0 && Keeps(ops, id)
    ensures !(ops[0].Leave? && ops[0].id == id) && Keeps(ops[1..], id)
  {
    assert forall i :: 0 <= i < |ops[1..]| ==> ops[1..][i] == ops[i + 1];
  }

  /** The first step of a run that does not cancel listener `id`: it keeps the
      listener subscribed and gives it the parameter of that step if the step is
      an execute. */
  lemma FirstStepKeepsListener<P, H>(a: Action<P, H>, ops: seq<Op<P, H>>, id: SubscriptionId)
    requires Valid(a)
    requires id in Ids(a.listeners)
    requires |ops| > 0 && Keeps(ops, id)
    ensures var b := Step(a, ops[0]);
      && Valid(b)
      && id in Ids(b.listeners)
      && Keeps(ops[1..], id)
      && Log(b.trace, id) + Executed(ops[1..]) == Log(a.trace, id) + Executed(ops)
      && Run(a, ops) == Run(b, ops[1..])
  {
    KeepsTail(ops, id);
    match ops[0] {
      case Exec(p) =>
        ExecuteLog(a, p, id);
        assert Executed(ops) == [p] + Executed(ops[1..]);
        ConcatAssoc(Log(a.trace, id), [p], Executed(ops[1..]));
      case Join(h) =>
        var s := Subscribe(a, h);
        assert Ids(s.channel.listeners)[..|a.listeners|] == Ids(a.listeners);
      case Leave(k) =>
    }
  }

  /** No lost and no extra deliveries: a listener that stays subscribed receives
      the parameter of every later execute, in order, and nothing else. */
  lemma {:induction false} ListenerHearsLaterExecutes<P, H>(a: Action<P, H>, ops: seq<Op<P, H>>, id: SubscriptionId)
    requires Valid(a)
    requires id in Ids(a.listeners)
    requires Keeps(ops, id)
    ensures Log(Run(a, ops).trace, id) == Log(a.trace, id) + Executed(ops)
    decreases |ops|
  {
    if |ops| > 0 {
      FirstStepKeepsListener(a, ops, id);
      ListenerHearsLaterExecutes(Step(a, ops[0]), ops[1..], id);
    }
  }

  /** After its subscription is cancelled, a listener's log never grows again,
      whatever happens on the action afterwards. */
  lemma {:induction false} CancelledHearsNothing<P, H>(a: Action<P, H>, ops: seq<Op<P, H>>, id: SubscriptionId)
    requires Valid(a)
    requires id < a.nextId && id !in Ids(a.listeners)
    ensures Log(Run(a, ops).trace, id) == Log(a.trace, id)
    decreases |ops|
  {
    if |ops| > 0 {
      var b := Step(a, ops[0]);
      match ops[0] {
        case Exec(p) =>
          ExecuteLog(a, p, id);
        case Join(h) =>
          var s := Subscribe(a, h);
          assert Ids(s.channel.listeners) == Ids(a.listeners) + [s.id];
        case Leave(k) =>
      }
      StepValid(a, ops[0]);
      CancelledHearsNothing(b, ops[1..], id);
    }
  }

  /** No replay: a listener that subscribes after `execute(p)` has returned gets
      exactly the parameters of the executes that come after its subscription. */
  lemma NoReplay<P, H>(a: Action<P, H>, p: P, h: H, ops: seq<Op<P, H>>)
    requires Valid(a)
    requires Keeps(ops, Subscribe(Execute(a, p), h).id)
    ensures var s := Subscribe(Execute(a, p), h);
      Log(Run(s.channel, ops).trace, s.id) == Executed(ops)
  {
    var e := Execute(a, p);
    var s := Subscribe(e, h);
    LogOfUnusedId(e.trace, e.nextId, s.id);
    assert Ids(s.channel.listeners)[|e.listeners|] == s.id;
    ListenerHearsLaterExecutes(s.channel, ops, s.id);
  }

  lemma StepValid<P, H>(a: Action<P, H>, op: Op<P, H>)
    requires Valid(a)
    ensures Valid(Step(a, op))
  {
  }

  /** Every operation keeps the listeners in registration order: subscribe appends
      an id larger than every listed one, and cancel removes one entry. */
  lemma StepAscending<P, H>(a: Action<P, H>, op: Op<P, H>)
    requires Valid(a) && Ascending(Ids(a.listeners))
    ensures Ascending(Ids(Step(a, op).listeners))
  {
    match op {
      case Exec(p) =>
      case Join(h) =>
        var s := Subscribe(a, h);
        assert Ids(s.channel.listeners) == Ids(a.listeners) + [a.nextId];
        assert forall i :: 0 <= i < |a.listeners| ==> Ids(a.listeners)[i] in Ids(a.listeners);
      case Leave(k) =>
        WithoutAscending(a.listeners, k);
    }
  }

  lemma {:induction false} RunAscending<P, H>(a: Action<P, H>, ops: seq<Op<P, H>>)
    requires Valid(a) && Ascending(Ids(a.listeners))
    ensures Ascending(Ids(Run(a, ops).listeners))
    decreases |ops|
  {
    if |ops| > 0 {
      StepValid(a, ops[0]);
      StepAscending(a, ops[0]);
      RunAscending(Step(a, ops[0]), ops[1..]);
    }
  }

  lemma {:induction false} RunValid<P, H>(a: Action<P, H>, ops: seq<Op<P, H>>)
    requires Valid(a)
    ensures Valid(Run(a, ops))
    decreases |ops|
  {
    if |ops| > 0 {
      StepValid(a, ops[0]);
      RunValid(Step(a, ops[0]), ops[1..]);
    }
  }

  /** Every action reachable from `Create` by any run satisfies `Valid` and lists
      its listeners in registration order, whatever was cancelled on the way. */
  lemma ReachableIsValid<P, H>(ops: seq<Op<P, H>>)
    ensures Valid(Run(Create<P, H>(), ops))
    ensures Ascending(Ids(Run(Create<P, H>(), ops).listeners))
  {
    RunValid(Create<P, H>(), ops);
    RunAscending(Create<P, H>(), ops);
  }
}
