/** The `Store` base class: one current state held in a replay-latest channel (a
    `BehaviorSubject`), a state update that reads the current value once and
    publishes its transform, and the helpers a derived store uses to build the
    actions it exposes.

    The channel is a state machine over a current value, a log per subscription
    of every value delivered to it, and the set of subscriptions still active.
    Transforms are total Dafny functions `S -> S`. */
module Stores {
  import opened Channels
  import Actions

  datatype Store<S> = Store(current: S, logs: map<SubscriptionId, seq<S>>, active: set<SubscriptionId>, nextId: SubscriptionId)

  function Last<T>(xs: seq<T>): T
    requires |xs| > 0
  {
    xs[|xs| - 1]
  }

  /** The invariant of every store reachable from `New`: active subscriptions have
      a log, every logged id was handed out, and every active subscriber's latest
      delivery is the current state (nobody is left behind on an older version). */
  ghost predicate Valid<S>(s: Store<S>) {
    && s.active <= s.logs.Keys
    && (forall k :: k in s.logs ==> k < s.nextId)
    && (forall k :: k in s.active ==> |s.logs[k]| > 0 && Last(s.logs[k]) == s.current)
  }

  /** `new Store(initialState)`: the state is `initialState` and nobody has
      subscribed yet. */
  function New<S>(initialState: S): (s: Store<S>)
    ensures Valid(s)
    ensures s.current == initialState
    ensures s.logs == map[] && s.active == {}
  {
    Store(initialState, map[], {}, 0)
  }

  /** `subscribe` / `observe().subscribe`: the new subscription is handed the
      current state at once, whether or not the state was ever updated; every
      other subscription is left as it was. */
  function Subscribe<S>(s: Store<S>): (r: Subscribed<Store<S>>)
    ensures r.channel.current == s.current
    ensures r.channel.active == s.active + {r.id}
    ensures r.id in r.channel.logs && r.channel.logs[r.id] == [s.current]
    ensures r.channel.logs.Keys == s.logs.Keys + {r.id}
    ensures forall k :: k in s.logs && k != r.id ==> r.channel.logs[k] == s.logs[k]
    ensures r.channel.nextId > r.id
    ensures Valid(s) ==> Valid(r.channel) && r.id !in s.logs
  {
    var id := s.nextId;
    Subscribed(s.(logs := s.logs[id := [s.current]], active := s.active + {id}, nextId := id + 1), id)
  }

  /** Cancelling a store subscription: it stops receiving, and what it already
      received stays as it was. */
  function Unsubscribe<S>(s: Store<S>, id: SubscriptionId): (r: Store<S>)
    ensures id !in r.active
    ensures forall k :: k != id ==> (k in r.active <==> k in s.active)
    ensures r.current == s.current && r.logs == s.logs && r.nextId == s.nextId
    ensures Valid(s) ==> Valid(r)
  {
    s.(active := s.active - {id})
  }

  /** `updateState(transform)`: `transform` is applied once, to the current state;
      its result becomes the current state and is delivered once to every active
      subscription. Cancelled subscriptions and the set of subscriptions are left
      as they were. */
  function UpdateState<S>(s: Store<S>, transform: S -> S): (r: Store<S>)
    ensures r.current == transform(s.current)
    ensures r.active == s.active && r.nextId == s.nextId
    ensures r.logs.Keys == s.logs.Keys
    ensures forall k :: k in s.logs && k in s.active ==> r.logs[k] == s.logs[k] + [transform(s.current)]
    ensures forall k :: k in s.logs && k !in s.active ==> r.logs[k] == s.logs[k]
    ensures Valid(s) ==> Valid(r)
  {
    var next := transform(s.current);
    s.(current := next, logs := map k | k in s.logs :: if k in s.active then s.logs[k] + [next] else s.logs[k])
  }

  // ---------------------------------------------------------------------------
  // Runs of operations

  /** What can happen to a store: an update through a transform, a new
      subscription, or the cancellation of one. */
  datatype Op<!S> = Update(transform: S -> S) | Join | Leave(id: SubscriptionId)

  function Step<S>(s: Store<S>, op: Op<S>): (r: Store<S>)
    ensures r.nextId >= s.nextId
    ensures r.logs.Keys >= s.logs.Keys
  {
    match op
    case Update(f) => UpdateState(s, f)
    case Join => Subscribe(s).channel
    case Leave(id) => Unsubscribe(s, id)
  }

  function Run<S>(s: Store<S>, ops: seq<Op<S>>): (r: Store<S>)
    ensures r.logs.Keys >= s.logs.Keys
    decreases |ops|
  {
    if |ops| == 0 then s else Run(Step(s, ops[0]), ops[1..])
  }

  /** The states a run publishes, one per update, in order. */
  function Published<S>(s: Store<S>, ops: seq<Op<S>>): seq<S>
    decreases |ops|
  {
    if |ops| == 0 then []
    else (if ops[0].Update? then [ops[0].transform(s.current)] else []) + Published(Step(s, ops[0]), ops[1..])
  }

  /** `ops` never cancels the subscription `id`. */
  ghost predicate Keeps<S>(ops: seq<Op<S>>, id: SubscriptionId) {
    forall i :: 0 <= i < |ops| ==> !(ops[i].Leave? && ops[i].id == id)
  }

  lemma KeepsTail<S>(ops: seq<Op<S>>, id: SubscriptionId)
    requires |ops| > 0 && Keeps(ops, id)
    ensures !(ops[0].Leave? && ops[0].id == id) && Keeps(ops[1..], id)
  {
    forall i | 0 <= i < |ops[1..]| ensures !(ops[1..][i].Leave? && ops[1..][i].id == id) {
      assert ops[1..][i] == ops[i + 1];
    }
  }

  /** The state after a run is the last state it published, or the state it
      started from if it published none. */
  lemma {:induction false} CurrentIsLatestPublished<S>(s: Store<S>, ops: seq<Op<S>>)
    ensures var p := Published(s, ops);
      Run(s, ops).current == if |p| == 0 then s.current else Last(p)
    decreases |ops|
  {
    if |ops| > 0 {
      CurrentIsLatestPublished(Step(s, ops[0]), ops[1..]);
    }
  }

  /** What a run publishes depends only on the state it starts from, not on who
      is subscribed. */
  lemma {:induction false} PublishedDependsOnStateOnly<S>(s: Store<S>, t: Store<S>, ops: seq<Op<S>>)
    requires s.current == t.current
    ensures Published(s, ops) == Published(t, ops)
    decreases |ops|
  {
    if |ops| > 0 {
      PublishedDependsOnStateOnly(Step(s, ops[0]), Step(t, ops[0]), ops[1..]);
    }
  }

  lemma StepValid<S>(s: Store<S>, op: Op<S>)
    requires Valid(s)
    ensures Valid(Step(s, op))
  {
  }

  /** Every store reached from a valid one by any run is valid. */
  lemma {:induction false} RunValid<S>(s: Store<S>, ops: seq<Op<S>>)
    requires Valid(s)
    ensures Valid(Run(s, ops))
    decreases |ops|
  {
    if |ops| > 0 {
      StepValid(s, ops[0]);
      RunValid(Step(s, ops[0]), ops[1..]);
    }
  }

  /** The first step of a run that does not cancel `id` keeps it active and
      delivers to it what that step publishes. */
  lemma FirstStepKeepsActive<S>(s: Store<S>, ops: seq<Op<S>>, id: SubscriptionId)
    requires Valid(s)
    requires id in s.active
    requires |ops| > 0 && !(ops[0].Leave? && ops[0].id == id)
    ensures var t := Step(s, ops[0]);
      && id in t.active
      && t.logs[id] + Published(t, ops[1..]) == s.logs[id] + Published(s, ops)
      && Run(s, ops) == Run(t, ops[1..])
  {
    var t := Step(s, ops[0]);
    var x := if ops[0].Update? then [ops[0].transform(s.current)] else [];
    StepKeepsActive(s, ops[0], id);
    assert Published(s, ops) == x + Published(t, ops[1..]);
    ConcatAssoc(s.logs[id], x, Published(t, ops[1..]));
  }

  /** No gaps, no reordering, nothing extra: an active subscription that is not
      cancelled receives every published state, in publication order. */
  lemma {:induction false} ActiveLogGrowsByPublished<S>(s: Store<S>, ops: seq<Op<S>>, id: SubscriptionId)
    requires Valid(s)
    requires id in s.active
    requires Keeps(ops, id)
    ensures id in Run(s, ops).active
    ensures Run(s, ops).logs[id] == s.logs[id] + Published(s, ops)
    decreases |ops|
  {
    if |ops| > 0 {
      KeepsTail(ops, id);
      FirstStepKeepsActive(s, ops, id);
      StepValid(s, ops[0]);
      ActiveLogGrowsByPublished(Step(s, ops[0]), ops[1..], id);
    }
  }

  /** One step that does not cancel `id` delivers to it what the step publishes. */
  lemma StepKeepsActive<S>(s: Store<S>, op: Op<S>, id: SubscriptionId)
    requires Valid(s)
    requires id in s.active
    requires !(op.Leave? && op.id == id)
    ensures id in Step(s, op).active
    ensures Step(s, op).logs[id] == s.logs[id] + if op.Update? then [op.transform(s.current)] else []
  {
  }

  /** Once cancelled, a subscription's log never grows again, whatever the store
      does afterwards. */
  lemma {:induction false} CancelledLogFrozen<S>(s: Store<S>, ops: seq<Op<S>>, id: SubscriptionId)
    requires Valid(s)
    requires id in s.logs && id !in s.active
    ensures id !in Run(s, ops).active
    ensures Run(s, ops).logs[id] == s.logs[id]
    decreases |ops|
  {
    if |ops| > 0 {
      StepValid(s, ops[0]);
      CancelledLogFrozen(Step(s, ops[0]), ops[1..], id);
    }
  }

  /** Replay of the latest state: a new subscriber first receives the state
      current at subscribe time and then exactly what is published afterwards. */
  lemma SubscriberSeesCurrentThenPublished<S>(s: Store<S>, ops: seq<Op<S>>)
    requires Valid(s)
    requires Keeps(ops, Subscribe(s).id)
    ensures var sub := Subscribe(s);
      Run(sub.channel, ops).logs[sub.id] == [s.current] + Published(s, ops)
  {
    var sub := Subscribe(s);
    ActiveLogGrowsByPublished(sub.channel, ops, sub.id);
    PublishedDependsOnStateOnly(sub.channel, s, ops);
  }

  /** No lost updates: `updateState(f)` then `updateState(g)` leaves `g(f(s))`, and
      a subscriber from before sees `s`, `f(s)`, `g(f(s))` in that order. */
  lemma NoLostUpdates<S>(s: Store<S>, f: S -> S, g: S -> S)
    requires Valid(s)
    ensures var sub := Subscribe(s);
      var r := UpdateState(UpdateState(sub.channel, f), g);
      && r.current == g(f(s.current))
      && r.logs[sub.id] == [s.current, f(s.current), g(f(s.current))]
  {
  }

  // ---------------------------------------------------------------------------
  // Actions owned by a store

  /** `createAction()`: a fresh action that nobody listens to yet. */
  function CreateAction<P, H>(): (a: Actions.Action<P, H>)
    ensures Actions.Valid(a)
    ensures a.listeners == [] && a.trace == []
  {
    Actions.Create()
  }

  /** `createActionAdvanced(wire)`: the fresh action is given to the wiring
      callback once, and what the callback made of it is what is returned, so the
      action is never seen by anyone before its handlers are attached. The
      callback reaches the action only through its public operations, so it is
      given as the executes, subscribes and cancels it performs, in order. */
  function CreateActionAdvanced<P, H>(wire: seq<Actions.Op<P, H>>): (a: Actions.Action<P, H>)
    ensures a == Actions.Run(CreateAction(), wire)
    ensures Actions.Valid(a)
    ensures Actions.Ascending(Actions.Ids(a.listeners))
  {
    Actions.ReachableIsValid<P, H>(wire);
    Actions.Run(CreateAction(), wire)
  }

  /** The wiring callback that subscribes the handlers `hs`, in that order:
      `action => action.subscribe(h)` for each `h`. */
  function Subscribing<P, H>(hs: seq<H>): (r: seq<Actions.Op<P, H>>)
    ensures |r| == |hs|
    ensures forall i :: 0 <= i < |hs| ==> r[i] == Actions.Join(hs[i])
  {
    if |hs| == 0 then [] else [Actions.Join(hs[0])] + Subscribing(hs[1..])
  }

  /** Running a subscribe-only callback adds its handlers one after another. */
  lemma {:induction false} SubscribingIsSubscribeAll<P, H>(a: Actions.Action<P, H>, hs: seq<H>)
    ensures Actions.Run(a, Subscribing(hs)) == Actions.SubscribeAll(a, hs)
    decreases |hs|
  {
    if |hs| > 0 {
      var w := Subscribing<P, H>(hs);
      assert w[0] == Actions.Join(hs[0]) && w[1..] == Subscribing(hs[1..]);
      SubscribingIsSubscribeAll(Actions.Subscribe(a, hs[0]).channel, hs[1..]);
    }
  }

  /** Wiring before exposure: when `wire` subscribes handlers, the returned action
      already has exactly those listeners in that order, nothing was delivered yet,
      and so the first `execute` by anyone reaches every one of them. */
  lemma WiredBeforeExposure<P, H>(hs: seq<H>, p: P)
    ensures var a := CreateActionAdvanced(Subscribing<P, H>(hs));
      && Actions.Valid(a)
      && a.trace == []
      && |a.listeners| == |hs|
      && (forall i :: 0 <= i < |hs| ==> a.listeners[i].handler == hs[i])
      && (forall i :: 0 <= i < |hs| ==> Actions.Log(Actions.Execute(a, p).trace, a.listeners[i].id) == [p])
  {
    var a := Actions.SubscribeAll(CreateAction<P, H>(), hs);
    SubscribingIsSubscribeAll(CreateAction<P, H>(), hs);
    Actions.SubscribeAllValid(CreateAction<P, H>(), hs);
    assert forall i :: 0 <= i < |hs| ==> a.listeners[i] == Actions.Listener(i, hs[i]);
    forall i | 0 <= i < |hs|
      ensures Actions.Log(Actions.Execute(a, p).trace, a.listeners[i].id) == [p]
    {
      ListedIdHearsExecute(a, p, i);
    }
  }

  lemma ListedIdHearsExecute<P, H>(a: Actions.Action<P, H>, p: P, i: nat)
    requires Actions.Valid(a) && a.trace == []
    requires i < |a.listeners|
    ensures Actions.Log(Actions.Execute(a, p).trace, a.listeners[i].id) == [p]
  {
    var id := a.listeners[i].id;
    assert Actions.Ids(a.listeners)[i] == id;
    Actions.ExecuteLog(a, p, id);
  }

  /** `createActionAndSubscribe(h)`: an action whose one and only listener is `h`. */
  function CreateActionAndSubscribe<P, H>(handler: H): (a: Actions.Action<P, H>)
    ensures Actions.Valid(a)
    ensures a.trace == []
    ensures |a.listeners| == 1 && a.listeners[0].handler == handler
  {
    SubscribingIsSubscribeAll(CreateAction<P, H>(), [handler]);
    CreateActionAdvanced(Subscribing<P, H>([handler]))
  }

  // ---------------------------------------------------------------------------
  // Executing an action wired to the store

  /** The `updateState` calls the listeners `ls` make when they receive `p`, in
      order: each passes the transform `effect` derives from its handler. */
  function Updates<P, H, S>(ls: seq<Actions.Listener<H>>, p: P, effect: (H, P) -> (S -> S)): (r: seq<Op<S>>)
    ensures |r| == |ls|
    ensures forall i :: 0 <= i < |ls| ==> r[i] == Update(effect(ls[i].handler, p))
  {
    if |ls| == 0 then [] else [Update(effect(ls[0].handler, p))] + Updates(ls[1..], p, effect)
  }

  /** The store after each listener of `ls`, in order, has run `updateState` with
      the transform that `effect` derives from its handler and the parameter. */
  function ApplyHandlers<P, H, S>(s: Store<S>, ls: seq<Actions.Listener<H>>, p: P, effect: (H, P) -> (S -> S)): (r: Store<S>)
    ensures r == Run(s, Updates(ls, p, effect))
    ensures r.active == s.active && r.nextId == s.nextId
    ensures r.logs.Keys == s.logs.Keys
    ensures forall k :: k in s.logs && k in s.active ==> |r.logs[k]| == |s.logs[k]| + |ls|
    ensures forall k :: k in s.logs && k !in s.active ==> r.logs[k] == s.logs[k]
    ensures Valid(s) ==> Valid(r)
    decreases |ls|
  {
    if |ls| == 0 then s
    else
      var u := Updates(ls, p, effect);
      assert u[1..] == Updates(ls[1..], p, effect);
      ApplyHandlers(UpdateState(s, effect(ls[0].handler, p)), ls[1..], p, effect)
  }

  /** The states the listeners' updates publish: the first listener's transform
      of the state before, then each next listener's transform of the state the
      one before it published. */
  lemma {:induction false} PublishedUpdates<P, H, S>(s: Store<S>, ls: seq<Actions.Listener<H>>, p: P, effect: (H, P) -> (S -> S))
    ensures var pub := Published(s, Updates(ls, p, effect));
      && |pub| == |ls|
      && (|ls| > 0 ==> pub[0] == effect(ls[0].handler, p)(s.current))
      && (forall i :: 0 < i < |ls| ==> pub[i] == effect(ls[i].handler, p)(pub[i - 1]))
    decreases |ls|
  {
    if |ls| > 0 {
      var u := Updates(ls, p, effect);
      var t := UpdateState(s, effect(ls[0].handler, p));
      assert u[1..] == Updates(ls[1..], p, effect);
      PublishedUpdates(t, ls[1..], p, effect);
      var rest := Published(t, Updates(ls[1..], p, effect));
      var pub := Published(s, u);
      assert pub == [t.current] + rest;
      forall i | 0 < i < |ls|
        ensures pub[i] == effect(ls[i].handler, p)(pub[i - 1])
      {
        assert pub[i] == rest[i - 1];
        assert ls[1..][i - 1] == ls[i];
      }
    }
  }

  /** `execute(p)` on an action whose listeners call `updateState`: the action
      records the delivery to each listener, and each listener's update reaches
      the store, in registration order. */
  function ExecuteWired<P, H, S>(s: Store<S>, a: Actions.Action<P, H>, p: P, effect: (H, P) -> (S -> S)): (r: (Store<S>, Actions.Action<P, H>))
    ensures r.1 == Actions.Execute(a, p)
    ensures r.0 == Run(s, Updates(a.listeners, p, effect))
    ensures |a.listeners| == 1 ==> r.0 == UpdateState(s, effect(a.listeners[0].handler, p))
    ensures Valid(s) ==> Valid(r.0)
  {
    ApplySingle(s, a.listeners, p, effect);
    (ApplyHandlers(s, a.listeners, p, effect), Actions.Execute(a, p))
  }

  lemma ApplySingle<P, H, S>(s: Store<S>, ls: seq<Actions.Listener<H>>, p: P, effect: (H, P) -> (S -> S))
    ensures |ls| == 1 ==> ApplyHandlers(s, ls, p, effect) == UpdateState(s, effect(ls[0].handler, p))
  {
    if |ls| == 1 {
      assert ApplyHandlers(s, ls, p, effect) == ApplyHandlers(UpdateState(s, effect(ls[0].handler, p)), ls[1..], p, effect);
    }
  }

  /** Executing a store-wired action: every active store subscriber receives, in
      registration order, one new state per action listener, each the next
      listener's transform of the one before, and the store ends at the last. */
  lemma ExecuteWiredDelivers<P, H, S>(s: Store<S>, a: Actions.Action<P, H>, p: P, effect: (H, P) -> (S -> S), id: SubscriptionId)
    requires Valid(s) && id in s.active
    ensures var pub := Published(s, Updates(a.listeners, p, effect));
      var r := ExecuteWired(s, a, p, effect).0;
      && r.logs[id] == s.logs[id] + pub
      && r.current == (if |pub| == 0 then s.current else Last(pub))
  {
    var u := Updates(a.listeners, p, effect);
    assert Keeps(u, id);
    ActiveLogGrowsByPublished(s, u, id);
    CurrentIsLatestPublished(s, u);
  }
}
