/** `ApiTestStore`: a store whose state is `{value: number}`, starting at 1, with two
    public actions. `increment` adds 1 and `add(n)` adds `n`, each by handing a
    transform to `updateState`. Both actions are public only as `IAction`, so
    outside code can execute them but cannot add listeners.

    The handlers the constructor subscribes are closures over the store. Here each
    is a tag naming that closure, and `IncrementEffect` / `AddEffect` give the
    transform the closure passes to `updateState`. TypeScript `number` is modelled
    as a mathematical integer. */
module Counter {
  import opened Channels
  import Actions
  import Stores

  /** The state record: `value`, plus whatever other fields a state object may
      carry, which the handlers' object spread copies over unchanged. */
  datatype CounterState = CounterState(value: int, otherFields: map<string, string>)

  /** `_ => this.onIncrement()`, subscribed to `increment`. */
  datatype IncrementHandler = CallOnIncrement

  /** `n => this.onAdd(n)`, subscribed to `add`. */
  datatype AddHandler = CallOnAdd

  datatype ApiTestStore = ApiTestStore(
    store: Stores.Store<CounterState>,
    increment: Actions.Action<(), IncrementHandler>,
    add: Actions.Action<int, AddHandler>)

  const InitialState := CounterState(1, map[])

  /** The transform `onIncrement` gives to `updateState`: one more, every other
      field copied. */
  function OnIncrement(state: CounterState): (r: CounterState)
    ensures r.value == state.value + 1 && r.otherFields == state.otherFields
  {
    state.(value := state.value + 1)
  }

  /** The transform `onAdd(n)` gives to `updateState`: `n` more, every other field
      copied. */
  function OnAdd(n: int, state: CounterState): (r: CounterState)
    ensures r.value == state.value + n && r.otherFields == state.otherFields
  {
    state.(value := state.value + n)
  }

  function IncrementEffect(h: IncrementHandler, u: ()): CounterState -> CounterState {
    OnIncrement
  }

  function AddEffect(h: AddHandler, n: int): CounterState -> CounterState {
    state => OnAdd(n, state)
  }

  /** The invariant the constructor sets up and nothing later can break: each
      action has exactly its one wired listener, and the store is consistent. */
  ghost predicate Valid(c: ApiTestStore) {
    && Stores.Valid(c.store)
    && c.increment.listeners == [Actions.Listener(0, CallOnIncrement)]
    && c.add.listeners == [Actions.Listener(0, CallOnAdd)]
  }

  /** `new ApiTestStore()`: state `{value: 1}`, no store subscriber yet, and each
      action wired to its one handler before it is exposed. */
  function New(): (c: ApiTestStore)
    ensures Valid(c)
    ensures c.store.current.value == 1
    ensures c.store.logs == map[] && c.store.active == {}
    ensures c.increment.trace == [] && c.add.trace == []
  {
    var store := Stores.New(InitialState);
    var increment := Stores.CreateActionAndSubscribe<(), IncrementHandler>(CallOnIncrement);
    var add := Stores.CreateActionAdvanced(Stores.Subscribing<int, AddHandler>([CallOnAdd]));
    Stores.SubscribingIsSubscribeAll(Stores.CreateAction<int, AddHandler>(), [CallOnAdd]);
    assert add == Actions.SubscribeAll(Actions.Create(), [CallOnAdd]);
    ApiTestStore(store, increment, add)
  }

  /** `increment.execute()`: the value goes up by one and nothing else in the
      state changes; every store subscriber receives the new state. */
  function ExecuteIncrement(c: ApiTestStore): (r: ApiTestStore)
    requires Valid(c)
    ensures Valid(r)
    ensures r.store.current.value == c.store.current.value + 1
    ensures r.store.current.otherFields == c.store.current.otherFields
    ensures r.store == Stores.UpdateState(c.store, OnIncrement)
  {
    var (store, increment) := Stores.ExecuteWired(c.store, c.increment, (), IncrementEffect);
    c.(store := store, increment := increment)
  }

  /** `add.execute(n)`: the value goes up by `n` and nothing else in the state
      changes; every store subscriber receives the new state. */
  function ExecuteAdd(c: ApiTestStore, n: int): (r: ApiTestStore)
    requires Valid(c)
    ensures Valid(r)
    ensures r.store.current.value == c.store.current.value + n
    ensures r.store.current.otherFields == c.store.current.otherFields
    ensures r.store == Stores.UpdateState(c.store, AddEffect(CallOnAdd, n))
  {
    var (store, add) := Stores.ExecuteWired(c.store, c.add, n, AddEffect);
    c.(store := store, add := add)
  }

  /** What outside code can do with the store: execute either action, subscribe
      to the state, or cancel a state subscription. */
  datatype Op = Increment | Add(n: int) | Watch | Unwatch(id: SubscriptionId)

  function Step(c: ApiTestStore, op: Op): (r: ApiTestStore)
    requires Valid(c)
    ensures Valid(r)
  {
    match op
    case Increment => ExecuteIncrement(c)
    case Add(n) => ExecuteAdd(c, n)
    case Watch => c.(store := Stores.Subscribe(c.store).channel)
    case Unwatch(id) => c.(store := Stores.Unsubscribe(c.store, id))
  }

  function Run(c: ApiTestStore, ops: seq<Op>): (r: ApiTestStore)
    requires Valid(c)
    ensures Valid(r)
    decreases |ops|
  {
    if |ops| == 0 then c else Run(Step(c, ops[0]), ops[1..])
  }

  function Increments(ops: seq<Op>): (r: nat)
    ensures r <= |ops|
  {
    if |ops| == 0 then 0 else (if ops[0].Increment? then 1 else 0) + Increments(ops[1..])
  }

  function AddSum(ops: seq<Op>): int {
    if |ops| == 0 then 0 else (if ops[0].Add? then ops[0].n else 0) + AddSum(ops[1..])
  }

  /** The state after `op`, when the state before it was `state`. */
  function After(state: CounterState, op: Op): CounterState {
    match op
    case Increment => OnIncrement(state)
    case Add(n) => OnAdd(n, state)
    case Watch => state
    case Unwatch(_) => state
  }

  /** The states the store publishes along `ops`, starting from `state`: one per
      executed action, each computed from the one before. */
  function Versions(state: CounterState, ops: seq<Op>): (r: seq<CounterState>)
    ensures |r| <= |ops|
    decreases |ops|
  {
    if |ops| == 0 then [] else Emitted(state, ops[0]) + Versions(After(state, ops[0]), ops[1..])
  }

  /** What one call publishes: the new state if it executed an action, else nothing. */
  function Emitted(state: CounterState, op: Op): (r: seq<CounterState>)
    ensures |r| <= 1
  {
    if op.Increment? || op.Add? then [After(state, op)] else []
  }

  /** Over any run, the value grows by the number of increments plus the sum of
      the add arguments, and no other field of the state changes. */
  lemma {:induction false} RunValue(c: ApiTestStore, ops: seq<Op>)
    requires Valid(c)
    ensures Run(c, ops).store.current.value == c.store.current.value + Increments(ops) + AddSum(ops)
    ensures Run(c, ops).store.current.otherFields == c.store.current.otherFields
    decreases |ops|
  {
    if |ops| > 0 {
      RunValue(Step(c, ops[0]), ops[1..]);
    }
  }

  /** From construction, any sequence of calls ends with value
      1 + (number of increments) + (sum of add arguments). */
  lemma FinalValue(ops: seq<Op>)
    ensures Run(New(), ops).store.current.value == 1 + Increments(ops) + AddSum(ops)
  {
    RunValue(New(), ops);
  }

  /** The store transition each call amounts to. */
  function StoreOp(op: Op): Stores.Op<CounterState> {
    match op
    case Increment => Stores.Update(OnIncrement)
    case Add(n) => Stores.Update(AddEffect(CallOnAdd, n))
    case Watch => Stores.Join
    case Unwatch(id) => Stores.Leave(id)
  }

  function StoreOps(ops: seq<Op>): (r: seq<Stores.Op<CounterState>>)
    ensures |r| == |ops|
    ensures forall i :: 0 <= i < |ops| ==> r[i] == StoreOp(ops[i])
  {
    if |ops| == 0 then [] else [StoreOp(ops[0])] + StoreOps(ops[1..])
  }

  /** Executing the counter's actions is running the base store with their
      transforms: the wiring adds nothing and loses nothing. */
  lemma {:induction false} RunIsStoreRun(c: ApiTestStore, ops: seq<Op>)
    requires Valid(c)
    ensures Run(c, ops).store == Stores.Run(c.store, StoreOps(ops))
    decreases |ops|
  {
    if |ops| > 0 {
      var so := StoreOps(ops);
      assert so[0] == StoreOp(ops[0]) && so[1..] == StoreOps(ops[1..]);
      assert Step(c, ops[0]).store == Stores.Step(c.store, StoreOp(ops[0]));
      RunIsStoreRun(Step(c, ops[0]), ops[1..]);
    }
  }

  /** The versions computed call by call are exactly what the base store
      publishes for the same calls. */
  lemma {:induction false} VersionsArePublished(s: Stores.Store<CounterState>, ops: seq<Op>)
    ensures Versions(s.current, ops) == Stores.Published(s, StoreOps(ops))
    decreases |ops|
  {
    if |ops| > 0 {
      var so := StoreOps(ops);
      assert so[0] == StoreOp(ops[0]) && so[1..] == StoreOps(ops[1..]);
      var t := Stores.Step(s, StoreOp(ops[0]));
      assert t.current == After(s.current, ops[0]);
      VersionsArePublished(t, ops[1..]);
    }
  }

  /** `ops` never cancels the state subscription `id`. */
  ghost predicate KeepsWatching(ops: seq<Op>, id: SubscriptionId) {
    forall i :: 0 <= i < |ops| ==> ops[i] != Unwatch(id)
  }

  /** A store subscriber that stays subscribed receives, in order, every state the
      actions publish. */
  lemma WatcherSeesVersions(c: ApiTestStore, ops: seq<Op>, id: SubscriptionId)
    requires Valid(c)
    requires id in c.store.active
    requires KeepsWatching(ops, id)
    ensures id in Run(c, ops).store.active
    ensures Run(c, ops).store.logs[id] == c.store.logs[id] + Versions(c.store.current, ops)
  {
    RunIsStoreRun(c, ops);
    VersionsArePublished(c.store, ops);
    assert Stores.Keeps(StoreOps(ops), id);
    Stores.ActiveLogGrowsByPublished(c.store, StoreOps(ops), id);
  }

  /** The end-to-end scenario: a subscriber attached right after construction
      observes value 1, then 2 after `increment.execute()`, then 7 after
      `add.execute(5)`. */
  lemma ObservedOneTwoSeven()
    ensures var sub := Stores.Subscribe(New().store);
      var c := Run(New().(store := sub.channel), [Increment, Add(5)]);
      && |c.store.logs[sub.id]| == 3
      && c.store.logs[sub.id][0].value == 1
      && c.store.logs[sub.id][1].value == 2
      && c.store.logs[sub.id][2].value == 7
  {
    var c0 := New();
    var sub := Stores.Subscribe(c0.store);
    ObservedFromOne(c0.(store := sub.channel), sub.id);
  }

  /** The scenario from any store whose value is 1 and whose subscriber has so far
      received only the current state. */
  lemma ObservedFromOne(c: ApiTestStore, id: SubscriptionId)
    requires Valid(c) && c.store.current.value == 1
    requires id in c.store.active && c.store.logs[id] == [c.store.current]
    ensures var r := Run(c, [Increment, Add(5)]);
      && |r.store.logs[id]| == 3
      && r.store.logs[id][0].value == 1
      && r.store.logs[id][1].value == 2
      && r.store.logs[id][2].value == 7
  {
    var ops := [Increment, Add(5)];
    WatcherSeesVersions(c, ops, id);
    var v1 := OnIncrement(c.store.current);
    assert Versions(c.store.current, ops) == [v1] + Versions(v1, [Add(5)]);
  }

  /** Both actions keep exactly one listener for the store's whole life. */
  lemma OneListenerEach(ops: seq<Op>)
    ensures var c := Run(New(), ops);
      |c.increment.listeners| == 1 && |c.add.listeners| == 1
  {
  }
}
