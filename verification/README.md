# PolarizedFlux in Dafny

PolarizedFlux is a small Flux-style state container written in TypeScript. A
`Store` holds one state value in a replay-latest channel (an RxJS
`BehaviorSubject`). It changes that value only through `updateState(transform)`.
It builds `RxAction`s, which are hot channels with no replay. Callers `execute`
an action, and the handler the store subscribed to it calls `updateState`.
`ApiTestStore` is a concrete counter built this way.

The model does not model RxJS. It models the two channel kinds as sequential
state machines:

- `Actions` (`Source/RxAction.ts`): an action is an ordered list of listeners
  (id and handler), the next id to hand out, and a trace of every delivery as
  a (listener id, parameter) pair. `Execute` fans the parameter out to the current
  listeners in registration order. `Subscribe` appends a listener under a fresh id.
  `Unsubscribe` removes it. A listener's log is the trace filtered to its id.
- `Stores` (`Source/Store.ts`): a store has the current state, a map from
  subscription id to the values that subscription received, the set of active
  subscriptions, and the next id. `Subscribe` starts the new log with the current
  state (replay-latest). `UpdateState` applies the transform once and appends the
  result to every active log. `CreateAction`, `CreateActionAdvanced` and
  `CreateActionAndSubscribe` build and wire actions. `ExecuteWired` executes an
  action whose listeners call `updateState`.
- `Counter` (`Test/ApiTestStore.ts`): the counter store. Its state starts at
  `{value: 1}`. `increment` adds 1 and `add(n)` adds `n`.
- `ActionsAsWritten`: `RxAction` exactly as the class is written, with its
  `subject` field never assigned (see Findings).
- `Channels`: subscription ids and the result of a subscribe call, shared by both
  channel kinds.

Both modules keep a reachable-state invariant `Valid`. It says ids are unique and
were already handed out. For a store, it also says every active subscriber's
latest value is the current state. The constructors establish `Valid` and every
operation preserves it. The lemmas assume it.

`observe()` on both classes returns the channel itself, so subscribing through
`observe()` is the same transition as `subscribe`.

A store subscriber's handler is modelled by the log of values delivered to it.
An action listener's handler is an opaque payload `H`. The store interprets it
with an `effect` function that gives the transform the handler passes to
`updateState`. In `Counter`, the two closures the constructor subscribes are the
tags `CallOnIncrement` and `CallOnAdd`.

## Model

| member | source | states |
|---|---|---|
| `Actions.Create` | PolarizedFlux/Source/RxAction.ts:7-8 | A new action, with its subject in place, has no listener and has delivered nothing. It satisfies the action invariant. |
| `Actions.Execute` | PolarizedFlux/Source/RxAction.ts:13-15 | `execute(p)` keeps every earlier delivery. It then delivers `p` once to each current listener, in registration order. It leaves the listener list unchanged and is a no-op when there are no listeners. |
| `Actions.ExecuteLog` | PolarizedFlux/Source/RxAction.ts:13-15 | Per listener, `execute(p)` adds exactly `p` to the log of each current listener and nothing to any other id's log. |
| `Actions.ExecuteInRegistrationOrder` | PolarizedFlux/Source/RxAction.ts:13-15 | When the listeners are listed in subscription order, of two listeners the one that subscribed first (the smaller id) sits earlier in the list and receives `p` at an earlier point of the delivery trace. |
| `Actions.Subscribe` | PolarizedFlux/Source/RxAction.ts:29-31 | `subscribe(h)` appends exactly one listener, `h`, after the existing ones. Its id is the next one handed out, which is larger than every id handed out before, so a cancelled id is never reused. It does not touch existing listeners or past deliveries. |
| `Actions.Unsubscribe` | PolarizedFlux/Source/RxAction.ts:27-31 | Cancelling a subscription removes exactly that listener's entry and keeps the other listeners, with their handlers, in their order. Cancelling an id that is not listed changes nothing. No delivery is altered. |
| `Actions.WithoutShape` | PolarizedFlux/Source/RxAction.ts:27-31 | Taking an id off a listener list where it appears once removes exactly that entry and keeps the rest in order. Taking off an id that is absent leaves the list as it was. |
| `Actions.SubscribeAll` | PolarizedFlux/Source/Store.ts:75-81 | A wiring callback that subscribes handlers one after another leaves the earlier listeners as they were. The handlers follow in order, under consecutive fresh ids. No delivery is added. |
| `Actions.SubscribeAllValid` | PolarizedFlux/Source/RxAction.ts:29-31 | Subscribing any number of handlers keeps the action invariant: listener ids stay unique and already handed out. |
| `Actions.UnsubscribeIdempotent` | PolarizedFlux/Source/RxAction.ts:27-31 | Cancelling twice has the same effect as cancelling once. |
| `Actions.ListenerHearsLaterExecutes` | PolarizedFlux/Source/RxAction.ts:13-31 | A listener that is never cancelled receives the parameter of every later `execute`, in order, and nothing else, whatever else happens on the action. |
| `Actions.CancelledHearsNothing` | PolarizedFlux/Source/RxAction.ts:27-31 | After cancellation, a listener's log never grows again over any sequence of executes, subscribes and cancels. |
| `Actions.NoReplay` | PolarizedFlux/Source/RxAction.ts:8-31 | A listener subscribed after `execute(p)` returned receives exactly the parameters of the executes after its subscription, so it never receives that earlier `p`. |
| `Actions.RunValid` | PolarizedFlux/Source/RxAction.ts:13-31 | Every sequence of executes, subscribes and cancels keeps the action invariant. |
| `Actions.ReachableIsValid` | PolarizedFlux/Source/RxAction.ts:7-32 | Every action reached from a new one by any sequence of operations satisfies the invariant: unique listener ids, and only handed-out ids listed or delivered to. Its listeners are listed in subscription order, whatever was cancelled on the way. |
| `Actions.RunAscending` | PolarizedFlux/Source/RxAction.ts:13-31 | Executes, subscribes and cancels keep a listener list that is in subscription order in that order. |
| `Stores.New` | PolarizedFlux/Source/Store.ts:34-36 | After construction the current state is `initialState` and no subscription exists. |
| `Stores.Subscribe` | PolarizedFlux/Source/Store.ts:48-50 | A new subscription's log is exactly the current state, delivered at subscribe time. Every other log and the current state are unchanged. |
| `Stores.Unsubscribe` | PolarizedFlux/Source/Store.ts:17-21 | Cancelling deactivates exactly that subscription. Logs and state are unchanged. |
| `Stores.UpdateState` | PolarizedFlux/Source/Store.ts:56-61 | The new state is the transform of the old state. Every active log grows by exactly that value. Cancelled logs and the set of subscriptions are unchanged, and the invariant is kept. |
| `Stores.RunValid` | PolarizedFlux/Source/Store.ts:48-61 | Every sequence of subscribes, cancels and updates keeps the store invariant: each active subscriber's latest value is the current state. |
| `Stores.CurrentIsLatestPublished` | PolarizedFlux/Source/Store.ts:56-61 | After any run, the current state is the last value published, or the starting state if nothing was published. |
| `Stores.PublishedDependsOnStateOnly` | PolarizedFlux/Source/Store.ts:56-61 | What a run publishes depends only on the starting state, not on who is subscribed. |
| `Stores.ActiveLogGrowsByPublished` | PolarizedFlux/Source/Store.ts:56-61 | No lost, skipped or reordered versions: a subscription never cancelled in a run receives every published state, in order, and nothing else. |
| `Stores.CancelledLogFrozen` | PolarizedFlux/Source/Store.ts:17-21 | Once cancelled, a subscription stays inactive and its log never grows again, whatever the store does. |
| `Stores.SubscriberSeesCurrentThenPublished` | PolarizedFlux/Source/Store.ts:34-50 | Replay-latest: a new subscriber receives the state current at subscribe time, then exactly what is published afterwards. |
| `Stores.NoLostUpdates` | PolarizedFlux/Source/Store.ts:56-61 | `updateState(f)` then `updateState(g)` leaves `g(f(s))`, and an earlier subscriber sees `s, f(s), g(f(s))`. |
| `Stores.CreateAction` | PolarizedFlux/Source/Store.ts:66-68 | `createAction` returns a fresh action with no listeners and no deliveries. |
| `Stores.CreateActionAdvanced` | PolarizedFlux/Source/Store.ts:75-81 | The returned action is the fresh one after the wiring callback's executes, subscribes and cancels, applied once and in order. Whatever the callback does, the result satisfies the action invariant and lists its listeners in subscription order. |
| `Stores.Subscribing` | PolarizedFlux/Source/Store.ts:89 | The callback `action => action.subscribe(h)`, taken for each handler in turn: exactly one subscribe per handler, in the given order, and nothing else. |
| `Stores.SubscribingIsSubscribeAll` | PolarizedFlux/Source/Store.ts:87-90 | A callback that only subscribes handlers adds them one after another, in order, under consecutive fresh ids, as `createActionAndSubscribe`'s callback does with its one handler. |
| `Stores.WiredBeforeExposure` | PolarizedFlux/Source/Store.ts:75-81 | The action `createActionAdvanced` returns already has exactly the handlers its wiring callback subscribed, in order, and has delivered nothing. So the first `execute` reaches all of them. |
| `Stores.CreateActionAndSubscribe` | PolarizedFlux/Source/Store.ts:87-90 | The returned action has exactly one listener, the given handler, and has delivered nothing. |
| `Stores.ApplyHandlers` | PolarizedFlux/Source/Store.ts:56-61 | When the listeners of an executed action each run `updateState`, the store ends exactly as after the base store runs those updates in listener order. Every active log grows by one value per listener. Cancelled logs and subscriptions are unchanged. |
| `Stores.PublishedUpdates` | PolarizedFlux/Source/Store.ts:56-61 | Those updates publish one state per listener. The first is the first listener's transform of the state before. Each later one is the next listener's transform of the state published before it. |
| `Stores.ExecuteWired` | PolarizedFlux/Source/RxAction.ts:13-15 | Executing a store-wired action records the deliveries. The store then runs one `updateState` per listener, in registration order. With a single listener, that is exactly one `updateState` with that listener's transform. |
| `Stores.ExecuteWiredDelivers` | PolarizedFlux/Source/Store.ts:56-61 | After a store-wired action is executed, every active store subscriber has received exactly the states the listeners' updates published, in order. The store's state is the last of them, or unchanged when the action has no listener. |
| `Counter.New` | PolarizedFlux/Test/ApiTestStore.ts:22-30 | Construction gives state value 1 and no subscribers. Each action is wired to its one handler and has delivered nothing. |
| `Counter.OnIncrement` | PolarizedFlux/Test/ApiTestStore.ts:36-39 | The increment transform maps value `v` to `v + 1` and copies every other field. |
| `Counter.OnAdd` | PolarizedFlux/Test/ApiTestStore.ts:32-34 | The add transform maps value `v` to `v + n` and copies every other field. |
| `Counter.ExecuteIncrement` | PolarizedFlux/Test/ApiTestStore.ts:28 | `increment.execute()` is one `updateState` with the increment transform: the value goes up by one, other fields stay, and the wiring stays. |
| `Counter.ExecuteAdd` | PolarizedFlux/Test/ApiTestStore.ts:29 | `add.execute(n)` is one `updateState` with the add transform: the value goes up by `n`, other fields stay, and the wiring stays. |
| `Counter.RunValue` | PolarizedFlux/Test/ApiTestStore.ts:28-39 | Over any run, the value grows by the number of increments plus the sum of the add arguments. No other field changes. |
| `Counter.FinalValue` | PolarizedFlux/Test/ApiTestStore.ts:24-39 | From construction, any sequence of calls ends with value `1 + increments + sum of add arguments`. |
| `Counter.RunIsStoreRun` | PolarizedFlux/Test/ApiTestStore.ts:28-39 | Any run of the counter's calls leaves its store exactly as the base store run with the matching `updateState` transforms, subscribes and cancels. The wiring adds no state change and loses none. |
| `Counter.VersionsArePublished` | PolarizedFlux/Test/ApiTestStore.ts:32-39 | The states the counter publishes are exactly those computed call by call: each executed action publishes its transform of the state before it. |
| `Counter.WatcherSeesVersions` | PolarizedFlux/Test/ApiTestStore.ts:28-39 | A subscriber that stays subscribed receives every state the actions publish, each computed from the previous one, in order. |
| `Counter.ObservedOneTwoSeven` | PolarizedFlux/Test/ApiTestStore.ts:24-39 | A subscriber attached right after construction observes 1, then 2 after `increment.execute()`, then 7 after `add.execute(5)`. |
| `Counter.ObservedFromOne` | PolarizedFlux/Test/ApiTestStore.ts:28-39 | From any counter at value 1 whose subscriber has so far received only the current state, `increment.execute()` then `add.execute(5)` leave that subscriber with values 1, 2, 7. |
| `Counter.OneListenerEach` | PolarizedFlux/Test/ApiTestStore.ts:28-29 | After construction and any later calls, `increment` and `add` each have exactly one listener. |
| `ActionsAsWritten.New` | PolarizedFlux/Source/RxAction.ts:7-8 | As written, a new `RxAction` has `subject` undefined. |
| `ActionsAsWritten.Execute` | PolarizedFlux/Source/RxAction.ts:13-15 | As written, `execute` throws exactly when `subject` is undefined. Otherwise it behaves as the intended channel. |
| `ActionsAsWritten.Subscribe` | PolarizedFlux/Source/RxAction.ts:29-31 | As written, `subscribe` throws exactly when `subject` is undefined. Otherwise it behaves as the intended channel. |
| `ActionsAsWritten.CreateActionAndSubscribe` | PolarizedFlux/Source/Store.ts:87-90 | As written, `createActionAndSubscribe` always throws, because it subscribes to a new `RxAction`. |
| `ActionsAsWritten.FreshActionThrows` | PolarizedFlux/Source/RxAction.ts:8-15 | Every `RxAction` the class can construct throws on `execute` and on `subscribe`. |
| `ActionsAsWritten.ApiTestStoreConstructorThrows` | PolarizedFlux/Test/ApiTestStore.ts:28 | As written, the `ApiTestStore` constructor throws while wiring `increment`. |
| `ActionsAsWritten.InitialisedActionWorks` | PolarizedFlux/Source/RxAction.ts:8-31 | With the subject in place, `subscribe` then `execute(p)` both return, and the new listener receives exactly `p`. |

## Left out

- RxJS is not modelled as a library. `Subject` and `BehaviorSubject` are only the subscriber-log state machines described above. `Subscription` objects are the ids that subscribe returns.
- The `first()` read inside `updateState` is modelled as a single read of the current state. This is what it does when no notification is in progress.
- Re-entrant delivery is not modelled: a subscriber or listener that calls `updateState` or `execute` while a notification is still running. The order RxJS gives such nested calls belongs to the library. Listener effects are recorded deliveries, and store-wired listeners run their `updateState` one after another.
- Multi-threaded access is not modelled. JavaScript runs these calls on one thread and the code takes no locks, so sequential transitions cover it.
- Exceptions thrown by transforms or listeners are not modelled. The code has no policy for them, so transforms are total functions `S -> S`.
- Cancelling a subscription from inside its own notification is not modelled. It depends on re-entrant delivery.
- TypeScript `number` is modelled as an unbounded integer. Floating-point rounding above 2^53 is not modelled. Neither are non-integer, infinite or NaN arguments to `add` (such as `add.execute(0.5)`), which `Counter.Add(n: int)` cannot express.
- The commented-out cross-store composition at `Source/Store.ts:92-96` is not modelled. It has no code.
- `Source/IAction.ts` and `Action.ts` are interfaces with no logic. The execute-only view they give `ApiTestStore`'s public fields appears as `Counter.Op`, which can execute the actions but cannot subscribe to them.
- Stores.CreateActionAdvanced: an execute performed inside the wiring callback only records its deliveries on the action. In the source, a listener already wired to the store would run `updateState` at that moment; the model drops that store update. No callback in the repository executes the action it is wiring.
- Stores.WiredBeforeExposure: covers wiring callbacks that only subscribe handlers, the only kind the repository uses. `CreateActionAdvanced` itself accepts any callback given as the executes, subscribes and cancels it performs on the fresh action. A callback that keeps the action and uses it after returning is modelled as later operations on the returned action.
- Counter.New: the handler closures `_ => this.onIncrement()` and `n => this.onAdd(n)` are represented by tags whose meaning `IncrementEffect` and `AddEffect` give. They are not arbitrary callbacks.

## Findings

| source | as written | input that shows it | evidently intended | confidence | as-written member | corrected member |
|---|---|---|---|---|---|---|
| PolarizedFlux/Source/RxAction.ts:8 | `subject` is declared with no initialiser, and the class has no constructor, so every instance holds `undefined` there. `execute`, `observe().subscribe` and `subscribe` then throw a `TypeError`. | `new RxAction().execute(x)` or `.subscribe(h)`. Also `new ApiTestStore()`, whose constructor calls `createActionAndSubscribe`. | `subject` initialised to a fresh `Rx.Subject`, so that an action starts with no listeners and delivers to those that subscribe | high; not executed | `ActionsAsWritten.FreshActionThrows` | `Actions.Create` |

The rest of the model (`Stores`, `Counter`) is built on the corrected `Actions`
channel.
