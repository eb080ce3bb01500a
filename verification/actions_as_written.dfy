/** `RxAction` exactly as the class is written. Its `subject` field is declared
    but nothing ever assigns it: there is no initialiser on the declaration and no
    constructor. A new instance therefore holds `undefined` there, and `execute`,
    `observe().subscribe` and `subscribe` all read a property of `undefined`, which
    throws a `TypeError`.

    The rest of the model uses `Actions`, which is the channel the class evidently
    meant to hold (`new Rx.Subject()`). This module only records how the class
    as written behaves. */
module ActionsAsWritten {
  import opened Channels
  import Actions
  import Counter

  /** A field that may never have been assigned. */
  datatype Slot<T> = Undefined | Defined(value: T)

  /** What a call on the class can end in: a normal return, or the `TypeError`
      thrown by reading a property of `undefined`. */
  datatype Outcome<T> = Returned(value: T) | ThrewTypeError

  datatype RxAction<P, H> = RxAction(subject: Slot<Actions.Action<P, H>>)

  /** `new RxAction()`: nothing assigns `subject`. */
  function New<P, H>(): (a: RxAction<P, H>)
    ensures a.subject.Undefined?
  {
    RxAction(Undefined)
  }

  /** `execute(p)` is `this.subject.next(p)`: it throws when `subject` is
      undefined and otherwise behaves as the intended channel does. */
  function Execute<P, H>(a: RxAction<P, H>, p: P): (r: Outcome<RxAction<P, H>>)
    ensures r.ThrewTypeError? <==> a.subject.Undefined?
    ensures a.subject.Defined? ==> r == Returned(RxAction(Defined(Actions.Execute(a.subject.value, p))))
  {
    match a.subject
    case Undefined => ThrewTypeError
    case Defined(ch) => Returned(RxAction(Defined(Actions.Execute(ch, p))))
  }

  /** `subscribe(h)` is `this.subject.subscribe(h)`: it throws when `subject` is
      undefined and otherwise behaves as the intended channel does. */
  function Subscribe<P, H>(a: RxAction<P, H>, handler: H): (r: Outcome<Subscribed<RxAction<P, H>>>)
    ensures r.ThrewTypeError? <==> a.subject.Undefined?
    ensures a.subject.Defined? ==>
      var s := Actions.Subscribe(a.subject.value, handler);
      r == Returned(Subscribed(RxAction(Defined(s.channel)), s.id))
  {
    match a.subject
    case Undefined => ThrewTypeError
    case Defined(ch) =>
      var s := Actions.Subscribe(ch, handler);
      Returned(Subscribed(RxAction(Defined(s.channel)), s.id))
  }

  /** `createActionAndSubscribe(h)` as written: `createAction` makes a `new
      RxAction()`, and the wiring callback calls `subscribe` on it. */
  function CreateActionAndSubscribe<P, H>(handler: H): (r: Outcome<RxAction<P, H>>)
    ensures r.ThrewTypeError?
  {
    match Subscribe(New<P, H>(), handler)
    case ThrewTypeError => ThrewTypeError
    case Returned(s) => Returned(s.channel)
  }

  /** The discrepancy: every action the class can construct throws on its first
      `execute` and on its first `subscribe`. */
  lemma FreshActionThrows<P, H>(p: P, handler: H)
    ensures Execute(New<P, H>(), p).ThrewTypeError?
    ensures Subscribe(New<P, H>(), handler).ThrewTypeError?
  {
  }

  /** Consequently the `ApiTestStore` constructor, whose first action is wired by
      `createActionAndSubscribe`, throws before it returns a store. */
  lemma ApiTestStoreConstructorThrows()
    ensures CreateActionAndSubscribe<(), Counter.IncrementHandler>(Counter.CallOnIncrement).ThrewTypeError?
  {
  }

  /** With the subject in place, as `Actions.Create` has it, the same calls go
      through and the new listener hears the next execute. */
  lemma InitialisedActionWorks<P, H>(p: P, handler: H)
    ensures var a := RxAction(Defined(Actions.Create<P, H>()));
      && Subscribe(a, handler).Returned?
      && var s := Subscribe(a, handler).value;
      && Execute(s.channel, p).Returned?
      && Actions.Log(Execute(s.channel, p).value.subject.value.trace, s.id) == [p]
  {
    var ch := Actions.Create<P, H>();
    var sub := Actions.Subscribe(ch, handler);
    assert Actions.Ids(sub.channel.listeners)[0] == sub.id;
    Actions.ExecuteLog(sub.channel, p, sub.id);
  }
}
