/** The message bus (src/allocation/service_layer/messagebus.py): a worklist
    loop that hands each event to the handlers registered for its type.
    The handlers and the unit of work's `collect_new_events` are abstract
    here: the `n`-th handler call (counting from 0) ends as
    `invoke(n, call)` says, returning a value or raising an exception, and
    the events collected right after a call that returned are
    `collect(n)`. */
module MessageBus {
  import opened Basics
  import opened Messages

  /** The Python class of an event, the key of the handler table. */
  datatype EventType =
    | OutOfStockType
    | BatchCreatedType
    | BatchQuantityChangedType
    | AllocationRequiredType
    | DeallocationRequiredType
    | AllocatedType
    | DeallocatedType

  function TypeOf(e: Event): EventType
  {
    match e
    case OutOfStock(_) => OutOfStockType
    case BatchCreated(_, _, _, _) => BatchCreatedType
    case BatchQuantityChanged(_, _) => BatchQuantityChangedType
    case AllocationRequired(_, _, _) => AllocationRequiredType
    case DeallocationRequired(_, _, _) => DeallocationRequiredType
    case Allocated(_, _, _, _) => AllocatedType
    case Deallocated(_, _, _) => DeallocatedType
  }

  datatype Handler = AddBatch | AllocateHandler | DeallocateHandler | SendOutOfStockNotification

  /** The registered handlers, one per handled event type. */
  const HANDLERS: map<EventType, seq<Handler>> :=
    map[
      BatchCreatedType := [AddBatch],
      AllocationRequiredType := [AllocateHandler],
      DeallocationRequiredType := [DeallocateHandler],
      OutOfStockType := [SendOutOfStockNotification]
    ]

  /** One handler invocation on one event. */
  datatype Call = Call(handler: Handler, event: Event)

  /** How one handler call ends: it returns a value, or raises an exception
      (such as `InvalidSku`) that `handle` does not catch. */
  datatype HandlerResult = Returned(value: Option<string>) | Raises(exception: string)

  /** What `handle` does: return the results, raise `KeyError` for an event
      type with no table entry, pass on the exception a handler raised, or
      (in the model only) run out of fuel. */
  datatype Outcome =
    | Done(results: seq<Option<string>>)
    | KeyError(missing: EventType)
    | Raised(exception: string)
    | OutOfFuel

  ghost predicate Registered(table: map<EventType, seq<Handler>>, events: seq<Event>)
  {
    forall i :: 0 <= i < |events| ==> TypeOf(events[i]) in table
  }

  function CallsFor(handlers: seq<Handler>, e: Event): seq<Call>
  {
    seq(|handlers|, i requires 0 <= i < |handlers| => Call(handlers[i], e))
  }

  /** The handler calls due for `processed`, event by event and, within an
      event, in table order. */
  ghost function Dispatch(table: map<EventType, seq<Handler>>, processed: seq<Event>): seq<Call>
    requires Registered(table, processed)
  {
    if processed == [] then []
    else
      var last := processed[|processed| - 1];
      Dispatch(table, processed[..|processed| - 1]) + CallsFor(table[TypeOf(last)], last)
  }

  /** The events collected after the first `n` handler calls, in order. */
  ghost function Collected(collect: nat -> seq<Event>, n: nat): seq<Event>
  {
    if n == 0 then [] else Collected(collect, n - 1) + collect(n - 1)
  }

  lemma DispatchSnoc(table: map<EventType, seq<Handler>>, processed: seq<Event>, e: Event)
    requires Registered(table, processed) && TypeOf(e) in table
    ensures Registered(table, processed + [e])
    ensures Dispatch(table, processed + [e]) == Dispatch(table, processed) + CallsFor(table[TypeOf(e)], e)
  {
    assert (processed + [e])[..|processed|] == processed;
  }

  /** With the registered table every handled event gets exactly one call,
      to the handler for its type. */
  lemma {:induction false} DispatchWithHandlers(processed: seq<Event>)
    requires Registered(HANDLERS, processed)
    ensures |Dispatch(HANDLERS, processed)| == |processed|
    ensures forall i :: 0 <= i < |processed| ==>
      Dispatch(HANDLERS, processed)[i] == Call(HANDLERS[TypeOf(processed[i])][0], processed[i])
  {
    if processed != [] {
      var init := processed[..|processed| - 1];
      assert Registered(HANDLERS, init) by {
        forall i | 0 <= i < |init| ensures TypeOf(init[i]) in HANDLERS {
          assert init[i] == processed[i];
        }
      }
      DispatchWithHandlers(init);
    }
  }

  /** An event type has a table entry exactly when some handler exists for it. */
  lemma HandledTypes(e: Event)
    ensures TypeOf(e) in HANDLERS <==>
      e.BatchCreated? || e.AllocationRequired? || e.DeallocationRequired? || e.OutOfStock?
  {
  }

  /** `done + queue` splits `all` before the head of a non-empty queue. */
  lemma SplitAtHead<T>(done: seq<T>, queue: seq<T>, all: seq<T>)
    requires done + queue == all && queue != []
    ensures |done| < |all| && done == all[..|done|] && all[|done|] == queue[0]
    ensures done + [queue[0]] + queue[1..] == all
    ensures done == [] ==> all[0] == queue[0]
    ensures done != [] ==> all[0] == done[0]
  {
    assert all[..|done|] == done;
  }

  /** The inner loop of `handle`: calls each handler in `handlers` on `e`,
      appending its result and then the events collected after it, and
      stops at the first handler that raises, returning its exception.
      `calls` are the calls made so far; `done` and `first` relate the queue
      to all events collected so far. */
  method CallHandlers(e: Event, handlers: seq<Handler>,
                      invoke: (nat, Call) -> HandlerResult, collect: nat -> seq<Event>,
                      results: seq<Option<string>>, queue: seq<Event>,
                      ghost calls: seq<Call>, ghost done: seq<Event>, ghost first: Event)
    returns (results': seq<Option<string>>, queue': seq<Event>, raised: Option<string>)
    requires |results| == |calls|
    requires forall i :: 0 <= i < |calls| ==> invoke(i, calls[i]) == Returned(results[i])
    requires done + queue == [first] + Collected(collect, |results|)
    ensures |calls| <= |results'| <= |calls + CallsFor(handlers, e)|
    ensures forall i :: 0 <= i < |results'| ==> invoke(i, (calls + CallsFor(handlers, e))[i]) == Returned(results'[i])
    ensures done + queue' == [first] + Collected(collect, |results'|)
    ensures raised.None? ==> |results'| == |calls + CallsFor(handlers, e)|
    ensures raised.Some? ==>
      |calls| <= |results'| < |calls + CallsFor(handlers, e)| &&
      invoke(|results'|, (calls + CallsFor(handlers, e))[|results'|]) == Raises(raised.value)
  {
    results' := results;
    queue' := queue;
    for j := 0 to |handlers|
      invariant |results'| == |calls| + j
      invariant forall i :: 0 <= i < |results'| ==> invoke(i, (calls + CallsFor(handlers[..j], e))[i]) == Returned(results'[i])
      invariant done + queue' == [first] + Collected(collect, |results'|)
    {
      var n := |results'|;
      var result := invoke(n, Call(handlers[j], e));
      assert CallsFor(handlers[..j + 1], e) == CallsFor(handlers[..j], e) + [Call(handlers[j], e)];
      if result.Raises? {
        assert (calls + CallsFor(handlers, e))[n] == Call(handlers[j], e);
        forall i | 0 <= i < n ensures invoke(i, (calls + CallsFor(handlers, e))[i]) == Returned(results'[i]) {
          assert (calls + CallsFor(handlers, e))[i] == (calls + CallsFor(handlers[..j], e))[i];
        }
        return results', queue', Some(result.exception);
      }
      results' := results' + [result.value];
      assert done + (queue' + collect(n)) == (done + queue') + collect(n);
      queue' := queue' + collect(n);
    }
    assert handlers[..|handlers|] == handlers;
    raised := None;
  }

  /** `results` are the results of the calls due for `processed`, the i-th
      result coming from the i-th call. */
  ghost predicate ResultsOf(table: map<EventType, seq<Handler>>, invoke: (nat, Call) -> HandlerResult,
                            processed: seq<Event>, results: seq<Option<string>>)
  {
    Registered(table, processed) &&
    var calls := Dispatch(table, processed);
    |results| == |calls| && forall i :: 0 <= i < |calls| ==> invoke(i, calls[i]) == Returned(results[i])
  }

  /** While `processed` was handled, the calls before call `made` returned
      and call `made`, one of those due for the last event, raised
      `exception`. */
  ghost predicate RaisedIn(table: map<EventType, seq<Handler>>, invoke: (nat, Call) -> HandlerResult,
                           processed: seq<Event>, made: nat, exception: string)
  {
    processed != [] && Registered(table, processed) &&
    var calls := Dispatch(table, processed);
    Registered(table, processed[..|processed| - 1]) &&
    |Dispatch(table, processed[..|processed| - 1])| <= made < |calls| &&
    (forall i :: 0 <= i < made ==> invoke(i, calls[i]).Returned?) &&
    invoke(made, calls[made]) == Raises(exception)
  }

  /** One turn of the `while queue` loop after the pop: the handlers
      registered for `e`'s type run on it, up to the first that raises. */
  method ProcessEvent(e: Event, table: map<EventType, seq<Handler>>,
                      invoke: (nat, Call) -> HandlerResult, collect: nat -> seq<Event>,
                      results: seq<Option<string>>, queue: seq<Event>,
                      ghost processed: seq<Event>, ghost first: Event)
    returns (results': seq<Option<string>>, queue': seq<Event>, raised: Option<string>)
    requires ResultsOf(table, invoke, processed, results) && TypeOf(e) in table
    requires processed + [e] + queue == [first] + Collected(collect, |results|)
    ensures processed + [e] + queue' == [first] + Collected(collect, |results'|)
    ensures raised.None? ==> ResultsOf(table, invoke, processed + [e], results')
    ensures raised.Some? ==> RaisedIn(table, invoke, processed + [e], |results'|, raised.value)
  {
    DispatchSnoc(table, processed, e);
    results', queue', raised := CallHandlers(e, table[TypeOf(e)], invoke, collect, results, queue,
                                     Dispatch(table, processed), processed + [e], first);
  }

  /** `handle`: the queue starts as the submitted event; the head is popped,
      every handler registered for its type is called in order, each call
      adds one result and its newly collected events go to the tail.
      An exception a handler raises leaves `handle` at once, results and
      queue dropped. `fuel` bounds the number of events processed;
      `processed` (ghost) lists them, and `made` (ghost) counts the handler
      calls that returned. */
  method Handle(event: Event, table: map<EventType, seq<Handler>>,
                invoke: (nat, Call) -> HandlerResult, collect: nat -> seq<Event>, fuel: nat)
    returns (outcome: Outcome, ghost processed: seq<Event>, ghost made: nat)
    ensures Registered(table, processed) && |processed| <= fuel
    ensures outcome.Done? ==>
      var calls := Dispatch(table, processed);
      // the queue is empty: every event ever queued was processed, in FIFO order
      && processed == [event] + Collected(collect, |outcome.results|)
      && |outcome.results| == |calls|
      && forall i :: 0 <= i < |calls| ==> invoke(i, calls[i]) == Returned(outcome.results[i])
    ensures outcome.KeyError? ==>
      var queued := [event] + Collected(collect, |Dispatch(table, processed)|);
      && |processed| < |queued| && processed == queued[..|processed|]
      && TypeOf(queued[|processed|]) == outcome.missing && outcome.missing !in table
    ensures outcome.OutOfFuel? ==>
      var queued := [event] + Collected(collect, |Dispatch(table, processed)|);
      |processed| == fuel < |queued| && processed == queued[..fuel]
    ensures outcome.Raised? ==>
      var queued := [event] + Collected(collect, made);
      && RaisedIn(table, invoke, processed, made, outcome.exception)
      && |processed| <= |queued| && processed == queued[..|processed|]
    ensures 0 < fuel && TypeOf(event) !in table ==> outcome == KeyError(TypeOf(event))
  {
    var results: seq<Option<string>> := [];
    var queue := [event];
    var count := 0;
    processed := [];
    while queue != []
      invariant ResultsOf(table, invoke, processed, results) && count == |processed| <= fuel
      invariant processed + queue == [event] + Collected(collect, |results|)
      invariant processed != [] ==> processed[0] == event
      decreases fuel - |processed|
    {
      SplitAtHead(processed, queue, [event] + Collected(collect, |results|));
      if count == fuel {
        return OutOfFuel, processed, |results|;
      }
      var e := queue[0];
      queue := queue[1..];
      if TypeOf(e) !in table {
        return KeyError(TypeOf(e)), processed, |results|;
      }
      var raised;
      results, queue, raised := ProcessEvent(e, table, invoke, collect, results, queue, processed, event);
      if raised.Some? {
        assert (processed + [e]) + queue == [event] + Collected(collect, |results|);
        return Raised(raised.value), processed + [e], |results|;
      }
      processed := processed + [e];
      count := count + 1;
    }
    assert processed + queue == processed;
    return Done(results), processed, |results|;
  }
}
