/**
 * The message bus the store hands committed events to.  Its delivery to
 * subscribers is not modelled: only the record of the events it has handled,
 * and whether handling an event fails.
 */
module Bus {

  class EventMessageBus<E> {
    /** Every event this bus has handled successfully, in order. */
    ghost var handled: seq<E>

    constructor ()
      ensures handled == []
    {
      handled := [];
    }

    /** Handle one event; `fails` says whether the bus throws on it, in which case it is not handled. */
    method Handle(event: E, fails: bool) returns (ok: bool)
      modifies this
      ensures ok == !fails
      ensures handled == if ok then old(handled) + [event] else old(handled)
    {
      ok := !fails;
      if ok {
        handled := handled + [event];
      }
    }
  }
}

/**
 * The in-memory event store: the class whose methods update the pending list
 * and the seen set in place.  Each method is proved to move the store from
 * `old(State())` to the state the matching function of `Staging` gives.
 */
module EventStore {
  import Staging
  import Bus

  class InMemoryEventStore<E(==)> {
    /** Events staged since the last commit or rollback, in staging order. */
    var events: seq<E>
    /** Identities of every event ever staged; never cleared. */
    var seenEvents: set<E>
    const eventMessageBus: Bus.EventMessageBus<E>

    ghost function State(): Staging.State<E>
      reads this
    {
      Staging.State(events, seenEvents)
    }

    ghost predicate Valid()
      reads this
    {
      Staging.Valid(State())
    }

    constructor (messageBus: Bus.EventMessageBus<E>)
      ensures Valid()
      ensures State() == Staging.Initial()
      ensures eventMessageBus == messageBus
    {
      events := [];
      seenEvents := {};
      eventMessageBus := messageBus;
    }

    method Store(event: E)
      requires Valid()
      modifies this`events, this`seenEvents
      ensures Valid()
      ensures State() == Staging.Store(old(State()), event)
      // The same new state, spelled out field by field for readers of this class.
      ensures old(event in seenEvents) ==> events == old(events) && seenEvents == old(seenEvents)
      ensures old(event !in seenEvents) ==> events == old(events) + [event] && seenEvents == old(seenEvents) + {event}
    {
      if event in seenEvents {
        return;
      }
      seenEvents := seenEvents + {event};
      events := events + [event];
    }

    method BeginTransaction() returns (outcome: Staging.Outcome)
      requires Valid()
      modifies this`events
      ensures Valid()
      ensures Staging.BeginTransaction(old(State())) == Staging.Step(State(), [], outcome)
      // The same outcome and new state, spelled out for readers of this class.
      ensures outcome == Staging.StateError <==> old(events) != []
      ensures outcome == Staging.StateError ==> events == old(events)
      ensures outcome != Staging.StateError ==> outcome == Staging.Done && events == []
    {
      if events != [] {
        return Staging.StateError;
      }
      events := [];
      return Staging.Done;
    }

    method Rollback()
      requires Valid()
      modifies this`events
      ensures Valid()
      ensures State() == Staging.Rollback(old(State()))
      ensures events == []
    {
      events := [];
    }

    /**
     * Clear the pending list, then hand each pending event, in the order the
     * ordering hook gives, to the bus.  `failAt == Some(k)` stands for the bus
     * failing on the event at position `k`: the error is returned at once and
     * the later events are not handed over.
     */
    method Commit(failAt: Staging.Option<nat>) returns (outcome: Staging.Outcome)
      requires Valid()
      modifies this`events, eventMessageBus
      ensures Valid()
      ensures var step := Staging.Commit(old(State()), failAt);
              State() == step.after && outcome == step.outcome &&
              eventMessageBus.handled == old(eventMessageBus.handled) + step.dispatched
      ensures events == [] && seenEvents == old(seenEvents)
    {
      var pending := Staging.Sort(events);
      events := [];
      var i: nat := 0;
      while i < |pending|
        invariant i <= |pending|
        invariant events == [] && seenEvents == old(seenEvents)
        invariant eventMessageBus.handled == old(eventMessageBus.handled) + pending[..i]
        invariant failAt.Some? ==> i <= failAt.value
      {
        var ok := eventMessageBus.Handle(pending[i], failAt == Staging.Some(i));
        if !ok {
          return Staging.DispatchError(i);
        }
        i := i + 1;
      }
      assert pending[..i] == pending;
      return Staging.Done;
    }
  }

  /** A producer's use of the store, as the store's contracts let it reason. */
  method StagingScenario<E(==)>(a: E, b: E)
    requires a != b
  {
    var bus := new Bus.EventMessageBus<E>();
    var store := new InMemoryEventStore<E>(bus);

    // Storing the same event twice stages it once.
    store.Store(a);
    store.Store(b);
    store.Store(a);
    assert store.events == [a, b];

    // A transaction cannot begin while events are pending, and the refusal changes nothing.
    var outcome := store.BeginTransaction();
    assert outcome == Staging.StateError && store.events == [a, b];

    // Commit hands the events over in staging order and leaves the store empty.
    outcome := store.Commit(Staging.None);
    assert outcome == Staging.Done && bus.handled == [a, b];
    outcome := store.BeginTransaction();
    assert outcome == Staging.Done;

    // The seen set is never cleared: a committed event is not staged again.
    store.Store(a);
    assert store.events == [];
  }

  /** Rollback discards the pending events; a failing bus stops the dispatch at the failing event. */
  method FailureScenario<E(==)>(a: E, b: E, c: E)
    requires a != b && b != c && a != c
  {
    var bus := new Bus.EventMessageBus<E>();
    var store := new InMemoryEventStore<E>(bus);

    store.Store(a);
    store.Rollback();
    var outcome := store.Commit(Staging.None);
    assert outcome == Staging.Done && bus.handled == [];

    store.Store(b);
    store.Store(c);
    outcome := store.Commit(Staging.Some(1));
    assert outcome == Staging.DispatchError(1) && bus.handled == [b];
    assert store.events == [];
  }
}
