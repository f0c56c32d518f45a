# In-memory event store of LiteCQRS, modelled in Dafny

LiteCQRS's `InMemoryEventStore` stages the domain events raised while a command
is handled, and only hands them to the event message bus when the unit of work
commits. It keeps two collections:

- `events`: the pending list, in staging order.
- `seenEvents`: an identity-keyed set of every event it has staged.

Its operations work as follows:

- `store` ignores an event it has seen before. Otherwise it records the event as seen and appends it.
- `beginTransaction` refuses to start while events are pending.
- `rollback` drops the pending list.
- `commit` passes the pending list through the `sort` hook, which returns it unchanged, and resets the field to empty. It then hands each event of the snapshot in turn to the bus.

The project has three modules:

- `Staging` (`staging.dfy`) is the store as a pure state machine. A `State(events, seen)` value stands for the store's fields, and one function per operation gives the new state, the events dispatched and the outcome. `Run` applies a whole sequence of operations, which makes lifetime properties statable. The lemmas about the store's properties live here.
- `Bus` (`event_store.dfy`) is the message bus reduced to a ghost log of the events it has handled. `Handle` has a flag that makes the call fail.
- `EventStore` (`event_store.dfy`) holds the class `InMemoryEventStore`. Its fields `events` and `seenEvents` are updated in place by `Store`, `BeginTransaction`, `Rollback` and `Commit`. Each method is proved to take the store from `old(State())` to the state the matching `Staging` function gives. `Commit` keeps the source's loop over the sorted snapshot. Two client methods (`StagingScenario`, `FailureScenario`) show what a caller can conclude from these contracts.

Event identity is equality on the type parameter `E`. Instantiated with a class type, this is reference identity, as with PHP's `SplObjectStorage`. Two structurally equal but distinct objects stay distinct.

The seen set is never cleared. `commit`, `rollback` and `beginTransaction` reset only the pending list. The model follows this literally. So the seen set does not cover only the current transaction, and the two collections are not both empty between transactions: an event once staged is never staged or dispatched again, by the same store, in any later transaction. `Staging.RetiredStaysRetired` and `Staging.DispatchedAtMostOnce` state that consequence.

## Model

| member | source | states |
|---|---|---|
| `Staging.Store` | src/LiteCQRS/EventStore/InMemoryEventStore.php:27-35 | Storing an already seen event changes nothing. Storing an unseen event appends it to the end of the pending list. In both cases the seen set afterwards is the old one plus the event. The class invariant (no duplicate pending identities, every pending event seen) is preserved. |
| `Staging.BeginTransaction` | src/LiteCQRS/EventStore/InMemoryEventStore.php:37-43 | Fails with `StateError` exactly when events are pending. On failure the state is unchanged. On success the pending list is empty and the seen set unchanged. Nothing is dispatched. |
| `Staging.Rollback` | src/LiteCQRS/EventStore/InMemoryEventStore.php:45-48 | Empties the pending list and leaves the seen set unchanged. The result satisfies the class invariant. |
| `Staging.Commit` | src/LiteCQRS/EventStore/InMemoryEventStore.php:50-63 | Leaves the pending list empty and the seen set unchanged. The dispatched events are a prefix of the pending list in staging order, because `Sort` is the identity. The outcome is `Done` exactly when every pending event was dispatched. When the bus fails at a position k inside the pending list, the outcome is `DispatchError(k)` and exactly the first k events were dispatched; a `DispatchError(k)` outcome happens only then. An empty commit dispatches nothing and succeeds. |
| `Staging.Apply` | src/LiteCQRS/EventStore/InMemoryEventStore.php:27-58 | Every operation keeps the class invariant and never shrinks the seen set. Every operation dispatches only events that were pending. An operation that dispatches anything leaves the pending list empty. |
| `Staging.StoreAllStagesFirstSightings` | src/LiteCQRS/EventStore/InMemoryEventStore.php:27-35 | Storing a sequence of events appends to the pending list the events not seen before, each at its first occurrence. It adds every stored event to the seen set. |
| `Staging.FirstSightingsExactlyOnce` | src/LiteCQRS/EventStore/InMemoryEventStore.php:29-34 | Each unseen event of a stored sequence is staged exactly once (no duplicates), and only unseen events are staged. |
| `Staging.FirstSightingsOfFreshEvents` | src/LiteCQRS/EventStore/InMemoryEventStore.php:33-34 | Distinct, never-seen events are staged exactly as given, in order. |
| `Staging.CommitDispatchesFirstSightings` | src/LiteCQRS/EventStore/InMemoryEventStore.php:27-58 | Storing a sequence and then committing dispatches the previously pending events, followed by each newly seen event once, in the order of its first store. The commit succeeds. |
| `Staging.CommitPreservesStagingOrder` | src/LiteCQRS/EventStore/InMemoryEventStore.php:50-63 | Distinct, never-seen events stored into an empty pending list are dispatched by the next commit exactly in staging order. |
| `Staging.CloseThenBeginSucceeds` | src/LiteCQRS/EventStore/InMemoryEventStore.php:37-58 | After a commit (whatever its outcome) or a rollback, `beginTransaction` succeeds and changes nothing. |
| `Staging.SeenOnlyGrows` | src/LiteCQRS/EventStore/InMemoryEventStore.php:24-58 | No sequence of operations removes an identity from the seen set. |
| `Staging.RetiredStaysRetired` | src/LiteCQRS/EventStore/InMemoryEventStore.php:29-33 | An event that is seen but no longer pending stays that way under any later operations. It is never dispatched by them, whether it left the pending list by commit or by rollback. |
| `Staging.ClosedEventNeverStagedOrDispatchedAgain` | src/LiteCQRS/EventStore/InMemoryEventStore.php:24-58 | An event that is pending when the transaction is closed, by rollback or by a commit with any outcome, is never pending again and is never dispatched by any later operations. |
| `Staging.DispatchedAtMostOnce` | src/LiteCQRS/EventStore/InMemoryEventStore.php:27-58 | From any state satisfying the class invariant, no sequence of operations hands the same event to the bus twice. |
| `Staging.EveryEventDispatchedAtMostOnce` | src/LiteCQRS/EventStore/InMemoryEventStore.php:21-58 | Over the whole life of a freshly constructed store, every event reaches the bus at most once. |
| `Staging.DispatchedWereStored` | src/LiteCQRS/EventStore/InMemoryEventStore.php:27-58 | Every dispatched event was either pending at the start or passed to `store` along the way. |
| `Bus.EventMessageBus.Handle` | src/LiteCQRS/EventStore/InMemoryEventStore.php:56 | A successful call appends the event to the bus's log and reports success. A failing call leaves the log unchanged and reports failure. |
| `EventStore.InMemoryEventStore.constructor` | src/LiteCQRS/EventStore/InMemoryEventStore.php:17-25 | A new store has no pending events and an empty seen set, and is wired to the given bus. |
| `EventStore.InMemoryEventStore.Store` | src/LiteCQRS/EventStore/InMemoryEventStore.php:27-35 | Moves the fields exactly as `Staging.Store` does: a seen event is ignored; an unseen one is appended and attached. The class invariant is kept. |
| `EventStore.InMemoryEventStore.BeginTransaction` | src/LiteCQRS/EventStore/InMemoryEventStore.php:37-43 | Returns `StateError`, leaving the pending list untouched, exactly when events were pending. Otherwise it returns `Done` with an empty pending list. This is `Staging.BeginTransaction`. |
| `EventStore.InMemoryEventStore.Rollback` | src/LiteCQRS/EventStore/InMemoryEventStore.php:45-48 | Empties the pending list, leaves the seen set and the bus alone, and keeps the class invariant. |
| `EventStore.InMemoryEventStore.Commit` | src/LiteCQRS/EventStore/InMemoryEventStore.php:50-63 | Ends with an empty pending list and returns the outcome `Staging.Commit` gives. It appends to the bus's log exactly the events `Staging.Commit` dispatches, in staging order. It stops at the failing position when the bus fails there. It leaves the seen set unchanged. |

## Left out

- Delivery inside `EventMessageBus::handle` (subscriber resolution and so on) is not part of this model. The bus is only a log of handled events. Whether it fails is an input: `Commit`'s `failAt` parameter, passed on to `Handle`.
- The structure of `DomainEvent` and the workings of `SplObjectStorage` are not modelled. An event is a value of the type parameter `E`, and the seen set is a `set<E>`.
- The `EventStoreInterface` declaration is not part of this model.
- The `RuntimeException` thrown by `beginTransaction` is the `StateError` outcome; its message is not modelled. An exception thrown by the bus is the `DispatchError(k)` outcome, where k is the position of the failing event.
- `sort` is the fixed identity function `Staging.Sort`, as in the class. Overriding it in a subclass is not modelled.
- A bus handler calling back into the store during `commit` is not modelled. `Handle` changes only the bus, so `commit` always ends with an empty pending list. The source clears the list before the dispatch loop (line 53), which would let events stored by such a handler survive the commit; the model does not capture that.
- Concurrency is not modelled. The class is used from one thread.
