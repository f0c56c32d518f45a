/**
 * The in-memory event store as a pure state machine.
 *
 * A store holds two collections: the events staged since the last commit or
 * rollback, in staging order, and the identities of every event it has ever
 * staged.  The second collection is only ever added to: commit, rollback and
 * beginTransaction reset the pending list and leave the seen set as it is.
 * Event identity is the type parameter's equality, so two events are "the same
 * occurrence" exactly when they are equal values of `E`.
 */
module Staging {

  datatype Option<T> = None | Some(value: T)

  /**
   * What an operation reports to its caller.  `StateError` stands for the
   * exception beginTransaction throws while events are pending;
   * `DispatchError(k)` for the message bus failing on the event at position
   * `k` of a commit.
   */
  datatype Outcome = Done | StateError | DispatchError(position: nat)

  /** The store's fields: the pending list and the seen set. */
  datatype State<E> = State(events: seq<E>, seen: set<E>)

  /** One operation's effect: the new state, the events handed to the bus, and the outcome. */
  datatype Step<E> = Step(after: State<E>, dispatched: seq<E>, outcome: Outcome)

  /** The store's public operations; `CommitOp(Some(k))` is a commit whose bus fails on the k-th event. */
  datatype Op<E> = StoreOp(event: E) | BeginOp | RollbackOp | CommitOp(failAt: Option<nat>)

  /** A sequence of operations applied in turn: the final state and everything dispatched. */
  datatype Trace<E> = Trace(final: State<E>, dispatched: seq<E>)

  predicate Distinct<E(==)>(s: seq<E>) {
    forall i, j | 0 <= i < j < |s| :: s[i] != s[j]
  }

  /** The class invariant: no identity is pending twice, and every pending event has been seen. */
  predicate Valid<E(==)>(st: State<E>) {
    Distinct(st.events) && forall e | e in st.events :: e in st.seen
  }

  /** A freshly constructed store. */
  function Initial<E(==)>(): State<E> {
    State([], {})
  }

  /** Stage `e` unless an event with its identity has been seen before. */
  function Store<E(==)>(st: State<E>, e: E): (r: State<E>)
    ensures Valid(st) ==> Valid(r)
    ensures r.seen == st.seen + {e}
    ensures e in st.seen ==> r == st
    ensures e !in st.seen ==> r.events == st.events + [e]
  {
    if e in st.seen then st else State(st.events + [e], st.seen + {e})
  }

  /** Refuse to open a transaction while events are pending. */
  function BeginTransaction<E(==)>(st: State<E>): (r: Step<E>)
    ensures r.dispatched == []
    ensures r.outcome == StateError <==> st.events != []
    ensures r.outcome == StateError ==> r.after == st
    ensures r.outcome != StateError ==> r.outcome == Done && r.after.events == [] && r.after.seen == st.seen
  {
    if st.events != [] then Step(st, [], StateError) else Step(State([], st.seen), [], Done)
  }

  /** Drop the pending events without dispatching them. */
  function Rollback<E(==)>(st: State<E>): (r: State<E>)
    ensures Valid(r)
    ensures r.events == [] && r.seen == st.seen
  {
    State([], st.seen)
  }

  /** The ordering hook applied to the pending events before dispatch: it keeps staging order. */
  function Sort<E(==)>(events: seq<E>): seq<E> {
    events
  }

  /**
   * Clear the pending list and hand the (sorted) pending events to the bus one
   * at a time; `failAt == Some(k)` makes the bus fail on the event at position
   * `k`, which stops the dispatch there.
   */
  function Commit<E(==)>(st: State<E>, failAt: Option<nat>): (r: Step<E>)
    ensures r.after.events == [] && r.after.seen == st.seen
    ensures Valid(r.after)
    ensures r.dispatched <= st.events
    ensures r.outcome == Done || r.outcome.DispatchError?
    ensures r.outcome == Done <==> r.dispatched == st.events
    ensures r.outcome.DispatchError? ==>
              failAt == Some(r.outcome.position) && r.outcome.position < |st.events| &&
              r.dispatched == st.events[..r.outcome.position]
    ensures failAt.Some? && failAt.value < |st.events| ==>
              r.outcome == DispatchError(failAt.value) && r.dispatched == st.events[..failAt.value]
    ensures st.events == [] ==> r.dispatched == [] && r.outcome == Done
  {
    var pending := Sort(st.events);
    if failAt.Some? && failAt.value < |pending| then
      Step(State([], st.seen), pending[..failAt.value], DispatchError(failAt.value))
    else
      Step(State([], st.seen), pending, Done)
  }

  /** One operation of the store. */
  function Apply<E(==)>(st: State<E>, op: Op<E>): (r: Step<E>)
    ensures Valid(st) ==> Valid(r.after) && Distinct(r.dispatched)
    ensures st.seen <= r.after.seen
    ensures forall x | x in r.dispatched :: x in st.events
    ensures r.dispatched != [] ==> r.after.events == []
  {
    match op
    case StoreOp(e) => Step(Store(st, e), [], Done)
    case BeginOp => BeginTransaction(st)
    case RollbackOp => Step(Rollback(st), [], Done)
    case CommitOp(failAt) => Commit(st, failAt)
  }

  /**
   * Operations applied in turn.  An operation that reports an error does not
   * stop the run: the caller may catch the error and go on using the store.
   */
  function Run<E(==)>(st: State<E>, ops: seq<Op<E>>): Trace<E>
    decreases |ops|
  {
    if ops == [] then Trace(st, [])
    else
      var s := Apply(st, ops[0]);
      var rest := Run(s.after, ops[1..]);
      Trace(rest.final, s.dispatched + rest.dispatched)
  }

  /** A producer staging `es` one after the other. */
  function StoreAll<E(==)>(st: State<E>, es: seq<E>): State<E>
    decreases |es|
  {
    if es == [] then st else StoreAll(Store(st, es[0]), es[1..])
  }

  /** Reference definition: the events of `es` not in `seen`, each at its first occurrence. */
  function FirstSightings<E(==)>(es: seq<E>, seen: set<E>): seq<E>
    decreases |es|
  {
    if es == [] then []
    else if es[0] in seen then FirstSightings(es[1..], seen)
    else [es[0]] + FirstSightings(es[1..], seen + {es[0]})
  }

  function Elements<E(==)>(es: seq<E>): set<E> {
    set e | e in es
  }

  // ---------------------------------------------------------------------------
  // Staging a sequence of events
  // ---------------------------------------------------------------------------

  /** Staging `es` appends the first sightings of `es` and adds all of `es` to the seen set. */
  lemma {:induction false} StoreAllStagesFirstSightings<E>(st: State<E>, es: seq<E>)
    ensures StoreAll(st, es) == State(st.events + FirstSightings(es, st.seen), st.seen + Elements(es))
    decreases |es|
  {
    if es != [] {
      var next := Store(st, es[0]);
      StoreAllStagesFirstSightings(next, es[1..]);
      assert es == [es[0]] + es[1..];
      assert Elements(es) == {es[0]} + Elements(es[1..]);
      if es[0] !in st.seen {
        assert st.events + [es[0]] + FirstSightings(es[1..], next.seen)
            == st.events + FirstSightings(es, st.seen);
      }
    }
  }

  /** Each unseen event of `es` is staged exactly once, and nothing else is. */
  lemma {:induction false} FirstSightingsExactlyOnce<E>(es: seq<E>, seen: set<E>)
    ensures Distinct(FirstSightings(es, seen))
    ensures forall x :: x in FirstSightings(es, seen) <==> x in es && x !in seen
    decreases |es|
  {
    if es != [] {
      var tail := FirstSightings(es[1..], seen + {es[0]});
      FirstSightingsExactlyOnce(es[1..], seen);
      FirstSightingsExactlyOnce(es[1..], seen + {es[0]});
      assert es == [es[0]] + es[1..];
      if es[0] !in seen {
        var r := [es[0]] + tail;
        forall i, j | 0 <= i < j < |r| ensures r[i] != r[j] {
          if i == 0 { assert r[j] in tail; }
        }
      }
    }
  }

  /** Distinct events none of which has been seen are staged as they come. */
  lemma {:induction false} FirstSightingsOfFreshEvents<E>(es: seq<E>, seen: set<E>)
    requires Distinct(es)
    requires forall e | e in es :: e !in seen
    ensures FirstSightings(es, seen) == es
    decreases |es|
  {
    if es != [] {
      assert es == [es[0]] + es[1..];
      forall e | e in es[1..] ensures e !in seen + {es[0]} {
        var j :| 0 <= j < |es[1..]| && es[1..][j] == e;
        assert es[j + 1] == e;
      }
      FirstSightingsOfFreshEvents(es[1..], seen + {es[0]});
    }
  }

  /**
   * Storing `es` and committing dispatches what was already pending, then each
   * newly seen event of `es` once, in the order of its first store.
   */
  lemma CommitDispatchesFirstSightings<E>(st: State<E>, es: seq<E>)
    ensures Commit(StoreAll(st, es), None).dispatched == st.events + FirstSightings(es, st.seen)
    ensures Commit(StoreAll(st, es), None).outcome == Done
  {
    StoreAllStagesFirstSightings(st, es);
  }

  /** Distinct, never-seen events staged into an empty pending list are dispatched in staging order. */
  lemma CommitPreservesStagingOrder<E>(seen: set<E>, es: seq<E>)
    requires Distinct(es)
    requires forall e | e in es :: e !in seen
    ensures Commit(StoreAll(State([], seen), es), None).dispatched == es
  {
    CommitDispatchesFirstSightings(State([], seen), es);
    FirstSightingsOfFreshEvents(es, seen);
  }

  /** After a commit, whatever its outcome, or after a rollback, a new transaction can begin. */
  lemma CloseThenBeginSucceeds<E>(st: State<E>, failAt: Option<nat>)
    ensures BeginTransaction(Commit(st, failAt).after) == Step(Commit(st, failAt).after, [], Done)
    ensures BeginTransaction(Rollback(st)) == Step(Rollback(st), [], Done)
  {
  }

  // ---------------------------------------------------------------------------
  // The lifetime of a store: the seen set only grows
  // ---------------------------------------------------------------------------

  /** No operation ever removes an identity from the seen set. */
  lemma {:induction false} SeenOnlyGrows<E>(st: State<E>, ops: seq<Op<E>>)
    ensures st.seen <= Run(st, ops).final.seen
    decreases |ops|
  {
    if ops != [] {
      SeenOnlyGrows(Apply(st, ops[0]).after, ops[1..]);
    }
  }

  /** An event seen before and no longer pending is retired. */
  predicate Retired<E(==)>(st: State<E>, e: E) {
    e in st.seen && e !in st.events
  }

  /**
   * A retired event, one that was staged and then committed or rolled back,
   * is never staged again nor handed to the bus by any later operations.
   */
  lemma {:induction false} RetiredStaysRetired<E>(st: State<E>, ops: seq<Op<E>>, e: E)
    requires Retired(st, e)
    ensures Retired(Run(st, ops).final, e)
    ensures e !in Run(st, ops).dispatched
    decreases |ops|
  {
    if ops != [] {
      var s := Apply(st, ops[0]);
      assert Retired(s.after, e) by {
        if ops[0].StoreOp? && ops[0].event != e {
          assert e !in st.events + [ops[0].event];
        }
      }
      RetiredStaysRetired(s.after, ops[1..], e);
    }
  }

  /**
   * An event pending when the transaction is closed, by rollback or by a
   * commit with any outcome, is never staged again nor handed to the bus by
   * any later operations.
   */
  lemma ClosedEventNeverStagedOrDispatchedAgain<E>(st: State<E>, close: Op<E>, ops: seq<Op<E>>, e: E)
    requires Valid(st) && e in st.events
    requires close == RollbackOp || close.CommitOp?
    ensures e !in Run(Apply(st, close).after, ops).final.events
    ensures e !in Run(Apply(st, close).after, ops).dispatched
  {
    RetiredStaysRetired(Apply(st, close).after, ops, e);
  }

  lemma DistinctConcat<E>(a: seq<E>, b: seq<E>)
    requires Distinct(a) && Distinct(b)
    requires forall x | x in a :: x !in b
    ensures Distinct(a + b)
  {
    var c := a + b;
    forall i, j | 0 <= i < j < |c| ensures c[i] != c[j] {
      if i < |a| <= j {
        assert c[i] in a && c[j] == b[j - |a|];
      }
    }
  }

  /** From a valid state, no sequence of operations hands the same event to the bus twice. */
  lemma {:induction false} DispatchedAtMostOnce<E>(st: State<E>, ops: seq<Op<E>>)
    requires Valid(st)
    ensures Distinct(Run(st, ops).dispatched)
    decreases |ops|
  {
    if ops != [] {
      var s := Apply(st, ops[0]);
      var rest := Run(s.after, ops[1..]);
      DispatchedAtMostOnce(s.after, ops[1..]);
      forall x | x in s.dispatched ensures x !in rest.dispatched {
        assert Retired(s.after, x);
        RetiredStaysRetired(s.after, ops[1..], x);
      }
      DistinctConcat(s.dispatched, rest.dispatched);
    }
  }

  /** Over the whole life of a store, every event reaches the bus at most once. */
  lemma EveryEventDispatchedAtMostOnce<E>(ops: seq<Op<E>>)
    ensures Distinct(Run(Initial(), ops).dispatched)
  {
    DispatchedAtMostOnce(Initial(), ops);
  }

  /** Only events that were pending at the start or stored along the way are ever dispatched. */
  lemma {:induction false} DispatchedWereStored<E>(st: State<E>, ops: seq<Op<E>>, x: E)
    requires x in Run(st, ops).dispatched
    ensures x in st.events || StoreOp(x) in ops
    decreases |ops|
  {
    if ops != [] {
      var s := Apply(st, ops[0]);
      if x !in s.dispatched {
        DispatchedWereStored(s.after, ops[1..], x);
        if x in s.after.events && x !in st.events {
          assert ops[0] == StoreOp(x);
        }
        if StoreOp(x) in ops[1..] {
          assert ops == [ops[0]] + ops[1..];
        }
      }
    }
  }
}
