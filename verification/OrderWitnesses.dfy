/**
 Concrete runs in which a cancelled order is confirmed: through the cache, and by two calls that overlap.
 */
module OrderWitnesses {
  import opened OrderProtocol
  import opened OrderProofs
  import opened OrderTheorems

  /** The calls are made one at a time. */
  ghost predicate OneByOne(states: seq<State>) {
    forall i :: 0 <= i < |states| ==> OneAtATime(states[i])
  }

  /** No call reads the cache. */
  ghost predicate Uncached(steps: seq<Step>) {
    forall i :: 0 <= i < |steps| ==> !steps[i].HitOrder?
  }

  /** Extends a run by one step. */
  lemma Continue(states: seq<State>, steps: seq<Step>, e: Step) returns (states': seq<State>, steps': seq<Step>)
    requires IsRun(states, steps) && Enabled(states[|steps|], e)
    ensures IsRun(states', steps') && steps' == steps + [e]
    ensures states' == states + [Apply(states[|steps|], e)]
    ensures OneByOne(states) && OneAtATime(states'[|steps'|]) ==> OneByOne(states')
    ensures Uncached(steps) && !e.HitOrder? ==> Uncached(steps')
  {
    states', steps' := states + [Apply(states[|steps|], e)], steps + [e];
  }

  const LINES := [Line("product", 1)]

  lemma OrderInserted() returns (states: seq<State>, steps: seq<Step>)
    ensures IsRun(states, steps) && OneByOne(states) && Uncached(steps)
    ensures var tx := Tx(map[0 := Order(PendingPayment, "key")], [], map[], []);
            states[|steps|] == INITIAL.(calls := [AddingItems("key", LINES, 0, tx)])
  {
    states, steps := [INITIAL], [];
    states, steps := Continue(states, steps, BeginCreate("key", LINES));
    states, steps := Continue(states, steps, LookUp(0, true));
    states, steps := Continue(states, steps, InsertOrder(0));
  }

  function Created(): Outbox.Event {
    Outbox.Event(0, Outbox.OrderCreated, 1, Outbox.Pending)
  }

  /** An order with a status, its events, calls that were made on it, and what is cached of it. */
  function Tables(status: OrderStatus, events: seq<Outbox.Event>, calls: seq<Call>, cache: map<Spelled, OrderStatus>)
    : State
  {
    State(map[0 := Order(status, "key")], [Item(0, LINES[0])], Outbox.INITIAL.(events := events),
          [Placed("key", LINES)] + calls, cache)
  }

  lemma OrderPlaced() returns (states: seq<State>, steps: seq<Step>)
    ensures IsRun(states, steps) && OneByOne(states) && Uncached(steps)
    ensures states[|steps|] == Tables(PendingPayment, [Created()], [], map[])
  {
    states, steps := OrderInserted();
    states, steps := Continue(states, steps, InsertItem(0));
    states, steps := Continue(states, steps, InsertEvent(0, 1));
    states, steps := Continue(states, steps, Commit(0));
  }

  /** A call reads the order past the cache, and it may change it. */
  lemma OrderRead(states: seq<State>, steps: seq<Step>, change: Change, fill: bool, calls: seq<Call>)
    returns (states': seq<State>, steps': seq<Step>)
    requires IsRun(states, steps) && Uncached(steps)
    requires states[|steps|] == Tables(PendingPayment, [Created()], calls, map[])
    ensures IsRun(states', steps') && Uncached(steps')
    ensures states'[|steps'|] == Tables(PendingPayment, [Created()], calls + [Checked(change, 0, PendingPayment)],
                                        if fill then map[Spelled(0, "id") := PendingPayment] else map[])
    ensures OneByOne(states) && calls == [] ==> OneByOne(states')
  {
    var c := 1 + |calls|;
    states', steps' := Continue(states, steps, BeginChange(change, 0));
    states', steps' := Continue(states', steps', FetchOrder(c));
    states', steps' := Continue(states', steps', FillOrder(c, fill, "id"));
  }

  function Written(change: Change, createdAt: int): Outbox.Event {
    Outbox.Event(0, EventOf(change), createdAt, Outbox.Pending)
  }

  /** The status update, the event insert and the commit of call `c`, which is the call with number `c + 1`. */
  lemma ChangeApplies(status: OrderStatus, events: seq<Outbox.Event>, calls: seq<Call>, c: nat, change: Change,
                      cache: map<Spelled, OrderStatus>, createdAt: int) returns (updated: Call, recorded: Call)
    requires c < |calls| && calls[c] == Checked(change, 0, PendingPayment)
    requires forall d :: 0 <= d < |calls| ==> !HoldsRow(calls[d], 0)
    ensures var s0, s1 := Tables(status, events, calls, cache), Tables(status, events, calls[c := updated], cache);
            Enabled(s0, UpdateStatus(c + 1)) && Apply(s0, UpdateStatus(c + 1)) == s1
    ensures var s1 := Tables(status, events, calls[c := updated], cache);
            var s2 := Tables(status, events, calls[c := recorded], cache);
            Enabled(s1, InsertEvent(c + 1, createdAt)) && Apply(s1, InsertEvent(c + 1, createdAt)) == s2
    ensures recorded.Changed? && recorded.change == change && recorded.orderId == 0 && TxSound(c + 1, recorded)
    ensures EventTime(recorded) == createdAt
  {
    updated := Changing(change, 0, PendingPayment, NO_WRITES.(statuses := map[0 := NewStatus(change)]));
    recorded := Recorded(c + 1, updated, createdAt);
    var calls0 := [Placed("key", LINES)] + calls;
    assert calls0[c + 1 := updated] == [Placed("key", LINES)] + calls[c := updated];
    assert calls0[c + 1 := recorded] == [Placed("key", LINES)] + calls[c := recorded];
    assert calls0[c + 1 := updated][c + 1 := recorded] == calls0[c + 1 := recorded];
  }

  lemma CommitApplies(status: OrderStatus, events: seq<Outbox.Event>, calls: seq<Call>, c: nat,
                      cache: map<Spelled, OrderStatus>)
    requires c < |calls| && calls[c].Changed? && calls[c].orderId == 0 && TxSound(c + 1, calls[c])
    ensures var s := Tables(status, events, calls, cache);
            && Enabled(s, Commit(c + 1))
            && Apply(s, Commit(c + 1))
               == Tables(NewStatus(calls[c].change), events + [Written(calls[c].change, EventTime(calls[c]))],
                         calls[c := Finished], cache)
  {
    var s := Tables(status, events, calls, cache);
    CommitPublishes(s, c + 1);
    assert s.calls[c + 1 := Finished] == [Placed("key", LINES)] + calls[c := Finished];
  }

  /** With one call at work the calls are one at a time. */
  lemma OneAtWork(status: OrderStatus, events: seq<Outbox.Event>, calls: seq<Call>, c: nat,
                  cache: map<Spelled, OrderStatus>)
    requires forall d :: 0 <= d < |calls| && d != c ==> !Active(calls[d])
    ensures OneAtATime(Tables(status, events, calls, cache))
  {
  }

  /** A call that has been checked fills its transaction. */
  lemma OrderRecorded(states: seq<State>, steps: seq<Step>, status: OrderStatus, events: seq<Outbox.Event>,
                      calls: seq<Call>, c: nat, change: Change, cache: map<Spelled, OrderStatus>, createdAt: int)
    returns (states': seq<State>, steps': seq<Step>, recorded: Call)
    requires IsRun(states, steps) && c < |calls| && calls[c] == Checked(change, 0, PendingPayment)
    requires forall d :: 0 <= d < |calls| ==> !HoldsRow(calls[d], 0)
    requires states[|steps|] == Tables(status, events, calls, cache)
    ensures IsRun(states', steps') && |steps'| > |steps| && states < states'
    ensures states'[|steps'|] == Tables(status, events, calls[c := recorded], cache)
    ensures recorded.Changed? && recorded.change == change && recorded.orderId == 0 && TxSound(c + 1, recorded)
    ensures EventTime(recorded) == createdAt
    ensures Uncached(steps) ==> Uncached(steps')
    ensures OneByOne(states) && (forall d :: 0 <= d < |calls| && d != c ==> !Active(calls[d])) ==> OneByOne(states')
  {
    var updated;
    updated, recorded := ChangeApplies(status, events, calls, c, change, cache, createdAt);
    if forall d :: 0 <= d < |calls| && d != c ==> !Active(calls[d]) {
      OneAtWork(status, events, calls[c := updated], c, cache);
      OneAtWork(status, events, calls[c := recorded], c, cache);
    }
    states', steps' := Continue(states, steps, UpdateStatus(c + 1));
    states', steps' := Continue(states', steps', InsertEvent(c + 1, createdAt));
  }

  /** And it commits. */
  lemma OrderChanged(states: seq<State>, steps: seq<Step>, status: OrderStatus, events: seq<Outbox.Event>,
                     calls: seq<Call>, c: nat, change: Change, cache: map<Spelled, OrderStatus>, createdAt: int)
    returns (states': seq<State>, steps': seq<Step>)
    requires IsRun(states, steps) && c < |calls| && calls[c] == Checked(change, 0, PendingPayment)
    requires forall d :: 0 <= d < |calls| ==> !HoldsRow(calls[d], 0)
    requires states[|steps|] == Tables(status, events, calls, cache)
    ensures IsRun(states', steps') && |steps'| > |steps| && states < states'
    ensures states'[|steps'|]
         == Tables(NewStatus(change), events + [Written(change, createdAt)], calls[c := Finished], cache)
    ensures Uncached(steps) ==> Uncached(steps')
    ensures OneByOne(states) && (forall d :: 0 <= d < |calls| && d != c ==> !Active(calls[d])) ==> OneByOne(states')
  {
    var recorded;
    states', steps', recorded := OrderRecorded(states, steps, status, events, calls, c, change, cache, createdAt);
    CommitApplies(status, events, calls[c := recorded], c, cache);
    assert calls[c := recorded][c := Finished] == calls[c := Finished];
    if forall d :: 0 <= d < |calls| && d != c ==> !Active(calls[d]) {
      OneAtWork(NewStatus(change), events + [Written(change, createdAt)], calls[c := Finished], c, cache);
    }
    states', steps' := Continue(states', steps', Commit(c + 1));
  }

  /** An order that was read through the cache and cancelled, so that the cache holds the status it had. */
  lemma CancelledBehindCache() returns (states: seq<State>, steps: seq<Step>)
    ensures IsRun(states, steps) && OneByOne(states)
    ensures states[|steps|] == Tables(Cancelled, [Created(), Written(Cancel, 2)], [Finished],
                                      map[Spelled(0, "id") := PendingPayment])
  {
    states, steps := OrderPlaced();
    states, steps := OrderRead(states, steps, Cancel, true, []);
    var cache := map[Spelled(0, "id") := PendingPayment];
    states, steps := OrderChanged(states, steps, PendingPayment, [Created()], [Checked(Cancel, 0, PendingPayment)], 0,
                                  Cancel, cache, 2);
  }

  /** The stale entry passes the check of ConfirmOrder. */
  lemma StaleEntryPasses() returns (states: seq<State>, steps: seq<Step>, n: nat)
    ensures IsRun(states, steps) && OneByOne(states) && n < |steps|
    ensures states[n].orders == map[0 := Order(Cancelled, "key")]
    ensures states[|steps|] == Tables(Cancelled, [Created(), Written(Cancel, 2)],
                                      [Finished, Checked(Confirm, 0, PendingPayment)],
                                      map[Spelled(0, "id") := PendingPayment])
  {
    states, steps := CancelledBehindCache();
    n := |steps|;
    states, steps := Continue(states, steps, BeginChange(Confirm, 0));
    states, steps := Continue(states, steps, HitOrder(2, "id"));
  }

  /**
   Status updates inside a transaction do not invalidate the order cache, so even with calls made one at a time a
   cancelled order can be confirmed from a stale entry.
   */
  lemma StaleCacheRevivesOrder() returns (states: seq<State>, steps: seq<Step>, n: nat)
    ensures IsRun(states, steps) && OneByOne(states)
    ensures n < |steps|
    ensures 0 in states[n].orders && states[n].orders[0].status == Cancelled
    ensures 0 in states[|steps|].orders && states[|steps|].orders[0].status == Processing
    ensures !LogsLegal(states[|steps|])
  {
    states, steps, n := StaleEntryPasses();
    states, steps := OrderChanged(states, steps, Cancelled, [Created(), Written(Cancel, 2)],
                                  [Finished, Checked(Confirm, 0, PendingPayment)], 1, Confirm,
                                  map[Spelled(0, "id") := PendingPayment], 3);
    BothChangesLogged(states[|steps|]);
  }

  lemma {:induction false} AllLogged(facts: seq<Fact>, o: nat)
    requires forall i :: 0 <= i < |facts| ==> facts[i].orderId == o
    ensures |LogOf(facts, o)| == |facts|
  {
    if facts != [] {
      AllLogged(facts[..|facts| - 1], o);
    }
  }

  /** An order with three events has a log that is not legal. */
  lemma BothChangesLogged(s: State)
    requires 0 in s.orders && |s.outbox.events| == 3
    requires forall i :: 0 <= i < |s.outbox.events| ==> s.outbox.events[i].orderId == 0
    ensures !LogsLegal(s)
  {
    AllLogged(Facts(s.outbox.events), 0);
    assert !Legal(EventLog(s, 0));
  }

  /** CancelOrder and ConfirmOrder have both read the order as pending, neither from the cache. */
  lemma BothChecked() returns (states: seq<State>, steps: seq<Step>)
    ensures IsRun(states, steps) && Uncached(steps)
    ensures states[|steps|] == Tables(PendingPayment, [Created()],
                                      [Checked(Cancel, 0, PendingPayment), Checked(Confirm, 0, PendingPayment)], map[])
  {
    states, steps := OrderPlaced();
    states, steps := OrderRead(states, steps, Cancel, false, []);
    states, steps := OrderRead(states, steps, Confirm, false, [Checked(Cancel, 0, PendingPayment)]);
  }

  /**
   Two calls that overlap, neither of which reads the cache: the second waits for the row and then overwrites the
   cancellation, so the order is cancelled and confirmed.
   */
  lemma OverlappingChangesReviveOrder() returns (states: seq<State>, steps: seq<Step>, n: nat)
    ensures IsRun(states, steps) && Uncached(steps)
    ensures n < |steps|
    ensures 0 in states[n].orders && states[n].orders[0].status == Cancelled
    ensures 0 in states[|steps|].orders && states[|steps|].orders[0].status == Processing
    ensures !LogsLegal(states[|steps|])
  {
    states, steps := BothChecked();
    var calls := [Checked(Cancel, 0, PendingPayment), Checked(Confirm, 0, PendingPayment)];
    states, steps := OrderChanged(states, steps, PendingPayment, [Created()], calls, 0, Cancel, map[], 2);
    n := |steps|;
    var events := [Created()] + [Written(Cancel, 2)];
    states, steps := OrderChanged(states, steps, Cancelled, events, calls[0 := Finished], 1, Confirm, map[], 3);
    BothChangesLogged(states[|steps|]);
  }
}
