/**
 What order creation and the event log promise over whole runs.
 */
module OrderTheorems {
  import Outbox
  import OutboxProofs
  import OutboxOrder
  import opened OrderProtocol
  import opened OrderProofs

  // Where an event stands in the log of its order

  /** The event at `i` is an entry of its order's log, after the entries of all earlier events of the order. */
  lemma {:induction false} LogPosition(facts: seq<Fact>, i: nat)
    requires i < |facts|
    ensures var o := facts[i].orderId;
            var p := |LogOf(facts[..i], o)|;
            p < |LogOf(facts, o)| && LogOf(facts, o)[p] == facts[i].kind
  {
    var n := |facts| - 1;
    if i < n {
      assert facts[..n][..i] == facts[..i] && facts[..n][i] == facts[i];
      LogPosition(facts[..n], i);
    }
  }

  lemma LogOrder(facts: seq<Fact>, i: nat, j: nat)
    requires i < j < |facts| && facts[i].orderId == facts[j].orderId
    ensures |LogOf(facts[..i], facts[i].orderId)| < |LogOf(facts[..j], facts[i].orderId)|
  {
    assert facts[..j][..i] == facts[..i] && facts[..j][i] == facts[i];
    LogPosition(facts[..j], i);
  }

  ghost predicate IsCreated(s: State, i: nat, o: nat) {
    i < |s.outbox.events| && s.outbox.events[i].orderId == o && s.outbox.events[i].kind == Outbox.OrderCreated
  }

  /** An order has exactly one order.created event. */
  lemma CreatedOnce(s: State, o: nat)
    requires Sound(s) && o in s.orders
    ensures exists i :: IsCreated(s, i, o)
    ensures forall i, j :: IsCreated(s, i, o) && IsCreated(s, j, o) ==> i == j
  {
    var facts := Facts(s.outbox.events);
    assert OrderSound(s, o);
    var i := FirstOf(facts, o);
    assert IsCreated(s, i, o);
    forall i, j | IsCreated(s, i, o) && IsCreated(s, j, o) && i < j
      ensures false
    {
      LogOrder(facts, i, j);
      LogPosition(facts, j);
    }
  }

  /** The event that heads the log of an order. */
  lemma {:induction false} FirstOf(facts: seq<Fact>, o: nat) returns (i: nat)
    requires LogOf(facts, o) != []
    ensures i < |facts| && facts[i] == Fact(o, LogOf(facts, o)[0])
  {
    var n := |facts| - 1;
    if LogOf(facts[..n], o) != [] {
      i := FirstOf(facts[..n], o);
    } else {
      i := n;
    }
  }

  /**
   Atomic order creation: in every interleaving and under failure at any step, an order exists exactly when its call
   committed; it has one item row per requested item, in order, and exactly one order.created event; and no item and
   no event exists without its order.
   */
  lemma CreationIsAtomic(states: seq<State>, steps: seq<Step>, n: nat)
    requires IsRun(states, steps) && n <= |steps|
    ensures forall o :: o in states[n].orders <==> 0 <= o < |states[n].calls| && states[n].calls[o].Placed?
    ensures forall o :: o in states[n].orders ==>
              && o < |states[n].calls| && states[n].calls[o].Placed?
              && Acceptable(states[n].calls[o].lines) && LinesOf(states[n].items, o) == states[n].calls[o].lines
              && exists i :: IsCreated(states[n], i, o) && forall j :: IsCreated(states[n], j, o) ==> j == i
    ensures forall i :: 0 <= i < |states[n].items| ==> states[n].items[i].orderId in states[n].orders
    ensures forall i :: 0 <= i < |states[n].outbox.events| ==> states[n].outbox.events[i].orderId in states[n].orders
  {
    var s := states[n];
    SoundRun(states, steps, n);
    forall o | o in s.orders
      ensures o < |s.calls| && s.calls[o].Placed? && Acceptable(s.calls[o].lines)
      ensures LinesOf(s.items, o) == s.calls[o].lines
      ensures exists i :: IsCreated(s, i, o) && forall j :: IsCreated(s, j, o) ==> j == i
    {
      assert OrderSound(s, o) && Well(s.calls[o]);
      CreatedOnce(s, o);
      var i :| IsCreated(s, i, o);
      assert forall j :: IsCreated(s, j, o) ==> j == i;
    }
  }

  ghost predicate SameKey(s: State, o: nat, o': nat) {
    o in s.orders && o' in s.orders && s.orders[o].idempotencyKey == s.orders[o'].idempotencyKey
  }

  /**
   Idempotency under races: however CreateOrder calls interleave, and even when the lookup fails, no two orders have
   the same idempotency key, and no two order.created events belong to orders with the same key.
   */
  lemma IdempotentUnderRaces(states: seq<State>, steps: seq<Step>, n: nat)
    requires IsRun(states, steps) && n <= |steps|
    ensures var s := states[n];
            && (forall o, o' :: SameKey(s, o, o') ==> o == o')
            && (forall i, j, o, o' :: IsCreated(s, i, o) && IsCreated(s, j, o') && SameKey(s, o, o') ==> i == j)
  {
    var s := states[n];
    SoundRun(states, steps, n);
    forall o | o in s.orders
      ensures forall i, j :: IsCreated(s, i, o) && IsCreated(s, j, o) ==> i == j
    {
      CreatedOnce(s, o);
    }
  }

  /** Every message handed to Kafka stems from a committed order change. */
  lemma MessagesStemFromOrders(states: seq<State>, steps: seq<Step>, n: nat, h: Outbox.Handover)
    requires IsRun(states, steps) && n <= |steps| && h in states[n].outbox.log
    ensures var s := states[n];
            && h.id < |s.outbox.events| && s.outbox.events[h.id].orderId in s.orders
            && s.outbox.events[h.id].kind in LogOf(Facts(s.outbox.events), s.outbox.events[h.id].orderId)
  {
    var s := states[n];
    SoundRun(states, steps, n);
    var states', steps' :| Outbox.IsRun(states', steps') && states'[|steps'|] == s.outbox;
    OutboxProofs.SoundRun(states', steps', |steps'|);
    var i :| 0 <= i < |s.outbox.log| && s.outbox.log[i] == h;
    assert Outbox.InBatch(s.outbox.batches, s.outbox.log[i].id);
    LogPosition(Facts(s.outbox.events), h.id);
  }

  // The event log determines the state

  function EventLog(s: State, o: nat): seq<Outbox.EventType> {
    LogOf(Facts(s.outbox.events), o)
  }

  /** In every interleaving, the status of an order is what its event log, in the order of commits, says. */
  lemma StatusIsFold(states: seq<State>, steps: seq<Step>, n: nat, o: nat)
    requires IsRun(states, steps) && n <= |steps| && o in states[n].orders
    ensures EventLog(states[n], o) != [] && states[n].orders[o].status == Fold(EventLog(states[n], o))
  {
    SoundRun(states, steps, n);
    assert OrderSound(states[n], o);
  }

  /** The given rows are the events of the order, each once, by their creation times. */
  ghost predicate ListsByTime(events: seq<Outbox.Event>, o: nat, ids: seq<nat>) {
    && (forall i :: 0 <= i < |events| ==> (i in ids <==> events[i].orderId == o))
    && (forall i :: 0 <= i < |ids| ==> ids[i] < |events|)
    && (forall i, j :: 0 <= i < j < |ids| ==> events[ids[i]].createdAt < events[ids[j]].createdAt)
  }

  function Kinds(facts: seq<Fact>, ids: seq<nat>): seq<Outbox.EventType>
    requires forall i :: 0 <= i < |ids| ==> ids[i] < |facts|
  {
    seq(|ids|, i requires 0 <= i < |ids| => facts[ids[i]].kind)
  }

  /** The rows are the facts of the order, in their order. */
  ghost predicate Lists(facts: seq<Fact>, o: nat, ids: seq<nat>) {
    && (forall i :: 0 <= i < |facts| ==> (i in ids <==> facts[i].orderId == o))
    && (forall i :: 0 <= i < |ids| ==> ids[i] < |facts|)
    && (forall i, j :: 0 <= i < j < |ids| ==> ids[i] < ids[j])
  }

  /** Without the last fact, the list is one shorter or the same. */
  lemma ListsInit(facts: seq<Fact>, o: nat, ids: seq<nat>)
    requires Lists(facts, o, ids) && ids != [] && facts != []
    ensures var n, last := |facts| - 1, |ids| - 1;
            if facts[n].orderId == o then ids[last] == n && Lists(facts[..n], o, ids[..last])
            else Lists(facts[..n], o, ids)
  {
    var n, last := |facts| - 1, |ids| - 1;
    assert ids[last] <= n;
    assert ids == ids[..last] + [ids[last]];
    if facts[n].orderId == o {
      assert n in ids;
    } else {
      assert n !in ids;
    }
  }

  lemma {:induction false} ListedKinds(facts: seq<Fact>, o: nat, ids: seq<nat>)
    requires Lists(facts, o, ids)
    ensures Kinds(facts, ids) == LogOf(facts, o)
  {
    if ids == [] {
      NoLog(facts, o);
    } else {
      var n, last := |facts| - 1, |ids| - 1;
      assert ids[0] <= n;
      ListsInit(facts, o, ids);
      if facts[n].orderId == o {
        ListedKinds(facts[..n], o, ids[..last]);
        assert Kinds(facts, ids) == Kinds(facts[..n], ids[..last]) + [facts[n].kind];
      } else {
        ListedKinds(facts[..n], o, ids);
        assert Kinds(facts, ids) == Kinds(facts[..n], ids);
      }
    }
  }

  /**
   What a reader of the table can tell: when the events of each order carry strictly increasing creation times, the
   events of an order sorted by them give its status, in every interleaving.
   */
  lemma StatusIsFoldByTime(states: seq<State>, steps: seq<Step>, n: nat, o: nat, ids: seq<nat>)
    requires IsRun(states, steps) && n <= |steps| && o in states[n].orders
    requires OutboxOrder.Timed(states[n].outbox) && ListsByTime(states[n].outbox.events, o, ids)
    ensures var log := Kinds(Facts(states[n].outbox.events), ids);
            log == EventLog(states[n], o) && log != [] && states[n].orders[o].status == Fold(log)
  {
    var events := states[n].outbox.events;
    forall i, j | 0 <= i < j < |ids|
      ensures ids[i] < ids[j]
    {
      assert ids[i] in ids && ids[j] in ids;
      assert events[ids[i]].orderId == events[ids[j]].orderId;
    }
    ListedKinds(Facts(events), o, ids);
    StatusIsFold(states, steps, n, o);
  }

  /** A status change commits while the order still has the status the call read. */
  ghost predicate CommitsCurrent(s: State, e: Step) {
    e.Commit? && e.c < |s.calls| && s.calls[e.c].Changed? && s.calls[e.c].orderId in s.orders ==>
      s.orders[s.calls[e.c].orderId].status == s.calls[e.c].seen
  }

  /** Created, and then cancelled or confirmed at most once. */
  ghost predicate Legal(log: seq<Outbox.EventType>) {
    || log == [Outbox.OrderCreated]
    || log == [Outbox.OrderCreated, Outbox.OrderCancelled]
    || log == [Outbox.OrderCreated, Outbox.OrderConfirmed]
  }

  ghost predicate LogsLegal(s: State) {
    forall o :: o in s.orders ==> Legal(EventLog(s, o))
  }

  lemma CommittedLog(s: State, e: Step, o: nat)
    requires Sound(s) && Enabled(s, e)
    ensures EventLog(Apply(s, e), o) == EventLog(s, o) +
              (if e.Commit? && s.calls[e.c].Creating? && e.c == o then [Outbox.OrderCreated]
               else if Changes(s, e, o) then [EventOf(s.calls[e.c].change)]
               else [])
  {
    match e
    case Commit(c) =>
      SoundCommit(s, c);
      var facts, createdAt := Facts(s.outbox.events), EventTime(s.calls[c]);
      if s.calls[c].Creating? {
        InsertFact(s.outbox, c, Outbox.OrderCreated, createdAt);
        LogAppend(facts, Fact(c, Outbox.OrderCreated), o);
      } else {
        InsertFact(s.outbox, s.calls[c].orderId, EventOf(s.calls[c].change), createdAt);
        LogAppend(facts, Fact(s.calls[c].orderId, EventOf(s.calls[c].change)), o);
      }
    case Publish(step) => PublishKeepsFacts(s, step);
    case _ =>
  }

  ghost predicate Changes(s: State, e: Step, o: nat) {
    e.Commit? && e.c < |s.calls| && s.calls[e.c].Changed? && s.calls[e.c].orderId == o
  }

  ghost predicate Creates(s: State, e: Step, o: nat) {
    e.Commit? && e.c < |s.calls| && s.calls[e.c].Creating? && e.c == o
  }

  /** How a step that creates or changes order `o`, or neither, leaves it. */
  ghost predicate OrderMoved(s: State, e: Step, s': State, o: nat) {
    && (o in s'.orders <==> o in s.orders || Creates(s, e, o))
    && (o in s.orders ==>
          && o in s'.orders && !Creates(s, e, o)
          && s'.orders[o].status == if Changes(s, e, o) then NewStatus(s.calls[e.c].change) else s.orders[o].status)
  }

  lemma CommitMoves(s: State, c: nat, createdAt: int, o: nat)
    requires Committing(s, c) && PlacedSound(s)
    ensures OrderMoved(s, Commit(c), Committed(s, c, createdAt), o)
  {
  }

  /** A step creates an order or changes the status of one only by a commit. */
  lemma StepOrders(s: State, e: Step, o: nat)
    requires Sound(s) && Enabled(s, e)
    ensures OrderMoved(s, e, Apply(s, e), o)
  {
    if e.Commit? {
      SoundCommit(s, e.c);
      CommitMoves(s, e.c, EventTime(s.calls[e.c]), o);
    } else if Quiet(e) {
      QuietKeeps(s, e);
    }
  }

  lemma LegalOther(s: State, e: Step, o: nat)
    requires Sound(s) && Enabled(s, e) && LogsLegal(s) && o in Apply(s, e).orders && !Changes(s, e, o)
    ensures Legal(EventLog(Apply(s, e), o))
  {
    CommittedLog(s, e, o);
    StepOrders(s, e, o);
    NewLog(s, o);
  }

  lemma NewLog(s: State, o: nat)
    requires NoStrays(s)
    ensures o !in s.orders ==> EventLog(s, o) == []
    ensures [] + [Outbox.OrderCreated] == [Outbox.OrderCreated]
  {
    if o !in s.orders {
      StrayFree(s, o);
    }
  }

  /** A legal log can be continued by a change exactly while the order is pending. */
  lemma LegalAppend(log: seq<Outbox.EventType>, change: Change)
    requires Legal(log)
    ensures Legal(log + [EventOf(change)]) <==> Fold(log) == PendingPayment
  {
    var log' := log + [EventOf(change)];
    assert |log'| == |log| + 1;
    assert Fold(log) == PendingPayment <==> |log| == 1;
  }

  lemma LegalChange(s: State, e: Step, o: nat)
    requires Sound(s) && Enabled(s, e) && LogsLegal(s) && Changes(s, e, o)
    ensures Legal(EventLog(Apply(s, e), o)) <==> s.orders[o].status == s.calls[e.c].seen
  {
    CommittedLog(s, e, o);
    assert OrderSound(s, o) && Well(s.calls[e.c]) && Legal(EventLog(s, o));
    LegalAppend(EventLog(s, o), s.calls[e.c].change);
  }

  /** From legal logs, a step leads to legal logs if and only if it does not commit on a status that has moved. */
  lemma LegalStepIff(s: State, e: Step)
    requires Sound(s) && Enabled(s, e) && LogsLegal(s)
    ensures LogsLegal(Apply(s, e)) <==> CommitsCurrent(s, e)
  {
    var s' := Apply(s, e);
    forall o | o in s'.orders && !Changes(s, e, o)
      ensures Legal(EventLog(s', o))
    {
      LegalOther(s, e, o);
    }
    forall o | Changes(s, e, o)
      ensures Legal(EventLog(s', o)) <==> s.orders[o].status == s.calls[e.c].seen
      ensures o in s'.orders
    {
      LegalChange(s, e, o);
    }
    if e.Commit? && s.calls[e.c].Changed? {
      assert Changes(s, e, s.calls[e.c].orderId);
    }
  }

  lemma {:induction false} LegalRun(states: seq<State>, steps: seq<Step>, n: nat)
    requires IsRun(states, steps) && n <= |steps|
    requires forall i :: 0 <= i < n ==> CommitsCurrent(states[i], steps[i])
    ensures LogsLegal(states[n])
  {
    if n > 0 {
      LegalRun(states, steps, n - 1);
      SoundRun(states, steps, n - 1);
      LegalStepIff(states[n - 1], steps[n - 1]);
      assert states[n] == Apply(states[n - 1], steps[n - 1]);
    }
  }

  /**
   The exact condition: the event log of every order stays created, then cancelled or confirmed at most once and never
   both, if and only if no status change of the run committed on a status that had moved since the call read it.
   */
  lemma LogsLegalIff(states: seq<State>, steps: seq<Step>, n: nat)
    requires IsRun(states, steps) && n <= |steps|
    ensures (forall i :: 0 <= i <= n ==> LogsLegal(states[i])) <==>
            (forall i :: 0 <= i < n ==> CommitsCurrent(states[i], steps[i]))
  {
    if forall i :: 0 <= i < n ==> CommitsCurrent(states[i], steps[i]) {
      forall i | 0 <= i <= n
        ensures LogsLegal(states[i])
      {
        LegalRun(states, steps, i);
      }
    } else {
      var i :| 0 <= i < n && !CommitsCurrent(states[i], steps[i]);
      SoundRun(states, steps, i);
      if LogsLegal(states[i]) {
        LegalStepIff(states[i], steps[i]);
        assert states[i + 1] == Apply(states[i], steps[i]);
        assert !LogsLegal(states[i + 1]);
      }
    }
  }

  // What the row lock adds

  /** The call has updated order `o` in a transaction that is still open. */
  ghost predicate Holds(s: State, c: nat, o: nat) {
    c < |s.calls| && HoldsRow(s.calls[c], o)
  }

  lemma HeldStep(s: State, e: Step, c: nat, o: nat)
    requires Sound(s) && Enabled(s, e) && Holds(s, c, o) && Holds(Apply(s, e), c, o)
    ensures !Changes(s, e, o)
  {
    if e.Commit? && s.calls[e.c].Changed? {
      assert Apply(s, e).calls[e.c] == Finished;
    }
  }

  lemma UpdateKeeps(s: State, c: nat)
    requires Sound(s) && Enabled(s, UpdateStatus(c))
    ensures s.calls[c].orderId in s.orders && Apply(s, UpdateStatus(c)).orders == s.orders
  {
    QuietKeeps(s, UpdateStatus(c));
  }

  lemma UpdateHolds(states: seq<State>, steps: seq<Step>, i: nat, c: nat)
    requires IsRun(states, steps) && i < |steps| && steps[i] == UpdateStatus(c)
    ensures states[i].calls[c].orderId in states[i].orders && states[i + 1].orders == states[i].orders
  {
    SoundRun(states, steps, i);
    UpdateKeeps(states[i], c);
  }

  lemma HeldOverRun(states: seq<State>, steps: seq<Step>, i: nat, c: nat, o: nat)
    requires IsRun(states, steps) && i < |steps| && o in states[i].orders
    requires Holds(states[i], c, o) && Holds(states[i + 1], c, o)
    ensures o in states[i + 1].orders && states[i + 1].orders[o].status == states[i].orders[o].status
  {
    SoundRun(states, steps, i);
    var e := steps[i];
    HeldOver(states[i], e, states[i + 1], c, o);
  }

  /**
   While a call that has updated an order is open, nobody else changes the status of the order: what the commit
   overwrites is what the update found.
   */
  lemma {:induction false} RowHeldUntilCommit(states: seq<State>, steps: seq<Step>, i: nat, j: nat, c: nat, o: nat)
    requires IsRun(states, steps) && i < j <= |steps| && steps[i] == UpdateStatus(c) && states[i].calls[c].orderId == o
    requires forall m :: i < m <= j ==> Holds(states[m], c, o)
    ensures o in states[i].orders && o in states[j].orders
    ensures states[j].orders[o].status == states[i].orders[o].status
    decreases j
  {
    if i == j - 1 {
      UpdateHolds(states, steps, i, c);
    } else {
      RowHeldUntilCommit(states, steps, i, j - 1, c, o);
      HeldOverRun(states, steps, j - 1, c, o);
    }
  }

  lemma HeldOver(s: State, e: Step, s': State, c: nat, o: nat)
    requires Sound(s) && Enabled(s, e) && s' == Apply(s, e) && Holds(s, c, o) && Holds(s', c, o) && o in s.orders
    ensures o in s'.orders && s'.orders[o].status == s.orders[o].status
  {
    HeldStep(s, e, c, o);
    StepOrders(s, e, o);
  }

  ghost predicate Done(s: State, c: nat) {
    c < |s.calls| && s.calls[c].Finished?
  }

  /** A transaction stays open or its call is finished, and a finished call stays so. */
  lemma OpenStep(s: State, e: Step, c: nat, o: nat)
    requires Enabled(s, e)
    ensures Holds(s, c, o) ==> Holds(Apply(s, e), c, o) || Done(Apply(s, e), c)
    ensures Done(s, c) ==> Done(Apply(s, e), c)
  {
  }

  lemma UpdateOpens(s: State, c: nat)
    requires Enabled(s, UpdateStatus(c))
    ensures Holds(Apply(s, UpdateStatus(c)), c, s.calls[c].orderId)
  {
  }

  lemma {:induction false} OpenOrDone(states: seq<State>, steps: seq<Step>, i: nat, m: nat, c: nat)
    requires IsRun(states, steps) && i < m <= |steps| && steps[i] == UpdateStatus(c)
    ensures Holds(states[m], c, states[i].calls[c].orderId) || Done(states[m], c)
    decreases m
  {
    var e := steps[m - 1];
    if i == m - 1 {
      UpdateOpens(states[i], c);
    } else {
      OpenOrDone(states, steps, i, m - 1, c);
      OpenStep(states[m - 1], e, c, states[i].calls[c].orderId);
    }
  }

  lemma {:induction false} DoneStays(states: seq<State>, steps: seq<Step>, m: nat, j: nat, c: nat)
    requires IsRun(states, steps) && m <= j <= |steps| && Done(states[m], c)
    ensures Done(states[j], c)
    decreases j
  {
    if m < j {
      DoneStays(states, steps, m, j - 1, c);
      var e := steps[j - 1];
      OpenStep(states[j - 1], e, c, 0);
    }
  }

  /** From its update to its commit a call has its transaction open. */
  lemma OpenUntilCommit(states: seq<State>, steps: seq<Step>, i: nat, j: nat, c: nat)
    requires IsRun(states, steps) && i < j < |steps| && steps[i] == UpdateStatus(c) && steps[j] == Commit(c)
    ensures forall m :: i < m <= j ==> Holds(states[m], c, states[i].calls[c].orderId)
  {
    assert !Done(states[j], c);
    forall m | i < m <= j
      ensures Holds(states[m], c, states[i].calls[c].orderId)
    {
      OpenOrDone(states, steps, i, m, c);
      if Done(states[m], c) {
        DoneStays(states, steps, m, j, c);
      }
    }
  }

  /**
   So the condition of LogsLegalIff can be decided by the update itself: a change commits on the status it read if and
   only if its update finds that status.
   */
  lemma CommitsCurrentIffUpdateFindsSeen(states: seq<State>, steps: seq<Step>, i: nat, j: nat, c: nat)
    requires IsRun(states, steps) && i < j < |steps| && steps[i] == UpdateStatus(c) && steps[j] == Commit(c)
    ensures states[i].calls[c].orderId in states[i].orders
    ensures CommitsCurrent(states[j], steps[j]) <==>
            states[i].orders[states[i].calls[c].orderId].status == states[i].calls[c].seen
  {
    var o := states[i].calls[c].orderId;
    OpenUntilCommit(states, steps, i, j, c);
    RowHeldUntilCommit(states, steps, i, j, c, o);
    SeenIsPending(states, steps, i, c);
    SeenIsPending(states, steps, j, c);
    assert Holds(states[j], c, o);
  }

  lemma SeenIsPending(states: seq<State>, steps: seq<Step>, n: nat, c: nat)
    requires IsRun(states, steps) && n <= |steps| && c < |states[n].calls| && Alters(states[n].calls[c])
    ensures states[n].calls[c].seen == PendingPayment
  {
    SoundRun(states, steps, n);
    assert Well(states[n].calls[c]);
  }

  // One call at a time, without the cache

  ghost predicate Active(call: Call) {
    !call.Placed? && !call.Finished?
  }

  ghost predicate OneAtATime(s: State) {
    forall c, d :: 0 <= c < d < |s.calls| ==> !Active(s.calls[c]) || !Active(s.calls[d])
  }

  /** What an active call has read of its order is still so. */
  ghost predicate UpToDate(s: State, call: Call) {
    && (call.Fetched? ==> call.orderId in s.orders && s.orders[call.orderId].status == call.status)
    && (Alters(call) ==> call.orderId in s.orders && s.orders[call.orderId].status == call.seen)
  }

  lemma UpToDateQuiet(s: State, e: Step, c: nat)
    requires Enabled(s, e) && Quiet(e) && !e.HitOrder? && c < |Apply(s, e).calls|
    requires c < |s.calls| ==> UpToDate(s, s.calls[c])
    ensures UpToDate(Apply(s, e), Apply(s, e).calls[c])
  {
  }

  /** The calls that do not commit are not at work. */
  lemma UpToDateCommit(s: State, e: Step, c: nat)
    requires Enabled(s, e) && e.Commit? && OneAtATime(s) && c < |s.calls|
    ensures UpToDate(Apply(s, e), Apply(s, e).calls[c])
  {
    assert Active(s.calls[e.c]);
    assert c != e.c ==> !Active(s.calls[c]);
  }

  lemma UpToDateStep(s: State, e: Step)
    requires Enabled(s, e) && OneAtATime(s) && !e.HitOrder?
    requires forall c :: 0 <= c < |s.calls| ==> UpToDate(s, s.calls[c])
    ensures forall c :: 0 <= c < |Apply(s, e).calls| ==> UpToDate(Apply(s, e), Apply(s, e).calls[c])
  {
    var s' := Apply(s, e);
    forall c | 0 <= c < |s'.calls|
      ensures UpToDate(s', s'.calls[c])
    {
      if Quiet(e) {
        UpToDateQuiet(s, e, c);
      } else if e.Commit? {
        UpToDateCommit(s, e, c);
      } else {
        assert UpToDate(s, s.calls[c]);
      }
    }
  }

  lemma {:induction false} UpToDateRun(states: seq<State>, steps: seq<Step>, n: nat)
    requires IsRun(states, steps) && n <= |steps|
    requires forall i :: 0 <= i < n ==> OneAtATime(states[i]) && !steps[i].HitOrder?
    ensures forall c :: 0 <= c < |states[n].calls| ==> UpToDate(states[n], states[n].calls[c])
  {
    if n > 0 {
      UpToDateRun(states, steps, n - 1);
      SoundRun(states, steps, n - 1);
      UpToDateStep(states[n - 1], steps[n - 1]);
      assert states[n] == Apply(states[n - 1], steps[n - 1]);
    }
  }

  /** Calls made one at a time, none of which reads the cache, commit on the status they read. */
  lemma OneAtATimeIsCurrent(states: seq<State>, steps: seq<Step>, n: nat)
    requires IsRun(states, steps) && n <= |steps|
    requires forall i :: 0 <= i < n ==> OneAtATime(states[i]) && !steps[i].HitOrder?
    ensures forall i :: 0 <= i < n ==> CommitsCurrent(states[i], steps[i])
  {
    forall i | 0 <= i < n
      ensures CommitsCurrent(states[i], steps[i])
    {
      UpToDateRun(states, steps, i);
      if steps[i].Commit? && steps[i].c < |states[i].calls| {
        assert UpToDate(states[i], states[i].calls[steps[i].c]);
      }
    }
  }

  /**
   The event log determines the state: for calls run one at a time on the uncached repository, failing at any point,
   every order has the log created, created-cancelled or created-confirmed, and the status that log leads to.
   */
  lemma EventLogDeterminesState(states: seq<State>, steps: seq<Step>, n: nat, o: nat)
    requires IsRun(states, steps) && n <= |steps| && o in states[n].orders
    requires forall i :: 0 <= i < n ==> OneAtATime(states[i]) && !steps[i].HitOrder?
    ensures Legal(EventLog(states[n], o)) && states[n].orders[o].status == Fold(EventLog(states[n], o))
  {
    OneAtATimeIsCurrent(states, steps, n);
    LegalRun(states, steps, n);
    StatusIsFold(states, steps, n, o);
  }

  /** Cancelled and processing are final while every change of the run commits on the status it read. */
  lemma {:induction false} DecidedIsFinal(states: seq<State>, steps: seq<Step>, i: nat, j: nat, o: nat)
    requires IsRun(states, steps) && i <= j <= |steps| && o in states[i].orders
    requires forall m :: 0 <= m < j ==> CommitsCurrent(states[m], steps[m])
    requires states[i].orders[o].status != PendingPayment
    ensures o in states[j].orders && states[j].orders[o].status == states[i].orders[o].status
    decreases j - i
  {
    if i < j {
      DecidedIsFinal(states, steps, i, j - 1, o);
      SoundRun(states, steps, j - 1);
      var s, e := states[j - 1], steps[j - 1];
      assert states[j] == Apply(s, e) && CommitsCurrent(s, e);
      StepOrders(s, e, o);
      assert Changes(s, e, o) ==> Well(s.calls[e.c]);
    }
  }

  /** So they are final for calls made one at a time on the uncached repository. */
  lemma DecidedIsFinalUncached(states: seq<State>, steps: seq<Step>, i: nat, j: nat, o: nat)
    requires IsRun(states, steps) && i <= j <= |steps| && o in states[i].orders
    requires forall m :: 0 <= m < j ==> OneAtATime(states[m]) && !steps[m].HitOrder?
    requires states[i].orders[o].status != PendingPayment
    ensures o in states[j].orders && states[j].orders[o].status == states[i].orders[o].status
  {
    OneAtATimeIsCurrent(states, steps, j);
    DecidedIsFinal(states, steps, i, j, o);
  }
}
