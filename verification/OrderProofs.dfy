/**
 Atomic creation, idempotency and the event log, over every interleaving and failure.
 */
module OrderProofs {
  import Outbox
  import opened OrderProtocol

  /** What an outbox row says, apart from how far its publishing got. */
  datatype Fact = Fact(orderId: nat, kind: Outbox.EventType)

  function Facts(events: seq<Outbox.Event>): (facts: seq<Fact>)
    ensures |facts| == |events|
    ensures forall i :: 0 <= i < |events| ==> facts[i] == Fact(events[i].orderId, events[i].kind)
  {
    seq(|events|, i requires 0 <= i < |events| => Fact(events[i].orderId, events[i].kind))
  }

  /** The event log of an order: its outbox events, oldest first. */
  function LogOf(facts: seq<Fact>, orderId: nat): seq<Outbox.EventType> {
    if facts == [] then []
    else
      var n := |facts| - 1;
      LogOf(facts[..n], orderId) + (if facts[n].orderId == orderId then [facts[n].kind] else [])
  }

  function LinesOf(items: seq<Item>, orderId: nat): seq<Line> {
    if items == [] then []
    else
      var n := |items| - 1;
      LinesOf(items[..n], orderId) + (if items[n].orderId == orderId then [items[n].line] else [])
  }

  /** The status an event log leads to. */
  function Fold(log: seq<Outbox.EventType>): OrderStatus
    requires log != []
  {
    match log[|log| - 1]
    case OrderCreated => PendingPayment
    case OrderCancelled => Cancelled
    case OrderConfirmed => Processing
  }

  lemma LogAppend(facts: seq<Fact>, fact: Fact, orderId: nat)
    ensures LogOf(facts + [fact], orderId)
         == LogOf(facts, orderId) + (if fact.orderId == orderId then [fact.kind] else [])
  {
    assert (facts + [fact])[..|facts|] == facts;
  }

  lemma {:induction false} LinesAppend(items: seq<Item>, more: seq<Item>, orderId: nat)
    ensures LinesOf(items + more, orderId) == LinesOf(items, orderId) + LinesOf(more, orderId)
  {
    if more == [] {
      assert items + more == items;
    } else {
      var n := |more| - 1;
      assert (items + more)[..|items| + n] == items + more[..n];
      assert LinesOf(items + more, orderId)
          == LinesOf(items + more[..n], orderId) + (if more[n].orderId == orderId then [more[n].line] else []);
      LinesAppend(items, more[..n], orderId);
    }
  }

  /** One item row per requested item, in order. */
  function ItemRows(orderId: nat, lines: seq<Line>): seq<Item> {
    seq(|lines|, i requires 0 <= i < |lines| => Item(orderId, lines[i]))
  }

  lemma {:induction false} LinesOfRows(c: nat, lines: seq<Line>, orderId: nat)
    ensures LinesOf(ItemRows(c, lines), orderId) == if orderId == c then lines else []
  {
    if lines != [] {
      var n := |lines| - 1;
      assert ItemRows(c, lines)[..n] == ItemRows(c, lines[..n]);
      LinesOfRows(c, lines[..n], orderId);
      assert lines == lines[..n] + [lines[n]];
    }
  }

  // The invariant

  ghost predicate Requests(call: Call) {
    call.LookingUp? || call.Inserting? || call.AddingItems? || call.Creating? || call.Placed?
  }

  ghost predicate Alters(call: Call) {
    call.Checked? || call.Changing? || call.Changed?
  }

  ghost predicate Well(call: Call) {
    (Requests(call) ==> Acceptable(call.lines)) && (Alters(call) ==> call.seen == PendingPayment)
  }

  /** The buffer holds one event row, and it is this one. */
  ghost predicate Announces(tx: Tx, orderId: nat, kind: Outbox.EventType) {
    |tx.events| == 1 && tx.events[0] == Outbox.Event(orderId, kind, tx.events[0].createdAt, Outbox.Pending)
  }

  /** What the statements made so far have left in the buffer of call `c`. */
  ghost predicate TxSound(c: nat, call: Call) {
    match call
    case AddingItems(key, lines, done, tx) =>
      done <= |lines| && tx == Tx(map[c := Order(PendingPayment, key)], ItemRows(c, lines[..done]), map[], [])
    case Creating(key, lines, tx) =>
      && tx == Tx(map[c := Order(PendingPayment, key)], ItemRows(c, lines), map[], tx.events)
      && Announces(tx, c, Outbox.OrderCreated)
    case Changing(change, orderId, _, tx) => tx == Tx(map[], [], map[orderId := NewStatus(change)], [])
    case Changed(change, orderId, _, tx) =>
      && tx == Tx(map[], [], map[orderId := NewStatus(change)], tx.events)
      && Announces(tx, orderId, EventOf(change))
    case _ => true
  }

  /** An order, the request that placed it, the item rows and the event log it has. */
  ghost predicate Consistent(order: Order, request: Call, lines: seq<Line>, log: seq<Outbox.EventType>) {
    && request.Placed? && order.idempotencyKey == request.key && lines == request.lines
    && log != [] && log[0] == Outbox.OrderCreated
    && (forall i :: 1 <= i < |log| ==> log[i] != Outbox.OrderCreated)
    && order.status == Fold(log)
  }

  ghost predicate OrderSound(s: State, o: nat) {
    && o in s.orders && o < |s.calls|
    && Consistent(s.orders[o], s.calls[o], LinesOf(s.items, o), LogOf(Facts(s.outbox.events), o))
  }

  /** No item and no event without its order. */
  ghost predicate NoStrays(s: State) {
    && (forall i :: 0 <= i < |s.items| ==> s.items[i].orderId in s.orders)
    && (forall i :: 0 <= i < |s.outbox.events| ==> s.outbox.events[i].orderId in s.orders)
  }

  /** Nobody holds a key that an order already has, and nobody shares one. */
  ghost predicate KeysSound(s: State) {
    && (forall o, o' :: o in s.orders && o' in s.orders && s.orders[o].idempotencyKey == s.orders[o'].idempotencyKey ==>
          o == o')
    && (forall c, o :: 0 <= c < |s.calls| && o in s.orders ==> !HoldsKey(s.calls[c], s.orders[o].idempotencyKey))
    && (forall c, d :: 0 <= c < d < |s.calls| && (s.calls[c].AddingItems? || s.calls[c].Creating?) ==>
          !HoldsKey(s.calls[d], s.calls[c].key))
  }

  /** The statuses read, cached or stored that the three calls can produce. */
  ghost predicate StatusesSound(s: State) {
    && (forall o :: o in s.orders ==> s.orders[o].status != Paid)
    && (forall x :: x in s.cache ==> x.orderId in s.orders && s.cache[x] != Paid)
    && (forall c :: 0 <= c < |s.calls| ==> Well(s.calls[c]))
    && (forall c :: 0 <= c < |s.calls| && s.calls[c].Fetched? ==> s.calls[c].status != Paid)
    && (forall c :: 0 <= c < |s.calls| && (s.calls[c].Fetched? || Alters(s.calls[c])) ==>
          s.calls[c].orderId in s.orders)
  }

  /** An order is there exactly when its call has committed. */
  ghost predicate PlacedSound(s: State) {
    forall c :: 0 <= c < |s.calls| ==> (s.calls[c].Placed? <==> c in s.orders)
  }

  /** No order is being changed by two open transactions. */
  ghost predicate RowsSound(s: State) {
    forall c, d :: 0 <= c < d < |s.calls| && (s.calls[c].Changing? || s.calls[c].Changed?) ==>
      !HoldsRow(s.calls[d], s.calls[c].orderId)
  }

  ghost predicate Buffered(s: State) {
    forall c :: 0 <= c < |s.calls| ==> TxSound(c, s.calls[c])
  }

  ghost predicate Sound(s: State) {
    && (forall o :: o in s.orders ==> OrderSound(s, o))
    && PlacedSound(s)
    && NoStrays(s)
    && KeysSound(s)
    && StatusesSound(s)
    && RowsSound(s)
    && Buffered(s)
    && Outbox.Reachable(s.outbox)
  }

  /** Publishing an event changes nothing of what it says. */
  lemma PublishKeepsFacts(s: State, step: Outbox.Step)
    requires Sound(s) && Enabled(s, Publish(step))
    ensures Facts(Apply(s, Publish(step)).outbox.events) == Facts(s.outbox.events)
  {
  }

  lemma InsertFact(outbox: Outbox.State, orderId: nat, kind: Outbox.EventType, createdAt: int)
    ensures Facts(Outbox.Inserted(outbox, orderId, kind, createdAt).events)
         == Facts(outbox.events) + [Fact(orderId, kind)]
  {
  }

  lemma InsertReachable(outbox: Outbox.State, orderId: nat, kind: Outbox.EventType, createdAt: int)
    requires Outbox.Reachable(outbox)
    ensures Outbox.Reachable(Outbox.Inserted(outbox, orderId, kind, createdAt))
  {
    Outbox.ReachableNext(outbox, Outbox.Insert(orderId, kind, createdAt));
  }

  // Steps that leave the tables alone

  ghost predicate Quiet(e: Step) {
    !e.Commit? && !e.Publish?
  }

  lemma QuietPlaced(s: State, e: Step)
    requires PlacedSound(s) && (forall o :: o in s.orders ==> o < |s.calls|) && Enabled(s, e) && Quiet(e)
    ensures PlacedSound(Apply(s, e))
  {
  }

  lemma QuietKeeps(s: State, e: Step)
    requires Enabled(s, e) && Quiet(e)
    ensures var s' := Apply(s, e);
            && s'.orders == s.orders && s'.items == s.items && s'.outbox == s.outbox && |s.calls| <= |s'.calls|
            && forall o :: 0 <= o < |s.calls| && s.calls[o].Placed? ==> s'.calls[o] == s.calls[o]
  {
  }

  lemma OrderKept(s: State, s': State, o: nat)
    requires OrderSound(s, o) && s'.orders == s.orders && s'.items == s.items && s'.outbox == s.outbox
    requires o < |s'.calls| && s'.calls[o] == s.calls[o]
    ensures OrderSound(s', o)
  {
  }

  lemma QuietOrders(s: State, e: Step, s': State)
    requires Sound(s) && Enabled(s, e) && Quiet(e) && s' == Apply(s, e)
    ensures forall o :: o in s.orders ==> OrderSound(s', o)
  {
    QuietKeeps(s, e);
    forall o | o in s.orders
      ensures OrderSound(s', o)
    {
      assert OrderSound(s, o);
      OrderKept(s, s', o);
    }
  }

  /** A call that holds no key it did not hold before disturbs no other. */
  lemma KeysKept(s: State, s': State, c: nat, call: Call)
    requires KeysSound(s) && c < |s.calls| && s'.orders == s.orders && s'.calls == s.calls[c := call]
    requires call.AddingItems? || call.Creating? ==> HoldsKey(s.calls[c], call.key)
    ensures KeysSound(s')
  {
  }

  lemma KeysBegin(s: State, s': State, call: Call)
    requires KeysSound(s) && s'.orders == s.orders && s'.calls == s.calls + [call]
    requires !call.AddingItems? && !call.Creating?
    ensures KeysSound(s')
  {
  }

  lemma KeysInsert(s: State, c: nat)
    requires KeysSound(s) && Enabled(s, InsertOrder(c))
    ensures KeysSound(Apply(s, InsertOrder(c)))
  {
    var s' := Apply(s, InsertOrder(c));
    var key := s.calls[c].key;
    if KeyTaken(s, key) {
      KeysKept(s, s', c, Finished);
    } else {
      assert forall d :: 0 <= d < |s'.calls| && d != c ==> s'.calls[d] == s.calls[d] && !HoldsKey(s.calls[d], key);
    }
  }

  lemma QuietKeys(s: State, e: Step)
    requires KeysSound(s) && Enabled(s, e) && Quiet(e)
    ensures KeysSound(Apply(s, e))
  {
    var s' := Apply(s, e);
    if e.BeginCreate? || e.BeginChange? {
      KeysBegin(s, s', s'.calls[|s.calls|]);
    } else if e.InsertOrder? {
      KeysInsert(s, e.c);
    } else if !e.Expire? {
      KeysKept(s, s', e.c, s'.calls[e.c]);
    }
  }

  lemma QuietWell(s: State, e: Step, c: nat)
    requires StatusesSound(s) && Enabled(s, e) && Quiet(e) && c < |Apply(s, e).calls|
    ensures Well(Apply(s, e).calls[c])
  {
    if c < |s.calls| {
      assert Well(s.calls[c]);
    }
  }

  lemma QuietReading(s: State, e: Step, c: nat)
    requires StatusesSound(s) && Enabled(s, e) && Quiet(e) && c < |Apply(s, e).calls|
    ensures var s', call := Apply(s, e), Apply(s, e).calls[c];
            && (call.Fetched? ==> call.status != Paid)
            && (call.Fetched? || Alters(call) ==> call.orderId in s'.orders)
  {
  }

  lemma QuietCache(s: State, e: Step)
    requires StatusesSound(s) && Enabled(s, e) && Quiet(e)
    ensures var s' := Apply(s, e);
            s'.orders == s.orders && forall x :: x in s'.cache ==> x.orderId in s'.orders && s'.cache[x] != Paid
  {
  }

  lemma QuietStatuses(s: State, e: Step, s': State)
    requires StatusesSound(s) && Enabled(s, e) && Quiet(e) && s' == Apply(s, e)
    ensures StatusesSound(s')
  {
    QuietCache(s, e);
    forall c | 0 <= c < |s'.calls|
      ensures Well(s'.calls[c])
      ensures s'.calls[c].Fetched? ==> s'.calls[c].status != Paid
      ensures s'.calls[c].Fetched? || Alters(s'.calls[c]) ==> s'.calls[c].orderId in s'.orders
    {
      QuietWell(s, e, c);
      QuietReading(s, e, c);
    }
  }

  lemma QuietRows(s: State, e: Step)
    requires RowsSound(s) && Enabled(s, e) && Quiet(e)
    ensures RowsSound(Apply(s, e))
  {
  }

  /** One more item is in the buffer. */
  lemma ItemRowsGrow(c: nat, lines: seq<Line>, done: nat)
    requires done < |lines|
    ensures ItemRows(c, lines[..done + 1]) == ItemRows(c, lines[..done]) + [Item(c, lines[done])]
  {
  }

  lemma QuietBuffers(s: State, e: Step)
    requires Buffered(s) && Enabled(s, e) && Quiet(e)
    ensures Buffered(Apply(s, e))
  {
    var s' := Apply(s, e);
    forall c | 0 <= c < |s'.calls|
      ensures TxSound(c, s'.calls[c])
    {
      if c < |s.calls| {
        assert TxSound(c, s.calls[c]);
        if e == InsertItem(c) {
          ItemRowsGrow(c, s.calls[c].lines, s.calls[c].done);
        } else if e.InsertEvent? && e.c == c && s.calls[c].AddingItems? {
          assert s.calls[c].lines[..s.calls[c].done] == s.calls[c].lines;
        }
      }
    }
  }

  lemma SoundQuiet(s: State, e: Step)
    requires Sound(s) && Enabled(s, e) && Quiet(e)
    ensures Sound(Apply(s, e))
  {
    QuietOrders(s, e, Apply(s, e));
    QuietPlaced(s, e);
    QuietKeys(s, e);
    QuietStatuses(s, e, Apply(s, e));
    QuietRows(s, e);
    QuietBuffers(s, e);
  }

  lemma SoundPublish(s: State, step: Outbox.Step)
    requires Sound(s) && Enabled(s, Publish(step))
    ensures Sound(Apply(s, Publish(step)))
  {
    var s' := Apply(s, Publish(step));
    PublishKeepsFacts(s, step);
    Outbox.ReachableNext(s.outbox, step);
    forall o | o in s'.orders
      ensures OrderSound(s', o)
    {
      assert OrderSound(s, o);
    }
    forall i | 0 <= i < |s'.outbox.events|
      ensures s'.outbox.events[i].orderId in s'.orders
    {
      assert Facts(s'.outbox.events)[i] == Facts(s.outbox.events)[i];
      assert s.outbox.events[i].orderId in s.orders;
    }
  }

  // What a commit makes of the tables

  ghost predicate Committing(s: State, c: nat) {
    c < |s.calls| && (s.calls[c].Creating? || (s.calls[c].Changed? && s.calls[c].orderId in s.orders))
  }

  /** The whole order with its items and its event, or the new status with its event. */
  function Committed(s: State, c: nat, createdAt: int): State
    requires Committing(s, c)
  {
    if s.calls[c].Creating? then
      var Creating(key, lines, _) := s.calls[c];
      s.(orders := s.orders[c := Order(PendingPayment, key)],
         items := s.items + ItemRows(c, lines),
         outbox := Outbox.Inserted(s.outbox, c, Outbox.OrderCreated, createdAt),
         calls := s.calls[c := Placed(key, lines)])
    else
      var Changed(change, orderId, _, _) := s.calls[c];
      s.(orders := s.orders[orderId := s.orders[orderId].(status := NewStatus(change))],
         outbox := Outbox.Inserted(s.outbox, orderId, EventOf(change), createdAt),
         calls := s.calls[c := Finished])
  }

  /** The creation time of the event a call is about to commit. */
  function EventTime(call: Call): int {
    if (call.Creating? || call.Changed?) && call.tx.events != [] then call.tx.events[0].createdAt else 0
  }

  lemma PublishedInsert(orders: map<nat, Order>, o: nat, order: Order)
    ensures Restated(orders + map[o := order], map[]) == orders[o := order]
  {
  }

  lemma PublishedUpdate(orders: map<nat, Order>, o: nat, status: OrderStatus)
    requires o in orders
    ensures Restated(orders + map[], map[o := status]) == orders[o := orders[o].(status := status)]
  {
  }

  /** Publishing the buffer that the statements filled does exactly that. */
  lemma CommitPublishes(s: State, c: nat)
    requires Committing(s, c) && TxSound(c, s.calls[c])
    ensures Apply(s, Commit(c)) == Committed(s, c, EventTime(s.calls[c]))
  {
    if s.calls[c].Creating? {
      PublishedInsert(s.orders, c, Order(PendingPayment, s.calls[c].key));
    } else {
      PublishedUpdate(s.orders, s.calls[c].orderId, NewStatus(s.calls[c].change));
      assert s.items + s.calls[c].tx.items == s.items;
    }
  }

  // Commit of CreateOrder

  lemma StrayFree(s: State, c: nat)
    requires NoStrays(s) && c !in s.orders
    ensures LogOf(Facts(s.outbox.events), c) == [] && LinesOf(s.items, c) == []
  {
    NoLog(Facts(s.outbox.events), c);
    NoLines(s.items, c);
  }

  lemma {:induction false} NoLog(facts: seq<Fact>, c: nat)
    requires forall i :: 0 <= i < |facts| ==> facts[i].orderId != c
    ensures LogOf(facts, c) == []
  {
    if facts != [] {
      NoLog(facts[..|facts| - 1], c);
    }
  }

  lemma {:induction false} NoLines(items: seq<Item>, c: nat)
    requires forall i :: 0 <= i < |items| ==> items[i].orderId != c
    ensures LinesOf(items, c) == []
  {
    if items != [] {
      NoLines(items[..|items| - 1], c);
    }
  }

  /** What the commit of a new order adds to the item rows and the event log of any order. */
  lemma CreateTables(s: State, c: nat, createdAt: int, o: nat)
    requires Committing(s, c) && s.calls[c].Creating?
    ensures var s' := Committed(s, c, createdAt);
            && LinesOf(s'.items, o) == LinesOf(s.items, o) + (if o == c then s.calls[c].lines else [])
            && LogOf(Facts(s'.outbox.events), o)
               == LogOf(Facts(s.outbox.events), o) + (if o == c then [Outbox.OrderCreated] else [])
  {
    var lines := s.calls[c].lines;
    InsertFact(s.outbox, c, Outbox.OrderCreated, createdAt);
    LogAppend(Facts(s.outbox.events), Fact(c, Outbox.OrderCreated), o);
    LinesAppend(s.items, ItemRows(c, lines), o);
    LinesOfRows(c, lines, o);
  }

  lemma CreateConsistent(key: string, lines: seq<Line>)
    ensures Consistent(Order(PendingPayment, key), Placed(key, lines), lines, [Outbox.OrderCreated])
  {
  }

  lemma CreateOrders(s: State, c: nat, createdAt: int, o: nat)
    requires Committing(s, c) && s.calls[c].Creating?
    requires if o == c then NoStrays(s) && c !in s.orders else OrderSound(s, o)
    ensures OrderSound(Committed(s, c, createdAt), o)
  {
    var s' := Committed(s, c, createdAt);
    CreateTables(s, c, createdAt, o);
    if o == c {
      StrayFree(s, c);
      assert LinesOf(s'.items, c) == s.calls[c].lines && LogOf(Facts(s'.outbox.events), c) == [Outbox.OrderCreated];
      CreateConsistent(s.calls[c].key, s.calls[c].lines);
    } else {
      assert LinesOf(s'.items, o) == LinesOf(s.items, o);
      assert LogOf(Facts(s'.outbox.events), o) == LogOf(Facts(s.outbox.events), o);
    }
  }

  lemma CreateKeys(s: State, c: nat, createdAt: int)
    requires KeysSound(s) && Committing(s, c) && s.calls[c].Creating?
    ensures KeysSound(Committed(s, c, createdAt))
  {
    var s' := Committed(s, c, createdAt);
    var key := s.calls[c].key;
    assert HoldsKey(s.calls[c], key);
    assert forall d :: 0 <= d < |s'.calls| && d != c ==> s'.calls[d] == s.calls[d] && !HoldsKey(s.calls[d], key);
    assert forall o :: o in s'.orders && o != c ==> o in s.orders && s'.orders[o] == s.orders[o];
  }

  lemma CreateRest(s: State, c: nat, createdAt: int)
    requires NoStrays(s) && StatusesSound(s) && Committing(s, c) && s.calls[c].Creating?
    ensures NoStrays(Committed(s, c, createdAt)) && StatusesSound(Committed(s, c, createdAt))
  {
    assert Well(s.calls[c]);
  }

  lemma SoundCreate(s: State, c: nat, createdAt: int)
    requires Sound(s) && Committing(s, c) && s.calls[c].Creating?
    ensures Sound(Committed(s, c, createdAt))
  {
    var s' := Committed(s, c, createdAt);
    forall o | o in s'.orders
      ensures OrderSound(s', o)
    {
      CreateOrders(s, c, createdAt, o);
    }
    InsertReachable(s.outbox, c, Outbox.OrderCreated, createdAt);
    CreateKeys(s, c, createdAt);
    CreateRest(s, c, createdAt);
    CommitRest(s, c, createdAt);
  }

  // Commit of CancelOrder and ConfirmOrder

  lemma ChangeConsistent(order: Order, request: Call, lines: seq<Line>, log: seq<Outbox.EventType>, change: Change)
    requires Consistent(order, request, lines, log)
    ensures Consistent(order.(status := NewStatus(change)), request, lines, log + [EventOf(change)])
  {
  }

  lemma ChangeOrders(s: State, c: nat, createdAt: int, o: nat)
    requires Committing(s, c) && s.calls[c].Changed? && OrderSound(s, o)
    ensures OrderSound(Committed(s, c, createdAt), o)
  {
    var Changed(change, orderId, _, _) := s.calls[c];
    var facts := Facts(s.outbox.events);
    InsertFact(s.outbox, orderId, EventOf(change), createdAt);
    LogAppend(facts, Fact(orderId, EventOf(change)), o);
    if o == orderId {
      ChangeConsistent(s.orders[o], s.calls[o], LinesOf(s.items, o), LogOf(facts, o), change);
    }
  }

  lemma ChangeRest(s: State, c: nat, createdAt: int)
    requires NoStrays(s) && StatusesSound(s) && Committing(s, c) && s.calls[c].Changed?
    ensures NoStrays(Committed(s, c, createdAt)) && StatusesSound(Committed(s, c, createdAt))
  {
  }

  lemma ChangeKeys(s: State, c: nat, createdAt: int)
    requires KeysSound(s) && Committing(s, c) && s.calls[c].Changed?
    ensures KeysSound(Committed(s, c, createdAt))
  {
    var s' := Committed(s, c, createdAt);
    assert s'.orders.Keys == s.orders.Keys;
    assert forall o :: o in s.orders ==> s'.orders[o].idempotencyKey == s.orders[o].idempotencyKey;
    assert forall d :: 0 <= d < |s'.calls| && d != c ==> s'.calls[d] == s.calls[d];
  }

  lemma SoundChange(s: State, c: nat, createdAt: int)
    requires Sound(s) && Committing(s, c) && s.calls[c].Changed?
    ensures Sound(Committed(s, c, createdAt))
  {
    var s' := Committed(s, c, createdAt);
    var Changed(change, orderId, _, _) := s.calls[c];
    forall o | o in s'.orders
      ensures OrderSound(s', o)
    {
      assert OrderSound(s, o);
      ChangeOrders(s, c, createdAt, o);
    }
    InsertReachable(s.outbox, orderId, EventOf(change), createdAt);
    ChangeKeys(s, c, createdAt);
    ChangeRest(s, c, createdAt);
    CommitRest(s, c, createdAt);
  }

  /** A call that is done holds no row and no buffer. */
  lemma CommitRest(s: State, c: nat, createdAt: int)
    requires Committing(s, c) && RowsSound(s) && Buffered(s)
    ensures RowsSound(Committed(s, c, createdAt)) && Buffered(Committed(s, c, createdAt))
  {
    var s' := Committed(s, c, createdAt);
    assert forall d :: 0 <= d < |s'.calls| && d != c ==> s'.calls[d] == s.calls[d];
  }

  lemma SoundCommit(s: State, c: nat)
    requires Sound(s) && Enabled(s, Commit(c))
    ensures Committing(s, c) && Apply(s, Commit(c)) == Committed(s, c, EventTime(s.calls[c]))
    ensures Sound(Apply(s, Commit(c)))
  {
    assert Committing(s, c) && TxSound(c, s.calls[c]);
    CommitPublishes(s, c);
    var createdAt := EventTime(s.calls[c]);
    if s.calls[c].Creating? {
      SoundCreate(s, c, createdAt);
    } else {
      SoundChange(s, c, createdAt);
    }
  }

  lemma SoundNext(s: State, e: Step, s': State)
    requires Sound(s) && Enabled(s, e) && s' == Apply(s, e)
    ensures Sound(s')
  {
    match e
    case Commit(c) => SoundCommit(s, c);
    case Publish(step) => SoundPublish(s, step);
    case _ => SoundQuiet(s, e);
  }

  lemma SoundInitially()
    ensures Sound(INITIAL)
  {
    assert Outbox.IsRun([Outbox.INITIAL], []);
  }

  lemma {:induction false} SoundRun(states: seq<State>, steps: seq<Step>, n: nat)
    requires IsRun(states, steps) && n <= |steps|
    ensures Sound(states[n])
  {
    if n == 0 {
      SoundInitially();
    } else {
      SoundRun(states, steps, n - 1);
      SoundNext(states[n - 1], steps[n - 1], states[n]);
    }
  }
}
