/**
 The order use case (internal/order/usecase/create_order.go) over its repositories, one call at a time. What the
 database and Redis answer is a parameter of each call. Every method is shown to take the steps of the protocol.
 */
module OrderService {
  import Outbox
  import opened OrderProtocol
  import opened OrderProofs

  datatype Result =
    Ok | EmptyCart | InvalidQuantity | DuplicateKey | OrderNotFound | NotCancellable | DatabaseError

  /** How a commit comes back: done, failed without effect, or done with the acknowledgement lost. */
  datatype Answer = Done | Failed | Lost

  lemma ReachableCache(s: State)
    requires Reachable(s)
    ensures forall x :: x in s.cache ==> x.orderId in s.orders
  {
    var states, steps :| IsRun(states, steps) && states[|steps|] == s;
    SoundRun(states, steps, |steps|);
  }

  class Service {
    var orders: map<nat, Order>
    var items: seq<Item>
    var events: seq<Outbox.Event>
    var cache: map<Spelled, OrderStatus>
    ghost var now: State

    /** The tables are a reachable state of the protocol in which no call is at work. */
    ghost predicate Valid()
      reads this
    {
      Tables() && Resting(now.calls)
    }

    ghost predicate Tables()
      reads this
    {
      && now.orders == orders && now.items == items && now.outbox.events == events && now.cache == cache
      && Reachable(now)
    }

    static ghost predicate Resting(calls: seq<Call>) {
      forall c :: 0 <= c < |calls| ==> calls[c].Placed? || calls[c].Finished?
    }

    /** Call `c`, the last one, is at the given point and all others are done. */
    ghost predicate At(c: nat, call: Call)
      reads this
    {
      Tables() && |now.calls| == c + 1 && now.calls[c] == call && Resting(now.calls[..c])
    }

    constructor ()
      ensures Valid() && orders == map[] && items == [] && events == [] && cache == map[]
    {
      orders, items, events, cache, now := map[], [], [], map[], INITIAL;
      new;
      assert IsRun([INITIAL], []);
    }

    ghost method Take(e: Step)
      requires Reachable(now) && Enabled(now, e)
      modifies this`now
      ensures Reachable(now) && now == Apply(old(now), e)
    {
      ReachableNext(now, e);
      now := Apply(now, e);
    }

    /** A step of the last call that leaves the tables alone. */
    ghost method Move(e: Step, c: nat, from: Call, to: Call)
      requires At(c, from) && Enabled(now, e) && Apply(now, e) == now.(calls := now.calls[c := to])
      modifies this`now
      ensures At(c, to)
    {
      Take(e);
    }

    ghost method Begin(e: Step, call: Call) returns (c: nat)
      requires Valid() && Enabled(now, e) && Apply(now, e) == now.(calls := now.calls + [call])
      modifies this`now
      ensures At(c, call) && c == |old(now).calls|
    {
      c := |now.calls|;
      Take(e);
      assert now.calls[..c] == old(now).calls;
    }

    /** The call ends without having changed anything. */
    ghost method Stop(c: nat)
      requires Tables() && |now.calls| == c + 1 && Resting(now.calls[..c]) && !now.calls[c].Placed?
      modifies this`now
      ensures Valid()
    {
      Take(GiveUp(c));
    }

    /** The checks of CreateOrder on its items. */
    method Validate(lines: seq<Line>) returns (r: Result)
      ensures r == Ok <==> Acceptable(lines)
      ensures r == EmptyCart <==> lines == []
      ensures r == Ok || r == EmptyCart || r == InvalidQuantity
    {
      if |lines| == 0 {
        return EmptyCart;
      }
      for i := 0 to |lines|
        invariant forall j :: 0 <= j < i ==> lines[j].quantity > 0
      {
        if lines[i].quantity <= 0 {
          return InvalidQuantity;
        }
      }
      return Ok;
    }

    /** The rows of the order's items, built one by one. */
    method BuildItems(orderId: nat, lines: seq<Line>) returns (rows: seq<Item>)
      ensures rows == ItemRows(orderId, lines)
    {
      rows := [];
      for i := 0 to |lines|
        invariant |rows| == i && forall j :: 0 <= j < i ==> rows[j] == Item(orderId, lines[j])
      {
        rows := rows + [Item(orderId, lines[i])];
      }
    }

    /** The item inserts of the transaction, row by row; `failAt` is the one that fails, if it is one of them. */
    method InsertItems(rows: seq<Item>, before: Tx, failAt: int,
                       ghost c: nat, ghost key: string, ghost lines: seq<Line>)
      returns (ok: bool, tx: Tx)
      requires rows == ItemRows(c, lines) && At(c, AddingItems(key, lines, 0, before))
      modifies this`now
      ensures ok <==> !(0 <= failAt < |rows|)
      ensures ok ==> tx == before.(items := before.items + rows) && At(c, AddingItems(key, lines, |lines|, tx))
      ensures !ok ==> Tables() && |now.calls| == c + 1 && Resting(now.calls[..c]) && !now.calls[c].Placed?
    {
      tx := before;
      for i := 0 to |rows|
        invariant At(c, AddingItems(key, lines, i, tx)) && !(0 <= failAt < i)
        invariant tx == before.(items := before.items + rows[..i])
      {
        if i == failAt {
          return false, tx;
        }
        ghost var point := AddingItems(key, lines, i, tx);
        tx := tx.(items := tx.items + [rows[i]]);
        assert rows[..i + 1] == rows[..i] + [rows[i]];
        Move(InsertItem(c), c, point, AddingItems(key, lines, i + 1, tx));
      }
      assert rows[..|rows|] == rows;
      return true, tx;
    }

    /** Everything in the buffer becomes visible. */
    method CommitTx(tx: Tx, ghost c: nat)
      requires Tables() && |now.calls| == c + 1 && Resting(now.calls[..c]) && Enabled(now, Commit(c))
      requires now.calls[c].tx == tx
      modifies this
      ensures Valid() && cache == old(cache)
      ensures orders == Restated(old(orders) + tx.orders, tx.statuses)
      ensures items == old(items) + tx.items && events == old(events) + tx.events
    {
      orders := Restated(orders + tx.orders, tx.statuses);
      items := items + tx.items;
      events := events + tx.events;
      Take(Commit(c));
    }

    /** The rows of the three tables. */
    ghost function Content(): (map<nat, Order>, seq<Item>, seq<Outbox.Event>)
      reads this
    {
      (orders, items, events)
    }

    /** The rows of the three tables with one more order placed. */
    ghost function Extended(id: nat, key: string, lines: seq<Line>, createdAt: int)
      : (map<nat, Order>, seq<Item>, seq<Outbox.Event>)
      reads this
    {
      (orders[id := Order(PendingPayment, key)], items + ItemRows(id, lines),
       events + [Outbox.Event(id, Outbox.OrderCreated, createdAt, Outbox.Pending)])
    }

    /** The event insert and the commit of CreateOrder. */
    method FinishOrder(key: string, lines: seq<Line>, tx: Tx, createdAt: int, id: nat)
      requires At(id, AddingItems(key, lines, |lines|, tx))
      requires tx == Tx(map[id := Order(PendingPayment, key)], ItemRows(id, lines), map[], [])
      modifies this
      ensures Valid() && cache == old(cache)
      ensures Content() == old(Extended(id, key, lines, createdAt))
    {
      var full := WithEvent(tx, id, Outbox.OrderCreated, createdAt);
      Move(InsertEvent(id, createdAt), id, AddingItems(key, lines, |lines|, tx), Creating(key, lines, full));
      assert full.events == [Outbox.Event(id, Outbox.OrderCreated, createdAt, Outbox.Pending)];
      PublishedInsert(orders, id, Order(PendingPayment, key));
      CommitTx(full, id);
    }

    /** The transaction of CreateOrder, from the order insert to the commit. */
    method Place(key: string, lines: seq<Line>, taken: bool, id: nat, createdAt: int, inserted: bool,
                 failAt: int, recorded: bool, committed: Answer) returns (r: Result)
      requires At(id, Inserting(key, lines)) && (taken <==> KeyTaken(now, key))
      modifies this
      ensures Valid() && cache == old(cache)
      ensures r == if !taken && inserted && !(0 <= failAt < |lines|) && recorded && committed == Done then Ok
                   else DatabaseError
      ensures Content() == if !taken && inserted && !(0 <= failAt < |lines|) && recorded && committed != Failed
                           then old(Extended(id, key, lines, createdAt)) else old(Content())
    {
      var rows := BuildItems(id, lines);
      if !inserted || taken {
        Stop(id);
        return DatabaseError;
      }
      var tx := NO_WRITES.(orders := map[id := Order(PendingPayment, key)]);
      Move(InsertOrder(id), id, Inserting(key, lines), AddingItems(key, lines, 0, tx));
      var ok;
      ok, tx := InsertItems(rows, tx, failAt, id, key, lines);
      if !ok || !recorded || committed == Failed {
        Stop(id);
        return DatabaseError;
      }
      FinishOrder(key, lines, tx, createdAt, id);
      return if committed == Done then Ok else DatabaseError;
    }

    /** An order has the idempotency key. */
    ghost predicate Taken(key: string)
      reads this
    {
      exists o :: o in orders && orders[o].idempotencyKey == key
    }

    /** The lookup of the key: `order` is the one that has it, if it is found. */
    method LookForKey(key: string, lines: seq<Line>, found: bool)
      returns (duplicate: bool, taken: bool, order: nat, ghost c: nat)
      requires Valid() && Acceptable(lines)
      modifies this`now
      ensures taken == Taken(key) && duplicate == (found && taken) && c == |old(now).calls|
      ensures duplicate ==> Valid() && order in orders && orders[order].idempotencyKey == key
      ensures !duplicate ==> At(c, Inserting(key, lines))
    {
      c := Begin(BeginCreate(key, lines), LookingUp(key, lines));
      taken := exists o :: o in orders && orders[o].idempotencyKey == key;
      duplicate, order := found && taken, 0;
      if duplicate {
        order :| order in orders && orders[order].idempotencyKey == key;
        Move(LookUp(c, false), c, LookingUp(key, lines), Finished);
        Rested(c);
      } else {
        Move(LookUp(c, !found), c, LookingUp(key, lines), Inserting(key, lines));
      }
    }

    /** The checks pass, no order has the key, and the statements up to the commit go through. */
    ghost predicate Placeable(key: string, lines: seq<Line>, begun: bool, inserted: bool, failAt: int, recorded: bool)
      reads this
    {
      && lines != [] && (forall i :: 0 <= i < |lines| ==> lines[i].quantity > 0)
      && !Taken(key) && begun && inserted && !(0 <= failAt < |lines|) && recorded
    }

    /**
     CreateOrder: the answer and the tables for every input. `id` is the fresh id of the order and `key` the idempotency
     key, generated when the request has none. The whole order is placed or nothing is. `order` is the order placed, or
     the one that has the key already.
     */
    method CreateOrder(key: string, lines: seq<Line>, id: nat, createdAt: int, found: bool, begun: bool, inserted: bool,
                       failAt: int, recorded: bool, committed: Answer) returns (r: Result, order: nat)
      requires Valid() && id == |now.calls|
      modifies this
      ensures Valid() && cache == old(cache)
      ensures r == EmptyCart <==> lines == []
      ensures r == InvalidQuantity <==> lines != [] && exists i :: 0 <= i < |lines| && lines[i].quantity <= 0
      ensures r == DuplicateKey <==>
                lines != [] && (forall i :: 0 <= i < |lines| ==> lines[i].quantity > 0) && found && old(Taken(key))
      ensures r == Ok <==> old(Placeable(key, lines, begun, inserted, failAt, recorded)) && committed == Done
      ensures r == EmptyCart || r == InvalidQuantity || r == DuplicateKey || r == Ok || r == DatabaseError
      ensures Content() == if old(Placeable(key, lines, begun, inserted, failAt, recorded)) && committed != Failed
                           then old(Extended(id, key, lines, createdAt)) else old(Content())
      ensures r == Ok ==> order == id
      ensures r == DuplicateKey ==> order in old(orders) && old(orders)[order].idempotencyKey == key
    {
      order := id;
      r := Validate(lines);
      if r != Ok {
        return;
      }
      var duplicate, taken, existing;
      ghost var c;
      duplicate, taken, existing, c := LookForKey(key, lines, found);
      if duplicate {
        return DuplicateKey, existing;
      }
      if !begun {
        Stop(c);
        return DatabaseError, order;
      }
      r := Place(key, lines, taken, id, createdAt, inserted, failAt, recorded, committed);
    }

    lemma Rested(c: nat)
      requires At(c, Finished)
      ensures Valid()
    {
    }

    /** GetByID of the cached order repository, for the call that has just begun. */
    method GetOrder(change: Change, orderId: nat, text: string, getOk: bool, setOk: bool, reachable: bool, ghost c: nat)
      returns (r: Result, status: OrderStatus)
      requires At(c, Reading(change, orderId))
      modifies this`now, this`cache
      ensures r == if Spelled(orderId, text) in old(cache) && getOk then Ok
                   else if !reachable then DatabaseError else if orderId in orders then Ok else OrderNotFound
      ensures r == Ok ==>
                status == if Spelled(orderId, text) in old(cache) && getOk then old(cache)[Spelled(orderId, text)]
                          else orders[orderId].status
      ensures cache == if !(Spelled(orderId, text) in old(cache) && getOk) && r == Ok && setOk
                       then old(cache)[Spelled(orderId, text) := orders[orderId].status] else old(cache)
      ensures r == Ok ==> At(c, Check(change, orderId, status))
      ensures r == OrderNotFound ==> Valid()
      ensures r == DatabaseError ==> At(c, Reading(change, orderId))
    {
      status := PendingPayment;
      var entry := Spelled(orderId, text);
      if entry in cache && getOk {
        status := cache[entry];
        Move(HitOrder(c, text), c, Reading(change, orderId), Check(change, orderId, status));
        return Ok, status;
      }
      if !reachable {
        return DatabaseError, status;
      }
      if orderId !in orders {
        Move(FetchOrder(c), c, Reading(change, orderId), Finished);
        Rested(c);
        return OrderNotFound, status;
      }
      status := orders[orderId].status;
      Move(FetchOrder(c), c, Reading(change, orderId), Fetched(change, orderId, status));
      if setOk {
        cache := cache[entry := status];
      }
      Take(FillOrder(c, setOk, text));
      return Ok, status;
    }

    /** The rows of the three tables with the status of an order changed. */
    ghost function Altered(change: Change, orderId: nat, createdAt: int)
      : (map<nat, Order>, seq<Item>, seq<Outbox.Event>)
      requires orderId in orders
      reads this
    {
      if change == Cancel then
        (orders[orderId := orders[orderId].(status := Cancelled)], items,
         events + [Outbox.Event(orderId, Outbox.OrderCancelled, createdAt, Outbox.Pending)])
      else
        (orders[orderId := orders[orderId].(status := Processing)], items,
         events + [Outbox.Event(orderId, Outbox.OrderConfirmed, createdAt, Outbox.Pending)])
    }

    /** The event insert and the commit of a status change. */
    method FinishChange(change: Change, orderId: nat, tx: Tx, createdAt: int, ghost c: nat, ghost seen: OrderStatus)
      requires At(c, Changing(change, orderId, seen, tx)) && orderId in orders
      requires tx == Tx(map[], [], map[orderId := NewStatus(change)], [])
      modifies this
      ensures Valid() && cache == old(cache)
      ensures Content() == old(Altered(change, orderId, createdAt))
    {
      var full := WithEvent(tx, orderId, EventOf(change), createdAt);
      Move(InsertEvent(c, createdAt), c, Changing(change, orderId, seen, tx), Changed(change, orderId, seen, full));
      assert full.events == [Outbox.Event(orderId, EventOf(change), createdAt, Outbox.Pending)];
      PublishedUpdate(orders, orderId, NewStatus(change));
      CommitTx(full, c);
      assert items == old(items);
    }

    /** The transaction of a status change; the cached order is left as it is. */
    method Change(change: Change, orderId: nat, createdAt: int, updated: bool, recorded: bool, committed: Answer,
                  ghost c: nat, ghost seen: OrderStatus) returns (r: Result)
      requires At(c, Checked(change, orderId, seen)) && orderId in orders
      modifies this
      ensures Valid() && cache == old(cache)
      ensures r == if updated && recorded && committed == Done then Ok else DatabaseError
      ensures Content() == if updated && recorded && committed != Failed then old(Altered(change, orderId, createdAt))
                           else old(Content())
    {
      if !updated || !recorded || committed == Failed {
        Stop(c);
        return DatabaseError;
      }
      var tx := NO_WRITES.(statuses := map[orderId := NewStatus(change)]);
      Move(UpdateStatus(c), c, Checked(change, orderId, seen), Changing(change, orderId, seen, tx));
      FinishChange(change, orderId, tx, createdAt, c, seen);
      return if committed == Done then Ok else DatabaseError;
    }

    /** The cache answers the call. */
    ghost predicate Hits(orderId: nat, text: string, getOk: bool)
      reads this
    {
      getOk && Spelled(orderId, text) in cache
    }

    /** The call gets to see the order, and the status it sees permits the change. */
    ghost predicate SeesPermitted(change: Change, orderId: nat, text: string, getOk: bool, reachable: bool)
      reads this
    {
      && (Hits(orderId, text, getOk) || (reachable && orderId in orders))
      && var seen := if Hits(orderId, text, getOk) then cache[Spelled(orderId, text)] else orders[orderId].status;
         seen == PendingPayment || (change == Cancel && seen == Paid)
    }

    /**
     CancelOrder and ConfirmOrder: the answer, the tables and the cache for every input; `text` is how the caller spells
     the order id. Status and event change together or not at all. A call whose order does not permit the change leaves
     the tables as they are, with an error from CancelOrder and none from ConfirmOrder.
     */
    method ChangeStatus(change: Change, orderId: nat, text: string, createdAt: int, getOk: bool, setOk: bool,
                        reachable: bool, begun: bool, updated: bool, recorded: bool, committed: Answer)
      returns (r: Result)
      requires Valid()
      modifies this
      ensures Valid()
      ensures old(Hits(orderId, text, getOk)) ==> orderId in old(orders)
      ensures r == if old(SeesPermitted(change, orderId, text, getOk, reachable)) then
                     if begun && updated && recorded && committed == Done then Ok else DatabaseError
                   else if !old(Hits(orderId, text, getOk)) && !reachable then DatabaseError
                   else if !old(Hits(orderId, text, getOk)) && orderId !in old(orders) then OrderNotFound
                   else if change == Cancel then NotCancellable
                   else Ok
      ensures if old(SeesPermitted(change, orderId, text, getOk, reachable))
                 && begun && updated && recorded && committed != Failed
              then orderId in old(orders) && Content() == old(Altered(change, orderId, createdAt))
              else Content() == old(Content())
      ensures cache == if old(Hits(orderId, text, getOk)) || !reachable || orderId !in old(orders) || !setOk
                       then old(cache) else old(cache)[Spelled(orderId, text) := old(orders)[orderId].status]
    {
      ReachableCache(now);
      ghost var c := Begin(BeginChange(change, orderId), Reading(change, orderId));
      var status;
      r, status := GetOrder(change, orderId, text, getOk, setOk, reachable, c);
      if r == DatabaseError {
        Stop(c);
        return;
      }
      if r == OrderNotFound {
        return;
      }
      if !Permits(change, status) {
        Rested(c);
        return if change == Cancel then NotCancellable else Ok;
      }
      if !begun {
        Stop(c);
        return DatabaseError;
      }
      r := Change(change, orderId, createdAt, updated, recorded, committed, c, status);
    }
  }
}
