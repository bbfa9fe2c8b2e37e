/**
 CreateOrder, CancelOrder and ConfirmOrder (internal/order/usecase/create_order.go) as interleaving programs over the
 order tables (internal/order/adapter/postgres/order_repo.go), together with the outbox publishers that work on the
 events they write.

 Each statement of a transaction writes into the buffer of its call, which nobody else sees. Commit publishes whatever
 the buffer holds, and a call that fails or dies takes GiveUp, which drops it; a commit whose acknowledgement is lost
 is Commit and then GiveUp. The unique index on the idempotency key makes a second insert of a key wait for the
 transaction that holds it, and a status update waits for the row likewise. The id of an order is the number of the
 call that creates it, which stands for a fresh UUID.
 */
module OrderProtocol {
  import Outbox

  datatype OrderStatus = PendingPayment | Paid | Processing | Shipped | Delivered | Cancelled

  datatype Order = Order(status: OrderStatus, idempotencyKey: string)

  datatype Line = Line(productId: string, quantity: int)

  datatype Item = Item(orderId: nat, line: Line)

  datatype Change = Cancel | Confirm

  predicate CanCancel(status: OrderStatus) {
    status == PendingPayment || status == Paid
  }

  /** The check each call makes on the order it read. */
  predicate Permits(change: Change, status: OrderStatus) {
    match change
    case Cancel => CanCancel(status)
    case Confirm => status == PendingPayment
  }

  function NewStatus(change: Change): OrderStatus {
    match change
    case Cancel => Cancelled
    case Confirm => Processing
  }

  function EventOf(change: Change): Outbox.EventType {
    match change
    case Cancel => Outbox.OrderCancelled
    case Confirm => Outbox.OrderConfirmed
  }

  /** What an open transaction has written: rows inserted into the three tables, and statuses of orders updated. */
  datatype Tx = Tx(
    orders: map<nat, Order>, items: seq<Item>, statuses: map<nat, OrderStatus>, events: seq<Outbox.Event>)

  const NO_WRITES := Tx(map[], [], map[], [])

  datatype Call =
    // CreateOrder: key looked up, order inserted, items inserted one by one, event inserted, committed
    | LookingUp(key: string, lines: seq<Line>)
    | Inserting(key: string, lines: seq<Line>)
    | AddingItems(key: string, lines: seq<Line>, done: nat, tx: Tx)
    | Creating(key: string, lines: seq<Line>, tx: Tx)
    | Placed(key: string, lines: seq<Line>)
    // CancelOrder and ConfirmOrder: order read, checked, status updated, event inserted
    | Reading(change: Change, orderId: nat)
    | Fetched(change: Change, orderId: nat, status: OrderStatus)
    | Checked(change: Change, orderId: nat, seen: OrderStatus)
    | Changing(change: Change, orderId: nat, seen: OrderStatus, tx: Tx)
    | Changed(change: Change, orderId: nat, seen: OrderStatus, tx: Tx)
    | Finished

  /** What a cache key stands for: an order, and the text in which a caller spelled its id. */
  datatype Spelled = Spelled(orderId: nat, text: string)

  datatype State = State(
    orders: map<nat, Order>, items: seq<Item>, outbox: Outbox.State, calls: seq<Call>, cache: map<Spelled, OrderStatus>)

  datatype Step =
    | BeginCreate(key: string, lines: seq<Line>)
    | LookUp(c: nat, failed: bool)
    | InsertOrder(c: nat)
    | InsertItem(c: nat)
    | InsertEvent(c: nat, createdAt: int)
    | BeginChange(change: Change, orderId: nat)
    | HitOrder(c: nat, text: string)
    | FetchOrder(c: nat)
    | FillOrder(c: nat, ok: bool, text: string)
    | UpdateStatus(c: nat)
    | Commit(c: nat)
    | GiveUp(c: nat)
    | Expire(entry: Spelled)
    | Publish(step: Outbox.Step)

  const INITIAL := State(map[], [], Outbox.INITIAL, [], map[])

  /** What CreateOrder accepts: at least one item, and positive quantities. */
  predicate Acceptable(lines: seq<Line>) {
    lines != [] && forall i :: 0 <= i < |lines| ==> lines[i].quantity > 0
  }

  /** The call's transaction has inserted an order with this key and is still open. */
  predicate HoldsKey(call: Call, key: string) {
    (call.AddingItems? || call.Creating?) && call.key == key
  }

  /** The call's transaction has updated this order and is still open. */
  predicate HoldsRow(call: Call, orderId: nat) {
    (call.Changing? || call.Changed?) && call.orderId == orderId
  }

  predicate KeyTaken(s: State, key: string) {
    exists o :: o in s.orders && s.orders[o].idempotencyKey == key
  }

  predicate Enabled(s: State, e: Step) {
    match e
    case BeginCreate(_, lines) => Acceptable(lines)
    case LookUp(c, _) => c < |s.calls| && s.calls[c].LookingUp?
    case InsertOrder(c) =>
      && c < |s.calls| && s.calls[c].Inserting?
      && forall d :: 0 <= d < |s.calls| ==> !HoldsKey(s.calls[d], s.calls[c].key)
    case InsertItem(c) => c < |s.calls| && s.calls[c].AddingItems? && s.calls[c].done < |s.calls[c].lines|
    case InsertEvent(c, _) =>
      && c < |s.calls|
      && (s.calls[c].Changing? || (s.calls[c].AddingItems? && s.calls[c].done == |s.calls[c].lines|))
    case BeginChange(_, _) => true
    case HitOrder(c, text) => c < |s.calls| && s.calls[c].Reading? && Spelled(s.calls[c].orderId, text) in s.cache
    case FetchOrder(c) => c < |s.calls| && s.calls[c].Reading?
    case FillOrder(c, _, _) => c < |s.calls| && s.calls[c].Fetched?
    case UpdateStatus(c) =>
      && c < |s.calls| && s.calls[c].Checked?
      && forall d :: 0 <= d < |s.calls| ==> !HoldsRow(s.calls[d], s.calls[c].orderId)
    case Commit(c) => c < |s.calls| && (s.calls[c].Creating? || s.calls[c].Changed?)
    case GiveUp(c) => c < |s.calls| && !s.calls[c].Placed?
    case Expire(_) => true
    case Publish(step) => !step.Insert? && Outbox.Enabled(s.outbox, step)
  }

  function Check(change: Change, orderId: nat, status: OrderStatus): Call {
    if Permits(change, status) then Checked(change, orderId, status) else Finished
  }

  /** The statuses of the rows that are there are overwritten. */
  function Restated(orders: map<nat, Order>, statuses: map<nat, OrderStatus>): map<nat, Order> {
    map o | o in orders :: if o in statuses then orders[o].(status := statuses[o]) else orders[o]
  }

  /** Everything a transaction wrote becomes visible at once. */
  function Published(s: State, tx: Tx): State {
    s.(orders := Restated(s.orders + tx.orders, tx.statuses),
       items := s.items + tx.items,
       outbox := s.outbox.(events := s.outbox.events + tx.events))
  }

  /** The event row that a call inserts last. */
  function WithEvent(tx: Tx, orderId: nat, kind: Outbox.EventType, createdAt: int): Tx {
    tx.(events := tx.events + [Outbox.Event(orderId, kind, createdAt, Outbox.Pending)])
  }

  function Recorded(c: nat, call: Call, createdAt: int): Call
    requires call.AddingItems? || call.Changing?
  {
    match call
    case AddingItems(key, lines, _, tx) => Creating(key, lines, WithEvent(tx, c, Outbox.OrderCreated, createdAt))
    case Changing(change, orderId, seen, tx) =>
      Changed(change, orderId, seen, WithEvent(tx, orderId, EventOf(change), createdAt))
  }

  function Closed(call: Call): Call {
    if call.Creating? then Placed(call.key, call.lines) else Finished
  }

  function Apply(s: State, e: Step): State
    requires Enabled(s, e)
  {
    match e
    case BeginCreate(key, lines) => s.(calls := s.calls + [LookingUp(key, lines)])
    case LookUp(c, failed) =>
      var LookingUp(key, lines) := s.calls[c];
      s.(calls := s.calls[c := if !failed && KeyTaken(s, key) then Finished else Inserting(key, lines)])
    case InsertOrder(c) =>
      var Inserting(key, lines) := s.calls[c];
      var tx := NO_WRITES.(orders := map[c := Order(PendingPayment, key)]);
      s.(calls := s.calls[c := if KeyTaken(s, key) then Finished else AddingItems(key, lines, 0, tx)])
    case InsertItem(c) =>
      var AddingItems(key, lines, done, tx) := s.calls[c];
      s.(calls := s.calls[c := AddingItems(key, lines, done + 1, tx.(items := tx.items + [Item(c, lines[done])]))])
    case InsertEvent(c, createdAt) => s.(calls := s.calls[c := Recorded(c, s.calls[c], createdAt)])
    case BeginChange(change, orderId) => s.(calls := s.calls + [Reading(change, orderId)])
    case HitOrder(c, text) =>
      var Reading(change, orderId) := s.calls[c];
      s.(calls := s.calls[c := Check(change, orderId, s.cache[Spelled(orderId, text)])])
    case FetchOrder(c) =>
      var Reading(change, orderId) := s.calls[c];
      s.(calls := s.calls[c := if orderId in s.orders then Fetched(change, orderId, s.orders[orderId].status)
                               else Finished])
    case FillOrder(c, ok, text) =>
      var Fetched(change, orderId, status) := s.calls[c];
      s.(cache := if ok then s.cache[Spelled(orderId, text) := status] else s.cache,
         calls := s.calls[c := Check(change, orderId, status)])
    case UpdateStatus(c) =>
      var Checked(change, orderId, seen) := s.calls[c];
      var tx := NO_WRITES.(statuses := map[orderId := NewStatus(change)]);
      s.(calls := s.calls[c := Changing(change, orderId, seen, tx)])
    case Commit(c) => Published(s, s.calls[c].tx).(calls := s.calls[c := Closed(s.calls[c])])
    case GiveUp(c) => s.(calls := s.calls[c := Finished])
    case Expire(entry) => s.(cache := s.cache - {entry})
    case Publish(step) => s.(outbox := Outbox.Apply(s.outbox, step))
  }

  ghost predicate IsRun(states: seq<State>, steps: seq<Step>) {
    && |states| == |steps| + 1
    && states[0] == INITIAL
    && forall i {:trigger steps[i]} ::
         0 <= i < |steps| ==> Enabled(states[i], steps[i]) && states[i + 1] == Apply(states[i], steps[i])
  }

  ghost predicate Reachable(s: State) {
    exists states, steps :: IsRun(states, steps) && states[|steps|] == s
  }

  lemma ReachableNext(s: State, e: Step)
    requires Reachable(s) && Enabled(s, e)
    ensures Reachable(Apply(s, e))
  {
    var states, steps :| IsRun(states, steps) && states[|steps|] == s;
    var states', steps' := states + [Apply(s, e)], steps + [e];
    assert IsRun(states', steps');
  }
}
