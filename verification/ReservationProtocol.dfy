/**
 ReserveStock, ReleaseReservation and UpdateStock of internal/inventory/usecase/inventory.go as programs whose
 statements interleave. Between BeginTxx and Commit the code writes the counter and the reservation status on
 the plain connection, so every statement is its own step; only the reservation and movement inserts of one
 call appear together.

 A call that returns an error, loses a connection or dies takes GiveUp. A statement that failed without effect
 is GiveUp before the statement; a statement that took effect but whose acknowledgement was lost is the
 statement followed by GiveUp. Redis calls that fail are the `ok := false` steps, and an entry may expire at
 any time. Cache keys hold the ids as the caller spells them, so a row can have several entries, of which a call
 reads, fills and deletes the one with its spelling.
 */
module ReservationProtocol {
  import opened InventoryDb

  datatype Task =
    | ReserveTask(orderId: string, key: Key, quantity: int)
    | StockTask(key: Key, change: int)

  /**
   What a call owes the books of its row.
   reserving: counter raised, reservation not committed. releasing: status written, counter not lowered.
   stranded: a counter share that no reservation backs any more. overReleased: a counter share given back
   twice. stockGap and reservedGap: changes of the row that no movement records.
   */
  datatype Dues = Dues(
    reserving: int, releasing: int, stranded: int, overReleased: int, stockGap: int, reservedGap: int)

  const NOTHING := Dues(0, 0, 0, 0, 0, 0)

  datatype Call =
    // ReserveStock and UpdateStock: obtain a snapshot of the row through the cache
    | Reading(task: Task)
    | Fetched(task: Task, snapshot: Row)
    | Ready(task: Task, snapshot: Row)
    // ReserveStock: counter written, then reservation and movement inserted in one transaction
    | Counted(orderId: string, key: Key, quantity: int)
    | Inserting(orderId: string, key: Key, quantity: int)
    // UpdateStock: row created or changed, then the movement inserted
    | Creating(key: Key, change: int)
    | Stocked(key: Key, change: int, kind: MovementType)
    | Logging(key: Key, change: int, kind: MovementType)
    // ReleaseReservation: found reserved, status written, counter written, movement inserted.
    // `flipped` records whether the status write found the reservation still reserved, and
    // `hit` whether the counter update matched the row.
    | Looking(id: nat)
    | Chosen(id: nat, key: Key, quantity: int)
    | Marked(key: Key, quantity: int, flipped: bool)
    | Decremented(key: Key, quantity: int, flipped: bool, hit: bool)
    | Recording(key: Key, quantity: int, flipped: bool, hit: bool)
    | Finished
    | Ended(key: Key, dues: Dues)

  /** What a cache key stands for: a row, and the text in which a caller spelled its ids. */
  datatype Spelled = Spelled(key: Key, text: string)

  datatype State = State(db: Db, cache: map<Spelled, Row>, calls: seq<Call>)

  datatype Step =
    | BeginReserve(orderId: string, key: Key, quantity: int)
    | BeginStock(key: Key, change: int)
    | BeginRelease(id: nat)
    | CacheHit(c: nat, text: string)
    | ReadRow(c: nat)
    | CacheFill(c: nat, ok: bool, text: string)
    | UpdateRow(c: nat)
    | InsertRow(c: nat)
    | Invalidate(c: nat, ok: bool, text: string)
    | CommitReservation(c: nat)
    | LogMovement(c: nat)
    | FindReservation(c: nat)
    | MarkReleased(c: nat)
    | Decrement(c: nat)
    | RecordRelease(c: nat)
    | GiveUp(c: nat)
    | Expire(entry: Spelled)

  const INITIAL := State(EMPTY, map[], [])

  predicate Enabled(s: State, e: Step) {
    match e
    case BeginReserve(_, _, quantity) => quantity > 0
    case BeginStock(_, _) => true
    case BeginRelease(_) => true
    case CacheHit(c, text) => c < |s.calls| && s.calls[c].Reading? && Spelled(s.calls[c].task.key, text) in s.cache
    case ReadRow(c) => c < |s.calls| && s.calls[c].Reading?
    case CacheFill(c, _, _) => c < |s.calls| && s.calls[c].Fetched?
    case UpdateRow(c) => c < |s.calls| && s.calls[c].Ready?
    case InsertRow(c) => c < |s.calls| && s.calls[c].Creating?
    case Invalidate(c, _, _) =>
      c < |s.calls| && (s.calls[c].Counted? || s.calls[c].Stocked? || s.calls[c].Decremented?)
    case CommitReservation(c) => c < |s.calls| && s.calls[c].Inserting?
    case LogMovement(c) => c < |s.calls| && s.calls[c].Logging?
    case FindReservation(c) => c < |s.calls| && s.calls[c].Looking?
    case MarkReleased(c) => c < |s.calls| && s.calls[c].Chosen? && s.calls[c].id < |s.db.reservations|
    case Decrement(c) => c < |s.calls| && s.calls[c].Marked?
    case RecordRelease(c) => c < |s.calls| && s.calls[c].Recording?
    case GiveUp(c) => c < |s.calls| && !s.calls[c].Finished? && !s.calls[c].Ended?
    case Expire(_) => true
  }

  /** The Available check of ReserveStock; UpdateStock goes ahead with whatever it read. */
  function Decide(task: Task, snapshot: Row): Call {
    if task.ReserveTask? && snapshot.Available() < task.quantity then Finished else Ready(task, snapshot)
  }

  function Missing(task: Task): Call {
    match task
    case ReserveTask(_, _, _) => Finished
    case StockTask(key, change) => Creating(key, change)
  }

  function StockKind(change: int): MovementType {
    if change < 0 then Out else In
  }

  /** The version-checked write. No matching row ends the call with ErrConcurrentModification. */
  function Updated(s: State, c: nat): State
    requires Enabled(s, UpdateRow(c))
  {
    var version := s.calls[c].snapshot.version;
    match s.calls[c].task
    case ReserveTask(orderId, key, quantity) =>
      State(ReserveQuantity(s.db, key, quantity, version), s.cache,
            s.calls[c := if ReserveMatches(s.db, key, quantity, version)
                         then Counted(orderId, key, quantity) else Finished])
    case StockTask(key, change) =>
      State(UpdateStock(s.db, key, change, version), s.cache,
            s.calls[c := if StockMatches(s.db, key, version)
                         then Stocked(key, change, StockKind(change)) else Finished])
  }

  /** The INSERT of UpdateStock for an unknown row; a row that appeared meanwhile is a unique violation. */
  function Inserted(s: State, c: nat): State
    requires Enabled(s, InsertRow(c))
  {
    var Creating(key, change) := s.calls[c];
    if key in s.db.rows then s.(calls := s.calls[c := Finished])
    else State(CreateRow(s.db, key, change), s.cache, s.calls[c := Stocked(key, change, In)])
  }

  function Invalidated(call: Call): Call
    requires call.Counted? || call.Stocked? || call.Decremented?
  {
    match call
    case Counted(orderId, key, quantity) => Inserting(orderId, key, quantity)
    case Stocked(key, change, kind) => Logging(key, change, kind)
    case Decremented(key, quantity, flipped, hit) => Recording(key, quantity, flipped, hit)
  }

  /**
   The commit of ReserveStock. The code ignores the result of the movement insert, but an insert that fails aborts the
   transaction, so that the commit fails too: the reservation is never there without its movement.
   */
  function Committed(s: State, c: nat): State
    requires Enabled(s, CommitReservation(c))
  {
    var Inserting(orderId, key, quantity) := s.calls[c];
    var db := InsertReservation(s.db, orderId, key, quantity);
    State(InsertMovement(db, Movement(key, Reserve, -quantity)), s.cache, s.calls[c := Finished])
  }

  function Found(db: Db, id: nat): Call {
    if id < |db.reservations| && db.reservations[id].status == Reserved
    then Chosen(id, db.reservations[id].key, db.reservations[id].quantity) else Finished
  }

  /** The row a call works on; calls that owe nothing have no use for it. */
  function KeyOf(call: Call): Key {
    match call
    case Counted(_, key, _) => key
    case Inserting(_, key, _) => key
    case Stocked(key, _, _) => key
    case Logging(key, _, _) => key
    case Marked(key, _, _) => key
    case Decremented(key, _, _, _) => key
    case Recording(key, _, _, _) => key
    case Ended(key, _) => key
    case _ => Key("", "")
  }

  /** What a call owes at its present point. */
  function Owed(call: Call): Dues {
    match call
    case Counted(_, _, quantity) => NOTHING.(reserving := quantity, reservedGap := quantity)
    case Inserting(_, _, quantity) => NOTHING.(reserving := quantity, reservedGap := quantity)
    case Stocked(_, change, _) => NOTHING.(stockGap := change)
    case Logging(_, change, _) => NOTHING.(stockGap := change)
    case Marked(_, quantity, flipped) => if flipped then NOTHING.(releasing := quantity) else NOTHING
    case Decremented(_, quantity, flipped, hit) => AfterDecrement(quantity, flipped, hit)
    case Recording(_, quantity, flipped, hit) => AfterDecrement(quantity, flipped, hit)
    case Ended(_, dues) => dues
    case _ => NOTHING
  }

  function AfterDecrement(quantity: int, flipped: bool, hit: bool): Dues {
    Dues(0, 0, if flipped && !hit then quantity else 0, if !flipped && hit then quantity else 0,
         0, if hit then -quantity else 0)
  }

  /** What is left when a call stops where it is: an unfinished counter share becomes stranded. */
  function Abandoned(call: Call): Call {
    var d := Owed(call);
    Ended(KeyOf(call), Dues(0, 0, d.stranded + d.reserving + d.releasing, d.overReleased, d.stockGap, d.reservedGap))
  }

  /** The release movement is written whether or not the counter update matched. */
  function Recorded(call: Call): Call
    requires call.Recording?
  {
    var d := Owed(call);
    Ended(call.key, d.(reservedGap := d.reservedGap + call.quantity))
  }

  function Logged(s: State, c: nat): State
    requires Enabled(s, LogMovement(c))
  {
    var Logging(key, change, kind) := s.calls[c];
    State(InsertMovement(s.db, Movement(key, kind, change)), s.cache, s.calls[c := Finished])
  }

  function StatusWritten(s: State, c: nat): State
    requires Enabled(s, MarkReleased(c))
  {
    var Chosen(id, key, quantity) := s.calls[c];
    State(SetReleased(s.db, id), s.cache,
          s.calls[c := Marked(key, quantity, s.db.reservations[id].status == Reserved)])
  }

  function Lowered(s: State, c: nat): State
    requires Enabled(s, Decrement(c))
  {
    var Marked(key, quantity, flipped) := s.calls[c];
    State(ReleaseQuantity(s.db, key, quantity), s.cache,
          s.calls[c := Decremented(key, quantity, flipped, ReleaseMatches(s.db, key, quantity))])
  }

  function ReleaseRecorded(s: State, c: nat): State
    requires Enabled(s, RecordRelease(c))
  {
    var Recording(key, quantity, _, _) := s.calls[c];
    State(InsertMovement(s.db, Movement(key, Release, quantity)), s.cache, s.calls[c := Recorded(s.calls[c])])
  }

  function Apply(s: State, e: Step): State
    requires Enabled(s, e)
  {
    match e
    case BeginReserve(orderId, key, quantity) =>
      s.(calls := s.calls + [Reading(ReserveTask(orderId, key, quantity))])
    case BeginStock(key, change) => s.(calls := s.calls + [Reading(StockTask(key, change))])
    case BeginRelease(id) => s.(calls := s.calls + [Looking(id)])
    case CacheHit(c, text) =>
      var task := s.calls[c].task;
      s.(calls := s.calls[c := Decide(task, s.cache[Spelled(task.key, text)])])
    case ReadRow(c) =>
      var task := s.calls[c].task;
      s.(calls := s.calls[c := if task.key in s.db.rows then Fetched(task, s.db.rows[task.key]) else Missing(task)])
    case CacheFill(c, ok, text) =>
      var Fetched(task, snapshot) := s.calls[c];
      State(s.db, if ok then s.cache[Spelled(task.key, text) := snapshot] else s.cache,
            s.calls[c := Decide(task, snapshot)])
    case UpdateRow(c) => Updated(s, c)
    case InsertRow(c) => Inserted(s, c)
    case Invalidate(c, ok, text) =>
      State(s.db, if ok then s.cache - {Spelled(KeyOf(s.calls[c]), text)} else s.cache,
            s.calls[c := Invalidated(s.calls[c])])
    case CommitReservation(c) => Committed(s, c)
    case LogMovement(c) => Logged(s, c)
    case FindReservation(c) => s.(calls := s.calls[c := Found(s.db, s.calls[c].id)])
    case MarkReleased(c) => StatusWritten(s, c)
    case Decrement(c) => Lowered(s, c)
    case RecordRelease(c) => ReleaseRecorded(s, c)
    case GiveUp(c) => s.(calls := s.calls[c := Abandoned(s.calls[c])])
    case Expire(entry) => s.(cache := s.cache - {entry})
  }

  /** A run from the empty tables: the states passed and the steps taken between them. */
  ghost predicate IsRun(states: seq<State>, steps: seq<Step>) {
    && |states| == |steps| + 1
    && states[0] == INITIAL
    && forall i {:trigger steps[i]} ::
         0 <= i < |steps| ==> Enabled(states[i], steps[i]) && states[i + 1] == Apply(states[i], steps[i])
  }

  ghost predicate Reachable(s: State) {
    exists states, steps :: IsRun(states, steps) && states[|steps|] == s
  }

  lemma ReachableInitially()
    ensures Reachable(INITIAL)
  {
    assert IsRun([INITIAL], []);
  }

  lemma ReachableNext(s: State, e: Step)
    requires Reachable(s) && Enabled(s, e)
    ensures Reachable(Apply(s, e))
  {
    var states, steps :| IsRun(states, steps) && states[|steps|] == s;
    var states', steps' := states + [Apply(s, e)], steps + [e];
    assert IsRun(states', steps');
  }
}
