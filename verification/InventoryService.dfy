/**
 The inventory use case (internal/inventory/usecase/inventory.go) over the cached repository, one call at a time.
 What the database and Redis answer is a parameter of each call. Every method is shown to take exactly the steps of
 the protocol, so all that is proved of protocol runs holds of the tables of this class.
 */
module InventoryService {
  import opened InventoryDb
  import opened ReservationProtocol
  import ReservationSnapshots
  import ReservationBooks

  datatype Result = Ok | InvalidQuantity | NotFound | InsufficientStock | ConcurrentModification | DatabaseError

  /** How a statement comes back: done, failed without effect, or done with the acknowledgement lost. */
  datatype Answer = Done | Failed | Lost

  /** How the call spells the ids in its cache keys, and which of its Redis calls succeed. */
  datatype Redis = Redis(text: string, get: bool, fill: bool, delete: bool)

  datatype Lookup = Hit(row: Row) | Absent | Error

  class Service {
    var db: Db
    var cache: map<Spelled, Row>
    ghost var now: State

    ghost predicate Valid()
      reads this
    {
      now.db == db && now.cache == cache && Reachable(now)
    }

    /**
     What the run theorems say of the tables and the cache of a service: no counter is negative, every cached row is
     still there, and one whose version is current has the right stock on hand and at least the present counter.
     */
    lemma TablesAreSound()
      requires Valid()
      ensures forall k :: k in db.rows ==> db.rows[k].reserved >= 0
      ensures forall x :: x in cache ==>
                && x.key in db.rows && cache[x].version <= db.rows[x.key].version
                && (cache[x].version == db.rows[x.key].version ==>
                      cache[x].onHand == db.rows[x.key].onHand && db.rows[x.key].reserved <= cache[x].reserved)
    {
      var states, steps :| IsRun(states, steps) && states[|steps|] == now;
      ReservationSnapshots.SoundRun(states, steps, |steps|);
    }

    /** The counter of a row is the live reservations and what unfinished or failed calls owe it. */
    lemma BooksAreBalanced(k: Key)
      requires Valid()
      ensures ReservationBooks.Balanced(now, k)
      ensures var owed := ReservationBooks.Total(now.calls, k);
              ReservationBooks.ReservedOf(db, k)
              == ReservationBooks.Live(db.reservations, k) + owed.reserving + owed.releasing + owed.stranded
                 - owed.overReleased
    {
      var states, steps :| IsRun(states, steps) && states[|steps|] == now;
      ReservationBooks.Conservation(states, steps, |steps|, k);
    }

    constructor ()
      ensures Valid() && db == EMPTY && cache == map[]
    {
      db, cache, now := EMPTY, map[], INITIAL;
      ReachableInitially();
    }

    /** The cache has no stale entry for the row in this spelling. */
    ghost predicate Fresh(key: Key, text: string)
      reads this
    {
      Spelled(key, text) in cache ==> key in db.rows && cache[Spelled(key, text)] == db.rows[key]
    }

    /** Records the step the code has just taken. */
    ghost method Take(e: Step)
      requires Reachable(now) && Enabled(now, e)
      modifies this`now
      ensures Reachable(now) && now == Apply(old(now), e)
    {
      ReachableNext(now, e);
      now := Apply(now, e);
    }

    /** A call begins. */
    ghost method Begin(e: Step, call: Call) returns (c: nat)
      requires Valid() && Enabled(now, e) && Apply(now, e) == now.(calls := now.calls + [call])
      modifies this`now
      ensures At(c, call)
    {
      c := |now.calls|;
      Take(e);
    }

    /** The call stops here, for whatever reason. */
    ghost method Stop(c: nat)
      requires Valid() && Enabled(now, GiveUp(c))
      modifies this`now
      ensures Valid()
    {
      Take(GiveUp(c));
    }

    ghost predicate At(c: nat, call: Call)
      reads this
    {
      Valid() && c < |now.calls| && now.calls[c] == call
    }

    /** The invalidation that follows a successful write. */
    method Evict(key: Key, redis: Redis, ghost c: nat)
      requires Valid() && Enabled(now, Invalidate(c, redis.delete, redis.text)) && KeyOf(now.calls[c]) == key
      modifies this
      ensures db == old(db) && At(c, Invalidated(old(now.calls[c])))
      ensures cache == if redis.delete then old(cache) - {Spelled(key, redis.text)} else old(cache)
    {
      if redis.delete {
        cache := cache - {Spelled(key, redis.text)};
      }
      Take(Invalidate(c, redis.delete, redis.text));
    }

    /** The row a call sees: the cached one on a hit, else the one in the table, if the database can be reached. */
    ghost function Seen(key: Key, redis: Redis, reachable: bool): Lookup
      reads this
    {
      var entry := Spelled(key, redis.text);
      if redis.get && entry in cache then Hit(cache[entry])
      else if !reachable then Error
      else if key in db.rows then Hit(db.rows[key])
      else Absent
    }

    /** The cache after a call has looked: a row found in the table is stored in the spelling of the call. */
    ghost function Filled(key: Key, redis: Redis, reachable: bool): map<Spelled, Row>
      reads this
    {
      var entry := Spelled(key, redis.text);
      if (redis.get && entry in cache) || !reachable || key !in db.rows || !redis.fill then cache
      else cache[entry := db.rows[key]]
    }

    /** GetByProductAndWarehouse of the cached repository, for the call that has just begun. */
    method Find(key: Key, redis: Redis, reachable: bool, ghost c: nat) returns (r: Lookup)
      requires Valid() && c < |now.calls| && now.calls[c].Reading? && now.calls[c].task.key == key
      modifies this
      ensures db == old(db)
      ensures At(c, match r
                    case Hit(row) => Decide(old(now.calls[c].task), row)
                    case Absent => Missing(old(now.calls[c].task))
                    case Error => old(now.calls[c]))
      ensures Spelled(key, redis.text) in old(cache) && redis.get ==> r == Hit(old(cache)[Spelled(key, redis.text)])
      ensures !(Spelled(key, redis.text) in old(cache) && redis.get) ==>
                r == if !reachable then Error else if key in db.rows then Hit(db.rows[key]) else Absent
      ensures cache == if !(Spelled(key, redis.text) in old(cache) && redis.get) && r.Hit? && redis.fill
                       then old(cache)[Spelled(key, redis.text) := r.row] else old(cache)
    {
      var entry := Spelled(key, redis.text);
      if entry in cache && redis.get {
        r := Hit(cache[entry]);
        Take(CacheHit(c, redis.text));
        return;
      }
      if !reachable {
        return Error;
      }
      Take(ReadRow(c));
      if key !in db.rows {
        return Absent;
      }
      r := Hit(db.rows[key]);
      if redis.fill {
        cache := cache[entry := r.row];
      }
      Take(CacheFill(c, redis.fill, redis.text));
    }

    /** A call begins and looks at its row. */
    method SeeRow(key: Key, redis: Redis, reachable: bool, ghost e: Step, ghost task: Task)
      returns (r: Lookup, ghost c: nat)
      requires Valid() && Enabled(now, e) && Apply(now, e) == now.(calls := now.calls + [Reading(task)])
      requires task.key == key
      modifies this
      ensures db == old(db) && r == old(Seen(key, redis, reachable)) && cache == old(Filled(key, redis, reachable))
      ensures At(c, match r
                    case Hit(row) => Decide(task, row)
                    case Absent => Missing(task)
                    case Error => Reading(task))
    {
      c := Begin(e, Reading(task));
      r := Find(key, redis, reachable, c);
    }

    /**
     ReserveQuantity of the cached repository: `Ok` if and only if the statement is acknowledged and matched a row,
     ConcurrentModification if and only if it is acknowledged and matched none.
     */
    method ReserveQuantity(orderId: string, key: Key, quantity: int, row: Row, answer: Answer, redis: Redis,
                           ghost c: nat)
      returns (r: Result)
      requires At(c, Ready(ReserveTask(orderId, key, quantity), row))
      modifies this
      ensures Valid()
      ensures db == if answer == Failed then old(db)
                    else InventoryDb.ReserveQuantity(old(db), key, quantity, row.version)
      ensures r == if answer != Done then DatabaseError
                   else if ReserveMatches(old(db), key, quantity, row.version) then Ok else ConcurrentModification
      ensures cache == if r == Ok && redis.delete then old(cache) - {Spelled(key, redis.text)} else old(cache)
      ensures r == Ok ==> At(c, Inserting(orderId, key, quantity))
    {
      if answer == Failed {
        Stop(c);
        return DatabaseError;
      }
      var matched := ReserveMatches(db, key, quantity, row.version);
      db := InventoryDb.ReserveQuantity(db, key, quantity, row.version);
      Take(UpdateRow(c));
      if answer == Lost {
        if matched {
          Stop(c);
        }
        return DatabaseError;
      }
      if !matched {
        return ConcurrentModification;
      }
      Evict(key, redis, c);
      return Ok;
    }

    /**
     The reservation and the movement, inserted and committed together. The result of the movement insert is ignored,
     but without it (`moved` is false) the transaction is aborted and the commit fails.
     */
    method Commit(orderId: string, key: Key, quantity: int, moved: bool, answer: Answer, ghost c: nat)
      returns (r: Result)
      requires At(c, Inserting(orderId, key, quantity))
      modifies this
      ensures Valid() && cache == old(cache)
      ensures db.rows == old(db).rows
      ensures if !moved || answer == Failed then db == old(db)
              else && db.reservations == old(db).reservations + [Reservation(orderId, key, quantity, Reserved)]
                   && db.movements == old(db).movements + [Movement(key, Reserve, -quantity)]
      ensures r == if moved && answer == Done then Ok else DatabaseError
    {
      if !moved || answer == Failed {
        Stop(c);
        return DatabaseError;
      }
      db := InsertMovement(InsertReservation(db, orderId, key, quantity), Movement(key, Reserve, -quantity));
      Take(CommitReservation(c));
      return if answer == Done then Ok else DatabaseError;
    }

    /** The row a reserve of `quantity` leaves behind. */
    ghost function Raised(row: Row, quantity: int): Row {
      Row(row.onHand, row.reserved + quantity, row.version + 1)
    }

    /** What ReserveStock does once it has found enough stock: the counter, then reservation and movement. */
    method Book(orderId: string, key: Key, quantity: int, row: Row, counted: Answer, moved: bool, committed: Answer,
                redis: Redis, ghost c: nat) returns (r: Result)
      requires At(c, Ready(ReserveTask(orderId, key, quantity), row))
      modifies this
      ensures Valid()
      ensures var matched := ReserveMatches(old(db), key, quantity, row.version);
              r == if counted != Done then DatabaseError
                   else if !matched then ConcurrentModification
                   else if moved && committed == Done then Ok else DatabaseError
      ensures var matched := ReserveMatches(old(db), key, quantity, row.version);
              && db.rows == (if matched && counted != Failed
                             then old(db).rows[key := Raised(old(db).rows[key], quantity)] else old(db).rows)
              && (if matched && counted == Done && moved && committed != Failed
                  then && db.reservations == old(db).reservations + [Reservation(orderId, key, quantity, Reserved)]
                       && db.movements == old(db).movements + [Movement(key, Reserve, -quantity)]
                  else db.reservations == old(db).reservations && db.movements == old(db).movements)
              && cache == (if matched && counted == Done && redis.delete then old(cache) - {Spelled(key, redis.text)}
                           else old(cache))
    {
      r := ReserveQuantity(orderId, key, quantity, row, counted, redis, c);
      if r != Ok {
        return;
      }
      r := Commit(orderId, key, quantity, moved, committed, c);
    }

    /** The check of ReserveStock on the row it sees. */
    ghost predicate Passes(key: Key, quantity: int, redis: Redis, reachable: bool)
      reads this
    {
      var seen := Seen(key, redis, reachable);
      quantity > 0 && seen.Hit? && seen.row.onHand - seen.row.reserved >= quantity
    }

    /** The row in the table is of the version seen, and enough of it is left. */
    ghost predicate Countable(key: Key, quantity: int, redis: Redis, reachable: bool)
      reads this
    {
      && Passes(key, quantity, redis, reachable)
      && key in db.rows && db.rows[key].version == Seen(key, redis, reachable).row.version
      && db.rows[key].onHand - db.rows[key].reserved >= quantity
    }

    /** Over a fresh cache and a reachable database, what can be counted is what is available. */
    lemma FreshIsCountable(key: Key, quantity: int, redis: Redis)
      requires Fresh(key, redis.text)
      ensures Countable(key, quantity, redis, true) <==>
              quantity > 0 && key in db.rows && db.rows[key].onHand - db.rows[key].reserved >= quantity
    {
    }

    /**
     ReserveStock: the answer, the tables and the cache entry for every input, whether the row seen is fresh or stale.
     Every refusal leaves the tables alone. A database error leaves them alone, or leaves the counter raised with no
     reservation behind it, or everything written.
     */
    method ReserveStock(orderId: string, key: Key, quantity: int, redis: Redis,
                        reachable: bool, begun: bool, counted: Answer, moved: bool, committed: Answer)
      returns (r: Result)
      requires Valid()
      modifies this
      ensures Valid()
      ensures r == InvalidQuantity <==> quantity <= 0
      ensures r == NotFound <==> quantity > 0 && old(Seen(key, redis, reachable)) == Absent
      ensures r == InsufficientStock <==>
                quantity > 0 && old(Seen(key, redis, reachable)).Hit? && !old(Passes(key, quantity, redis, reachable))
      ensures r == ConcurrentModification <==>
                && old(Passes(key, quantity, redis, reachable)) && begun && counted == Done
                && !old(Countable(key, quantity, redis, reachable))
      ensures r == Ok <==>
                old(Countable(key, quantity, redis, reachable)) && begun && counted == committed == Done && moved
      ensures var written := old(Countable(key, quantity, redis, reachable)) && begun && counted != Failed;
              var booked := written && counted == Done && moved && committed != Failed;
              && db.rows == (if written then old(db).rows[key := Raised(old(db).rows[key], quantity)] else old(db).rows)
              && db.reservations == old(db).reservations
                                    + (if booked then [Reservation(orderId, key, quantity, Reserved)] else [])
              && db.movements == old(db).movements + (if booked then [Movement(key, Reserve, -quantity)] else [])
      ensures cache == if quantity <= 0 then old(cache)
                       else if old(Countable(key, quantity, redis, reachable)) && begun && counted == Done
                               && redis.delete
                       then old(Filled(key, redis, reachable)) - {Spelled(key, redis.text)}
                       else old(Filled(key, redis, reachable))
    {
      if quantity <= 0 {
        return InvalidQuantity;
      }
      var found;
      ghost var c;
      found, c := SeeRow(key, redis, reachable, BeginReserve(orderId, key, quantity),
                         ReserveTask(orderId, key, quantity));
      if found.Error? {
        Stop(c);
        return DatabaseError;
      }
      if found.Absent? {
        return NotFound;
      }
      if found.row.Available() < quantity {
        return InsufficientStock;
      }
      if !begun {
        Stop(c);
        return DatabaseError;
      }
      r := Book(orderId, key, quantity, found.row, counted, moved, committed, redis, c);
    }

    /** ReleaseQuantity of the cached repository: acknowledged whether or not a row matched. */
    method ReleaseQuantity(key: Key, quantity: int, answer: Answer, redis: Redis, ghost flipped: bool, ghost c: nat)
      returns (r: Result)
      requires At(c, Marked(key, quantity, flipped))
      modifies this
      ensures Valid()
      ensures db == if answer == Failed then old(db) else InventoryDb.ReleaseQuantity(old(db), key, quantity)
      ensures r == if answer == Done then Ok else DatabaseError
      ensures cache == if answer == Done && redis.delete then old(cache) - {Spelled(key, redis.text)} else old(cache)
      ensures r == Ok ==> At(c, Recording(key, quantity, flipped, ReleaseMatches(old(db), key, quantity)))
    {
      if answer == Failed {
        Stop(c);
        return DatabaseError;
      }
      db := InventoryDb.ReleaseQuantity(db, key, quantity);
      Take(Decrement(c));
      if answer == Lost {
        Stop(c);
        return DatabaseError;
      }
      Evict(key, redis, c);
      return Ok;
    }

    /** GetByID of ReleaseReservation. */
    ghost method Look(id: nat) returns (c: nat)
      requires Valid()
      modifies this`now
      ensures At(c, Found(db, id))
    {
      c := Begin(BeginRelease(id), Looking(id));
      Take(FindReservation(c));
    }

    /** The release movement, inserted and committed; a failed insert makes the commit fail. */
    method Record(key: Key, quantity: int, moved: bool, answer: Answer, ghost c: nat) returns (r: Result)
      requires Valid() && Enabled(now, RecordRelease(c)) && now.calls[c].key == key && now.calls[c].quantity == quantity
      modifies this
      ensures Valid() && cache == old(cache)
      ensures db == if !moved || answer == Failed then old(db)
                    else InsertMovement(old(db), Movement(key, Release, quantity))
      ensures r == if moved && answer == Done then Ok else DatabaseError
    {
      if moved && answer != Failed {
        db := InsertMovement(db, Movement(key, Release, quantity));
        Take(RecordRelease(c));
      } else {
        Stop(c);
      }
      return if moved && answer == Done then Ok else DatabaseError;
    }

    /** The status write of ReleaseReservation. */
    method MarkReleased(id: nat, answer: Answer, ghost c: nat) returns (r: Result)
      requires id < |db.reservations| && At(c, Chosen(id, db.reservations[id].key, db.reservations[id].quantity))
      modifies this
      ensures Valid() && cache == old(cache)
      ensures db == if answer == Failed then old(db) else SetReleased(old(db), id)
      ensures r == if answer == Done then Ok else DatabaseError
      ensures r == Ok ==> At(c, Marked(old(db).reservations[id].key, old(db).reservations[id].quantity,
                                       old(db).reservations[id].status == Reserved))
    {
      if answer == Failed {
        Stop(c);
        return DatabaseError;
      }
      db := SetReleased(db, id);
      Take(ReservationProtocol.MarkReleased(c));
      if answer == Lost {
        Stop(c);
        return DatabaseError;
      }
      return Ok;
    }

    /** The tables after a release has got so far: nothing, status, counter, movement. */
    ghost function Progress(before: Db, id: nat, point: nat): Db
      requires id < |before.reservations|
    {
      var reservation := before.reservations[id];
      var rows := if reservation.key in before.rows
                     && before.rows[reservation.key].reserved >= reservation.quantity
                  then before.rows[reservation.key := Sunk(before.rows[reservation.key], reservation.quantity)]
                  else before.rows;
      Db(if point < 2 then before.rows else rows,
         if point < 1 then before.reservations else before.reservations[id := reservation.(status := Released)],
         if point < 3 then before.movements
         else before.movements + [Movement(reservation.key, Release, reservation.quantity)])
    }

    /** The row a release of `quantity` leaves behind. */
    ghost function Sunk(row: Row, quantity: int): Row {
      Row(row.onHand, row.reserved - quantity, row.version)
    }

    /** What ReleaseReservation does once the status is written. */
    method GiveBack(key: Key, quantity: int, lowered: Answer, moved: bool, committed: Answer, redis: Redis,
                    ghost c: nat)
      returns (r: Result)
      requires At(c, Marked(key, quantity, true))
      modifies this
      ensures Valid()
      ensures r == if lowered == committed == Done && moved then Ok else DatabaseError
      ensures var counted := InventoryDb.ReleaseQuantity(old(db), key, quantity);
              db == if lowered == Failed then old(db)
                    else if lowered == Lost || !moved || committed == Failed then counted
                    else InsertMovement(counted, Movement(key, Release, quantity))
      ensures cache == if lowered == Done && redis.delete then old(cache) - {Spelled(key, redis.text)} else old(cache)
    {
      r := ReleaseQuantity(key, quantity, lowered, redis, true, c);
      if r != Ok {
        return;
      }
      r := Record(key, quantity, moved, committed, c);
    }

    /**
     ReleaseReservation. An unknown reservation is an error and a released one is left as it is. Otherwise the call
     gets to a point that its answers determine: the status is released, a matching counter is lowered without a
     version bump, and the movement is recorded even when the counter did not match.
     */
    method ReleaseReservation(id: nat, redis: Redis, reachable: bool, begun: bool,
                              marked: Answer, lowered: Answer, moved: bool, committed: Answer) returns (r: Result)
      requires Valid()
      modifies this
      ensures Valid()
      ensures id >= |old(db).reservations| || old(db).reservations[id].status == Released ==>
                && db == old(db) && cache == old(cache)
                && r == if !reachable then DatabaseError else if id >= |old(db).reservations| then NotFound else Ok
      ensures id < |old(db).reservations| && old(db).reservations[id].status == Reserved ==>
                && r == (if reachable && begun && marked == lowered == committed == Done && moved then Ok
                         else DatabaseError)
                && db == Progress(old(db), id,
                                  if !reachable || !begun || marked == Failed then 0
                                  else if marked == Lost || lowered == Failed then 1
                                  else if lowered == Lost || !moved || committed == Failed then 2 else 3)
                && cache == if reachable && begun && marked == lowered == Done && redis.delete
                            then old(cache) - {Spelled(old(db).reservations[id].key, redis.text)} else old(cache)
    {
      if !reachable {
        return DatabaseError;
      }
      ghost var c := Look(id);
      if id >= |db.reservations| {
        return NotFound;
      }
      var reservation := db.reservations[id];
      if reservation.status != Reserved {
        return Ok;
      }
      if !begun {
        Stop(c);
        return DatabaseError;
      }
      r := MarkReleased(id, marked, c);
      if r != Ok {
        return;
      }
      r := GiveBack(reservation.key, reservation.quantity, lowered, moved, committed, redis, c);
    }

    /** The insert of an unknown row, or the version-checked change of a known one, in the cached repository. */
    method WriteStock(key: Key, change: int, found: Lookup, answer: Answer, redis: Redis, ghost c: nat)
      returns (r: Result, kind: MovementType)
      requires (found.Hit? && At(c, Ready(StockTask(key, change), found.row)))
            || (found.Absent? && key !in db.rows && At(c, Creating(key, change)))
      modifies this
      ensures Valid()
      ensures r == if answer != Done then DatabaseError
                   else if found.Absent? || StockMatches(old(db), key, found.row.version) then Ok
                   else ConcurrentModification
      ensures answer == Failed ==> db == old(db)
      ensures answer != Failed ==>
                db == if found.Absent? then CreateRow(old(db), key, change)
                      else InventoryDb.UpdateStock(old(db), key, change, found.row.version)
      ensures cache == if r == Ok && redis.delete then old(cache) - {Spelled(key, redis.text)} else old(cache)
      ensures kind == if found.Absent? then In else StockKind(change)
      ensures r == Ok ==> At(c, Logging(key, change, kind))
    {
      kind := if found.Absent? then In else StockKind(change);
      if answer == Failed {
        Stop(c);
        return DatabaseError, kind;
      }
      if found.Absent? {
        db := CreateRow(db, key, change);
        Take(InsertRow(c));
      } else {
        var matched := StockMatches(db, key, found.row.version);
        db := InventoryDb.UpdateStock(db, key, change, found.row.version);
        Take(UpdateRow(c));
        if !matched {
          return if answer == Done then ConcurrentModification else DatabaseError, kind;
        }
      }
      if answer == Lost {
        Stop(c);
        return DatabaseError, kind;
      }
      Evict(key, redis, c);
      return Ok, kind;
    }

    /** The movement of UpdateStock; a failed insert is ignored. */
    method LogChange(key: Key, change: int, kind: MovementType, moved: bool, ghost c: nat)
      requires At(c, Logging(key, change, kind))
      modifies this
      ensures Valid() && cache == old(cache)
      ensures db == if moved then InsertMovement(old(db), Movement(key, kind, change)) else old(db)
    {
      if moved {
        db := InsertMovement(db, Movement(key, kind, change));
        Take(LogMovement(c));
      } else {
        Stop(c);
      }
    }

    /** The row a stock change leaves behind. */
    ghost function Stocked(before: Db, key: Key, change: int): Row {
      if key !in before.rows then Row(change, 0, 0)
      else
        var row := before.rows[key];
        Row(row.onHand + change, row.reserved, row.version + 1)
    }

    /** What UpdateStock does once it has looked. */
    method Store(key: Key, change: int, found: Lookup, redis: Redis, written: Answer, moved: bool, ghost c: nat)
      returns (r: Result)
      requires (found.Hit? && At(c, Ready(StockTask(key, change), found.row)))
            || (found.Absent? && key !in db.rows && At(c, Creating(key, change)))
      modifies this
      ensures Valid()
      ensures var matched := found.Absent? || (key in old(db).rows && old(db).rows[key].version == found.row.version);
              && r == (if written != Done then DatabaseError else if matched then Ok else ConcurrentModification)
              && db.rows == (if matched && written != Failed then old(db).rows[key := Stocked(old(db), key, change)]
                             else old(db).rows)
              && db.reservations == old(db).reservations
              && db.movements == old(db).movements
                 + (if !(matched && written == Done && moved) then []
                    else if found.Hit? && change < 0 then [Movement(key, Out, change)]
                    else [Movement(key, In, change)])
              && cache == (if matched && written == Done && redis.delete then old(cache) - {Spelled(key, redis.text)}
                           else old(cache))
    {
      var kind;
      r, kind := WriteStock(key, change, found, written, redis, c);
      if r != Ok {
        return;
      }
      LogChange(key, change, kind, moved, c);
    }

    /** The table holds the row in the version seen, or the row is known to be absent. */
    ghost predicate Current(key: Key, redis: Redis, reachable: bool)
      reads this
    {
      var seen := Seen(key, redis, reachable);
      seen.Absent? || (seen.Hit? && key in db.rows && db.rows[key].version == seen.row.version)
    }

    /** Over a fresh cache and a reachable database, no stock change is in conflict. */
    lemma FreshIsCurrent(key: Key, redis: Redis)
      requires Fresh(key, redis.text)
      ensures Current(key, redis, true)
    {
    }

    /**
     UpdateStock: the answer, the tables and the cache entry for every input. The change is added to the row under a new
     version, or is the whole of a row created with version zero. A conflict leaves the tables alone, a database error
     may leave the change without its movement, and the movement is best effort.
     */
    method UpdateStock(key: Key, change: int, redis: Redis, reachable: bool, written: Answer, moved: bool)
      returns (r: Result)
      requires Valid()
      modifies this
      ensures Valid()
      ensures r == if old(Seen(key, redis, reachable)) == Error || written != Done then DatabaseError
                   else if old(Current(key, redis, reachable)) then Ok else ConcurrentModification
      ensures var stored := old(Current(key, redis, reachable)) && written != Failed;
              && db.rows == (if stored then old(db).rows[key := Stocked(old(db), key, change)] else old(db).rows)
              && db.reservations == old(db).reservations
              && db.movements == old(db).movements
                 + (if !(stored && written == Done && moved) then []
                    else if key in old(db).rows && change < 0 then [Movement(key, Out, change)]
                    else [Movement(key, In, change)])
      ensures cache == if old(Current(key, redis, reachable)) && written == Done && redis.delete
                       then old(Filled(key, redis, reachable)) - {Spelled(key, redis.text)}
                       else old(Filled(key, redis, reachable))
    {
      var found;
      ghost var c;
      found, c := SeeRow(key, redis, reachable, BeginStock(key, change), StockTask(key, change));
      if found.Error? {
        Stop(c);
        return DatabaseError;
      }
      r := Store(key, change, found, redis, written, moved, c);
    }
  }
}
