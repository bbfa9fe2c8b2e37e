/**
 Concrete runs showing that an assumption is needed.
 */
module ReservationWitnesses {
  import opened InventoryDb
  import opened ReservationProtocol
  import opened ReservationSnapshots
  import opened ReservationBooks

  /** Extends a run by one step. */
  lemma Continue(states: seq<State>, steps: seq<Step>, e: Step) returns (states': seq<State>, steps': seq<Step>)
    requires IsRun(states, steps) && Enabled(states[|steps|], e)
    ensures IsRun(states', steps') && steps' == steps + [e]
    ensures states' == states + [Apply(states[|steps|], e)]
    ensures HealthyRun(steps, |steps|) && Healthy(e) ==> HealthyRun(steps', |steps'|)
  {
    states', steps' := states + [Apply(states[|steps|], e)], steps + [e];
  }

  /** A reserve of one unit from a row, uncached, up to its counter update. */
  lemma CountOne(states: seq<State>, steps: seq<Step>, k: Key)
    returns (states': seq<State>, steps': seq<Step>)
    requires IsRun(states, steps) && HealthyRun(steps, |steps|)
    requires k in states[|steps|].db.rows && states[|steps|].db.rows[k].Available() >= 1
    ensures IsRun(states', steps') && HealthyRun(steps', |steps'|)
    ensures var s, row := states[|steps|], states[|steps|].db.rows[k];
            states'[|steps'|] == s.(
              db := s.db.(rows := s.db.rows[k := Row(row.onHand, row.reserved + 1, row.version + 1)]),
              calls := s.calls + [Counted("order", k, 1)])
  {
    var c := |states[|steps|].calls|;
    states', steps' := Continue(states, steps, BeginReserve("order", k, 1));
    states', steps' := Continue(states', steps', ReadRow(c));
    states', steps' := Continue(states', steps', CacheFill(c, false, "text"));
    states', steps' := Continue(states', steps', UpdateRow(c));
  }

  /** The same to its commit. */
  lemma ReserveOne(states: seq<State>, steps: seq<Step>, k: Key)
    returns (states': seq<State>, steps': seq<Step>)
    requires IsRun(states, steps) && HealthyRun(steps, |steps|) && states[|steps|].cache == map[]
    requires k in states[|steps|].db.rows && states[|steps|].db.rows[k].Available() >= 1
    ensures IsRun(states', steps') && HealthyRun(steps', |steps'|)
    ensures var s, row := states[|steps|], states[|steps|].db.rows[k];
            states'[|steps'|] == State(
              Db(s.db.rows[k := Row(row.onHand, row.reserved + 1, row.version + 1)],
                 s.db.reservations + [Reservation("order", k, 1, Reserved)],
                 s.db.movements + [Movement(k, Reserve, -1)]),
              map[], s.calls + [Finished])
  {
    var c := |states[|steps|].calls|;
    states', steps' := CountOne(states, steps, k);
    states', steps' := Continue(states', steps', Invalidate(c, true, "text"));
    states', steps' := Continue(states', steps', CommitReservation(c));
  }

  /** A row with five units on hand, recorded. */
  lemma StockAdded(k: Key) returns (states: seq<State>, steps: seq<Step>)
    ensures IsRun(states, steps) && HealthyRun(steps, |steps|)
    ensures states[|steps|] == State(Db(map[k := Row(5, 0, 0)], [], [Movement(k, In, 5)]), map[], [Finished])
  {
    states, steps := [INITIAL], [];
    states, steps := Continue(states, steps, BeginStock(k, 5));
    states, steps := Continue(states, steps, ReadRow(0));
    states, steps := Continue(states, steps, InsertRow(0));
    states, steps := Continue(states, steps, Invalidate(0, true, "text"));
    states, steps := Continue(states, steps, LogMovement(0));
  }

  /** A row with five units on hand and two reservations of one unit each. */
  lemma TwoReserved(k: Key) returns (states: seq<State>, steps: seq<Step>)
    ensures IsRun(states, steps)
    ensures var s := states[|steps|];
            && |s.calls| == 3
            && s.db.reservations == [Reservation("order", k, 1, Reserved), Reservation("order", k, 1, Reserved)]
            && k in s.db.rows && s.db.rows[k] == Row(5, 2, 2)
  {
    states, steps := StockAdded(k);
    states, steps := ReserveOne(states, steps, k);
    states, steps := ReserveOne(states, steps, k);
  }

  /** Two releases have both found the first reservation reserved. */
  lemma TwoChosen(k: Key) returns (states: seq<State>, steps: seq<Step>)
    ensures IsRun(states, steps)
    ensures var s := states[|steps|];
            && |s.calls| == 5 && s.calls[3] == s.calls[4] == Chosen(0, k, 1)
            && s.db.reservations == [Reservation("order", k, 1, Reserved), Reservation("order", k, 1, Reserved)]
            && k in s.db.rows && s.db.rows[k] == Row(5, 2, 2)
  {
    states, steps := TwoReserved(k);
    states, steps := Continue(states, steps, BeginRelease(0));
    states, steps := Continue(states, steps, BeginRelease(0));
    states, steps := Continue(states, steps, FindReservation(3));
    states, steps := Continue(states, steps, FindReservation(4));
  }

  /** Both have written the status, which takes effect once. */
  lemma TwoMarked(k: Key) returns (states: seq<State>, steps: seq<Step>)
    ensures IsRun(states, steps)
    ensures var s := states[|steps|];
            && |s.calls| == 5 && s.calls[3] == Marked(k, 1, true) && s.calls[4] == Marked(k, 1, false)
            && s.db.reservations == [Reservation("order", k, 1, Released), Reservation("order", k, 1, Reserved)]
            && k in s.db.rows && s.db.rows[k] == Row(5, 2, 2)
  {
    states, steps := TwoChosen(k);
    states, steps := Continue(states, steps, MarkReleased(3));
    states, steps := Continue(states, steps, MarkReleased(4));
  }

  /**
   Two overlapping releases of one reservation both lower the counter: it ends at zero while a reservation of one
   unit is still live.
   */
  lemma OverlappingReleasesGiveBackTwice(k: Key) returns (states: seq<State>, steps: seq<Step>)
    ensures IsRun(states, steps)
    ensures ReservedOf(states[|steps|].db, k) == 0
    ensures Live(states[|steps|].db.reservations, k) == 1
  {
    states, steps := TwoMarked(k);
    states, steps := Continue(states, steps, Decrement(3));
    states, steps := Continue(states, steps, Decrement(4));
    var rs := states[|steps|].db.reservations;
    assert rs == [Reservation("order", k, 1, Released), Reservation("order", k, 1, Reserved)];
    LiveAppend([rs[0]], rs[1], k);
    LiveAppend([], rs[0], k);
    assert [] + [rs[0]] == [rs[0]] && [rs[0]] + [rs[1]] == rs;
  }

  /** Five units on hand and one of them reserved, both recorded. */
  lemma OneReserved(k: Key) returns (states: seq<State>, steps: seq<Step>)
    ensures IsRun(states, steps) && HealthyRun(steps, |steps|)
    ensures states[|steps|] == State(
              Db(map[k := Row(5, 1, 1)], [Reservation("order", k, 1, Reserved)],
                 [Movement(k, In, 5), Movement(k, Reserve, -1)]),
              map[], [Finished, Finished])
  {
    states, steps := StockAdded(k);
    states, steps := ReserveOne(states, steps, k);
  }

  /** Two releases of it have both found it reserved. */
  lemma OneChosenTwice(k: Key) returns (states: seq<State>, steps: seq<Step>)
    ensures IsRun(states, steps) && HealthyRun(steps, |steps|)
    ensures states[|steps|] == State(
              Db(map[k := Row(5, 1, 1)], [Reservation("order", k, 1, Reserved)],
                 [Movement(k, In, 5), Movement(k, Reserve, -1)]),
              map[], [Finished, Finished, Chosen(0, k, 1), Chosen(0, k, 1)])
  {
    states, steps := OneReserved(k);
    states, steps := Continue(states, steps, BeginRelease(0));
    states, steps := Continue(states, steps, BeginRelease(0));
    states, steps := Continue(states, steps, FindReservation(2));
    states, steps := Continue(states, steps, FindReservation(3));
  }

  /** The first has lowered the counter to zero, the second finds nothing to lower. */
  lemma SecondMisses(k: Key) returns (states: seq<State>, steps: seq<Step>)
    ensures IsRun(states, steps) && HealthyRun(steps, |steps|)
    ensures states[|steps|] == State(
              Db(map[k := Row(5, 0, 1)], [Reservation("order", k, 1, Released)],
                 [Movement(k, In, 5), Movement(k, Reserve, -1)]),
              map[], [Finished, Finished, Decremented(k, 1, true, true), Decremented(k, 1, false, false)])
  {
    states, steps := OneChosenTwice(k);
    states, steps := Continue(states, steps, MarkReleased(2));
    states, steps := Continue(states, steps, MarkReleased(3));
    states, steps := Continue(states, steps, Decrement(2));
    states, steps := Continue(states, steps, Decrement(3));
  }

  /** Both have completed. */
  lemma BothRecorded(k: Key) returns (states: seq<State>, steps: seq<Step>)
    ensures IsRun(states, steps) && HealthyRun(steps, |steps|)
    ensures var s := states[|steps|];
            && s.db == Db(map[k := Row(5, 0, 1)], [Reservation("order", k, 1, Released)], SixMovements(k))
            && |s.calls| == 4 && forall c :: 0 <= c < 4 ==> Completed(s.calls[c])
  {
    states, steps := SecondMisses(k);
    states, steps := Continue(states, steps, Invalidate(2, true, "text"));
    states, steps := Continue(states, steps, Invalidate(3, true, "text"));
    states, steps := Continue(states, steps, RecordRelease(2));
    states, steps := Continue(states, steps, RecordRelease(3));
  }

  /** Movements that sum to six. */
  function SixMovements(k: Key): seq<Movement> {
    [Movement(k, In, 5), Movement(k, Reserve, -1), Movement(k, Release, 1), Movement(k, Release, 1)]
  }

  lemma SumsToSix(k: Key)
    ensures Moved(SixMovements(k), k, true) == 5 && Moved(SixMovements(k), k, false) == 1
  {
    var ms := SixMovements(k);
    MovementRecorded([], ms[0], k);
    MovementRecorded([ms[0]], ms[1], k);
    MovementRecorded([ms[0], ms[1]], ms[2], k);
    MovementRecorded([ms[0], ms[1], ms[2]], ms[3], k);
    assert [] + [ms[0]] == [ms[0]] && [ms[0]] + [ms[1]] == [ms[0], ms[1]];
    assert [ms[0], ms[1]] + [ms[2]] == [ms[0], ms[1], ms[2]] && [ms[0], ms[1], ms[2]] + [ms[3]] == ms;
  }

  /**
   Two overlapping releases of the only reservation of a row, with nothing failing: the second misses the counter and
   records its movement all the same, so the movements say that six units are available where there are five.
   */
  lemma CompletedReleasesUnbalanceLedger(k: Key) returns (states: seq<State>, steps: seq<Step>)
    ensures IsRun(states, steps) && HealthyRun(steps, |steps|)
    ensures forall c :: 0 <= c < |states[|steps|].calls| ==> Completed(states[|steps|].calls[c])
    ensures var db := states[|steps|].db;
            && k in db.rows && db.rows[k].Available() == 5 && ReservedOf(db, k) == 0
            && Moved(db.movements, k, true) == 5 && Moved(db.movements, k, false) == 1
            && !LedgerBalanced(db, k)
  {
    states, steps := BothRecorded(k);
    SumsToSix(k);
  }

  /** A stock change takes five units off the row of which one is reserved. */
  lemma StockChangeUndercuts(k: Key) returns (states: seq<State>, steps: seq<Step>)
    ensures IsRun(states, steps) && HealthyRun(steps, |steps|) && |steps| > 0
    ensures InBounds(states[|steps| - 1], k) && Undercuts(states[|steps| - 1], steps[|steps| - 1], k)
    ensures var db := states[|steps|].db;
            k in db.rows && db.rows[k] == Row(0, 1, 2) && Live(db.reservations, k) == 1
    ensures !InBounds(states[|steps|], k)
  {
    states, steps := OneReserved(k);
    states, steps := Continue(states, steps, BeginStock(k, -5));
    states, steps := Continue(states, steps, ReadRow(2));
    states, steps := Continue(states, steps, CacheFill(2, false, "text"));
    states, steps := Continue(states, steps, UpdateRow(2));
    LiveAppend([], Reservation("order", k, 1, Reserved), k);
    assert [] + [Reservation("order", k, 1, Reserved)] == [Reservation("order", k, 1, Reserved)];
  }

  /** The first stock change of a row creates it with a negative quantity. */
  lemma NegativeRowCreated(k: Key) returns (states: seq<State>, steps: seq<Step>)
    ensures IsRun(states, steps) && HealthyRun(steps, |steps|) && |steps| > 0
    ensures InBounds(states[|steps| - 1], k) && Undercuts(states[|steps| - 1], steps[|steps| - 1], k)
    ensures k in states[|steps|].db.rows && states[|steps|].db.rows[k] == Row(-1, 0, 0)
    ensures !InBounds(states[|steps|], k)
  {
    states, steps := [INITIAL], [];
    states, steps := Continue(states, steps, BeginStock(k, -1));
    states, steps := Continue(states, steps, ReadRow(0));
    states, steps := Continue(states, steps, InsertRow(0));
  }
}
