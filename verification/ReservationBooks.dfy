/**
 Conservation of reserved stock and the movement ledger, over every interleaved and failing run.
 */
module ReservationBooks {
  import opened InventoryDb
  import opened ReservationProtocol
  import opened ReservationSnapshots

  function Plus(a: Dues, b: Dues): Dues {
    Dues(a.reserving + b.reserving, a.releasing + b.releasing, a.stranded + b.stranded,
         a.overReleased + b.overReleased, a.stockGap + b.stockGap, a.reservedGap + b.reservedGap)
  }

  function Minus(a: Dues, b: Dues): Dues {
    Dues(a.reserving - b.reserving, a.releasing - b.releasing, a.stranded - b.stranded,
         a.overReleased - b.overReleased, a.stockGap - b.stockGap, a.reservedGap - b.reservedGap)
  }

  /** What a call owes to row `k`. */
  function OwedTo(call: Call, k: Key): Dues {
    if KeyOf(call) == k then Owed(call) else NOTHING
  }

  function Sum(dues: seq<Dues>): Dues {
    if dues == [] then NOTHING else Plus(Sum(dues[..|dues| - 1]), dues[|dues| - 1])
  }

  function Owings(calls: seq<Call>, k: Key): (dues: seq<Dues>) {
    seq(|calls|, c requires 0 <= c < |calls| => OwedTo(calls[c], k))
  }

  /** What all calls together owe to row `k`. */
  function Total(calls: seq<Call>, k: Key): Dues {
    Sum(Owings(calls, k))
  }

  /** The quantity of row `k` held by reservations in status "reserved". */
  function Live(reservations: seq<Reservation>, k: Key): int {
    if reservations == [] then 0
    else Live(reservations[..|reservations| - 1], k) + Share(reservations[|reservations| - 1], k)
  }

  function Share(r: Reservation, k: Key): int {
    if r.key == k && r.status == Reserved then r.quantity else 0
  }

  /** The movements of row `k` that record stock, or those that record reservations. */
  function Moved(movements: seq<Movement>, k: Key, stock: bool): int {
    if movements == [] then 0
    else
      var m := movements[|movements| - 1];
      Moved(movements[..|movements| - 1], k, stock)
      + (if m.key == k && (m.kind.In? || m.kind.Out?) == stock then m.quantity else 0)
  }

  function ReservedOf(db: Db, k: Key): int {
    if k in db.rows then db.rows[k].reserved else 0
  }

  function OnHandOf(db: Db, k: Key): int {
    if k in db.rows then db.rows[k].onHand else 0
  }

  /** The books of row `k`. */
  ghost predicate Balanced(s: State, k: Key) {
    var total := Total(s.calls, k);
    && ReservedOf(s.db, k) == Live(s.db.reservations, k) + total.reserving + total.releasing
                              + total.stranded - total.overReleased
    && OnHandOf(s.db, k) == Moved(s.db.movements, k, true) + total.stockGap
    && ReservedOf(s.db, k) == -Moved(s.db.movements, k, false) + total.reservedGap
  }

  lemma {:induction false} SumUpdate(dues: seq<Dues>, c: nat, d: Dues)
    requires c < |dues|
    ensures Sum(dues[c := d]) == Plus(Sum(dues), Minus(d, dues[c]))
  {
    var n := |dues| - 1;
    if c < n {
      SumUpdate(dues[..n], c, d);
      assert dues[c := d][..n] == dues[..n][c := d];
    } else {
      assert dues[c := d][..n] == dues[..n];
    }
  }

  lemma TotalUpdate(calls: seq<Call>, c: nat, call: Call, k: Key)
    requires c < |calls|
    ensures Total(calls[c := call], k) == Plus(Total(calls, k), Minus(OwedTo(call, k), OwedTo(calls[c], k)))
  {
    assert Owings(calls[c := call], k) == Owings(calls, k)[c := OwedTo(call, k)];
    SumUpdate(Owings(calls, k), c, OwedTo(call, k));
  }

  lemma TotalAppend(calls: seq<Call>, call: Call, k: Key)
    ensures Total(calls + [call], k) == Plus(Total(calls, k), OwedTo(call, k))
  {
    var dues := Owings(calls + [call], k);
    assert dues == Owings(calls, k) + [OwedTo(call, k)];
    assert dues[..|calls|] == Owings(calls, k);
  }

  lemma {:induction false} LiveRelease(rs: seq<Reservation>, id: nat, k: Key)
    requires id < |rs|
    ensures Live(rs[id := rs[id].(status := Released)], k) == Live(rs, k) - Share(rs[id], k)
  {
    var n := |rs| - 1;
    var r := rs[id].(status := Released);
    if id < n {
      LiveRelease(rs[..n], id, k);
      assert rs[id := r][..n] == rs[..n][id := r];
    } else {
      assert rs[id := r][..n] == rs[..n];
    }
  }

  lemma LiveAppend(rs: seq<Reservation>, r: Reservation, k: Key)
    ensures Live(rs + [r], k) == Live(rs, k) + Share(r, k)
  {
    assert (rs + [r])[..|rs|] == rs;
  }

  lemma MovementRecorded(ms: seq<Movement>, m: Movement, k: Key)
    ensures forall stock ::
              Moved(ms + [m], k, stock)
              == Moved(ms, k, stock) + (if m.key == k && (m.kind.In? || m.kind.Out?) == stock then m.quantity else 0)
  {
    assert (ms + [m])[..|ms|] == ms;
  }

  /** Call `c` alone moves, and shifts its dues by as much as the tables change. */
  ghost predicate Offsets(s: State, s': State, c: nat, k: Key) {
    && c < |s.calls| == |s'.calls|
    && s'.calls == s.calls[c := s'.calls[c]]
    && var shift := Minus(OwedTo(s'.calls[c], k), OwedTo(s.calls[c], k));
    && ReservedOf(s'.db, k) - ReservedOf(s.db, k)
       == Live(s'.db.reservations, k) - Live(s.db.reservations, k)
          + shift.reserving + shift.releasing + shift.stranded - shift.overReleased
    && OnHandOf(s'.db, k) - OnHandOf(s.db, k)
       == Moved(s'.db.movements, k, true) - Moved(s.db.movements, k, true) + shift.stockGap
    && ReservedOf(s'.db, k) - ReservedOf(s.db, k)
       == Moved(s.db.movements, k, false) - Moved(s'.db.movements, k, false) + shift.reservedGap
  }

  lemma Rebalance(s: State, s': State, c: nat, k: Key)
    requires Balanced(s, k) && Offsets(s, s', c, k)
    ensures Balanced(s', k)
  {
    TotalUpdate(s.calls, c, s'.calls[c], k);
  }

  ghost predicate Begins(e: Step) {
    e.BeginReserve? || e.BeginStock? || e.BeginRelease? || e.Expire?
  }

  lemma BalancedBegin(s: State, e: Step, k: Key)
    requires Enabled(s, e) && Balanced(s, k) && Begins(e)
    ensures Balanced(Apply(s, e), k)
  {
    if !e.Expire? {
      TotalAppend(s.calls, Apply(s, e).calls[|s.calls|], k);
    }
  }

  /** Only the inventory rows change, by which call `c` of row `key` comes to owe what it took from or gave to it. */
  lemma OffsetRow(s: State, s': State, c: nat, key: Key, before: Dues, after: Dues, k: Key)
    requires c < |s.calls| == |s'.calls| && s'.calls == s.calls[c := s'.calls[c]]
    requires s'.db.reservations == s.db.reservations && s'.db.movements == s.db.movements
    requires Owed(s.calls[c]) == before && (KeyOf(s.calls[c]) == key || before == NOTHING)
    requires Owed(s'.calls[c]) == after && (KeyOf(s'.calls[c]) == key || after == NOTHING)
    requires k != key ==> ReservedOf(s'.db, k) == ReservedOf(s.db, k) && OnHandOf(s'.db, k) == OnHandOf(s.db, k)
    requires k == key ==>
               var shift := Minus(after, before);
               && ReservedOf(s'.db, k) - ReservedOf(s.db, k)
                  == shift.reserving + shift.releasing + shift.stranded - shift.overReleased == shift.reservedGap
               && OnHandOf(s'.db, k) - OnHandOf(s.db, k) == shift.stockGap
    ensures Offsets(s, s', c, k)
  {
    assert k != key ==> OwedTo(s.calls[c], k) == OwedTo(s'.calls[c], k) == NOTHING;
    assert k == key ==> OwedTo(s.calls[c], k) == before && OwedTo(s'.calls[c], k) == after;
  }

  lemma OffsetUpdate(s: State, c: nat, k: Key)
    requires Enabled(s, UpdateRow(c))
    ensures Offsets(s, Updated(s, c), c, k)
  {
    var s' := Updated(s, c);
    OffsetRow(s, s', c, s.calls[c].task.key, NOTHING, Owed(s'.calls[c]), k);
  }

  lemma OffsetInsert(s: State, c: nat, k: Key)
    requires Enabled(s, InsertRow(c))
    ensures Offsets(s, Inserted(s, c), c, k)
  {
    var s' := Inserted(s, c);
    OffsetRow(s, s', c, s.calls[c].key, NOTHING, Owed(s'.calls[c]), k);
  }

  lemma OffsetDecrement(s: State, c: nat, k: Key)
    requires Enabled(s, Decrement(c))
    ensures Offsets(s, Lowered(s, c), c, k)
  {
    var s' := Lowered(s, c);
    OffsetRow(s, s', c, s.calls[c].key, Owed(s.calls[c]), Owed(s'.calls[c]), k);
  }

  lemma CommitTables(s: State, c: nat, k: Key)
    requires Enabled(s, CommitReservation(c))
    ensures var s', call := Committed(s, c), s.calls[c];
            && s'.db.rows == s.db.rows
            && Live(s'.db.reservations, k) == Live(s.db.reservations, k) + (if call.key == k then call.quantity else 0)
            && Moved(s'.db.movements, k, true) == Moved(s.db.movements, k, true)
            && Moved(s'.db.movements, k, false)
               == Moved(s.db.movements, k, false) - (if call.key == k then call.quantity else 0)
  {
    var call := s.calls[c];
    LiveAppend(s.db.reservations, Reservation(call.orderId, call.key, call.quantity, Reserved), k);
    MovementRecorded(s.db.movements, Movement(call.key, Reserve, -call.quantity), k);
  }

  /** A step that leaves the rows alone and turns a reserve in flight into a live reservation. */
  lemma OffsetLive(s: State, s': State, c: nat, k: Key)
    requires c < |s.calls| && s.calls[c].Inserting? && s'.db.rows == s.db.rows
    requires var call := s.calls[c];
             && s'.calls == s.calls[c := Finished]
             && Live(s'.db.reservations, k) == Live(s.db.reservations, k) + (if call.key == k then call.quantity else 0)
             && Moved(s'.db.movements, k, true) == Moved(s.db.movements, k, true)
             && Moved(s'.db.movements, k, false)
                == Moved(s.db.movements, k, false) - (if call.key == k then call.quantity else 0)
    ensures Offsets(s, s', c, k)
  {
  }

  lemma OffsetCommit(s: State, c: nat, k: Key)
    requires Enabled(s, CommitReservation(c))
    ensures Offsets(s, Committed(s, c), c, k)
  {
    CommitTables(s, c, k);
    OffsetLive(s, Committed(s, c), c, k);
  }

  lemma OffsetLog(s: State, c: nat, k: Key)
    requires Enabled(s, LogMovement(c)) && StockKinds(s)
    ensures Offsets(s, Logged(s, c), c, k)
  {
    var call := s.calls[c];
    MovementRecorded(s.db.movements, Movement(call.key, call.kind, call.change), k);
  }

  lemma OffsetMark(s: State, c: nat, k: Key)
    requires Sound(s) && Enabled(s, MarkReleased(c))
    ensures Offsets(s, StatusWritten(s, c), c, k)
  {
    assert CallSound(s.db, s.calls[c]);
    LiveRelease(s.db.reservations, s.calls[c].id, k);
  }

  /** A release movement closes the gap that the decrement left. */
  lemma OffsetMovement(s: State, s': State, c: nat, key: Key, quantity: int, call: Call, k: Key)
    requires c < |s.calls| && s'.calls == s.calls[c := call]
    requires KeyOf(s.calls[c]) == KeyOf(call) == key
    requires Owed(call) == Owed(s.calls[c]).(reservedGap := Owed(s.calls[c]).reservedGap + quantity)
    requires s'.db.rows == s.db.rows && s'.db.reservations == s.db.reservations
    requires s'.db.movements == s.db.movements + [Movement(key, Release, quantity)]
    ensures Offsets(s, s', c, k)
  {
    MovementRecorded(s.db.movements, Movement(key, Release, quantity), k);
  }

  lemma OffsetRecord(s: State, c: nat, k: Key)
    requires Enabled(s, RecordRelease(c))
    ensures Offsets(s, ReleaseRecorded(s, c), c, k)
  {
    var call := s.calls[c];
    OffsetMovement(s, ReleaseRecorded(s, c), c, call.key, call.quantity, Recorded(call), k);
  }

  /** A step that leaves the tables alone, by which call `c` neither gains nor loses dues in total. */
  lemma OffsetNone(s: State, s': State, c: nat, call: Call, k: Key)
    requires c < |s.calls| && s'.db == s.db && s'.calls == s.calls[c := call]
    requires KeyOf(call) == KeyOf(s.calls[c]) || Owed(s.calls[c]) == Owed(call) == NOTHING
    requires var d, d' := Owed(s.calls[c]), Owed(call);
             && d'.reserving + d'.releasing + d'.stranded == d.reserving + d.releasing + d.stranded
             && d'.overReleased == d.overReleased && d'.stockGap == d.stockGap && d'.reservedGap == d.reservedGap
    ensures Offsets(s, s', c, k)
  {
  }

  lemma OffsetQuiet(s: State, e: Step, k: Key)
    requires Enabled(s, e)
    requires e.CacheHit? || e.ReadRow? || e.CacheFill? || e.Invalidate? || e.FindReservation? || e.GiveUp?
    ensures Offsets(s, Apply(s, e), e.c, k)
  {
    OffsetNone(s, Apply(s, e), e.c, Apply(s, e).calls[e.c], k);
  }

  /** UpdateStock records its movement as "in" or "out". */
  ghost predicate StockKinds(s: State) {
    forall c :: 0 <= c < |s.calls| && (s.calls[c].Stocked? || s.calls[c].Logging?) ==>
      s.calls[c].kind.In? || s.calls[c].kind.Out?
  }

  lemma StockKindsStep(s: State, e: Step)
    requires StockKinds(s) && Enabled(s, e)
    ensures StockKinds(Apply(s, e))
  {
  }

  lemma OffsetStep(s: State, e: Step, k: Key)
    requires Sound(s) && StockKinds(s) && Enabled(s, e) && !Begins(e)
    ensures Offsets(s, Apply(s, e), e.c, k)
  {
    match e
    case UpdateRow(c) => OffsetUpdate(s, c, k);
    case InsertRow(c) => OffsetInsert(s, c, k);
    case Decrement(c) => OffsetDecrement(s, c, k);
    case CommitReservation(c) => OffsetCommit(s, c, k);
    case LogMovement(c) => OffsetLog(s, c, k);
    case MarkReleased(c) => OffsetMark(s, c, k);
    case RecordRelease(c) => OffsetRecord(s, c, k);
    case _ => OffsetQuiet(s, e, k);
  }

  lemma BalancedStep(s: State, e: Step, k: Key)
    requires Sound(s) && StockKinds(s) && Enabled(s, e) && Balanced(s, k)
    ensures Balanced(Apply(s, e), k)
  {
    if Begins(e) {
      BalancedBegin(s, e, k);
    } else {
      OffsetStep(s, e, k);
      Rebalance(s, Apply(s, e), e.c, k);
    }
  }

  /**
   Conservation, unconditionally: in every state of every run the counter equals the live reservations, plus the
   reserves and releases in flight, plus what failed calls stranded, less what overlapping releases gave back
   twice; and each row equals what its movements record up to what is still, or was never, recorded.
   */
  lemma {:induction false} Conservation(states: seq<State>, steps: seq<Step>, n: nat, k: Key)
    requires IsRun(states, steps) && n <= |steps|
    ensures Balanced(states[n], k) && StockKinds(states[n])
  {
    if n > 0 {
      Conservation(states, steps, n - 1, k);
      SoundRun(states, steps, n - 1);
      BalancedStep(states[n - 1], steps[n - 1], k);
      StockKindsStep(states[n - 1], steps[n - 1]);
    }
  }

  // Releases that do not overlap

  /** No two calls have both found the same reservation reserved and not yet written its status. */
  ghost predicate ReleasesDisjoint(s: State) {
    forall c, d :: 0 <= c < d < |s.calls| && s.calls[c].Chosen? && s.calls[d].Chosen? ==>
      s.calls[c].id != s.calls[d].id
  }

  ghost predicate NoOverRelease(d: Dues) {
    d.overReleased == 0 && d.reserving >= 0 && d.releasing >= 0 && d.stranded >= 0
  }

  /** A call whose release is paid for by its own status write. */
  ghost predicate Paid(db: Db, call: Call) {
    && (call.Chosen? ==> call.id < |db.reservations| && db.reservations[call.id].status == Reserved)
    && (call.Marked? ==> call.flipped)
    && (call.Decremented? || call.Recording? ==> call.flipped && call.hit)
    && NoOverRelease(Owed(call))
  }

  ghost predicate AllPaid(s: State) {
    forall c :: 0 <= c < |s.calls| ==> Paid(s.db, s.calls[c])
  }

  lemma {:induction false} SumCovers(dues: seq<Dues>)
    requires forall c :: 0 <= c < |dues| ==> NoOverRelease(dues[c])
    ensures NoOverRelease(Sum(dues))
    ensures forall c :: 0 <= c < |dues| ==> dues[c].releasing <= Sum(dues).releasing
  {
    if dues != [] {
      SumCovers(dues[..|dues| - 1]);
    }
  }

  lemma {:induction false} SumNothing(dues: seq<Dues>)
    requires forall d :: d in dues ==> d == NOTHING
    ensures Sum(dues) == NOTHING
  {
    if dues != [] {
      var n := |dues| - 1;
      assert dues[n] in dues;
      assert forall d :: d in dues[..n] ==> d in dues;
      SumNothing(dues[..n]);
    }
  }

  lemma {:induction false} LiveNonNegative(rs: seq<Reservation>, k: Key)
    requires forall id :: 0 <= id < |rs| ==> rs[id].quantity > 0
    ensures Live(rs, k) >= 0
  {
    if rs != [] {
      LiveNonNegative(rs[..|rs| - 1], k);
    }
  }

  /** With every release paid for, the counter covers the live reservations and each release in flight. */
  lemma CounterCovers(s: State, k: Key)
    requires Sound(s) && AllPaid(s) && Balanced(s, k)
    ensures Total(s.calls, k).overReleased == 0
    ensures 0 <= Live(s.db.reservations, k) <= ReservedOf(s.db, k)
    ensures forall c :: 0 <= c < |s.calls| && s.calls[c].Marked? && s.calls[c].key == k ==>
              ReleaseMatches(s.db, k, s.calls[c].quantity)
  {
    LiveNonNegative(s.db.reservations, k);
    SumCovers(Owings(s.calls, k));
    forall c | 0 <= c < |s.calls| && s.calls[c].Marked? && s.calls[c].key == k
      ensures ReleaseMatches(s.db, k, s.calls[c].quantity)
    {
      assert Paid(s.db, s.calls[c]) && CallSound(s.db, s.calls[c]);
      assert Owings(s.calls, k)[c].releasing == s.calls[c].quantity;
    }
  }

  /** A call that did not move is paid for after the step of another. */
  lemma PaidKept(s: State, e: Step, c: nat)
    requires Sound(s) && Enabled(s, e) && AllPaid(s) && ReleasesDisjoint(s)
    requires c < |s.calls| && Apply(s, e).calls[c] == s.calls[c]
    ensures Paid(Apply(s, e).db, s.calls[c])
  {
    assert Paid(s.db, s.calls[c]);
    if e.MarkReleased? && s.calls[c].Chosen? {
      assert e.c != c && s.calls[e.c].id != s.calls[c].id;
    }
  }

  ghost predicate Releases(e: Step) {
    e.FindReservation? || e.MarkReleased? || e.Decrement? || e.RecordRelease?
  }

  /** The call that takes a step of a release, other than the counter update, is paid for. */
  lemma PaidRelease(s: State, e: Step)
    requires Sound(s) && Enabled(s, e) && AllPaid(s) && Releases(e) && !e.Decrement?
    ensures Paid(Apply(s, e).db, Apply(s, e).calls[e.c])
  {
    assert Paid(s.db, s.calls[e.c]) && CallSound(s.db, s.calls[e.c]);
  }

  lemma PaidStop(s: State, c: nat)
    requires Enabled(s, GiveUp(c)) && AllPaid(s)
    ensures Paid(Apply(s, GiveUp(c)).db, Apply(s, GiveUp(c)).calls[c])
  {
    assert Paid(s.db, s.calls[c]);
  }

  lemma PaidOther(s: State, e: Step, c: nat)
    requires Sound(s) && Enabled(s, e) && AllPaid(s) && !Releases(e) && !e.GiveUp?
    requires c < |Apply(s, e).calls| && (c >= |s.calls| || Apply(s, e).calls[c] != s.calls[c])
    ensures Paid(Apply(s, e).db, Apply(s, e).calls[c])
  {
    if c < |s.calls| {
      assert Paid(s.db, s.calls[c]) && CallSound(s.db, s.calls[c]);
    }
  }

  lemma PaidActor(s: State, e: Step, c: nat)
    requires Sound(s) && Enabled(s, e) && AllPaid(s) && !e.Decrement?
    requires c < |Apply(s, e).calls| && (c >= |s.calls| || Apply(s, e).calls[c] != s.calls[c])
    ensures Paid(Apply(s, e).db, Apply(s, e).calls[c])
  {
    if Releases(e) {
      PaidRelease(s, e);
    } else if e.GiveUp? {
      PaidStop(s, e.c);
    } else {
      PaidOther(s, e, c);
    }
  }

  lemma PaidDecrement(s: State, c: nat)
    requires Sound(s) && Enabled(s, Decrement(c)) && AllPaid(s) && Balanced(s, s.calls[c].key)
    ensures Paid(Lowered(s, c).db, Lowered(s, c).calls[c])
  {
    CounterCovers(s, s.calls[c].key);
    assert Paid(s.db, s.calls[c]);
  }

  lemma PaidStep(s: State, e: Step)
    requires Sound(s) && Enabled(s, e) && AllPaid(s) && ReleasesDisjoint(s)
    requires forall k :: Balanced(s, k)
    ensures AllPaid(Apply(s, e))
  {
    var s' := Apply(s, e);
    forall c | 0 <= c < |s'.calls|
      ensures Paid(s'.db, s'.calls[c])
    {
      if c < |s.calls| && s'.calls[c] == s.calls[c] {
        PaidKept(s, e, c);
      } else if e.Decrement? {
        PaidDecrement(s, c);
      } else {
        PaidActor(s, e, c);
      }
    }
  }

  lemma {:induction false} PaidRun(states: seq<State>, steps: seq<Step>, n: nat)
    requires IsRun(states, steps) && n <= |steps|
    requires forall i :: 0 <= i < n ==> ReleasesDisjoint(states[i])
    ensures AllPaid(states[n])
  {
    if n > 0 {
      PaidRun(states, steps, n - 1);
      SoundRun(states, steps, n - 1);
      var s := states[n - 1];
      forall k
        ensures Balanced(s, k)
      {
        Conservation(states, steps, n - 1, k);
      }
      PaidStep(s, steps[n - 1]);
    }
  }

  /**
   Reservation conservation: in every run without overlapping releases of one reservation, whatever else
   interleaves or fails, the counter of each row is exactly the live reservations, plus reserves between counter
   and commit, plus releases between status and counter, plus what failed calls stranded. So it never falls
   below the live reservations.
   */
  lemma ReservedStockIsConserved(states: seq<State>, steps: seq<Step>, n: nat, k: Key)
    requires IsRun(states, steps) && n <= |steps|
    requires forall i :: 0 <= i < n ==> ReleasesDisjoint(states[i])
    ensures ReservedOf(states[n].db, k) ==
              Live(states[n].db.reservations, k) + Total(states[n].calls, k).reserving
              + Total(states[n].calls, k).releasing + Total(states[n].calls, k).stranded
    ensures 0 <= Live(states[n].db.reservations, k) <= ReservedOf(states[n].db, k)
  {
    PaidRun(states, steps, n);
    SoundRun(states, steps, n);
    Conservation(states, steps, n, k);
    CounterCovers(states[n], k);
  }

  /** In such a run the unchecked guard of ReleaseQuantity never skips a release silently. */
  lemma ReleaseNeverSkipped(states: seq<State>, steps: seq<Step>, n: nat)
    requires IsRun(states, steps) && n < |steps| && steps[n].Decrement?
    requires forall i :: 0 <= i < n ==> ReleasesDisjoint(states[i])
    ensures ReleaseMatches(states[n].db, states[n].calls[steps[n].c].key, states[n].calls[steps[n].c].quantity)
    ensures states[n + 1].calls[steps[n].c].hit
  {
    var k := states[n].calls[steps[n].c].key;
    PaidRun(states, steps, n);
    SoundRun(states, steps, n);
    Conservation(states, steps, n, k);
    CounterCovers(states[n], k);
  }

  /** Call `c` found reservation `id` reserved by step `i`. */
  ghost predicate FoundReserved(states: seq<State>, steps: seq<Step>, i: int, c: nat, id: nat) {
    && 0 <= i < |steps| < |states| && steps[i] == FindReservation(c)
    && c < |states[i].calls| && states[i].calls[c] == Looking(id)
    && id < |states[i].db.reservations| && states[i].db.reservations[id].status == Reserved
  }

  /** Another call than `c` writes the status of reservation `id` by step `j`. */
  ghost predicate Overtakes(states: seq<State>, steps: seq<Step>, j: int, c: nat, id: nat) {
    && 0 <= j < |steps| < |states| && steps[j].MarkReleased? && steps[j].c != c
    && steps[j].c < |states[j].calls| && states[j].calls[steps[j].c].Chosen? && states[j].calls[steps[j].c].id == id
  }

  /** The call has been at this very point since step `i`, by which it found the reservation reserved. */
  ghost predicate ChosenSince(states: seq<State>, steps: seq<Step>, n: nat, i: int, c: nat) {
    && n <= |steps| < |states| && c < |states[n].calls| && states[n].calls[c].Chosen? && 0 <= i < n
    && FoundReserved(states, steps, i, c, states[n].calls[c].id)
    && forall m :: i < m <= n ==> c < |states[m].calls| && states[m].calls[c] == states[n].calls[c]
  }

  lemma ChosenStep(s: State, e: Step, c: nat)
    requires Enabled(s, e) && c < |Apply(s, e).calls| && Apply(s, e).calls[c].Chosen?
    ensures c < |s.calls|
    ensures s.calls[c] == Apply(s, e).calls[c]
         || (e == FindReservation(c) && s.calls[c] == Looking(Apply(s, e).calls[c].id)
             && s.calls[c].id < |s.db.reservations| && s.db.reservations[s.calls[c].id].status == Reserved)
  {
  }

  lemma {:induction false} ChosenWasFound(states: seq<State>, steps: seq<Step>, n: nat, c: nat) returns (i: nat)
    requires IsRun(states, steps) && n <= |steps|
    requires c < |states[n].calls| && states[n].calls[c].Chosen?
    ensures ChosenSince(states, steps, n, i, c)
  {
    assert n > 0;
    var s, e := states[n - 1], steps[n - 1];
    ChosenStep(s, e, c);
    if s.calls[c] == states[n].calls[c] {
      i := ChosenWasFound(states, steps, n - 1, c);
    } else {
      i := n - 1;
    }
  }

  /** A reservation is released by a status write only, and for good. */
  lemma StatusStep(s: State, e: Step, id: nat)
    requires Enabled(s, e) && id < |s.db.reservations|
    ensures id < |Apply(s, e).db.reservations|
    ensures Apply(s, e).db.reservations[id].status
         == if e.MarkReleased? && s.calls[e.c].id == id then Released else s.db.reservations[id].status
  {
  }

  lemma {:induction false} ReleasedIffWritten(states: seq<State>, steps: seq<Step>, i: nat, n: nat, id: nat)
    requires IsRun(states, steps) && i <= n <= |steps|
    requires id < |states[i].db.reservations| && states[i].db.reservations[id].status == Reserved
    ensures id < |states[n].db.reservations|
    ensures states[n].db.reservations[id].status == Released <==>
            exists j :: i <= j < n && steps[j].MarkReleased? && states[j].calls[steps[j].c].id == id
    decreases n
  {
    if i < n {
      ReleasedIffWritten(states, steps, i, n - 1, id);
      var s, e := states[n - 1], steps[n - 1];
      StatusStep(s, e, id);
      assert states[n] == Apply(s, e);
    }
  }

  /**
   A status write changes nothing exactly when another call has written the status of the same reservation since this
   call found it reserved: the one way, in any run, by which a counter share is later given back twice.
   */
  lemma UnpaidReleaseIffOvertaken(states: seq<State>, steps: seq<Step>, n: nat) returns (i: nat)
    requires IsRun(states, steps) && n < |steps| && steps[n].MarkReleased?
    ensures i < n && FoundReserved(states, steps, i, steps[n].c, states[n].calls[steps[n].c].id)
    ensures !states[n + 1].calls[steps[n].c].flipped <==>
            exists j :: i < j < n && Overtakes(states, steps, j, steps[n].c, states[n].calls[steps[n].c].id)
  {
    var c := steps[n].c;
    var id := states[n].calls[c].id;
    i := ChosenWasFound(states, steps, n, c);
    ReleasedIffWritten(states, steps, i, n, id);
    if states[n].db.reservations[id].status == Released {
      var j :| i <= j < n && steps[j].MarkReleased? && states[j].calls[steps[j].c].id == id;
      WriterIsOther(states, steps, i, j, n, c);
      assert Overtakes(states, steps, j, c, id);
    }
    if j :| i < j < n && Overtakes(states, steps, j, c, id) {
      assert steps[j].MarkReleased? && states[j].calls[steps[j].c].id == id;
    }
  }

  /** While a call is chosen it does not write the status itself. */
  lemma WriterIsOther(states: seq<State>, steps: seq<Step>, i: nat, j: nat, n: nat, c: nat)
    requires IsRun(states, steps) && ChosenSince(states, steps, n, i, c) && i <= j < n && steps[j].MarkReleased?
    ensures i < j && steps[j].c != c && states[j].calls[steps[j].c].Chosen?
  {
    var e := steps[j];
    assert states[j + 1] == Apply(states[j], e) && states[j + 1].calls[e.c].Marked?;
  }

  // The exact condition

  /** The step lowers the counter for a release whose status write changed nothing. */
  ghost predicate GivesBackTwice(s: State, e: Step) {
    && e.Decrement? && e.c < |s.calls| && s.calls[e.c].Marked? && !s.calls[e.c].flipped
    && ReleaseMatches(s.db, s.calls[e.c].key, s.calls[e.c].quantity)
  }

  ghost predicate Conserved(s: State, k: Key) {
    ReservedOf(s.db, k) == Live(s.db.reservations, k) + Total(s.calls, k).reserving
                           + Total(s.calls, k).releasing + Total(s.calls, k).stranded
  }

  function Over(calls: seq<Call>, c: nat): int {
    if c < |calls| then Owed(calls[c]).overReleased else 0
  }

  lemma OverStep(s: State, e: Step, c: nat)
    requires Enabled(s, e)
    ensures Over(Apply(s, e).calls, c) ==
            if GivesBackTwice(s, e) && e.c == c then s.calls[c].quantity else Over(s.calls, c)
  {
  }

  lemma {:induction false} OverRun(states: seq<State>, steps: seq<Step>, n: nat, c: nat)
    requires IsRun(states, steps) && n <= |steps|
    ensures Over(states[n].calls, c) >= 0
    ensures (forall i :: 0 <= i < n ==> !GivesBackTwice(states[i], steps[i])) ==> Over(states[n].calls, c) == 0
  {
    if n > 0 {
      var s, e := states[n - 1], steps[n - 1];
      OverRun(states, steps, n - 1, c);
      SoundRun(states, steps, n - 1);
      OverStep(s, e, c);
      assert states[n] == Apply(s, e);
      assert GivesBackTwice(s, e) ==> CallSound(s.db, s.calls[e.c]);
    }
  }

  lemma {:induction false} SumOver(dues: seq<Dues>)
    requires forall c :: 0 <= c < |dues| ==> dues[c].overReleased >= 0
    ensures Sum(dues).overReleased >= 0
    ensures forall c :: 0 <= c < |dues| ==> dues[c].overReleased <= Sum(dues).overReleased
    ensures (forall c :: 0 <= c < |dues| ==> dues[c].overReleased == 0) ==> Sum(dues).overReleased == 0
  {
    if dues != [] {
      SumOver(dues[..|dues| - 1]);
    }
  }

  lemma OverTotal(states: seq<State>, steps: seq<Step>, n: nat, k: Key)
    requires IsRun(states, steps) && n <= |steps|
    ensures forall c :: 0 <= c < |states[n].calls| && KeyOf(states[n].calls[c]) == k ==>
              Over(states[n].calls, c) <= Total(states[n].calls, k).overReleased
    ensures (forall i :: 0 <= i < n ==> !GivesBackTwice(states[i], steps[i])) ==>
              Total(states[n].calls, k).overReleased == 0
  {
    var dues := Owings(states[n].calls, k);
    forall c | 0 <= c < |dues|
      ensures dues[c].overReleased >= 0
      ensures (forall i :: 0 <= i < n ==> !GivesBackTwice(states[i], steps[i])) ==> dues[c].overReleased == 0
      ensures KeyOf(states[n].calls[c]) == k ==> dues[c].overReleased == Over(states[n].calls, c)
    {
      OverRun(states, steps, n, c);
    }
    SumOver(dues);
  }

  lemma DoubleGiveBackShows(states: seq<State>, steps: seq<Step>, n: nat)
    requires IsRun(states, steps) && n < |steps| && GivesBackTwice(states[n], steps[n])
    ensures !Conserved(states[n + 1], states[n].calls[steps[n].c].key)
  {
    var s, e := states[n], steps[n];
    var k := s.calls[e.c].key;
    SoundRun(states, steps, n);
    assert CallSound(s.db, s.calls[e.c]);
    OverStep(s, e, e.c);
    assert states[n + 1] == Apply(s, e);
    OverTotal(states, steps, n + 1, k);
    Conservation(states, steps, n + 1, k);
  }

  /**
   Exactly when reserved stock is conserved: the identity holds for all rows throughout a run if and only if no call of
   the run lowers a counter after a status write that found the reservation already released.
   */
  lemma ConservedIff(states: seq<State>, steps: seq<Step>, n: nat)
    requires IsRun(states, steps) && n <= |steps|
    ensures (forall i, k :: 0 <= i <= n ==> Conserved(states[i], k)) <==>
            (forall i :: 0 <= i < n ==> !GivesBackTwice(states[i], steps[i]))
  {
    if forall i :: 0 <= i < n ==> !GivesBackTwice(states[i], steps[i]) {
      forall i, k | 0 <= i <= n
        ensures Conserved(states[i], k)
      {
        OverTotal(states, steps, i, k);
        Conservation(states, steps, i, k);
      }
    } else {
      var i :| 0 <= i < n && GivesBackTwice(states[i], steps[i]);
      DoubleGiveBackShows(states, steps, i);
      assert 0 <= i + 1 <= n;
    }
  }

  // The ledger

  /** The movements of the row sum to its stock on hand, to minus its reserved quantity, and to what is available. */
  ghost predicate LedgerBalanced(db: Db, k: Key) {
    && Moved(db.movements, k, true) == OnHandOf(db, k)
    && Moved(db.movements, k, false) == -ReservedOf(db, k)
    && (k in db.rows ==> Moved(db.movements, k, true) + Moved(db.movements, k, false) == db.rows[k].Available())
  }

  /** No call fails or stops. */
  ghost predicate Healthy(e: Step) {
    !e.GiveUp?
  }

  ghost predicate Completed(call: Call) {
    call.Finished? || call.Ended?
  }

  /** The step is the counter update of a release of row `k`, and it matches no row. */
  ghost predicate Misses(s: State, e: Step, k: Key) {
    && e.Decrement? && e.c < |s.calls| && s.calls[e.c].Marked? && s.calls[e.c].key == k
    && !ReleaseMatches(s.db, k, s.calls[e.c].quantity)
  }

  /** What the release movement of a call says, or will say, too much of row `k`. */
  function Excess(call: Call, k: Key): int {
    if KeyOf(call) != k then 0
    else
      match call
      case Decremented(_, quantity, _, hit) => if hit then 0 else quantity
      case Recording(_, quantity, _, hit) => if hit then 0 else quantity
      case Ended(_, dues) => dues.reservedGap
      case _ => 0
  }

  function ExcessOf(calls: seq<Call>, c: nat, k: Key): int {
    if c < |calls| then Excess(calls[c], k) else 0
  }

  lemma ExcessStep(s: State, e: Step, c: nat, k: Key)
    requires Enabled(s, e) && Healthy(e)
    ensures ExcessOf(Apply(s, e).calls, c, k) ==
            if Misses(s, e, k) && e.c == c then s.calls[c].quantity else ExcessOf(s.calls, c, k)
  {
  }

  ghost predicate HealthyRun(steps: seq<Step>, n: nat) {
    n <= |steps| && forall i :: 0 <= i < n ==> Healthy(steps[i])
  }

  /** Step `i` is the counter update of call `c`, and it misses row `k`. */
  ghost predicate MissesAt(states: seq<State>, steps: seq<Step>, i: int, c: nat, k: Key) {
    0 <= i < |steps| <= |states| && Misses(states[i], steps[i], k) && steps[i].c == c
  }

  lemma ExcessNext(states: seq<State>, steps: seq<Step>, i: nat, c: nat, k: Key)
    requires IsRun(states, steps) && i < |steps| && Healthy(steps[i])
    ensures var before, after := ExcessOf(states[i].calls, c, k), ExcessOf(states[i + 1].calls, c, k);
            if MissesAt(states, steps, i, c, k) then after > 0 else after == before
  {
    var s, e := states[i], steps[i];
    SoundRun(states, steps, i);
    ExcessStep(s, e, c, k);
    assert Misses(s, e, k) ==> CallSound(s.db, s.calls[e.c]);
  }

  /** A call overstates a row exactly when its counter update missed it. */
  lemma {:induction false} ExcessRun(states: seq<State>, steps: seq<Step>, n: nat, c: nat, k: Key)
    requires IsRun(states, steps) && HealthyRun(steps, n)
    ensures ExcessOf(states[n].calls, c, k) >= 0
    ensures ExcessOf(states[n].calls, c, k) > 0 <==> exists i :: 0 <= i < n && MissesAt(states, steps, i, c, k)
  {
    if n > 0 {
      ExcessRun(states, steps, n - 1, c, k);
      ExcessNext(states, steps, n - 1, c, k);
    }
  }

  /** Stock changes that run to their end leave nothing unrecorded. */
  ghost predicate StockRecorded(s: State) {
    forall c :: 0 <= c < |s.calls| && s.calls[c].Ended? ==> s.calls[c].dues.stockGap == 0
  }

  lemma StockRecordedStep(s: State, e: Step)
    requires Enabled(s, e) && Healthy(e) && StockRecorded(s)
    ensures StockRecorded(Apply(s, e))
  {
  }

  lemma {:induction false} StockRecordedRun(states: seq<State>, steps: seq<Step>, n: nat)
    requires IsRun(states, steps) && HealthyRun(steps, n)
    ensures StockRecorded(states[n])
  {
    if n > 0 {
      StockRecordedRun(states, steps, n - 1);
      StockRecordedStep(states[n - 1], steps[n - 1]);
    }
  }

  lemma {:induction false} SumGaps(dues: seq<Dues>)
    requires forall c :: 0 <= c < |dues| ==> dues[c].stockGap == 0 && dues[c].reservedGap >= 0
    ensures Sum(dues).stockGap == 0 && Sum(dues).reservedGap >= 0
    ensures Sum(dues).reservedGap == 0 <==> forall c :: 0 <= c < |dues| ==> dues[c].reservedGap == 0
  {
    if dues != [] {
      var n := |dues| - 1;
      assert dues == dues[..n] + [dues[n]];
      SumGaps(dues[..n]);
    }
  }

  /** What the completed calls leave open for row `k`. */
  lemma CompletedGaps(states: seq<State>, steps: seq<Step>, n: nat, k: Key)
    requires IsRun(states, steps) && HealthyRun(steps, n)
    requires forall c :: 0 <= c < |states[n].calls| ==> Completed(states[n].calls[c])
    ensures Total(states[n].calls, k).stockGap == 0
    ensures Total(states[n].calls, k).reservedGap == 0 <==>
            forall i :: 0 <= i < n ==> !Misses(states[i], steps[i], k)
  {
    var calls := states[n].calls;
    var dues := Owings(calls, k);
    StockRecordedRun(states, steps, n);
    forall c | 0 <= c < |dues|
      ensures dues[c].stockGap == 0 && dues[c].reservedGap == ExcessOf(calls, c, k) >= 0
    {
      ExcessRun(states, steps, n, c, k);
    }
    SumGaps(dues);
    forall i | 0 <= i < n && Misses(states[i], steps[i], k)
      ensures exists c :: 0 <= c < |dues| && dues[c].reservedGap != 0
    {
      var c := steps[i].c;
      ExcessRun(states, steps, n, c, k);
      assert MissesAt(states, steps, i, c, k);
      assert dues[c].reservedGap != 0;
    }
    forall c | 0 <= c < |dues| && dues[c].reservedGap != 0
      ensures exists i :: 0 <= i < n && Misses(states[i], steps[i], k)
    {
      ExcessRun(states, steps, n, c, k);
      var i :| 0 <= i < n && MissesAt(states, steps, i, c, k);
    }
  }

  /**
   The movement ledger: once every call of a run has completed without a failure, however the calls interleaved, the
   movements of a row balance if and only if no release of the run missed the row with its counter update. A release
   that misses still records its movement.
   */
  lemma LedgerBalancesIff(states: seq<State>, steps: seq<Step>, n: nat, k: Key)
    requires IsRun(states, steps) && HealthyRun(steps, n)
    requires forall c :: 0 <= c < |states[n].calls| ==> Completed(states[n].calls[c])
    ensures LedgerBalanced(states[n].db, k) <==> forall i :: 0 <= i < n ==> !Misses(states[i], steps[i], k)
  {
    Conservation(states, steps, n, k);
    CompletedGaps(states, steps, n, k);
  }

  // Without overlapping releases

  /** Calls that ended owe nothing. */
  ghost predicate AllSettled(s: State) {
    forall c :: 0 <= c < |s.calls| && s.calls[c].Ended? ==> s.calls[c].dues == NOTHING
  }

  lemma SettledStep(s: State, e: Step)
    requires Enabled(s, e) && Healthy(e) && AllPaid(s) && AllSettled(s)
    ensures AllSettled(Apply(s, e))
  {
    if e.RecordRelease? {
      assert Paid(s.db, s.calls[e.c]);
    }
  }

  lemma {:induction false} SettledRun(states: seq<State>, steps: seq<Step>, n: nat)
    requires IsRun(states, steps) && HealthyRun(steps, n)
    requires forall i :: 0 <= i < n ==> ReleasesDisjoint(states[i])
    ensures AllSettled(states[n])
  {
    if n > 0 {
      SettledRun(states, steps, n - 1);
      PaidRun(states, steps, n - 1);
      SettledStep(states[n - 1], steps[n - 1]);
    }
  }

  lemma NothingOwed(s: State, k: Key)
    requires AllSettled(s) && forall c :: 0 <= c < |s.calls| ==> Completed(s.calls[c])
    ensures Total(s.calls, k) == NOTHING
  {
    var dues := Owings(s.calls, k);
    forall d | d in dues
      ensures d == NOTHING
    {
      var c :| 0 <= c < |dues| && dues[c] == d;
      assert Completed(s.calls[c]);
    }
    SumNothing(dues);
  }

  /**
   So the ledger of every row balances once all calls have completed without a failure and no two releases of one
   reservation overlapped, and the counter is then the live reservations.
   */
  lemma LedgerBalances(states: seq<State>, steps: seq<Step>, n: nat, k: Key)
    requires IsRun(states, steps) && HealthyRun(steps, n)
    requires forall c :: 0 <= c < |states[n].calls| ==> Completed(states[n].calls[c])
    requires forall i :: 0 <= i < n ==> ReleasesDisjoint(states[i])
    ensures LedgerBalanced(states[n].db, k)
    ensures ReservedOf(states[n].db, k) == Live(states[n].db.reservations, k)
  {
    Conservation(states, steps, n, k);
    SettledRun(states, steps, n);
    NothingOwed(states[n], k);
  }
}
