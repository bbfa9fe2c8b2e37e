/**
 What a snapshot is worth. Release does not bump the version and cached rows may be stale, yet a snapshot whose
 version still matches is safe to act on, and no interleaving of reserves and releases oversells.
 */
module ReservationSnapshots {
  import opened InventoryDb
  import opened ReservationProtocol

  /** `later` can be the row at a later moment: within one version the stock is fixed and the counter only falls. */
  ghost predicate Evolves(earlier: Row, later: Row) {
    || earlier.version < later.version
    || (earlier.version == later.version && earlier.onHand == later.onHand && later.reserved <= earlier.reserved)
  }

  ghost predicate HoldsSnapshot(call: Call) {
    call.Fetched? || call.Ready?
  }

  ghost predicate CallSound(db: Db, call: Call) {
    && (HoldsSnapshot(call) ==> call.task.key in db.rows && Evolves(call.snapshot, db.rows[call.task.key]))
    && ((call.Reading? || HoldsSnapshot(call)) && call.task.ReserveTask? ==> call.task.quantity > 0)
    && (call.Ready? && call.task.ReserveTask? ==> call.snapshot.Available() >= call.task.quantity)
    && (call.Counted? || call.Inserting? || call.Marked? || call.Decremented? || call.Recording? ==> call.quantity > 0)
    && (call.Chosen? ==> call.id < |db.reservations|
                         && db.reservations[call.id].key == call.key
                         && db.reservations[call.id].quantity == call.quantity)
  }

  ghost predicate CacheSound(s: State) {
    forall x :: x in s.cache ==> x.key in s.db.rows && Evolves(s.cache[x], s.db.rows[x.key])
  }

  /** Holds in every reachable state, whatever interleaves or fails. */
  ghost predicate Sound(s: State) {
    && (forall k :: k in s.db.rows ==> s.db.rows[k].reserved >= 0)
    && (forall id :: 0 <= id < |s.db.reservations| ==> s.db.reservations[id].quantity > 0)
    && CacheSound(s)
    && (forall c :: 0 <= c < |s.calls| ==> CallSound(s.db, s.calls[c]))
  }

  /** One step never takes a row back: rows stay and every row evolves. */
  lemma RowsEvolve(s: State, e: Step)
    requires Sound(s) && Enabled(s, e)
    ensures forall k :: k in s.db.rows ==> k in Apply(s, e).db.rows && Evolves(s.db.rows[k], Apply(s, e).db.rows[k])
  {
    match e
    case UpdateRow(c) => assert CallSound(s.db, s.calls[c]);
    case Decrement(c) => assert CallSound(s.db, s.calls[c]);
    case _ =>
  }

  /** Reservations are only added or released; their key and quantity are fixed. */
  lemma ReservationsKept(s: State, e: Step)
    requires Enabled(s, e)
    ensures |s.db.reservations| <= |Apply(s, e).db.reservations|
    ensures forall id :: 0 <= id < |s.db.reservations| ==>
              && Apply(s, e).db.reservations[id].key == s.db.reservations[id].key
              && Apply(s, e).db.reservations[id].quantity == s.db.reservations[id].quantity
  {
  }

  lemma CallKept(s: State, e: Step, call: Call)
    requires Sound(s) && Enabled(s, e) && CallSound(s.db, call)
    ensures CallSound(Apply(s, e).db, call)
  {
    RowsEvolve(s, e);
    ReservationsKept(s, e);
  }

  lemma CacheKept(s: State, e: Step)
    requires Sound(s) && Enabled(s, e)
    ensures CacheSound(Apply(s, e))
  {
    RowsEvolve(s, e);
    if e.CacheFill? {
      assert CallSound(s.db, s.calls[e.c]);
    }
  }

  lemma TablesKept(s: State, e: Step)
    requires Sound(s) && Enabled(s, e)
    ensures forall k :: k in Apply(s, e).db.rows ==> Apply(s, e).db.rows[k].reserved >= 0
    ensures forall id :: 0 <= id < |Apply(s, e).db.reservations| ==> Apply(s, e).db.reservations[id].quantity > 0
  {
    ReservationsKept(s, e);
    match e
    case UpdateRow(c) => assert CallSound(s.db, s.calls[c]);
    case CommitReservation(c) => assert CallSound(s.db, s.calls[c]);
    case _ =>
  }

  ghost predicate Reads(e: Step) {
    e.CacheHit? || e.ReadRow? || e.CacheFill? || e.FindReservation?
  }

  lemma ReaderSound(s: State, e: Step)
    requires Sound(s) && Enabled(s, e) && Reads(e)
    ensures CallSound(Apply(s, e).db, Apply(s, e).calls[e.c])
  {
    assert CallSound(s.db, s.calls[e.c]);
  }

  lemma WriterSound(s: State, e: Step, c: nat)
    requires Sound(s) && Enabled(s, e) && !Reads(e)
    requires c < |Apply(s, e).calls| && (c >= |s.calls| || Apply(s, e).calls[c] != s.calls[c])
    ensures CallSound(Apply(s, e).db, Apply(s, e).calls[c])
  {
    if c < |s.calls| {
      assert CallSound(s.db, s.calls[c]);
    }
  }

  /** The call that takes the step is left sound. */
  lemma ActorSound(s: State, e: Step, c: nat)
    requires Sound(s) && Enabled(s, e)
    requires c < |Apply(s, e).calls| && (c >= |s.calls| || Apply(s, e).calls[c] != s.calls[c])
    ensures CallSound(Apply(s, e).db, Apply(s, e).calls[c])
  {
    if Reads(e) {
      ReaderSound(s, e);
    } else {
      WriterSound(s, e, c);
    }
  }

  lemma SoundStep(s: State, e: Step)
    requires Sound(s) && Enabled(s, e)
    ensures Sound(Apply(s, e))
  {
    var s' := Apply(s, e);
    TablesKept(s, e);
    CacheKept(s, e);
    forall c | 0 <= c < |s'.calls|
      ensures CallSound(s'.db, s'.calls[c])
    {
      if c < |s.calls| && s'.calls[c] == s.calls[c] {
        CallKept(s, e, s.calls[c]);
      } else {
        ActorSound(s, e, c);
      }
    }
  }

  lemma {:induction false} SoundRun(states: seq<State>, steps: seq<Step>, n: nat)
    requires IsRun(states, steps) && n <= |steps|
    ensures Sound(states[n])
  {
    if n > 0 {
      SoundRun(states, steps, n - 1);
      SoundStep(states[n - 1], steps[n - 1]);
    }
  }

  /**
   Same version means safe snapshot: over every run and any two of its moments, the row that had a version at the
   earlier moment still exists at the later one, and if the version is the same then the stock on hand is the
   same and no more is reserved.
   */
  lemma {:induction false} SameVersionIsSafe(states: seq<State>, steps: seq<Step>, i: nat, j: nat, k: Key)
    requires IsRun(states, steps) && i <= j <= |steps| && k in states[i].db.rows
    ensures k in states[j].db.rows
    ensures states[i].db.rows[k].version <= states[j].db.rows[k].version
    ensures states[i].db.rows[k].version == states[j].db.rows[k].version ==>
              && states[i].db.rows[k].onHand == states[j].db.rows[k].onHand
              && states[j].db.rows[k].reserved <= states[i].db.rows[k].reserved
    decreases j - i
  {
    if i < j {
      SameVersionIsSafe(states, steps, i, j - 1, k);
      SoundRun(states, steps, j - 1);
      RowsEvolve(states[j - 1], steps[j - 1]);
      assert states[j] == Apply(states[j - 1], steps[j - 1]);
    }
  }

  /**
   ErrConcurrentModification is truthful: in every run, a reserve about to write its counter, whether its snapshot
   came from the table or from a stale cache entry, matches no row exactly when the version moved since.
   */
  lemma ConflictIsTruthful(states: seq<State>, steps: seq<Step>, n: nat, c: nat)
    requires IsRun(states, steps) && n <= |steps|
    requires c < |states[n].calls| && states[n].calls[c].Ready? && states[n].calls[c].task.ReserveTask?
    ensures states[n].calls[c].task.key in states[n].db.rows
    ensures var call := states[n].calls[c];
            Apply(states[n], UpdateRow(c)).calls[c].Finished? <==>
            states[n].db.rows[call.task.key].version != call.snapshot.version
  {
    SoundRun(states, steps, n);
    assert CallSound(states[n].db, states[n].calls[c]);
  }

  /** The row was in the table, with this very content, at moment `j` of the run. */
  ghost predicate WasRow(states: seq<State>, j: int, k: Key, row: Row) {
    0 <= j < |states| && k in states[j].db.rows && states[j].db.rows[k] == row
  }

  ghost predicate PastRow(states: seq<State>, n: nat, k: Key, row: Row) {
    exists j :: 0 <= j <= n && WasRow(states, j, k, row)
  }

  /** Every cache entry, and every snapshot a call holds, is a committed past content of its own row. */
  lemma {:induction false} SnapshotsArePast(states: seq<State>, steps: seq<Step>, n: nat)
    requires IsRun(states, steps) && n <= |steps|
    ensures forall x :: x in states[n].cache ==> PastRow(states, n, x.key, states[n].cache[x])
    ensures forall c :: 0 <= c < |states[n].calls| && HoldsSnapshot(states[n].calls[c]) ==>
              PastRow(states, n, states[n].calls[c].task.key, states[n].calls[c].snapshot)
  {
    if n > 0 {
      SnapshotsArePast(states, steps, n - 1);
      var s, e, s' := states[n - 1], steps[n - 1], states[n];
      assert s' == Apply(s, e);
      forall x | x in s'.cache
        ensures PastRow(states, n, x.key, s'.cache[x])
      {
        if x in s.cache && s'.cache[x] == s.cache[x] {
          assert PastRow(states, n - 1, x.key, s.cache[x]);
        } else {
          assert e.CacheFill? && HoldsSnapshot(s.calls[e.c]);
        }
      }
      forall c | 0 <= c < |s'.calls| && HoldsSnapshot(s'.calls[c])
        ensures PastRow(states, n, s'.calls[c].task.key, s'.calls[c].snapshot)
      {
        SnapshotOrigin(s, e, c);
        var key, row := s'.calls[c].task.key, s'.calls[c].snapshot;
        if key in s.db.rows && s.db.rows[key] == row {
          assert WasRow(states, n - 1, key, row);
        } else if x :| x in s.cache && x.key == key && s.cache[x] == row {
          assert PastRow(states, n - 1, key, row);
        } else {
          assert PastRow(states, n - 1, key, row);
        }
      }
    }
  }

  /** A snapshot held after a step was held before it, or was read from the table or from the cache by the step. */
  lemma SnapshotOrigin(s: State, e: Step, c: nat)
    requires Enabled(s, e)
    requires c < |Apply(s, e).calls| && HoldsSnapshot(Apply(s, e).calls[c])
    ensures var call := Apply(s, e).calls[c];
            || (call.task.key in s.db.rows && s.db.rows[call.task.key] == call.snapshot)
            || (exists x :: x in s.cache && x.key == call.task.key && s.cache[x] == call.snapshot)
            || (c < |s.calls| && HoldsSnapshot(s.calls[c])
                && s.calls[c].task.key == call.task.key && s.calls[c].snapshot == call.snapshot)
  {
  }

  ghost predicate InBounds(s: State, k: Key) {
    k in s.db.rows ==> 0 <= s.db.rows[k].reserved <= s.db.rows[k].onHand
  }

  /** The step is a stock change of row `k` that leaves less on hand than is reserved. */
  ghost predicate Undercuts(s: State, e: Step, k: Key) {
    || (e.UpdateRow? && e.c < |s.calls| && s.calls[e.c].Ready? && s.calls[e.c].task.StockTask?
        && s.calls[e.c].task.key == k && StockMatches(s.db, k, s.calls[e.c].snapshot.version)
        && s.db.rows[k].onHand + s.calls[e.c].task.change < s.db.rows[k].reserved)
    || (e.InsertRow? && e.c < |s.calls| && s.calls[e.c].Creating?
        && s.calls[e.c].key == k && k !in s.db.rows && s.calls[e.c].change < 0)
  }

  /**
   No overselling: whatever the caches say and whichever Redis calls fail, a row within bounds leaves them at a
   step if and only if the step is a stock change that undercuts what is reserved.
   */
  lemma OnlyUndercuttingOversells(s: State, e: Step, k: Key)
    requires Sound(s) && Enabled(s, e) && InBounds(s, k)
    ensures InBounds(Apply(s, e), k) <==> !Undercuts(s, e, k)
  {
    match e
    case UpdateRow(c) => assert CallSound(s.db, s.calls[c]);
    case Decrement(c) => assert CallSound(s.db, s.calls[c]);
    case _ =>
  }

  /** Over whole runs: without undercutting stock changes every row stays within 0 <= reserved <= on hand. */
  lemma {:induction false} NeverOversold(states: seq<State>, steps: seq<Step>, n: nat, k: Key)
    requires IsRun(states, steps) && n <= |steps|
    requires forall i :: 0 <= i < n ==> !Undercuts(states[i], steps[i], k)
    ensures InBounds(states[n], k)
  {
    if n > 0 {
      NeverOversold(states, steps, n - 1, k);
      SoundRun(states, steps, n - 1);
      OnlyUndercuttingOversells(states[n - 1], steps[n - 1], k);
    }
  }

  /** The exact condition: a row is within bounds throughout a run if and only if no step undercuts it. */
  lemma NeverOversoldIff(states: seq<State>, steps: seq<Step>, n: nat, k: Key)
    requires IsRun(states, steps) && n <= |steps|
    ensures (forall i :: 0 <= i <= n ==> InBounds(states[i], k)) <==>
            (forall i :: 0 <= i < n ==> !Undercuts(states[i], steps[i], k))
  {
    if forall i :: 0 <= i < n ==> !Undercuts(states[i], steps[i], k) {
      forall i | 0 <= i <= n
        ensures InBounds(states[i], k)
      {
        NeverOversold(states, steps, i, k);
      }
    } else {
      var i :| 0 <= i < n && Undercuts(states[i], steps[i], k);
      if InBounds(states[i], k) {
        SoundRun(states, steps, i);
        OnlyUndercuttingOversells(states[i], steps[i], k);
        assert states[i + 1] == Apply(states[i], steps[i]);
        assert !InBounds(states[i + 1], k);
      }
    }
  }
}
