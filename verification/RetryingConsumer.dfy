/**
 The retry loop of the Kafka consumer (pkg/kafka/consumer.go) around the order.created handler
 (internal/inventory/adapter/kafka/order_event_handler.go). The handler reserves item by item and stops at the first
 failure, and a retry starts again from the first item, so the effects of failed attempts stay and pile up.
 */
module RetryingConsumer {

  /** A successful ReserveStock for an item, or an attempt to publish that an item could not be reserved. */
  datatype Effect = Reserved(item: nat) | Notice(item: nat)

  /** Whether ReserveStock succeeds for an item in an attempt. */
  type Outcomes = (nat, nat) -> bool

  /** NewConsumer: a non-positive limit means three retries. */
  function MaxRetries(configured: int): (r: nat)
    ensures r >= 1
  {
    if configured <= 0 then 3 else configured
  }

  /** The number of items an attempt reserves: those before the first failure. */
  function Reach(ok: Outcomes, attempt: nat, n: nat): (r: nat)
    ensures r <= n
    ensures forall i :: 0 <= i < r ==> ok(attempt, i)
    ensures r < n ==> !ok(attempt, r)
  {
    if n == 0 then 0
    else
      var r := Reach(ok, attempt, n - 1);
      if r == n - 1 && ok(attempt, n - 1) then n else r
  }

  /** The effects of reserving the first `r` items. */
  function Prefix(r: nat): seq<Effect> {
    if r == 0 then [] else Prefix(r - 1) + [Reserved(r - 1)]
  }

  /** The effects of one attempt over `n` items. */
  function AttemptLog(ok: Outcomes, attempt: nat, n: nat): seq<Effect> {
    var r := Reach(ok, attempt, n);
    Prefix(r) + (if r < n then [Notice(r)] else [])
  }

  /** The effects of the first `k` attempts. */
  function RetryLog(ok: Outcomes, n: nat, k: nat): seq<Effect> {
    if k == 0 then [] else RetryLog(ok, n, k - 1) + AttemptLog(ok, k - 1, n)
  }

  /** How often an item was reserved. */
  function Reservations(log: seq<Effect>, item: nat): nat {
    if log == [] then 0
    else Reservations(log[..|log| - 1], item) + (if log[|log| - 1] == Reserved(item) then 1 else 0)
  }

  function Notices(log: seq<Effect>): nat {
    if log == [] then 0 else Notices(log[..|log| - 1]) + (if log[|log| - 1].Notice? then 1 else 0)
  }

  /** Every item can be reserved in the attempt. */
  ghost predicate AllOk(ok: Outcomes, attempt: nat, n: nat) {
    forall i: nat :: i < n ==> ok(attempt, i)
  }

  /** Item `f` is the first that cannot be reserved in the attempt. */
  ghost predicate FailsAt(ok: Outcomes, attempt: nat, n: nat, f: nat) {
    f < n && !ok(attempt, f) && forall i: nat :: i < f ==> ok(attempt, i)
  }

  /** The attempt reserves the item. */
  ghost predicate Reserves(ok: Outcomes, attempt: nat, n: nat, item: nat) {
    item < n && AllOk(ok, attempt, item + 1)
  }

  lemma {:induction false} PrefixAt(r: nat)
    ensures |Prefix(r)| == r && forall i :: 0 <= i < r ==> Prefix(r)[i] == Reserved(i)
  {
    if r > 0 {
      PrefixAt(r - 1);
    }
  }

  lemma ReachIsAll(ok: Outcomes, attempt: nat, n: nat)
    ensures Reach(ok, attempt, n) == n <==> AllOk(ok, attempt, n)
    ensures forall f: nat :: FailsAt(ok, attempt, n, f) <==> f < n && Reach(ok, attempt, n) == f
  {
  }

  lemma AllReserved(before: seq<Effect>, after: seq<Effect>, ok: Outcomes, attempt: nat, n: nat)
    requires Reach(ok, attempt, n) == n && before <= after && |after| == |before| + n
    requires forall i :: 0 <= i < n ==> after[|before| + i] == Reserved(i)
    ensures after == before + AttemptLog(ok, attempt, n)
  {
    PrefixAt(n);
    assert after[|before|..] == Prefix(n);
  }

  lemma FailureNoticed(before: seq<Effect>, after: seq<Effect>, ok: Outcomes, attempt: nat, n: nat, f: nat)
    requires FailsAt(ok, attempt, n, f) && before <= after && |after| == |before| + f + 1
    requires forall i :: 0 <= i < f ==> after[|before| + i] == Reserved(i)
    requires after[|before| + f] == Notice(f)
    ensures after == before + AttemptLog(ok, attempt, n)
  {
    ReachIsAll(ok, attempt, n);
    PrefixAt(f);
    assert after[|before|..] == Prefix(f) + [Notice(f)];
  }

  datatype Outcome = Handled | Failed | Cancelled

  class Consumer {
    const maxRetries: nat
    var log: seq<Effect>

    constructor (configured: int)
      ensures maxRetries == MaxRetries(configured) && log == []
      ensures configured > 0 ==> maxRetries == configured
      ensures configured <= 0 ==> maxRetries == 3
    {
      maxRetries := MaxRetries(configured);
      log := [];
    }

    /**
     handleOrderCreated: a message that cannot be decoded is an error with no effect. Otherwise the items are reserved
     in order up to the first that fails, which is the one the notice names.
     */
    method HandleOrderCreated(parseable: bool, n: nat, ok: Outcomes, attempt: nat) returns (success: bool)
      modifies this
      ensures success <==> parseable && AllOk(ok, attempt, n)
      ensures old(log) <= log
      ensures !parseable ==> log == old(log)
      ensures success ==>
                |log| == |old(log)| + n && forall i :: 0 <= i < n ==> log[|old(log)| + i] == Reserved(i)
      ensures parseable && !success ==>
                exists f: nat :: FailsAt(ok, attempt, n, f) && |log| == |old(log)| + f + 1
                                 && (forall i :: 0 <= i < f ==> log[|old(log)| + i] == Reserved(i))
                                 && log[|old(log)| + f] == Notice(f)
    {
      if !parseable {
        return false;
      }
      for i := 0 to n
        invariant AllOk(ok, attempt, i)
        invariant |log| == |old(log)| + i && old(log) <= log
        invariant forall j :: 0 <= j < i ==> log[|old(log)| + j] == Reserved(j)
      {
        if !ok(attempt, i) {
          log := log + [Notice(i)];
          assert FailsAt(ok, attempt, n, i);
          return false;
        }
        log := log + [Reserved(i)];
      }
      return true;
    }

    /** Handle, for a message of type order.created. */
    method Handle(parseable: bool, n: nat, ok: Outcomes, attempt: nat) returns (success: bool)
      modifies this
      ensures success <==> parseable && Reach(ok, attempt, n) == n
      ensures log == old(log) + (if parseable then AttemptLog(ok, attempt, n) else [])
    {
      success := HandleOrderCreated(parseable, n, ok, attempt);
      ReachIsAll(ok, attempt, n);
      if success {
        AllReserved(old(log), log, ok, attempt, n);
      } else if parseable {
        ghost var f: nat :| FailsAt(ok, attempt, n, f) && |log| == |old(log)| + f + 1
                            && (forall i :: 0 <= i < f ==> log[|old(log)| + i] == Reserved(i))
                            && log[|old(log)| + f] == Notice(f);
        FailureNoticed(old(log), log, ok, attempt, n, f);
      }
    }

    /**
     handleWithRetry. Between one and MaxRetries + 1 attempts are made, each but the first after a failed one and a wait
     that was not cancelled. The loop ends with the first success, the first cancellation, or the last retry.
     */
    method HandleWithRetry(parseable: bool, n: nat, ok: Outcomes, cancelled: nat -> bool)
      returns (r: Outcome, attempts: nat)
      modifies this
      ensures 1 <= attempts <= maxRetries + 1
      ensures log == old(log) + (if parseable then RetryLog(ok, n, attempts) else [])
      ensures forall a: nat :: a < attempts - 1 ==> !(parseable && Reach(ok, a, n) == n)
      ensures r == Handled <==> parseable && Reach(ok, attempts - 1, n) == n
      ensures forall a: nat :: 1 <= a < attempts ==> !cancelled(a)
      ensures r == Failed <==> r != Handled && attempts == maxRetries + 1
      ensures r == Cancelled <==> r != Handled && attempts <= maxRetries
      ensures r == Cancelled ==> cancelled(attempts)
    {
      attempts := 0;
      while attempts <= maxRetries
        invariant attempts <= maxRetries + 1
        invariant log == old(log) + (if parseable then RetryLog(ok, n, attempts) else [])
        invariant forall a: nat :: a < attempts ==> !(parseable && Reach(ok, a, n) == n)
        invariant forall a: nat :: 1 <= a < attempts ==> !cancelled(a)
      {
        if attempts > 0 && cancelled(attempts) {
          return Cancelled, attempts;
        }
        assert RetryLog(ok, n, attempts + 1) == RetryLog(ok, n, attempts) + AttemptLog(ok, attempts, n);
        var success := Handle(parseable, n, ok, attempts);
        attempts := attempts + 1;
        if success {
          return Handled, attempts;
        }
      }
      return Failed, attempts;
    }
  }

  // What the effects add up to

  /** The attempts that reserved an item. */
  function Passes(ok: Outcomes, n: nat, k: nat, item: nat): nat {
    if k == 0 then 0 else Passes(ok, n, k - 1, item) + (if item < Reach(ok, k - 1, n) then 1 else 0)
  }

  lemma {:induction false} ReservationsAppend(a: seq<Effect>, b: seq<Effect>, item: nat)
    ensures Reservations(a + b, item) == Reservations(a, item) + Reservations(b, item)
  {
    if b == [] {
      assert a + b == a;
    } else {
      var n := |b| - 1;
      assert (a + b)[..|a| + n] == a + b[..n];
      assert Reservations(a + b, item) == Reservations(a + b[..n], item) + (if b[n] == Reserved(item) then 1 else 0);
      ReservationsAppend(a, b[..n], item);
    }
  }

  lemma {:induction false} PrefixCounts(r: nat, item: nat)
    ensures Reservations(Prefix(r), item) == if item < r then 1 else 0
  {
    if r > 0 {
      PrefixCounts(r - 1, item);
      ReservationsAppend(Prefix(r - 1), [Reserved(r - 1)], item);
    }
  }

  lemma AttemptCounts(ok: Outcomes, a: nat, n: nat, item: nat)
    ensures Reservations(AttemptLog(ok, a, n), item) == if item < Reach(ok, a, n) then 1 else 0
  {
    var r := Reach(ok, a, n);
    PrefixCounts(r, item);
    ReservationsAppend(Prefix(r), if r < n then [Notice(r)] else [], item);
  }

  lemma {:induction false} ReservationsArePasses(ok: Outcomes, n: nat, k: nat, item: nat)
    ensures Reservations(RetryLog(ok, n, k), item) == Passes(ok, n, k, item)
  {
    if k > 0 {
      assert Passes(ok, n, k, item) == Passes(ok, n, k - 1, item) + (if item < Reach(ok, k - 1, n) then 1 else 0);
      assert RetryLog(ok, n, k) == RetryLog(ok, n, k - 1) + AttemptLog(ok, k - 1, n);
      ReservationsArePasses(ok, n, k - 1, item);
      AttemptCounts(ok, k - 1, n, item);
      ReservationsAppend(RetryLog(ok, n, k - 1), AttemptLog(ok, k - 1, n), item);
    }
  }

  lemma {:induction false} PassesDecline(ok: Outcomes, n: nat, k: nat, i: nat, j: nat)
    requires i <= j
    ensures Passes(ok, n, k, j) <= Passes(ok, n, k, i) <= k
  {
    if k > 0 {
      PassesDecline(ok, n, k - 1, i, j);
    }
  }

  lemma {:induction false} NoPass(ok: Outcomes, n: nat, k: nat, item: nat)
    requires forall a: nat :: a < k ==> Reach(ok, a, n) <= item
    ensures Passes(ok, n, k, item) == 0
  {
    if k > 0 {
      NoPass(ok, n, k - 1, item);
    }
  }

  lemma {:induction false} NoticesAppend(a: seq<Effect>, b: seq<Effect>)
    ensures Notices(a + b) == Notices(a) + Notices(b)
  {
    if b == [] {
      assert a + b == a;
    } else {
      var n := |b| - 1;
      assert (a + b)[..|a| + n] == a + b[..n];
      assert Notices(a + b) == Notices(a + b[..n]) + (if b[n].Notice? then 1 else 0);
      NoticesAppend(a, b[..n]);
    }
  }

  lemma {:induction false} PrefixHasNoNotice(r: nat)
    ensures Notices(Prefix(r)) == 0
  {
    if r > 0 {
      assert Prefix(r)[..|Prefix(r)| - 1] == Prefix(r - 1);
      PrefixHasNoNotice(r - 1);
    }
  }

  /** Attempts that all fail leave one notice each. */
  lemma {:induction false} FailuresLeaveNotices(ok: Outcomes, n: nat, k: nat)
    requires forall a: nat :: a < k ==> Reach(ok, a, n) < n
    ensures Notices(RetryLog(ok, n, k)) == k
  {
    if k > 0 {
      FailuresLeaveNotices(ok, n, k - 1);
      OneAttemptNotices(ok, k - 1, n);
      NoticesAppend(RetryLog(ok, n, k - 1), AttemptLog(ok, k - 1, n));
    }
  }

  lemma OneAttemptNotices(ok: Outcomes, a: nat, n: nat)
    ensures Notices(AttemptLog(ok, a, n)) == if Reach(ok, a, n) < n then 1 else 0
  {
    var r := Reach(ok, a, n);
    PrefixHasNoNotice(r);
    if r < n {
      NoticesAppend(Prefix(r), [Notice(r)]);
      assert Notices([Notice(r)]) == 1;
    } else {
      assert AttemptLog(ok, a, n) == Prefix(r);
    }
  }

  /**
   Whatever happens, items are reserved less and less often along the list, and no item more often than there were
   attempts: a retry re-reserves what earlier attempts had reserved.
   */
  lemma ReservationsDecline(ok: Outcomes, n: nat, k: nat, i: nat, j: nat)
    requires i <= j
    ensures Reservations(RetryLog(ok, n, k), j) <= Reservations(RetryLog(ok, n, k), i) <= k
  {
    ReservationsArePasses(ok, n, k, i);
    ReservationsArePasses(ok, n, k, j);
    PassesDecline(ok, n, k, i, j);
  }

  /** When the k-th attempt succeeds, every item was reserved. */
  lemma HandledReservesAll(ok: Outcomes, n: nat, k: nat, i: nat)
    requires i < n && k >= 1 && Reach(ok, k - 1, n) == n
    ensures Reservations(RetryLog(ok, n, k), i) >= 1
  {
    ReservationsArePasses(ok, n, k, i);
  }

  /** The last item is reserved only by the attempt that succeeds. */
  lemma LastItemOnce(ok: Outcomes, n: nat, k: nat)
    requires n > 0 && k >= 1 && forall a: nat :: a < k - 1 ==> Reach(ok, a, n) < n
    ensures Reservations(RetryLog(ok, n, k), n - 1) == if Reach(ok, k - 1, n) == n then 1 else 0
  {
    ReservationsArePasses(ok, n, k, n - 1);
    assert Passes(ok, n, k, n - 1) == Passes(ok, n, k - 1, n - 1) + (if n - 1 < Reach(ok, k - 1, n) then 1 else 0);
    NoPass(ok, n, k - 1, n - 1);
  }

  /** Every failed attempt leaves one notice, a successful one none. */
  lemma NoticesAreFailures(ok: Outcomes, n: nat, k: nat)
    requires k >= 1 && forall a: nat :: a < k - 1 ==> Reach(ok, a, n) < n
    ensures Notices(RetryLog(ok, n, k)) == if Reach(ok, k - 1, n) == n then k - 1 else k
  {
    FailuresLeaveNotices(ok, n, k - 1);
    OneAttemptNotices(ok, k - 1, n);
    NoticesAppend(RetryLog(ok, n, k - 1), AttemptLog(ok, k - 1, n));
  }

  /** What the log of a decoded message looks like after `attempts`, of which all but perhaps the last failed. */
  ghost predicate Totals(log: seq<Effect>, n: nat, attempts: nat, handled: bool) {
    && (forall i: nat, j: nat :: i <= j < n ==> Reservations(log, j) <= Reservations(log, i) <= attempts)
    && (handled ==> forall i: nat :: i < n ==> Reservations(log, i) >= 1)
    && (n > 0 ==> Reservations(log, n - 1) == if handled then 1 else 0)
    && Notices(log) == (if handled then attempts - 1 else attempts)
  }

  lemma RetryTotals(ok: Outcomes, n: nat, k: nat, log: seq<Effect>)
    requires k >= 1 && (forall a: nat :: a < k - 1 ==> Reach(ok, a, n) < n)
    requires log == RetryLog(ok, n, k)
    ensures Totals(log, n, k, Reach(ok, k - 1, n) == n)
  {
    forall i: nat, j: nat | i <= j < n
      ensures Reservations(log, j) <= Reservations(log, i) <= k
    {
      ReservationsDecline(ok, n, k, i, j);
    }
    if Reach(ok, k - 1, n) == n {
      forall i: nat | i < n
        ensures Reservations(log, i) >= 1
      {
        HandledReservesAll(ok, n, k, i);
      }
    }
    if n > 0 {
      LastItemOnce(ok, n, k);
    }
    NoticesAreFailures(ok, n, k);
  }

  /** The log has a notice for an item exactly when some attempt failed first at it. */
  lemma {:induction false} NoticesNameFailures(ok: Outcomes, n: nat, k: nat, item: nat)
    ensures Notice(item) in RetryLog(ok, n, k) <==> exists a: nat :: a < k && FailsAt(ok, a, n, item)
  {
    if k > 0 {
      NoticesNameFailures(ok, n, k - 1, item);
      AttemptEffects(ok, k - 1, n, item);
    }
  }

  /** And a reserve for an item exactly when some attempt reserved it and all before it. */
  lemma {:induction false} ReservesAreReached(ok: Outcomes, n: nat, k: nat, item: nat)
    ensures Reserved(item) in RetryLog(ok, n, k) <==> exists a: nat :: a < k && Reserves(ok, a, n, item)
  {
    if k > 0 {
      ReservesAreReached(ok, n, k - 1, item);
      AttemptEffects(ok, k - 1, n, item);
    }
  }

  lemma AttemptEffects(ok: Outcomes, a: nat, n: nat, item: nat)
    ensures Notice(item) in AttemptLog(ok, a, n) <==> FailsAt(ok, a, n, item)
    ensures Reserved(item) in AttemptLog(ok, a, n) <==> Reserves(ok, a, n, item)
  {
    var r := Reach(ok, a, n);
    PrefixAt(r);
    ReachIsAll(ok, a, n);
    if item < r {
      assert Prefix(r)[item] == Reserved(item);
    }
  }

  /**
   The retried handler as its callers see it: the number of attempts and what is left in the log, whichever way it
   ends. A message that cannot be decoded leaves nothing behind.
   */
  method Consume(configured: int, parseable: bool, n: nat, ok: Outcomes, cancelled: nat -> bool)
    returns (r: Outcome, attempts: nat, log: seq<Effect>)
    ensures 1 <= attempts <= MaxRetries(configured) + 1
    ensures MaxRetries(configured) == if configured <= 0 then 3 else configured
    ensures r == Handled <==> parseable && AllOk(ok, attempts - 1, n)
    ensures forall a: nat :: a < attempts - 1 ==> !(parseable && AllOk(ok, a, n))
    ensures r == Failed <==> r != Handled && attempts == MaxRetries(configured) + 1
    ensures r == Cancelled ==> cancelled(attempts)
    ensures forall a: nat :: 1 <= a < attempts ==> !cancelled(a)
    ensures parseable ==>
              && (forall i: nat :: Notice(i) in log <==> exists a: nat :: a < attempts && FailsAt(ok, a, n, i))
              && (forall i: nat :: Reserved(i) in log <==> exists a: nat :: a < attempts && Reserves(ok, a, n, i))
    ensures parseable ==> Totals(log, n, attempts, r == Handled)
    ensures !parseable ==> r != Handled && log == []
  {
    var consumer := new Consumer(configured);
    r, attempts := consumer.HandleWithRetry(parseable, n, ok, cancelled);
    log := consumer.log;
    forall a: nat
      ensures Reach(ok, a, n) == n <==> AllOk(ok, a, n)
    {
      ReachIsAll(ok, a, n);
    }
    if parseable {
      RetryTotals(ok, n, attempts, log);
      forall i: nat
        ensures Notice(i) in log <==> exists a: nat :: a < attempts && FailsAt(ok, a, n, i)
        ensures Reserved(i) in log <==> exists a: nat :: a < attempts && Reserves(ok, a, n, i)
      {
        NoticesNameFailures(ok, n, attempts, i);
        ReservesAreReached(ok, n, attempts, i);
      }
    }
  }
}
