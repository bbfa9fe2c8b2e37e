/**
 One outbox publisher (internal/order/adapter/kafka/outbox_publisher.go) alone on its table: the batch it claims, the
 loop of publishBatch, and the ticks of Start. What the database and the writer answer is a parameter. Each method is
 shown to take steps of the Outbox protocol.
 */
module OutboxPublisher {
  import opened Outbox

  // ORDER BY created_at LIMIT n

  ghost predicate ByTime(events: seq<Event>, ids: seq<nat>) {
    && (forall i :: 0 <= i < |ids| ==> ids[i] < |events|)
    && (forall i, j :: 0 <= i < j < |ids| ==> events[ids[i]].createdAt <= events[ids[j]].createdAt)
  }

  function Elements(ids: seq<nat>): set<nat> {
    set id | id in ids
  }

  function InsertByTime(events: seq<Event>, ids: seq<nat>, id: nat): (r: seq<nat>)
    requires ByTime(events, ids) && id < |events|
    ensures |r| == |ids| + 1
  {
    var n := |ids| - 1;
    if ids == [] || events[ids[n]].createdAt <= events[id].createdAt then ids + [id]
    else InsertByTime(events, ids[..n], id) + [ids[n]]
  }

  lemma {:induction false} InsertElements(events: seq<Event>, ids: seq<nat>, id: nat)
    requires ByTime(events, ids) && id < |events|
    ensures forall x :: x in InsertByTime(events, ids, id) <==> x in ids || x == id
  {
    var n := |ids| - 1;
    if ids != [] && events[ids[n]].createdAt > events[id].createdAt {
      InsertElements(events, ids[..n], id);
      assert ids == ids[..n] + [ids[n]];
    }
  }

  lemma {:induction false} InsertDistinct(events: seq<Event>, ids: seq<nat>, id: nat)
    requires ByTime(events, ids) && id < |events| && Distinct(ids) && id !in ids
    ensures Distinct(InsertByTime(events, ids, id))
  {
    var n := |ids| - 1;
    if ids != [] && events[ids[n]].createdAt > events[id].createdAt {
      InsertDistinct(events, ids[..n], id);
      InsertElements(events, ids[..n], id);
      assert ids[n] !in ids[..n];
    }
  }

  lemma {:induction false} InsertSorts(events: seq<Event>, ids: seq<nat>, id: nat)
    requires ByTime(events, ids) && id < |events|
    ensures ByTime(events, InsertByTime(events, ids, id))
  {
    var n := |ids| - 1;
    if ids != [] && events[ids[n]].createdAt > events[id].createdAt {
      InsertSorts(events, ids[..n], id);
      InsertElements(events, ids[..n], id);
      var r := InsertByTime(events, ids[..n], id);
      forall i | 0 <= i < |r|
        ensures events[r[i]].createdAt <= events[ids[n]].createdAt
      {
        assert r[i] in r;
      }
    }
  }

  /** The PENDING events among the first `n`, oldest first. */
  function PendingByTime(events: seq<Event>, n: nat): (r: seq<nat>)
    requires n <= |events|
    ensures ByTime(events, r)
  {
    if n == 0 then []
    else if events[n - 1].status == Pending then
      InsertSorts(events, PendingByTime(events, n - 1), n - 1);
      InsertByTime(events, PendingByTime(events, n - 1), n - 1)
    else PendingByTime(events, n - 1)
  }

  function PendingUpTo(events: seq<Event>, n: nat): set<nat>
    requires n <= |events|
  {
    set id | 0 <= id < n && events[id].status == Pending
  }

  /** Each PENDING event is listed exactly once. */
  lemma {:induction false} PendingListed(events: seq<Event>, n: nat)
    requires n <= |events|
    ensures Distinct(PendingByTime(events, n))
    ensures Elements(PendingByTime(events, n)) == PendingUpTo(events, n)
  {
    if n > 0 {
      var earlier := PendingByTime(events, n - 1);
      PendingListed(events, n - 1);
      assert forall x :: x in earlier <==> x in Elements(earlier);
      if events[n - 1].status == Pending {
        InsertElements(events, earlier, n - 1);
        InsertDistinct(events, earlier, n - 1);
      }
    }
  }

  function Min(a: nat, b: nat): nat {
    if a < b then a else b
  }

  /** The rows that ClaimBatch selects when no other transaction holds a lock. */
  function Batch(events: seq<Event>, limit: nat): seq<nat> {
    var all := PendingByTime(events, |events|);
    all[..Min(limit, |all|)]
  }

  function PendingIds(events: seq<Event>): set<nat> {
    PendingUpTo(events, |events|)
  }

  lemma {:induction false} DistinctSize(ids: seq<nat>)
    requires Distinct(ids)
    ensures |Elements(ids)| == |ids|
  {
    if ids != [] {
      var n := |ids| - 1;
      var init := ids[..n];
      assert ids[n] !in init;
      DistinctSize(init);
      assert Elements(ids) == Elements(init) + {ids[n]};
    }
  }

  /** A prefix of a list by time holds nothing that is newer than what it leaves out. */
  lemma PrefixIsOldest(events: seq<Event>, all: seq<nat>, n: nat)
    requires ByTime(events, all) && Distinct(all) && n <= |all|
    ensures var ids := all[..n];
            && Distinct(ids) && ByTime(events, ids)
            && (forall i :: 0 <= i < n ==> ids[i] in Elements(all))
            && (forall id, i :: id in Elements(all) && id !in ids && 0 <= i < n ==>
                  events[ids[i]].createdAt <= events[id].createdAt)
  {
    var ids := all[..n];
    forall id, i | id in Elements(all) && id !in ids && 0 <= i < n
      ensures events[ids[i]].createdAt <= events[id].createdAt
    {
      var j :| 0 <= j < |all| && all[j] == id;
      assert ids[i] == all[i] && i < j;
    }
  }

  /** The batch holds PENDING events, as many as the limit allows, and none older is left out. */
  lemma BatchIsOldest(events: seq<Event>, limit: nat)
    ensures var ids := Batch(events, limit);
            && Distinct(ids) && ByTime(events, ids)
            && |ids| == Min(limit, |PendingIds(events)|)
            && (forall i :: 0 <= i < |ids| ==> ids[i] in PendingIds(events))
            && (forall id, i :: id in PendingIds(events) && id !in ids && 0 <= i < |ids| ==>
                  events[ids[i]].createdAt <= events[id].createdAt)
  {
    var all := PendingByTime(events, |events|);
    PendingListed(events, |events|);
    DistinctSize(all);
    PrefixIsOldest(events, all, Min(limit, |all|));
  }

  lemma ClaimShrinksBacklog(events: seq<Event>, ids: seq<nat>, events': seq<Event>)
    requires Distinct(ids) && |events'| == |events|
    requires forall i :: 0 <= i < |ids| ==> ids[i] in PendingIds(events)
    requires forall id :: 0 <= id < |events| ==>
               if id in ids then events'[id].status != Pending else events'[id].status == events[id].status
    ensures |PendingIds(events')| == |PendingIds(events)| - |ids|
  {
    DistinctSize(ids);
    assert PendingIds(events') == PendingIds(events) - Elements(ids);
    assert Elements(ids) <= PendingIds(events);
  }

  datatype Answer = Done | Refused | Lost

  /** The hand-overs of a batch, in its order. */
  function Handovers(ids: seq<nat>, accepts: nat -> bool): seq<Handover> {
    seq(|ids|, i requires 0 <= i < |ids| => Handover(ids[i], accepts(ids[i])))
  }

  /** The table after a claim of `ids` of which the first `done` have been dealt with. */
  function AfterBatch(events: seq<Event>, ids: seq<nat>, done: nat, accepts: nat -> bool, marks: nat -> bool)
    : (r: seq<Event>)
    requires done <= |ids|
    ensures |r| == |events|
    ensures forall id :: 0 <= id < |events| ==>
              r[id] == if id !in ids then events[id]
                       else if id in ids[..done] && marks(id) then events[id].(status := Outcome(accepts(id)))
                       else events[id].(status := Claimed)
  {
    seq(|events|, id requires 0 <= id < |events| =>
      if id !in ids then events[id]
      else events[id].(status := if id in ids[..done] && marks(id) then Outcome(accepts(id)) else Claimed))
  }

  lemma BatchClaimed(events: seq<Event>, ids: seq<nat>, accepts: nat -> bool, marks: nat -> bool)
    ensures WithStatus(events, ids, Claimed) == AfterBatch(events, ids, 0, accepts, marks)
    ensures Handovers(ids[..0], accepts) == []
  {
  }

  /** Handing over and marking one more event is the next stage of the batch. */
  lemma BatchAdvances(events: seq<Event>, ids: seq<nat>, i: nat, accepts: nat -> bool, marks: nat -> bool)
    requires Distinct(ids) && i < |ids|
    ensures var stage := AfterBatch(events, ids, i, accepts, marks);
            var next := AfterBatch(events, ids, i + 1, accepts, marks);
            next == if marks(ids[i]) then WithStatus(stage, [ids[i]], Outcome(accepts(ids[i]))) else stage
    ensures Handovers(ids[..i + 1], accepts) == Handovers(ids[..i], accepts) + [Handover(ids[i], accepts(ids[i]))]
  {
    assert ids[..i + 1] == ids[..i] + [ids[i]];
    assert ids[i] !in ids[..i];
  }

  /** A tick whose claim and marks go through: the backlog shrinks by a batch, the rest of the table is as it was. */
  lemma TickDrains(events: seq<Event>, limit: nat, accepts: nat -> bool)
    ensures var ids := Batch(events, limit);
            var events' := AfterBatch(events, ids, |ids|, accepts, id => true);
            && |PendingIds(events')| == |PendingIds(events)| - Min(limit, |PendingIds(events)|)
            && forall id :: 0 <= id < |events| ==>
                 || events'[id] == events[id]
                 || (events[id].status == Pending && events'[id] == events[id].(status := Outcome(accepts(id))))
  {
    var ids := Batch(events, limit);
    BatchIsOldest(events, limit);
    assert ids[..|ids|] == ids;
    ClaimShrinksBacklog(events, ids, AfterBatch(events, ids, |ids|, accepts, id => true));
  }

  class Publisher {
    var events: seq<Event>
    var log: seq<Handover>
    ghost var now: State
    ghost var me: nat

    /** The tables are a reachable state of the protocol in which no other publisher is at work. */
    ghost predicate Valid()
      reads this
    {
      && now.events == events && now.log == log && Reachable(now)
      && me < |now.publishers|
      && forall q :: 0 <= q < |now.publishers| && q != me ==> now.publishers[q].Idle?
    }

    ghost predicate AtRest()
      reads this
    {
      Valid() && now.publishers[me].Idle?
    }

    ghost predicate Has(pub: Outbox.Publisher)
      reads this
    {
      Valid() && now.publishers[me] == pub
    }

    /** A publisher starts on the tables of any reachable state in which no other publisher is at work. */
    constructor (s: State)
      requires Reachable(s) && forall q :: 0 <= q < |s.publishers| ==> s.publishers[q].Idle?
      ensures AtRest() && events == s.events && log == s.log
    {
      events, log := s.events, s.log;
      now, me := Apply(s, Start), |s.publishers|;
      ReachableNext(s, Start);
    }

    ghost method Take(e: Step)
      requires Reachable(now) && Enabled(now, e)
      modifies this`now
      ensures Reachable(now) && now == Apply(old(now), e)
    {
      ReachableNext(now, e);
      now := Apply(now, e);
    }

    /** The batch can be selected: nobody else holds a lock. */
    ghost method Claim(limit: nat, ids: seq<nat>)
      requires ids == Batch(now.events, limit) != [] && now.log == log
      requires Reachable(now) && me < |now.publishers|
      requires forall q :: 0 <= q < |now.publishers| ==> now.publishers[q].Idle?
      requires events == WithStatus(now.events, ids, Claimed)
      modifies this`now
      ensures Has(Holding(ids, 0))
    {
      BatchIsOldest(now.events, limit);
      assert forall i :: 0 <= i < |ids| ==> Available(now, ids[i]);
      Take(Select(me, limit, ids));
      Take(CommitClaim(me));
    }

    /** The publisher stops, or is told that its claim failed. */
    ghost method Stop()
      requires Valid()
      modifies this`now
      ensures AtRest()
    {
      Take(Abandon(me));
    }

    ghost method Finish(ids: seq<nat>)
      requires Has(Holding(ids, |ids|))
      modifies this`now
      ensures AtRest()
    {
      Take(Rest(me));
    }

    /** ClaimBatch: an acknowledged claim returns the batch and marks it CLAIMED; any other returns no event. */
    method ClaimBatch(limit: nat, answer: Answer) returns (ok: bool, ids: seq<nat>)
      requires AtRest()
      modifies this
      ensures Valid() && log == old(log)
      ensures ok <==> answer == Done || Batch(old(events), limit) == []
      ensures ids == if ok then Batch(old(events), limit) else []
      ensures events == if answer == Refused then old(events)
                        else WithStatus(old(events), Batch(old(events), limit), Claimed)
      ensures if ids == [] then AtRest() else Has(Holding(ids, 0))
    {
      ids := Batch(events, limit);
      if ids == [] {
        assert WithStatus(events, ids, Claimed) == events;
        return true, [];
      }
      if answer == Refused {
        return false, [];
      }
      events := WithStatus(events, ids, Claimed);
      Claim(limit, ids);
      if answer == Lost {
        Stop();
        return false, [];
      }
      return true, ids;
    }

    /** publishEvent and the mark that follows it, for the next event of the batch. */
    method PublishNext(ids: seq<nat>, next: nat, accepted: bool, marked: bool)
      requires Has(Holding(ids, next)) && next < |ids| && ids[next] < |events|
      modifies this
      ensures Has(Holding(ids, next + 1))
      ensures log == old(log) + [Handover(ids[next], accepted)]
      ensures events == if marked then WithStatus(old(events), [ids[next]], Outcome(accepted)) else old(events)
    {
      log := log + [Handover(ids[next], accepted)];
      Take(HandOver(me, accepted));
      if marked {
        events := WithStatus(events, [ids[next]], Outcome(accepted));
        Take(Mark(me));
      } else {
        Take(FailMark(me));
      }
    }

    /** The loop of publishBatch over a claimed batch: every event is handed over, whatever happens to the others. */
    method PublishAll(ids: seq<nat>, accepts: nat -> bool, marks: nat -> bool, ghost before: seq<Event>)
      requires Has(Holding(ids, 0)) && Distinct(ids) && forall i :: 0 <= i < |ids| ==> ids[i] < |before|
      requires events == AfterBatch(before, ids, 0, accepts, marks)
      modifies this
      ensures AtRest()
      ensures log == old(log) + Handovers(ids, accepts)
      ensures events == AfterBatch(before, ids, |ids|, accepts, marks)
    {
      for i := 0 to |ids|
        invariant Has(Holding(ids, i))
        invariant log == old(log) + Handovers(ids[..i], accepts)
        invariant events == AfterBatch(before, ids, i, accepts, marks)
      {
        BatchAdvances(before, ids, i, accepts, marks);
        PublishNext(ids, i, accepts(ids[i]), marks(ids[i]));
      }
      assert ids[..|ids|] == ids;
      Finish(ids);
    }

    /**
     publishBatch. With an acknowledged claim, exactly the oldest PENDING events up to the limit are handed over, in
     order, whatever the writer says of earlier ones; each ends PUBLISHED or FAILED as the writer said if its mark
     went through and CLAIMED if not, and no other row changes. Without an acknowledgement nothing is handed over, and a
     claim that took effect leaves its batch CLAIMED.
     */
    method PublishBatch(limit: nat, answer: Answer, accepts: nat -> bool, marks: nat -> bool) returns (ok: bool)
      requires AtRest()
      modifies this
      ensures AtRest() && |events| == |old(events)|
      ensures ok <==> answer == Done || Batch(old(events), limit) == []
      ensures !ok ==>
                && log == old(log)
                && events == if answer == Refused then old(events)
                             else WithStatus(old(events), Batch(old(events), limit), Claimed)
      ensures ok ==> var ids := Batch(old(events), limit);
                     && log == old(log) + Handovers(ids, accepts)
                     && events == AfterBatch(old(events), ids, |ids|, accepts, marks)
    {
      var ids;
      ok, ids := ClaimBatch(limit, answer);
      if !ok {
        return;
      }
      BatchClaimed(old(events), ids, accepts, marks);
      if ids == [] {
        return;
      }
      BatchIsOldest(old(events), limit);
      PublishAll(ids, accepts, marks, old(events));
    }

    /** The backlog after `k` ticks. */
    static function Backlog(n: nat, k: nat, limit: nat): nat {
      if n <= k * limit then 0 else n - k * limit
    }

    /**
     Start with no new events and working claims and marks: after `ticks` ticks exactly max(0, n - ticks * limit) of n
     events are still PENDING, and every other event that was is PUBLISHED or FAILED as the writer said.
     */
    method Run(limit: nat, ticks: nat, accepts: nat -> bool)
      requires AtRest()
      modifies this
      ensures AtRest() && |events| == |old(events)|
      ensures |PendingIds(events)| == Backlog(|PendingIds(old(events))|, ticks, limit)
      ensures forall id :: 0 <= id < |events| ==>
                || events[id] == old(events)[id]
                || (old(events)[id].status == Pending
                    && events[id] == old(events)[id].(status := Outcome(accepts(id))))
    {
      for k := 0 to ticks
        invariant AtRest() && |events| == |old(events)|
        invariant |PendingIds(events)| == Backlog(|PendingIds(old(events))|, k, limit)
        invariant forall id :: 0 <= id < |events| ==>
                    || events[id] == old(events)[id]
                    || (old(events)[id].status == Pending
                        && events[id] == old(events)[id].(status := Outcome(accepts(id))))
      {
        TickDrains(events, limit, accepts);
        var ok := PublishBatch(limit, Done, accepts, id => true);
        assert (k + 1) * limit == k * limit + limit;
      }
    }
  }

  /** The backlog of n events is empty after ceil(n / limit) ticks and not before. */
  lemma BacklogEmptiesInTime(n: nat, k: nat, limit: nat)
    requires limit >= 1
    ensures Publisher.Backlog(n, k, limit) == 0 <==> k >= (n + limit - 1) / limit
  {
    var c := (n + limit - 1) / limit;
    assert n + limit - 1 == c * limit + (n + limit - 1) % limit;
    if k >= c {
      assert k * limit >= c * limit;
    } else {
      assert (k + 1) * limit <= c * limit;
      assert (k + 1) * limit == k * limit + limit;
    }
  }
}
