/**
 The outbox table and any number of publishers working on it: ClaimBatch, MarkPublished and MarkFailed of
 internal/order/adapter/postgres/order_repo.go and publishBatch of internal/order/adapter/kafka/outbox_publisher.go,
 as steps that interleave. An event id is the position of its row in the table.

 A publisher that is stopped, loses its connection or is told that its claim failed takes Abandon: before the commit
 its row locks are released, after the commit its batch is orphaned, since CLAIMED rows are never claimed again.
 */
module Outbox {

  datatype EventType = OrderCreated | OrderCancelled | OrderConfirmed

  datatype Status = Pending | Claimed | Published | Failed

  datatype Event = Event(orderId: nat, kind: EventType, createdAt: int, status: Status)

  /** A message handed to the Kafka writer and whether the writer reported success. */
  datatype Handover = Handover(id: nat, accepted: bool)

  datatype Publisher =
    | Idle
    | Selected(ids: seq<nat>)                             // rows locked FOR UPDATE, transaction open
    | Holding(ids: seq<nat>, next: nat)                   // claim committed, ids[next] to be written
    | Written(ids: seq<nat>, next: nat, accepted: bool)   // ids[next] handed to the writer, not yet marked

  /** `batches` and `orphans` are history: the committed claims, and the events whose publisher let go of them. */
  datatype State = State(
    events: seq<Event>, publishers: seq<Publisher>, log: seq<Handover>, batches: seq<seq<nat>>, orphans: set<nat>)

  datatype Step =
    | Insert(orderId: nat, kind: EventType, createdAt: int)
    | Start
    | Select(p: nat, limit: nat, ids: seq<nat>)
    | CommitClaim(p: nat)
    | HandOver(p: nat, accepted: bool)
    | Mark(p: nat)
    | FailMark(p: nat)
    | Rest(p: nat)
    | Abandon(p: nat)

  const INITIAL := State([], [], [], [], {})

  predicate Locked(s: State, id: nat) {
    exists p :: 0 <= p < |s.publishers| && s.publishers[p].Selected? && id in s.publishers[p].ids
  }

  predicate Distinct(ids: seq<nat>) {
    forall i, j :: 0 <= i < j < |ids| ==> ids[i] != ids[j]
  }

  predicate Available(s: State, id: nat) {
    id < |s.events| && s.events[id].status == Pending && !Locked(s, id)
  }

  /** ORDER BY created_at: no event that is left out is older than one selected. */
  predicate OldestFirst(s: State, ids: seq<nat>) {
    forall id, i :: 0 <= id < |s.events| && Available(s, id) && id !in ids && 0 <= i < |ids| && ids[i] < |s.events| ==>
      s.events[ids[i]].createdAt <= s.events[id].createdAt
  }

  /** SELECT ... WHERE status = 'PENDING' ORDER BY created_at LIMIT n FOR UPDATE SKIP LOCKED, when it finds rows. */
  predicate Claimable(s: State, limit: nat, ids: seq<nat>) {
    && 0 < |ids| <= limit
    && Distinct(ids)
    && (forall i :: 0 <= i < |ids| ==> Available(s, ids[i]))
    && (forall i, j :: 0 <= i < j < |ids| ==> s.events[ids[i]].createdAt <= s.events[ids[j]].createdAt)
    && OldestFirst(s, ids)
  }

  predicate Enabled(s: State, e: Step) {
    match e
    case Insert(_, _, _) => true
    case Start => true
    case Select(p, limit, ids) => p < |s.publishers| && s.publishers[p].Idle? && Claimable(s, limit, ids)
    case CommitClaim(p) => p < |s.publishers| && s.publishers[p].Selected?
    case HandOver(p, _) =>
      p < |s.publishers| && s.publishers[p].Holding? && s.publishers[p].next < |s.publishers[p].ids|
    case Mark(p) => p < |s.publishers| && Marking(s, s.publishers[p])
    case FailMark(p) => p < |s.publishers| && Marking(s, s.publishers[p])
    case Rest(p) => p < |s.publishers| && s.publishers[p].Holding? && s.publishers[p].next == |s.publishers[p].ids|
    case Abandon(p) => p < |s.publishers|
  }

  predicate Marking(s: State, pub: Publisher) {
    pub.Written? && pub.next < |pub.ids| && pub.ids[pub.next] < |s.events|
  }

  /** UPDATE outbox_events SET status = ... WHERE id = ANY(ids), whatever the status was. */
  function WithStatus(events: seq<Event>, ids: seq<nat>, status: Status): (events': seq<Event>)
    ensures |events'| == |events|
    ensures forall id :: 0 <= id < |events| ==>
              events'[id] == if id in ids then events[id].(status := status) else events[id]
  {
    seq(|events|, id requires 0 <= id < |events| => if id in ids then events[id].(status := status) else events[id])
  }

  /** The events of its batch that a publisher has not dealt with yet, or has locked. */
  function Owned(pub: Publisher): seq<nat> {
    match pub
    case Idle => []
    case Selected(ids) => ids
    case Holding(ids, next) => if next <= |ids| then ids[next..] else []
    case Written(ids, next, _) => if next <= |ids| then ids[next..] else []
  }

  function Outcome(accepted: bool): Status {
    if accepted then Published else Failed
  }

  /** A committed order change adds its event. */
  function Inserted(s: State, orderId: nat, kind: EventType, createdAt: int): State {
    s.(events := s.events + [Event(orderId, kind, createdAt, Pending)])
  }

  function Apply(s: State, e: Step): State
    requires Enabled(s, e)
  {
    match e
    case Insert(orderId, kind, createdAt) => Inserted(s, orderId, kind, createdAt)
    case Start => s.(publishers := s.publishers + [Idle])
    case Select(p, _, ids) => s.(publishers := s.publishers[p := Selected(ids)])
    case CommitClaim(p) =>
      var ids := s.publishers[p].ids;
      s.(events := WithStatus(s.events, ids, Claimed),
         publishers := s.publishers[p := Holding(ids, 0)],
         batches := s.batches + [ids])
    case HandOver(p, accepted) =>
      var Holding(ids, next) := s.publishers[p];
      s.(publishers := s.publishers[p := Written(ids, next, accepted)], log := s.log + [Handover(ids[next], accepted)])
    case Mark(p) =>
      var Written(ids, next, accepted) := s.publishers[p];
      s.(events := WithStatus(s.events, [ids[next]], Outcome(accepted)),
         publishers := s.publishers[p := Holding(ids, next + 1)])
    case FailMark(p) =>
      var Written(ids, next, _) := s.publishers[p];
      s.(publishers := s.publishers[p := Holding(ids, next + 1)], orphans := s.orphans + {ids[next]})
    case Rest(p) => s.(publishers := s.publishers[p := Idle])
    case Abandon(p) =>
      s.(publishers := s.publishers[p := Idle],
         orphans := if s.publishers[p].Selected? then s.orphans
                    else s.orphans + (set id | id in Owned(s.publishers[p])))
  }

  ghost predicate IsRun(states: seq<State>, steps: seq<Step>) {
    && |states| == |steps| + 1
    && states[0] == INITIAL
    && forall i {:trigger steps[i]} ::
         0 <= i < |steps| ==> Enabled(states[i], steps[i]) && states[i + 1] == Apply(states[i], steps[i])
  }

  ghost predicate Reachable(s: State) {
    exists states, steps :: IsRun(states, steps) && states[|steps|] == s
  }

  lemma ReachableNext(s: State, e: Step)
    requires Reachable(s) && Enabled(s, e)
    ensures Reachable(Apply(s, e))
  {
    var states, steps :| IsRun(states, steps) && states[|steps|] == s;
    var states', steps' := states + [Apply(s, e)], steps + [e];
    assert IsRun(states', steps');
  }

  // What every reachable state satisfies

  ghost predicate Handed(log: seq<Handover>, id: nat) {
    exists i :: 0 <= i < |log| && log[i].id == id
  }

  ghost predicate InBatch(batches: seq<seq<nat>>, id: nat) {
    exists b :: 0 <= b < |batches| && id in batches[b]
  }

  /** One publisher and the rows it works on. */
  ghost predicate PublisherSound(s: State, pub: Publisher) {
    && (pub.Selected? ==> Distinct(pub.ids))
    && (pub.Holding? ==> Distinct(pub.ids) && pub.next <= |pub.ids|)
    && (pub.Written? ==> Distinct(pub.ids) && pub.next < |pub.ids|
                         && Handover(pub.ids[pub.next], pub.accepted) in s.log)
    && (forall id :: id in Owned(pub) ==>
          && id < |s.events|
          && s.events[id].status == (if pub.Selected? then Pending else Claimed)
          && id !in s.orphans
          && (Handed(s.log, id) ==> pub.Written? && id == pub.ids[pub.next]))
  }

  /** No event is in the hands of two publishers. */
  ghost predicate Exclusive(s: State) {
    forall p, q, id :: 0 <= p < q < |s.publishers| && id in Owned(s.publishers[p]) ==> id !in Owned(s.publishers[q])
  }

  /** One row: what its status says is what happened to it. */
  ghost predicate Truthful(s: State, id: nat) {
    && id < |s.events|
    && (match s.events[id].status
        case Pending => !Handed(s.log, id) && !InBatch(s.batches, id) && id !in s.orphans
        case Claimed => InBatch(s.batches, id) && (id in s.orphans || InHand(s, id))
        case Published => InBatch(s.batches, id) && Handover(id, true) in s.log && id !in s.orphans
        case Failed => InBatch(s.batches, id) && Handover(id, false) in s.log && id !in s.orphans)
  }

  ghost predicate InHand(s: State, id: nat) {
    exists p :: 0 <= p < |s.publishers| && !s.publishers[p].Selected? && id in Owned(s.publishers[p])
  }

  /** Every message handed over was claimed, and no event was handed over twice. */
  ghost predicate LogSound(s: State) {
    && (forall i :: 0 <= i < |s.log| ==> InBatch(s.batches, s.log[i].id))
    && (forall i, j :: 0 <= i < j < |s.log| ==> s.log[i].id != s.log[j].id)
  }

  /** Committed claims are disjoint and free of repetitions. */
  ghost predicate BatchesSound(s: State) {
    && (forall b :: 0 <= b < |s.batches| ==> Distinct(s.batches[b]))
    && (forall b, c, id :: 0 <= b < c < |s.batches| && id in s.batches[b] ==> id !in s.batches[c])
    && (forall b, id :: 0 <= b < |s.batches| && id in s.batches[b] ==> id < |s.events|)
  }

  ghost predicate Sound(s: State) {
    && (forall p :: 0 <= p < |s.publishers| ==> PublisherSound(s, s.publishers[p]))
    && Exclusive(s)
    && (forall id :: 0 <= id < |s.events| ==> Truthful(s, id))
    && LogSound(s)
    && BatchesSound(s)
    && (forall id :: id in s.orphans ==> id < |s.events|)
  }
}
