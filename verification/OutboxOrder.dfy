/**
 In which order the events of one order are handed to the writer, with any number of publishers: exactly which claims
 can bring a newer event before an older one. Events are listed in the order of their insertion.
 */
module OutboxOrder {
  import opened Outbox
  import opened OutboxProofs

  /** The order each event belongs to. */
  function Orders(events: seq<Event>): (orders: seq<nat>)
    ensures |orders| == |events|
    ensures forall id :: 0 <= id < |events| ==> orders[id] == events[id].orderId
  {
    seq(|events|, id requires 0 <= id < |events| => events[id].orderId)
  }

  ghost predicate Same(orders: seq<nat>, a: nat, b: nat) {
    a < |orders| && b < |orders| && orders[a] == orders[b]
  }

  /** The events of an order carry strictly increasing creation times. */
  ghost predicate Timed(s: State) {
    forall a, b :: 0 <= a < b < |s.events| && s.events[a].orderId == s.events[b].orderId ==>
      s.events[a].createdAt < s.events[b].createdAt
  }

  /** Of two events of one order that were handed over, the older was first. */
  ghost predicate LogOrdered(orders: seq<nat>, log: seq<Handover>) {
    forall i, j {:trigger Same(orders, log[i].id, log[j].id)} ::
      0 <= i < j < |log| && Same(orders, log[i].id, log[j].id) ==> log[i].id < log[j].id
  }

  /** What a publisher has still to hand over, in this order. */
  function ToDo(pub: Publisher): seq<nat> {
    match pub
    case Idle => []
    case Selected(ids) => ids
    case Holding(ids, next) => if next <= |ids| then ids[next..] else []
    case Written(ids, next, _) => if next < |ids| then ids[next + 1..] else []
  }

  ghost predicate InToDo(s: State, id: nat) {
    exists p :: 0 <= p < |s.publishers| && id in ToDo(s.publishers[p])
  }

  /** The event can still be handed over. */
  ghost predicate Waits(s: State, id: nat) {
    id < |s.events| && (s.events[id].status == Pending || InToDo(s, id))
  }

  /** Every older waiting event of an order is ahead in the list. */
  ghost predicate NothingSkipped(s: State, ids: seq<nat>) {
    forall a: nat, j {:trigger Same(Orders(s.events), a, ids[j])} ::
      0 <= j < |ids| && a < ids[j] && Same(Orders(s.events), a, ids[j]) && Waits(s, a) ==> a in ids[..j]
  }

  /** The step claims an event while an older one of its order waits and is not ahead of it in the claim. */
  ghost predicate Leaps(s: State, e: Step) {
    e.Select? && !NothingSkipped(s, e.ids)
  }

  // Without a leap the order is kept

  /** Nothing older than an event that was handed over waits. */
  ghost predicate NothingLeft(s: State) {
    forall a: nat, i {:trigger Same(Orders(s.events), a, s.log[i].id)} ::
      0 <= i < |s.log| && a < s.log[i].id && Same(Orders(s.events), a, s.log[i].id) ==> !Waits(s, a)
  }

  ghost predicate InOrder(s: State) {
    && LogOrdered(Orders(s.events), s.log)
    && NothingLeft(s)
    && forall p :: 0 <= p < |s.publishers| ==> NothingSkipped(s, ToDo(s.publishers[p]))
  }

  /** No event is added or handed over, and none comes to wait. */
  ghost predicate Settles(s: State, s': State) {
    && Orders(s'.events) == Orders(s.events) && s'.log == s.log
    && forall a :: Waits(s', a) ==> Waits(s, a)
  }

  lemma SkippedKept(s: State, s': State, ids: seq<nat>)
    requires Orders(s'.events) == Orders(s.events) && forall a :: Waits(s', a) ==> Waits(s, a)
    requires NothingSkipped(s, ids)
    ensures NothingSkipped(s', ids)
  {
    var orders := Orders(s.events);
    forall a: nat, j | 0 <= j < |ids| && a < ids[j] && Same(orders, a, ids[j]) && Waits(s', a)
      ensures a in ids[..j]
    {
      assert Waits(s, a);
    }
  }

  lemma SettledInOrder(s: State, s': State)
    requires InOrder(s) && Settles(s, s')
    requires forall p :: 0 <= p < |s'.publishers| ==> NothingSkipped(s, ToDo(s'.publishers[p]))
    ensures InOrder(s')
  {
    forall p | 0 <= p < |s'.publishers|
      ensures NothingSkipped(s', ToDo(s'.publishers[p]))
    {
      SkippedKept(s, s', ToDo(s'.publishers[p]));
    }
    forall a: nat, i | 0 <= i < |s.log| && a < s.log[i].id && Same(Orders(s.events), a, s.log[i].id)
      ensures !Waits(s', a)
    {
      assert !Waits(s, a);
    }
  }

  /** The lists to do shrink, and no event returns to PENDING. */
  lemma FewerWait(s: State, s': State)
    requires |s'.events| == |s.events|
    requires forall id :: 0 <= id < |s.events| && s'.events[id].status == Pending ==> s.events[id].status == Pending
    requires forall p :: 0 <= p < |s'.publishers| ==>
               || ToDo(s'.publishers[p]) == []
               || (p < |s.publishers| && ToDo(s'.publishers[p]) == ToDo(s.publishers[p]))
               || (forall id :: id in ToDo(s'.publishers[p]) ==> Waits(s, id))
    ensures forall a :: Waits(s', a) ==> Waits(s, a)
  {
    forall a | Waits(s', a)
      ensures Waits(s, a)
    {
      if InToDo(s', a) {
        var p :| 0 <= p < |s'.publishers| && a in ToDo(s'.publishers[p]);
      }
    }
  }

  /** A publisher starts, rests, stops, or finishes an event: it has the same or nothing to do. */
  lemma OrderKept(s: State, e: Step)
    requires Sound(s) && InOrder(s) && Enabled(s, e)
    requires e.Start? || e.CommitClaim? || e.Mark? || e.FailMark? || e.Rest? || e.Abandon?
    ensures InOrder(Apply(s, e))
  {
    var s' := Apply(s, e);
    assert Orders(s'.events) == Orders(s.events);
    forall p | 0 <= p < |s'.publishers|
      ensures ToDo(s'.publishers[p]) == []
           || (p < |s.publishers| && ToDo(s'.publishers[p]) == ToDo(s.publishers[p]))
    {
      if p < |s.publishers| {
        assert PublisherSound(s, s.publishers[p]);
      }
    }
    FewerWait(s, s');
    SettledInOrder(s, s');
  }

  lemma OrderSelected(s: State, e: Step)
    requires InOrder(s) && Enabled(s, e) && e.Select? && !Leaps(s, e)
    ensures InOrder(Apply(s, e))
  {
    var s' := Apply(s, e);
    forall id | id in e.ids
      ensures Waits(s, id)
    {
      assert Available(s, id);
    }
    FewerWait(s, s');
    SettledInOrder(s, s');
  }

  lemma HandedInTable(s: State, i: nat)
    requires Sound(s) && i < |s.log|
    ensures s.log[i].id < |s.events| && s.events[s.log[i].id].status != Pending
  {
    assert InBatch(s.batches, s.log[i].id);
    assert Handed(s.log, s.log[i].id);
    assert Truthful(s, s.log[i].id);
  }

  lemma ToDoIsOwned(s: State, p: nat, id: nat)
    requires Sound(s) && p < |s.publishers| && id in ToDo(s.publishers[p])
    ensures id in Owned(s.publishers[p]) && id < |s.events|
  {
    var pub := s.publishers[p];
    assert PublisherSound(s, pub);
    if pub.Written? {
      OwnedAdvances(pub.ids, pub.next);
    }
  }

  lemma InsertSame(events: seq<Event>, x: Event, a: nat, b: nat)
    requires b < |events| && a < b
    ensures Same(Orders(events + [x]), a, b) == Same(Orders(events), a, b)
  {
  }

  lemma InsertSkips(s: State, x: Event, p: nat)
    requires Sound(s) && InOrder(s) && p < |s.publishers|
    ensures NothingSkipped(s.(events := s.events + [x]), ToDo(s.publishers[p]))
  {
    var s', ids := s.(events := s.events + [x]), ToDo(s.publishers[p]);
    forall a: nat, j | 0 <= j < |ids| && a < ids[j] && Same(Orders(s'.events), a, ids[j]) && Waits(s', a)
      ensures a in ids[..j]
    {
      ToDoIsOwned(s, p, ids[j]);
      InsertSame(s.events, x, a, ids[j]);
      assert Waits(s, a);
    }
  }

  lemma OrderInserted(s: State, e: Step)
    requires Sound(s) && InOrder(s) && e.Insert?
    ensures InOrder(Apply(s, e))
  {
    var s' := Apply(s, e);
    var x := s'.events[|s.events|];
    assert s' == s.(events := s.events + [x]);
    forall p | 0 <= p < |s'.publishers|
      ensures NothingSkipped(s', ToDo(s'.publishers[p]))
    {
      InsertSkips(s, x, p);
    }
    forall a: nat, i | 0 <= i < |s.log| && a < s.log[i].id && Same(Orders(s'.events), a, s.log[i].id)
      ensures !Waits(s', a)
    {
      HandedInTable(s, i);
      InsertSame(s.events, x, a, s.log[i].id);
      assert !Waits(s, a);
    }
    forall i, j | 0 <= i < j < |s.log| && Same(Orders(s'.events), s.log[i].id, s.log[j].id)
      ensures s.log[i].id < s.log[j].id
    {
      HandedInTable(s, i);
      HandedInTable(s, j);
      assert Same(Orders(s.events), s.log[i].id, s.log[j].id);
    }
  }

  /** Taking the head off a list leaves the rest, and no other list has it. */
  lemma HeadTaken(s: State, s': State, p: nat, ids: seq<nat>)
    requires Sound(s) && p < |s.publishers| && ToDo(s.publishers[p]) == ids && ids != []
    requires Distinct(ids) && ids[0] in Owned(s.publishers[p])
    requires |s'.publishers| == |s.publishers| && ToDo(s'.publishers[p]) == ids[1..]
    requires forall q :: 0 <= q < |s.publishers| && q != p ==> s'.publishers[q] == s.publishers[q]
    ensures forall a :: InToDo(s', a) ==> InToDo(s, a) && a != ids[0]
  {
    forall a | InToDo(s', a)
      ensures InToDo(s, a) && a != ids[0]
    {
      var q :| 0 <= q < |s'.publishers| && a in ToDo(s'.publishers[q]);
      if q == p {
        assert a in ids;
      } else {
        ToDoIsOwned(s, q, a);
      }
    }
  }

  /** What a publisher is about to hand over is the head of its list. */
  lemma AboutToHand(s: State, p: nat, accepted: bool)
    requires Sound(s) && Enabled(s, HandOver(p, accepted))
    ensures var ids := ToDo(s.publishers[p]);
            && ids != [] && Distinct(ids) && ids[0] in Owned(s.publishers[p])
            && ids[0] == s.publishers[p].ids[s.publishers[p].next]
            && ids[0] < |s.events| && s.events[ids[0]].status == Claimed && !Handed(s.log, ids[0])
  {
    var Holding(all, next) := s.publishers[p];
    assert PublisherSound(s, s.publishers[p]);
    OwnedAdvances(all, next);
    assert all[next..][0] in Owned(s.publishers[p]);
  }

  lemma HandOverMoves(s: State, p: nat, accepted: bool)
    requires Enabled(s, HandOver(p, accepted))
    ensures var s' := Apply(s, HandOver(p, accepted));
            && s'.events == s.events && |s'.publishers| == |s.publishers|
            && ToDo(s.publishers[p]) != [] && ToDo(s'.publishers[p]) == ToDo(s.publishers[p])[1..]
            && s'.log == s.log + [Handover(ToDo(s.publishers[p])[0], accepted)]
            && forall q :: 0 <= q < |s.publishers| && q != p ==> s'.publishers[q] == s.publishers[q]
  {
  }

  /** An event that is handed over waits no more, and nobody else's wait begins. */
  lemma HandedWaitsNoMore(s: State, s': State, p: nat, accepted: bool)
    requires Sound(s) && Enabled(s, HandOver(p, accepted)) && s' == Apply(s, HandOver(p, accepted))
    ensures var ids := ToDo(s.publishers[p]);
            ids != [] && Waits(s, ids[0]) && !Waits(s', ids[0]) && forall a :: Waits(s', a) ==> Waits(s, a)
  {
    var ids := ToDo(s.publishers[p]);
    HandOverMoves(s, p, accepted);
    AboutToHand(s, p, accepted);
    assert InToDo(s, ids[0]);
    HeadTaken(s, s', p, ids);
  }

  /** The rest of a list skips nothing once its head is handed over. */
  lemma TailSkips(s: State, s': State, ids: seq<nat>)
    requires NothingSkipped(s, ids) && ids != [] && Orders(s'.events) == Orders(s.events)
    requires !Waits(s', ids[0]) && forall a :: Waits(s', a) ==> Waits(s, a)
    ensures NothingSkipped(s', ids[1..])
  {
    var rest := ids[1..];
    forall a: nat, j | 0 <= j < |rest| && a < rest[j] && Same(Orders(s.events), a, rest[j]) && Waits(s', a)
      ensures a in rest[..j]
    {
      assert Same(Orders(s.events), a, ids[j + 1]);
      assert a in ids[..j + 1];
      assert ids[..j + 1] == [ids[0]] + rest[..j];
    }
  }

  /** Whatever was handed over before is older than the head of a list. */
  lemma LogAppend(s: State, ids: seq<nat>, accepted: bool)
    requires InOrder(s) && NothingSkipped(s, ids) && ids != [] && Waits(s, ids[0]) && !Handed(s.log, ids[0])
    ensures LogOrdered(Orders(s.events), s.log + [Handover(ids[0], accepted)])
  {
    var log := s.log + [Handover(ids[0], accepted)];
    forall i, j | 0 <= i < j < |log| && Same(Orders(s.events), log[i].id, log[j].id)
      ensures log[i].id < log[j].id
    {
      if j < |s.log| {
        assert Same(Orders(s.events), s.log[i].id, s.log[j].id);
      } else {
        assert Handed(s.log, s.log[i].id);
        assert Same(Orders(s.events), ids[0], s.log[i].id);
      }
    }
  }

  lemma OrderHanded(s: State, p: nat, accepted: bool)
    requires Sound(s) && InOrder(s) && Enabled(s, HandOver(p, accepted))
    ensures InOrder(Apply(s, HandOver(p, accepted)))
  {
    var s', ids := Apply(s, HandOver(p, accepted)), ToDo(s.publishers[p]);
    HandOverMoves(s, p, accepted);
    HandedWaitsNoMore(s, s', p, accepted);
    AboutToHand(s, p, accepted);
    LogAppend(s, ids, accepted);
    forall q | 0 <= q < |s'.publishers|
      ensures NothingSkipped(s', ToDo(s'.publishers[q]))
    {
      if q == p {
        TailSkips(s, s', ids);
      } else {
        SkippedKept(s, s', ToDo(s.publishers[q]));
      }
    }
    forall a: nat, i | 0 <= i < |s'.log| && a < s'.log[i].id && Same(Orders(s.events), a, s'.log[i].id)
      ensures !Waits(s', a)
    {
      if i < |s.log| {
        assert Same(Orders(s.events), a, s.log[i].id);
      } else {
        assert Same(Orders(s.events), a, ids[0]) && ids[..0] == [];
      }
    }
  }

  lemma OrderStep(s: State, e: Step)
    requires Sound(s) && InOrder(s) && Enabled(s, e) && !Leaps(s, e)
    ensures InOrder(Apply(s, e))
  {
    match e
    case Insert(_, _, _) => OrderInserted(s, e);
    case Select(_, _, _) => OrderSelected(s, e);
    case HandOver(p, accepted) => OrderHanded(s, p, accepted);
    case _ => OrderKept(s, e);
  }

  lemma {:induction false} InOrderRun(states: seq<State>, steps: seq<Step>, n: nat)
    requires IsRun(states, steps) && n <= |steps|
    requires forall i :: 0 <= i < n ==> !Leaps(states[i], steps[i])
    ensures InOrder(states[n])
  {
    if n > 0 {
      InOrderRun(states, steps, n - 1);
      SoundRun(states, steps, n - 1);
      var e := steps[n - 1];
      OrderStep(states[n - 1], e);
    }
  }

  /**
   Per-order publishing order: with any number of publishers, whatever fails and however batches are cut, if no claim of
   the run leaps over a waiting event, then of two events of one order that were both handed to the writer the older
   was handed over first.
   */
  lemma PublishedInOrder(states: seq<State>, steps: seq<Step>, n: nat, i: nat, j: nat)
    requires IsRun(states, steps) && n <= |steps|
    requires forall m :: 0 <= m < n ==> !Leaps(states[m], steps[m])
    requires i < j < |states[n].log|
    ensures var s := states[n];
            var a, b := s.log[i].id, s.log[j].id;
            a < |s.events| && b < |s.events| && (s.events[a].orderId == s.events[b].orderId ==> a < b)
  {
    var s := states[n];
    InOrderRun(states, steps, n);
    SoundRun(states, steps, n);
    HandedInTable(s, i);
    HandedInTable(s, j);
    assert s.events[s.log[i].id].orderId == s.events[s.log[j].id].orderId ==>
        Same(Orders(s.events), s.log[i].id, s.log[j].id);
  }

  // With a leap the order can be broken

  /** A continuation from `states[0]` in which nothing more is claimed. */
  ghost predicate Continues(states: seq<State>, steps: seq<Step>) {
    && |states| == |steps| + 1
    && forall i {:trigger steps[i]} :: 0 <= i < |steps| ==>
         && !steps[i].Select? && Enabled(states[i], steps[i]) && states[i + 1] == Apply(states[i], steps[i])
  }

  /** Whatever has been claimed will be handed over in order, or not at all. */
  ghost predicate OrderSafe(s: State) {
    forall states: seq<State>, steps: seq<Step> :: Continues(states, steps) && states[0] == s ==>
      LogOrdered(Orders(states[|steps|].events), states[|steps|].log)
  }

  lemma {:induction false} ContinuedInOrder(states: seq<State>, steps: seq<Step>, n: nat)
    requires Continues(states, steps) && n <= |steps| && Sound(states[0]) && InOrder(states[0])
    ensures Sound(states[n]) && InOrder(states[n])
  {
    if n > 0 {
      ContinuedInOrder(states, steps, n - 1);
      var e := steps[n - 1];
      SoundStep(states[n - 1], e);
      OrderStep(states[n - 1], e);
    }
  }

  lemma InOrderIsSafe(s: State)
    requires Sound(s) && InOrder(s)
    ensures OrderSafe(s)
  {
    forall states: seq<State>, steps: seq<Step> | Continues(states, steps) && states[0] == s
      ensures LogOrdered(Orders(states[|steps|].events), states[|steps|].log)
    {
      ContinuedInOrder(states, steps, |steps|);
    }
  }

  lemma Further(states: seq<State>, steps: seq<Step>, e: Step) returns (states': seq<State>, steps': seq<Step>)
    requires Continues(states, steps) && !e.Select? && Enabled(states[|steps|], e)
    ensures Continues(states', steps') && states'[0] == states[0]
    ensures states'[|steps'|] == Apply(states[|steps|], e)
  {
    states', steps' := states + [Apply(states[|steps|], e)], steps + [e];
  }

  /** What a publisher has done when it has come to hand over the given event last. */
  ghost predicate HandedLast(s: State, s': State, p: nat, id: nat) {
    && p < |s.publishers| == |s'.publishers| && s'.publishers == s.publishers[p := s'.publishers[p]]
    && |s'.events| == |s.events| && Orders(s'.events) == Orders(s.events)
    && s.log < s'.log && s'.log[|s'.log| - 1].id == id
  }

  /** A publisher that holds a batch works through it as far as the given place. */
  lemma {:induction false} HandUpTo(
    states: seq<State>, steps: seq<Step>, p: nat, ids: seq<nat>, next: nat, t: nat)
    returns (states': seq<State>, steps': seq<Step>)
    requires Continues(states, steps) && p < |states[|steps|].publishers|
    requires states[|steps|].publishers[p] == Holding(ids, next) && next <= t < |ids|
    requires forall i :: next <= i < |ids| ==> ids[i] < |states[|steps|].events|
    ensures Continues(states', steps') && states'[0] == states[0]
    ensures HandedLast(states[|steps|], states'[|steps'|], p, ids[t])
    decreases t - next
  {
    states', steps' := Further(states, steps, HandOver(p, true));
    if next < t {
      states', steps' := Further(states', steps', Mark(p));
      states', steps' := HandUpTo(states', steps', p, ids, next + 1, t);
    }
  }

  lemma {:induction false} SoundContinued(states: seq<State>, steps: seq<Step>, n: nat)
    requires Continues(states, steps) && n <= |steps| && Sound(states[0])
    ensures Sound(states[n])
  {
    if n > 0 {
      SoundContinued(states, steps, n - 1);
      var e := steps[n - 1];
      SoundStep(states[n - 1], e);
    }
  }

  /** A step by which a publisher that has something to do comes to hold it. */
  function TakeUp(p: nat, pub: Publisher): Step {
    if pub.Selected? then CommitClaim(p) else Mark(p)
  }

  lemma CanTakeUp(s: State, p: nat)
    requires Sound(s) && p < |s.publishers| && ToDo(s.publishers[p]) != [] && !s.publishers[p].Holding?
    ensures Enabled(s, TakeUp(p, s.publishers[p]))
  {
    var pub := s.publishers[p];
    assert PublisherSound(s, pub);
    if pub.Written? {
      OwnedAdvances(pub.ids, pub.next);
      assert pub.ids[pub.next] in Owned(pub);
    }
  }

  lemma TakesUp(s: State, p: nat)
    requires p < |s.publishers| && ToDo(s.publishers[p]) != [] && Enabled(s, TakeUp(p, s.publishers[p]))
    ensures var s' := Apply(s, TakeUp(p, s.publishers[p]));
            && |s'.publishers| == |s.publishers| && s'.publishers == s.publishers[p := s'.publishers[p]]
            && |s'.events| == |s.events| && Orders(s'.events) == Orders(s.events) && s'.log == s.log
            && s'.publishers[p].Holding? && ToDo(s'.publishers[p]) == ToDo(s.publishers[p])
  {
  }

  /** The batch that a publisher holds is in the table, and the event has its place in it. */
  lemma PlaceOf(s: State, p: nat, id: nat) returns (t: nat)
    requires Sound(s) && p < |s.publishers| && s.publishers[p].Holding? && id in ToDo(s.publishers[p])
    ensures var Holding(ids, next) := s.publishers[p];
            next <= t < |ids| && ids[t] == id && forall i :: next <= i < |ids| ==> ids[i] < |s.events|
  {
    var Holding(ids, next) := s.publishers[p];
    assert PublisherSound(s, s.publishers[p]);
    var rest := ids[next..];
    var k :| 0 <= k < |rest| && rest[k] == id;
    t := next + k;
    forall i | next <= i < |ids|
      ensures ids[i] < |s.events|
    {
      assert rest[i - next] in Owned(s.publishers[p]);
    }
  }

  /** A publisher that has something to do comes to hold it without handing anything over. */
  lemma ComesToHold(states: seq<State>, steps: seq<Step>, p: nat)
    returns (states': seq<State>, steps': seq<Step>)
    requires Continues(states, steps) && Sound(states[|steps|])
    requires p < |states[|steps|].publishers| && ToDo(states[|steps|].publishers[p]) != []
    ensures Continues(states', steps') && states'[0] == states[0]
    ensures var s, s' := states[|steps|], states'[|steps'|];
            && |s'.publishers| == |s.publishers| && s'.publishers == s.publishers[p := s'.publishers[p]]
            && |s'.events| == |s.events| && Orders(s'.events) == Orders(s.events) && s'.log == s.log
            && s'.publishers[p].Holding? && ToDo(s'.publishers[p]) == ToDo(s.publishers[p])
  {
    var s := states[|steps|];
    if s.publishers[p].Holding? {
      return states, steps;
    }
    CanTakeUp(s, p);
    TakesUp(s, p);
    states', steps' := Further(states, steps, TakeUp(p, s.publishers[p]));
  }

  /** Whatever a publisher has to do, it can come to do without another claim. */
  lemma HandsOver(states: seq<State>, steps: seq<Step>, p: nat, id: nat)
    returns (states': seq<State>, steps': seq<Step>)
    requires Continues(states, steps) && Sound(states[0])
    requires p < |states[|steps|].publishers| && id in ToDo(states[|steps|].publishers[p])
    ensures Continues(states', steps') && states'[0] == states[0]
    ensures HandedLast(states[|steps|], states'[|steps'|], p, id)
  {
    SoundContinued(states, steps, |steps|);
    states', steps' := ComesToHold(states, steps, p);
    SoundContinued(states', steps', |steps'|);
    var s := states'[|steps'|];
    var t := PlaceOf(s, p, id);
    states', steps' := HandUpTo(states', steps', p, s.publishers[p].ids, s.publishers[p].next, t);
  }

  /** An older event that a claim leaps over is in the hands of another publisher. */
  lemma LeaptIsHeld(s: State, p: nat, limit: nat, ids: seq<nat>, a: nat, j: nat) returns (q: nat)
    requires Timed(s) && Enabled(s, Select(p, limit, ids)) && j < |ids| && a < ids[j]
    requires Same(Orders(s.events), a, ids[j]) && Waits(s, a) && a !in ids[..j]
    ensures q < |s.publishers| && q != p && a in ToDo(s.publishers[q])
  {
    assert s.events[a].createdAt < s.events[ids[j]].createdAt;
    assert forall i :: j <= i < |ids| ==> s.events[ids[j]].createdAt <= s.events[ids[i]].createdAt;
    if s.events[a].status == Pending {
      assert !Available(s, a);
      q :| 0 <= q < |s.publishers| && s.publishers[q].Selected? && a in s.publishers[q].ids;
    } else {
      q :| 0 <= q < |s.publishers| && a in ToDo(s.publishers[q]);
    }
  }

  /** Two events of one order of which the newer is handed over last in a state before the older is. */
  lemma NewerFirst(s: State, s1: State, s2: State, p: nat, q: nat, a: nat, b: nat)
    requires HandedLast(s, s1, p, b) && HandedLast(s1, s2, q, a) && a < b && Same(Orders(s.events), a, b)
    ensures !LogOrdered(Orders(s2.events), s2.log)
  {
    var i, j := |s1.log| - 1, |s2.log| - 1;
    assert s2.log[i] == s1.log[i];
    assert Same(Orders(s2.events), s2.log[i].id, s2.log[j].id);
  }

  /** After a claim that leaps, the publishers can hand over a newer event of an order first without another claim. */
  lemma LeapCanSwap(s: State, e: Step)
    requires Sound(s) && Timed(s) && Enabled(s, e) && Leaps(s, e)
    ensures !OrderSafe(Apply(s, e))
  {
    var Select(p, limit, ids) := e;
    var a: nat, j :| 0 <= j < |ids| && a < ids[j] && Same(Orders(s.events), a, ids[j]) && Waits(s, a) && a !in ids[..j];
    var q := LeaptIsHeld(s, p, limit, ids, a, j);
    var s' := Apply(s, e);
    SoundStep(s, e);
    var states, steps := [s'], [];
    states, steps := HandsOver(states, steps, p, ids[j]);
    var s1 := states[|steps|];
    states, steps := HandsOver(states, steps, q, a);
    NewerFirst(s', s1, states[|steps|], p, q, a, ids[j]);
  }

  /** The exact condition on a claim: after it all will be handed over in order if and only if it does not leap. */
  lemma ClaimIsSafeIff(s: State, e: Step)
    requires Sound(s) && InOrder(s) && Timed(s) && Enabled(s, e) && e.Select?
    ensures OrderSafe(Apply(s, e)) <==> !Leaps(s, e)
  {
    if Leaps(s, e) {
      LeapCanSwap(s, e);
    } else {
      SoundStep(s, e);
      OrderStep(s, e);
      InOrderIsSafe(Apply(s, e));
    }
  }

  /**
   The exact condition on a run: whatever was claimed at any point of it could only be handed over in order if and only
   if no claim of the run leaps over a waiting event.
   */
  lemma OrderSafeIff(states: seq<State>, steps: seq<Step>, n: nat)
    requires IsRun(states, steps) && n <= |steps| && forall i :: 0 <= i < n ==> Timed(states[i])
    ensures (forall i :: 0 <= i <= n ==> OrderSafe(states[i])) <==>
            (forall i :: 0 <= i < n ==> !Leaps(states[i], steps[i]))
  {
    if forall i :: 0 <= i < n ==> !Leaps(states[i], steps[i]) {
      forall i | 0 <= i <= n
        ensures OrderSafe(states[i])
      {
        InOrderRun(states, steps, i);
        SoundRun(states, steps, i);
        InOrderIsSafe(states[i]);
      }
    } else {
      var i :| 0 <= i < n && Leaps(states[i], steps[i]);
      var e := steps[i];
      SoundRun(states, steps, i);
      LeapCanSwap(states[i], e);
      assert !OrderSafe(states[i + 1]);
    }
  }

  // Corollaries

  /** No two publishers have events of one order to hand over. */
  ghost predicate Apart(s: State) {
    forall p, q, i, j {:trigger ToDo(s.publishers[p])[i], ToDo(s.publishers[q])[j]} ::
      0 <= p < |s.publishers| && 0 <= q < |s.publishers| && p != q
      && 0 <= i < |ToDo(s.publishers[p])| && 0 <= j < |ToDo(s.publishers[q])| ==>
        !Same(Orders(s.events), ToDo(s.publishers[p])[i], ToDo(s.publishers[q])[j])
  }

  /** After a claim that leaps two publishers have events of one order to hand over. */
  lemma LeapBringsTogether(s: State, e: Step)
    requires Timed(s) && Enabled(s, e) && Leaps(s, e)
    ensures !Apart(Apply(s, e))
  {
    var Select(p, limit, ids) := e;
    var s' := Apply(s, e);
    var a: nat, j :| 0 <= j < |ids| && a < ids[j] && Same(Orders(s.events), a, ids[j]) && Waits(s, a) && a !in ids[..j];
    var q := LeaptIsHeld(s, p, limit, ids, a, j);
    var i :| 0 <= i < |ToDo(s.publishers[q])| && ToDo(s.publishers[q])[i] == a;
    assert ToDo(s'.publishers[q])[i] == a && ToDo(s'.publishers[p])[j] == ids[j];
  }

  /** In particular a claim does not leap while no other publisher has anything to do. */
  lemma LoneClaimNeverLeaps(s: State, e: Step)
    requires Timed(s) && Enabled(s, e) && e.Select?
    requires forall q :: 0 <= q < |s.publishers| ==> ToDo(s.publishers[q]) == []
    ensures !Leaps(s, e)
  {
    if Leaps(s, e) {
      LeapBringsTogether(s, e);
    }
  }

  /**
   With one publisher at work at a time, or several that have no order in common, and with strictly increasing creation
   times in each order, the events of an order are handed over oldest first.
   */
  lemma PublishedInOrderApart(states: seq<State>, steps: seq<Step>, n: nat, i: nat, j: nat)
    requires IsRun(states, steps) && n <= |steps|
    requires forall m :: 0 <= m <= n ==> Apart(states[m]) && Timed(states[m])
    requires i < j < |states[n].log|
    ensures var s := states[n];
            var a, b := s.log[i].id, s.log[j].id;
            && a < |s.events| && b < |s.events|
            && (s.events[a].orderId == s.events[b].orderId ==> a < b && s.events[a].createdAt < s.events[b].createdAt)
  {
    forall m | 0 <= m < n
      ensures !Leaps(states[m], steps[m])
    {
      var e := steps[m];
      if Leaps(states[m], e) {
        LeapBringsTogether(states[m], e);
      }
    }
    PublishedInOrder(states, steps, n, i, j);
  }
}
