/**
 Concrete runs in which a newer event of an order is handed over before an older one.
 */
module OutboxWitnesses {
  import opened Outbox
  import opened OutboxOrder

  /** Extends a run by one step. */
  lemma Continue(states: seq<State>, steps: seq<Step>, e: Step) returns (states': seq<State>, steps': seq<Step>)
    requires IsRun(states, steps) && Enabled(states[|steps|], e)
    ensures IsRun(states', steps') && steps' == steps + [e]
    ensures states' == states + [Apply(states[|steps|], e)]
  {
    states', steps' := states + [Apply(states[|steps|], e)], steps + [e];
  }

  /** Two events of one order with the same creation time, and a publisher. */
  function Tie(pub: Publisher): State {
    State([Event(7, OrderCreated, 100, Pending), Event(7, OrderCancelled, 100, Pending)], [pub], [], [], {})
  }

  /** A claim of both, newest first, leaps over the older. */
  lemma TieLeaps()
    ensures Enabled(Tie(Idle), Select(0, 2, [1, 0])) && Leaps(Tie(Idle), Select(0, 2, [1, 0]))
  {
    var s, ids := Tie(Idle), [1, 0];
    assert Claimable(s, 2, ids);
    assert Same(Orders(s.events), 0, ids[0]) && Waits(s, 0) && 0 !in ids[..0];
  }

  lemma TiesSelected() returns (states: seq<State>, steps: seq<Step>)
    ensures IsRun(states, steps) && states[|steps|] == Tie(Selected([1, 0]))
    ensures |steps| == 4 && Leaps(states[3], steps[3])
  {
    states, steps := [INITIAL], [];
    states, steps := Continue(states, steps, Insert(7, OrderCreated, 100));
    states, steps := Continue(states, steps, Insert(7, OrderCancelled, 100));
    states, steps := Continue(states, steps, Start);
    assert states[|steps|] == Tie(Idle);
    TieLeaps();
    states, steps := Continue(states, steps, Select(0, 2, [1, 0]));
  }

  /** The newer of the two has been handed over. */
  lemma TieHanded() returns (states: seq<State>, steps: seq<Step>)
    ensures IsRun(states, steps) && |steps| > 3 && Leaps(states[3], steps[3]) && 0 in steps[3].ids
    ensures states[|steps|] == State(
              [Event(7, OrderCreated, 100, Claimed), Event(7, OrderCancelled, 100, Claimed)],
              [Written([1, 0], 0, true)], [Handover(1, true)], [[1, 0]], {})
  {
    states, steps := TiesSelected();
    states, steps := Continue(states, steps, CommitClaim(0));
    states, steps := Continue(states, steps, HandOver(0, true));
  }

  /**
   Creation times have a resolution of one second (RFC 3339 without fractions), so two events of one order can tie;
   then the newer one can be handed over first, although there is one publisher and it claimed all there was. The claim
   leaps over an event that comes later in it.
   */
  lemma TiesCanSwap() returns (states: seq<State>, steps: seq<Step>)
    ensures IsRun(states, steps) && |steps| > 3 && Leaps(states[3], steps[3]) && 0 in steps[3].ids
    ensures var s := states[|steps|];
            && |s.publishers| == 1 && s.batches == [[1, 0]] && s.log == [Handover(1, true), Handover(0, true)]
            && |s.events| == 2 && s.events[0].kind == OrderCreated && s.events[1].kind == OrderCancelled
            && s.events[0].orderId == s.events[1].orderId && s.events[0].createdAt == s.events[1].createdAt
  {
    states, steps := TieHanded();
    states, steps := Continue(states, steps, Mark(0));
    states, steps := Continue(states, steps, HandOver(0, true));
  }

  /** Two events of one order at different times, and two publishers with these rows locked or none. */
  function Pair(first: Publisher, second: Publisher): State {
    State([Event(7, OrderCreated, 1, Pending), Event(7, OrderCancelled, 2, Pending)], [first, second], [], [], {})
  }

  lemma TwoStarted() returns (states: seq<State>, steps: seq<Step>)
    ensures IsRun(states, steps) && |steps| == 4 && states[|steps|] == Pair(Idle, Idle)
  {
    states, steps := [INITIAL], [];
    states, steps := Continue(states, steps, Insert(7, OrderCreated, 1));
    states, steps := Continue(states, steps, Insert(7, OrderCancelled, 2));
    states, steps := Continue(states, steps, Start);
    states, steps := Continue(states, steps, Start);
  }

  lemma FirstClaimable()
    ensures Claimable(Pair(Idle, Idle), 1, [0])
  {
  }

  /** The second publisher leaps over the event that the first has locked. */
  lemma SecondLeaps()
    ensures var s, e := Pair(Selected([0]), Idle), Select(1, 1, [1]);
            Enabled(s, e) && Leaps(s, e)
  {
    var s, ids := Pair(Selected([0]), Idle), [1];
    assert s.publishers[0].Selected? && 0 in s.publishers[0].ids && !Available(s, 0);
    assert Claimable(s, 1, ids);
    assert Same(Orders(s.events), 0, ids[0]) && Waits(s, 0) && 0 !in ids[..0];
  }

  lemma FirstSelected() returns (states: seq<State>, steps: seq<Step>)
    ensures IsRun(states, steps) && |steps| == 5 && states[|steps|] == Pair(Selected([0]), Idle)
  {
    states, steps := TwoStarted();
    FirstClaimable();
    states, steps := Continue(states, steps, Select(0, 1, [0]));
  }

  /** Each event is locked by a publisher of its own. */
  lemma TwoSelected() returns (states: seq<State>, steps: seq<Step>)
    ensures IsRun(states, steps) && states[|steps|] == Pair(Selected([0]), Selected([1]))
    ensures |steps| == 6 && Leaps(states[5], steps[5]) && 0 !in steps[5].ids
  {
    states, steps := FirstSelected();
    SecondLeaps();
    states, steps := Continue(states, steps, Select(1, 1, [1]));
  }

  /** Both claims are committed. */
  lemma TwoClaimed() returns (states: seq<State>, steps: seq<Step>)
    ensures IsRun(states, steps) && |steps| > 5 && Leaps(states[5], steps[5]) && 0 !in steps[5].ids
    ensures states[|steps|] == State(
              [Event(7, OrderCreated, 1, Claimed), Event(7, OrderCancelled, 2, Claimed)],
              [Holding([0], 0), Holding([1], 0)], [], [[0], [1]], {})
  {
    states, steps := TwoSelected();
    states, steps := Continue(states, steps, CommitClaim(0));
    states, steps := Continue(states, steps, CommitClaim(1));
  }

  /**
   Two publishers at work on one order can hand its newer event over first although the creation times differ: the
   second leaps over the row that the first has locked.
   */
  lemma TwoPublishersCanSwap() returns (states: seq<State>, steps: seq<Step>)
    ensures IsRun(states, steps) && |steps| > 5 && Leaps(states[5], steps[5]) && 0 !in steps[5].ids
    ensures var s := states[|steps|];
            && s.log == [Handover(1, true), Handover(0, true)] && Timed(s)
            && |s.events| == 2 && s.events[0].kind == OrderCreated && s.events[1].kind == OrderCancelled
            && s.events[0].orderId == s.events[1].orderId && s.events[0].createdAt < s.events[1].createdAt
  {
    states, steps := TwoClaimed();
    states, steps := Continue(states, steps, HandOver(1, true));
    states, steps := Continue(states, steps, HandOver(0, true));
  }
}
