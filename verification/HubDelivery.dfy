/**
 What the loop's own broadcasts deliver, and that the hub neither loses, nor repeats, nor reorders what it accepted.
 */
module HubDelivery {
  import opened HubProtocol
  import opened HubTheorems

  // The broadcasts of the loop

  /**
   What a visit of the loop does: the message goes, once, to the end of the queue of a client with room, subscribed or
   not; a client without room joins the loop's list; nothing else changes.
   */
  lemma LoopVisitDelivers(states: seq<State>, steps: seq<Step>, n: nat, c: Id)
    requires SafeRun(states, steps) && n < |steps| && steps[n] == LoopSend(c)
    ensures var s, s' := states[n], states[n + 1];
            && s.loop.Broadcasting? && s'.loop.Broadcasting? && s'.loop.message == s.loop.message
            && s'.loop.todo == s.loop.todo - {c}
            && Queue(s', c) == Queue(s, c) + (if |Queue(s, c)| < 256 then [s.loop.message] else [])
            && s'.loop.full == s.loop.full + (if |Queue(s, c)| >= 256 then [c] else [])
            && (forall d :: d != c ==> Queue(s', d) == Queue(s, d))
            && s'.clients == s.clients && s'.closed == s.closed && s'.calls == s.calls && !s'.panicked
  {
    OpenIffNoneReadded(states, steps);
    var s, e := states[n], steps[n];
    assert states[n + 1] == Apply(s, e);
    assert Sound(s) && c in s.clients;
  }

  /** How often the loop has visited the client since it last took up a message. */
  function LoopVisits(steps: seq<Step>, c: Id): nat {
    if steps == [] || steps[|steps| - 1].Dequeue? then 0
    else LoopVisits(steps[..|steps| - 1], c) + (if steps[|steps| - 1] == LoopSend(c) then 1 else 0)
  }

  /** Within a broadcast the map is as it was when the broadcast began. */
  lemma BroadcastStep(s: State, e: Step)
    requires Enabled(s, e) && Apply(s, e).loop.Broadcasting?
    ensures var s' := Apply(s, e);
            if e.Dequeue? then s'.loop.todo == s'.clients == s.clients
            else && s.loop.Broadcasting? && s'.clients == s.clients && s'.loop.message == s.loop.message
                 && s'.loop.todo == s.loop.todo - (if e.LoopSend? then {e.c} else {})
                 && (e.LoopSend? ==> e.c in s.loop.todo)
  {
  }

  /**
   However calls interleave, a broadcast of the loop visits every client that is in the map exactly once and no other;
   what it has yet to visit is its `todo`.
   */
  lemma {:induction false} LoopVisitsEachOnce(states: seq<State>, steps: seq<Step>, c: Id)
    requires IsRun(states, steps) && states[|steps|].loop.Broadcasting?
    ensures var s := states[|steps|];
            && s.loop.todo <= s.clients
            && LoopVisits(steps, c) == if c in s.clients && c !in s.loop.todo then 1 else 0
  {
    var n := |steps| - 1;
    PathPrefix(states, steps);
    var e := steps[n];
    BroadcastStep(states[n], e);
    if !e.Dequeue? {
      LoopVisitsEachOnce(states[..n + 1], steps[..n], c);
    }
  }

  /** When it is done with the clients it has visited each client in the map once. */
  lemma LoopReachesAll(states: seq<State>, steps: seq<Step>, c: Id)
    requires IsRun(states, steps) && Enabled(states[|steps|], LoopDone)
    ensures LoopVisits(steps, c) == if c in states[|steps|].clients then 1 else 0
  {
    LoopVisitsEachOnce(states, steps, c);
  }

  // First in, first out

  /** The messages given to the hub for all clients within the first `n` steps. */
  function Accepted(steps: seq<Step>, n: nat): seq<Payload>
    requires n <= |steps|
  {
    if n == 0 then []
    else Accepted(steps, n - 1) + (if steps[n - 1].Enqueue? then [steps[n - 1].m] else [])
  }

  /** The messages the loop has taken up. */
  ghost function TakenUp(states: seq<State>, steps: seq<Step>, n: nat): seq<Payload>
    requires n <= |steps| < |states|
  {
    if n == 0 then []
    else
      TakenUp(states, steps, n - 1)
      + (if steps[n - 1].Dequeue? && states[n].loop.Broadcasting? then [states[n].loop.message] else [])
  }

  /** What a step does to the messages waiting for the loop. */
  ghost predicate PendingMoves(s: State, e: Step, s': State) {
    if e.Enqueue? then s'.pending == s.pending + [e.m]
    else if e.Dequeue? then s'.loop.Broadcasting? && s.pending == [s'.loop.message] + s'.pending
    else s'.pending == s.pending
  }

  lemma PendingStep(s: State, e: Step)
    requires Enabled(s, e)
    ensures PendingMoves(s, e, Apply(s, e))
  {
  }

  lemma {:induction false} PendingIsRest(states: seq<State>, steps: seq<Step>, n: nat)
    requires |states| == |steps| + 1 && n <= |steps| && states[0].pending == []
    requires forall i {:trigger steps[i]} :: 0 <= i < |steps| ==> PendingMoves(states[i], steps[i], states[i + 1])
    ensures Accepted(steps, n) == TakenUp(states, steps, n) + states[n].pending
  {
    if n > 0 {
      PendingIsRest(states, steps, n - 1);
      var e := steps[n - 1];
      assert PendingMoves(states[n - 1], e, states[n]);
    }
  }

  /** The loop takes up every message once, in the order in which they were given to the hub. */
  lemma BroadcastsAreFifo(states: seq<State>, steps: seq<Step>)
    requires IsRun(states, steps)
    ensures Accepted(steps, |steps|) == TakenUp(states, steps, |steps|) + states[|steps|].pending
  {
    forall i {:trigger steps[i]} | 0 <= i < |steps|
      ensures PendingMoves(states[i], steps[i], states[i + 1])
    {
      PendingStep(states[i], steps[i]);
    }
    PendingIsRest(states, steps, |steps|);
  }

  /** What a step sends to the client: the message of a call it is subscribed to, or of the loop, if it has room. */
  ghost function SentBy(s: State, e: Step, c: Id): seq<Payload> {
    if c in s.closed || |Queue(s, c)| >= 256 then []
    else if e.LoopSend? && e.c == c && s.loop.Broadcasting? then [s.loop.message]
    else if e.ChannelSend? && e.c == c && e.b < |s.calls| && s.calls[e.b].Sending?
            && (c, s.calls[e.b].channel) in s.channels then [s.calls[e.b].message]
    else []
  }

  /** All that was sent to the client within the first `n` steps, in order. */
  ghost function Sent(states: seq<State>, steps: seq<Step>, n: nat, c: Id): seq<Payload>
    requires n <= |steps| < |states|
  {
    if n == 0 then [] else Sent(states, steps, n - 1, c) + SentBy(states[n - 1], steps[n - 1], c)
  }

  /** What the client's connection takes from its queue by a step. */
  ghost function TakenBy(s: State, e: Step, c: Id): seq<Payload> {
    if e == Take(c) && Queue(s, c) != [] then [Queue(s, c)[0]] else []
  }

  /** All that it took, in order. */
  ghost function Received(states: seq<State>, steps: seq<Step>, n: nat, c: Id): seq<Payload>
    requires n <= |steps| < |states|
  {
    if n == 0 then [] else Received(states, steps, n - 1, c) + TakenBy(states[n - 1], steps[n - 1], c)
  }

  /** What a step does to the queue of the client. */
  ghost predicate QueueMoves(before: seq<Payload>, sent: seq<Payload>, taken: seq<Payload>, after: seq<Payload>) {
    before + sent == taken + after && (taken == [] || sent == [])
  }

  lemma QueueSent(s: State, e: Step, c: Id)
    requires Enabled(s, e) && (e.LoopSend? || e.ChannelSend?)
    ensures Queue(Apply(s, e), c) == Queue(s, c) + SentBy(s, e, c)
  {
  }

  lemma QueueOtherwise(s: State, e: Step, c: Id)
    requires Enabled(s, e) && !e.LoopSend? && !e.ChannelSend? && !e.Take?
    ensures Queue(Apply(s, e), c) == Queue(s, c)
  {
  }

  lemma QueueStep(s: State, e: Step, c: Id)
    requires Enabled(s, e)
    ensures QueueMoves(Queue(s, c), SentBy(s, e, c), TakenBy(s, e, c), Queue(Apply(s, e), c))
  {
    if e.LoopSend? || e.ChannelSend? {
      QueueSent(s, e, c);
    } else if !e.Take? {
      QueueOtherwise(s, e, c);
    }
  }

  lemma Append(sent: seq<Payload>, received: seq<Payload>, before: seq<Payload>,
               more: seq<Payload>, taken: seq<Payload>, after: seq<Payload>)
    requires sent == received + before && QueueMoves(before, more, taken, after)
    ensures sent + more == received + taken + after
  {
    assert sent + more == received + (before + more);
    assert received + taken + after == received + (taken + after);
  }

  /** The queue moves as the step at `i` says. */
  ghost predicate MovesAt(states: seq<State>, steps: seq<Step>, i: nat, c: Id) {
    && i < |steps| < |states|
    && QueueMoves(Queue(states[i], c), SentBy(states[i], steps[i], c), TakenBy(states[i], steps[i], c),
                  Queue(states[i + 1], c))
  }

  lemma {:induction false} QueueIsRest(states: seq<State>, steps: seq<Step>, n: nat, c: Id)
    requires |states| == |steps| + 1 && n <= |steps| && Queue(states[0], c) == []
    requires forall i: nat :: i < |steps| ==> MovesAt(states, steps, i, c)
    ensures Sent(states, steps, n, c) == Received(states, steps, n, c) + Queue(states[n], c)
  {
    if n > 0 {
      QueueIsRest(states, steps, n - 1, c);
      assert MovesAt(states, steps, n - 1, c);
      var s, e := states[n - 1], steps[n - 1];
      Append(Sent(states, steps, n - 1, c), Received(states, steps, n - 1, c), Queue(s, c),
             SentBy(s, e, c), TakenBy(s, e, c), Queue(states[n], c));
    }
  }

  /** A client receives what was sent to it, once and in order; what it has not received is its queue. */
  lemma QueuesAreFifo(states: seq<State>, steps: seq<Step>, c: Id)
    requires IsRun(states, steps)
    ensures Sent(states, steps, |steps|, c) == Received(states, steps, |steps|, c) + Queue(states[|steps|], c)
  {
    forall i: nat | i < |steps|
      ensures MovesAt(states, steps, i, c)
    {
      var e := steps[i];
      QueueStep(states[i], e, c);
    }
    QueueIsRest(states, steps, |steps|, c);
  }

  // What a call carries, who is subscribed, and what becomes of slow clients

  /** Step `i` begins call `b`. */
  ghost predicate Begins(states: seq<State>, steps: seq<Step>, i: int, b: nat) {
    0 <= i < |steps| < |states| && steps[i].BeginChannel? && |states[i].calls| == b
  }

  lemma CallStep(s: State, e: Step, b: nat)
    requires Enabled(s, e) && b < |Apply(s, e).calls|
    ensures var call := Apply(s, e).calls[b];
            if b < |s.calls| then
              && call.start == s.calls[b].start
              && (call.Sending? ==>
                    s.calls[b].Sending? && call.channel == s.calls[b].channel && call.message == s.calls[b].message)
            else e.BeginChannel? && b == |s.calls| && call == Sending(e.channel, e.m, s.clients, s.clients, [])
  {
  }

  /** A call goes through the clients that were in the map when it began, with the channel and message it was given. */
  lemma {:induction false} CallIsAsBegun(states: seq<State>, steps: seq<Step>, n: nat, b: nat) returns (i: nat)
    requires IsRun(states, steps) && n <= |steps| && b < |states[n].calls|
    ensures i < n && Begins(states, steps, i, b) && states[n].calls[b].start == states[i].clients
    ensures states[n].calls[b].Sending? ==>
              states[n].calls[b].channel == steps[i].channel && states[n].calls[b].message == steps[i].m
  {
    assert n > 0;
    var e := steps[n - 1];
    CallStep(states[n - 1], e, b);
    if b < |states[n - 1].calls| {
      i := CallIsAsBegun(states, steps, n - 1, b);
    } else {
      i := n - 1;
    }
  }

  /** A client is subscribed to a channel exactly when it subscribed and has not unsubscribed since. */
  lemma {:induction false} SubscribedIffLast(states: seq<State>, steps: seq<Step>, n: nat, c: Id, channel: string)
    requires IsRun(states, steps) && n <= |steps|
    ensures (c, channel) in states[n].channels <==>
            exists i :: 0 <= i < n && steps[i] == Subscribe(c, channel)
                        && forall j :: i < j < n ==> steps[j] != Unsubscribe(c, channel)
  {
    if n > 0 {
      SubscribedIffLast(states, steps, n - 1, c, channel);
      var e := steps[n - 1];
      ChannelsStep(states[n - 1], e, c, channel);
    }
  }

  lemma ChannelsStep(s: State, e: Step, c: Id, channel: string)
    requires Enabled(s, e)
    ensures (c, channel) in Apply(s, e).channels <==>
            e == Subscribe(c, channel) || ((c, channel) in s.channels && e != Unsubscribe(c, channel))
  {
  }

  /** The client is on a list of slow ones, or is being unregistered. */
  predicate Leaving(s: State, c: Id) {
    Full(s, c) || (s.loop.Unregistering? && s.loop.client == c)
  }

  lemma ListStep(s: State, e: Step, b: nat, c: Id)
    requires Enabled(s, e) && b < |s.calls| && c in s.calls[b].full
    ensures Leaving(Apply(s, e), c)
  {
    var s' := Apply(s, e);
    if e == Notify(b) {
      var full := s.calls[b].full;
      assert full == [full[0]] + full[1..];
      assert c == full[0] || c in s'.calls[b].full;
    } else {
      assert c in s'.calls[b].full;
    }
  }

  lemma LoopStep(s: State, e: Step, c: Id)
    requires Enabled(s, e) && Leaving(s, c) && forall b :: 0 <= b < |s.calls| ==> c !in s.calls[b].full
    ensures Leaving(Apply(s, e), c) || c !in Apply(s, e).clients
  {
    if e.LoopClose? {
      var full := s.loop.full;
      assert full == [full[0]] + full[1..];
    }
  }

  lemma LeavingStep(s: State, e: Step, c: Id)
    requires Enabled(s, e) && Leaving(s, c)
    ensures Leaving(Apply(s, e), c) || c !in Apply(s, e).clients
  {
    if b :| 0 <= b < |s.calls| && c in s.calls[b].full {
      ListStep(s, e, b, c);
    } else {
      LoopStep(s, e, c);
    }
  }

  /** A slow client that a broadcast has put aside stays on its way out until it has been taken out of the map. */
  lemma {:induction false} SlowClientsAreDropped(states: seq<State>, steps: seq<Step>, i: nat, n: nat, c: Id)
    requires IsRun(states, steps) && i <= n <= |steps| && Leaving(states[i], c)
    ensures Leaving(states[n], c) || exists j :: i <= j <= n && c !in states[j].clients
    decreases n
  {
    if i < n {
      SlowClientsAreDropped(states, steps, i, n - 1, c);
      if Leaving(states[n - 1], c) {
        var e := steps[n - 1];
        LeavingStep(states[n - 1], e, c);
      }
    }
  }
}
