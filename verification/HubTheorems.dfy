/**
 What holds in every run of the hub: when channels are closed and sent on safely, that a broadcast offers its message
 to each client once, and that the loop always gets back to its select.
 */
module HubTheorems {
  import opened HubProtocol

  // The close discipline

  /** The step puts a client into the map whose channel is already closed. */
  predicate AddsClosed(s: State, e: Step) {
    e.Add? && s.loop.Registering? && s.loop.client in s.closed
  }

  ghost predicate AllOpen(s: State) {
    forall c :: c in s.clients ==> c !in s.closed
  }

  /** Whoever goes through the clients under the read lock still finds them in the map. */
  ghost predicate Covered(s: State) {
    && (s.loop.Broadcasting? ==> s.loop.todo <= s.clients)
    && forall b :: 0 <= b < |s.calls| && s.calls[b].Sending? ==> s.calls[b].todo <= s.clients
  }

  ghost predicate ClosedOnce(s: State) {
    forall c :: s.closed[c] <= 1
  }

  ghost predicate Sound(s: State) {
    !s.panicked && AllOpen(s) && Covered(s) && ClosedOnce(s)
  }

  lemma CoveredNext(s: State, e: Step)
    requires Covered(s) && Enabled(s, e)
    ensures Covered(Apply(s, e))
  {
  }

  lemma SoundNext(s: State, e: Step)
    requires Sound(s) && Enabled(s, e) && !AddsClosed(s, e)
    ensures Sound(Apply(s, e))
  {
    CoveredNext(s, e);
  }

  lemma {:induction false} SoundRun(states: seq<State>, steps: seq<Step>)
    requires IsRun(states, steps)
    requires forall i {:trigger steps[i]} :: 0 <= i < |steps| ==> !AddsClosed(states[i], steps[i])
    ensures Sound(states[|steps|])
  {
    if steps != [] {
      var n := |steps| - 1;
      PathPrefix(states, steps);
      var init := steps[..n];
      assert forall i {:trigger init[i]} :: 0 <= i < n ==> init[i] == steps[i];
      SoundRun(states[..n + 1], init);
      var e := steps[n];
      SoundNext(states[n], e);
    }
  }

  /**
   Every client in the map has an open channel throughout a run exactly when no client is added after its channel was
   closed; and then hub code never panics and no channel is closed twice.
   */
  lemma OpenIffNoneReadded(states: seq<State>, steps: seq<Step>)
    requires IsRun(states, steps)
    ensures (forall i :: 0 <= i <= |steps| ==> AllOpen(states[i]))
       <==> (forall i {:trigger steps[i]} :: 0 <= i < |steps| ==> !AddsClosed(states[i], steps[i]))
    ensures (forall i {:trigger steps[i]} :: 0 <= i < |steps| ==> !AddsClosed(states[i], steps[i]))
       ==> forall i :: 0 <= i <= |steps| ==> Sound(states[i])
  {
    if forall i {:trigger steps[i]} :: 0 <= i < |steps| ==> !AddsClosed(states[i], steps[i]) {
      forall i | 0 <= i <= |steps|
        ensures Sound(states[i])
      {
        RunPrefix(states, steps, i);
        var init := steps[..i];
        assert forall j {:trigger init[j]} :: 0 <= j < i ==> init[j] == steps[j];
        SoundRun(states[..i + 1], init);
      }
    } else {
      var i :| 0 <= i < |steps| && AddsClosed(states[i], steps[i]);
      assert !AllOpen(states[i + 1]);
    }
  }

  lemma RunPrefix(states: seq<State>, steps: seq<Step>, i: nat)
    requires IsRun(states, steps) && i <= |steps|
    ensures IsRun(states[..i + 1], steps[..i])
  {
    var init := steps[..i];
    forall j {:trigger init[j]} | 0 <= j < i
      ensures Enabled(states[j], init[j]) && states[j + 1] == Apply(states[j], init[j])
    {
      assert init[j] == steps[j];
    }
  }

  // Clients that register once

  /** The clients that were put into the map: all received, except one still waiting for the lock. */
  function Added(s: State): seq<Id> {
    if s.loop.Registering? && s.received != [] then s.received[..|s.received| - 1] else s.received
  }

  /** Added clients are in the map or closed; a pending registration is the last received. */
  ghost predicate Accounted(s: State) {
    && (s.loop.Registering? ==> s.received != [] && s.received[|s.received| - 1] == s.loop.client)
    && (forall c :: c in Added(s) <==> c in s.clients || c in s.closed)
  }

  /** Removing a client moves it from the map to the closed ones. */
  lemma AccountedRemoval(s: State, c: Id, s': State, loop: Loop)
    requires Accounted(s) && !s.loop.Registering? && !loop.Registering? && s' == Removed(s, c).(loop := loop)
    ensures Accounted(s')
  {
    assert Added(s') == Added(s) == s.received;
  }

  lemma AccountedKept(s: State, s': State)
    requires Accounted(s) && s'.clients == s.clients && s'.closed == s.closed && s'.received == s.received
    requires s'.loop.Registering? <==> s.loop.Registering?
    requires s.loop.Registering? ==> s'.loop == s.loop
    ensures Accounted(s')
  {
    assert Added(s') == Added(s);
  }

  lemma AccountedRegister(s: State, c: Id)
    requires Accounted(s) && s.loop.Idle?
    ensures Accounted(s.(loop := Registering(c), received := s.received + [c]))
  {
    var s' := s.(loop := Registering(c), received := s.received + [c]);
    assert Added(s') == s.received;
  }

  lemma AccountedAdd(s: State)
    requires Accounted(s) && s.loop.Registering?
    ensures Accounted(s.(clients := s.clients + {s.loop.client}, loop := Idle))
  {
    assert s.received == Added(s) + [s.loop.client];
  }

  lemma OthersKeepClients(s: State, e: Step)
    requires Enabled(s, e) && !e.Register? && !e.Add? && !e.Remove? && !e.LoopClose?
    ensures var s' := Apply(s, e);
            && s'.clients == s.clients && s'.closed == s.closed && s'.received == s.received
            && (s'.loop.Registering? <==> s.loop.Registering?) && (s.loop.Registering? ==> s'.loop == s.loop)
  {
  }

  lemma AccountedNext(s: State, e: Step, s': State)
    requires Accounted(s) && Enabled(s, e) && s' == Apply(s, e)
    ensures Accounted(s')
  {
    if e.Register? {
      AccountedRegister(s, e.c);
    } else if e.Add? {
      AccountedAdd(s);
    } else if e.Remove? {
      AccountedRemoval(s, s.loop.client, s', Idle);
    } else if e.LoopClose? {
      AccountedRemoval(s, s.loop.full[0], s', s'.loop);
    } else {
      OthersKeepClients(s, e);
      AccountedKept(s, s');
    }
  }

  /** In every run a client that entered the map is in it with its channel, or has had its channel closed. */
  lemma {:induction false} NoChannelLeaks(states: seq<State>, steps: seq<Step>)
    requires IsRun(states, steps)
    ensures Accounted(states[|steps|])
  {
    if steps != [] {
      var n := |steps| - 1;
      PathPrefix(states, steps);
      NoChannelLeaks(states[..n + 1], steps[..n]);
      var e := steps[n];
      AccountedNext(states[n], e, states[n + 1]);
    }
  }

  predicate Distinct(ids: seq<Id>) {
    forall i, j :: 0 <= i < j < |ids| ==> ids[i] != ids[j]
  }

  lemma {:induction false} ReceivedGrows(states: seq<State>, steps: seq<Step>, i: nat)
    requires IsPath(states, steps) && i <= |steps|
    ensures states[i].received <= states[|steps|].received
    decreases |steps|
  {
    if i < |steps| {
      var n := |steps| - 1;
      PathPrefix(states, steps);
      ReceivedGrows(states[..n + 1], steps[..n], i);
      var e := steps[n];
      assert states[n].received <= Apply(states[n], e).received;
    }
  }

  /** Sound, and the client waiting to be added has an open channel. */
  ghost predicate Ready(s: State) {
    Sound(s) && (s.loop.Registering? ==> s.loop.client !in s.closed)
  }

  /**
   When every client registers at most once, the hub is safe in every state of every run: clients in the map have
   open channels, each channel is closed at most once, and the hub never sends on a closed one.
   */
  lemma RegisteringOnceIsSafe(states: seq<State>, steps: seq<Step>)
    requires IsRun(states, steps) && Distinct(states[|steps|].received)
    ensures forall i :: 0 <= i <= |steps| ==> Ready(states[i])
  {
    forall i | 0 <= i <= |steps|
      ensures states[i].loop.Registering? ==> states[i].loop.client !in states[i].closed
    {
      RunPrefix(states, steps, i);
      NoChannelLeaks(states[..i + 1], steps[..i]);
      ReceivedGrows(states, steps, i);
      PendingIsNew(states[i]);
    }
    OpenIffNoneReadded(states, steps);
  }

  lemma PendingIsNew(s: State)
    requires Accounted(s) && Distinct(s.received)
    ensures s.loop.Registering? ==> s.loop.client !in s.closed
  {
    assert s.loop.Registering? ==> s.loop.client !in Added(s);
  }

  /** A client that registers again after its channel was closed makes the next unregistration panic. */
  lemma SecondRegistrationPanics(c: Id) returns (states: seq<State>, steps: seq<Step>)
    ensures IsRun(states, steps) && states[|steps|].received == [c, c]
    ensures states[|steps|].panicked && states[|steps|].closed[c] == 2
  {
    states, steps := [INITIAL], [];
    states, steps := Continue(states, steps, Register(c));
    states, steps := Continue(states, steps, Add);
    states, steps := Continue(states, steps, Unregister(c));
    states, steps := Continue(states, steps, Remove);
    states, steps := Continue(states, steps, Register(c));
    states, steps := Continue(states, steps, Add);
    states, steps := Continue(states, steps, Unregister(c));
    states, steps := Continue(states, steps, Remove);
  }

  /** Extends a path by one step. */
  lemma Continue(states: seq<State>, steps: seq<Step>, e: Step) returns (states': seq<State>, steps': seq<Step>)
    requires IsPath(states, steps) && Enabled(states[|steps|], e)
    ensures IsPath(states', steps') && steps' == steps + [e]
    ensures states' == states + [Apply(states[|steps|], e)]
  {
    states', steps' := states + [Apply(states[|steps|], e)], steps + [e];
  }

  // Queues stay within bounds

  ghost predicate Bounded(s: State) {
    |s.pending| <= 256 && forall c :: c in s.queues ==> |s.queues[c]| <= 256
  }

  lemma {:induction false} QueuesAreBounded(states: seq<State>, steps: seq<Step>)
    requires IsRun(states, steps)
    ensures Bounded(states[|steps|])
  {
    if steps != [] {
      var n := |steps| - 1;
      PathPrefix(states, steps);
      QueuesAreBounded(states[..n + 1], steps[..n]);
      var e := steps[n];
      assert Bounded(Apply(states[n], e));
    }
  }

  // Each broadcast reaches each client once

  /** How often a broadcast has looked at a client. */
  function Visits(steps: seq<Step>, b: nat, c: Id): nat {
    if steps == [] then 0
    else Visits(steps[..|steps| - 1], b, c) + (if steps[|steps| - 1] == ChannelSend(b, c) then 1 else 0)
  }

  function Todo(call: Call): set<Id> {
    if call.Sending? then call.todo else {}
  }

  /** What a step does to one call: only its own steps change it. */
  lemma CallKept(s: State, e: Step, b: nat)
    requires Enabled(s, e) && b < |s.calls| && !e.ChannelSend? && !e.ChannelDone? && !e.Notify?
    ensures b < |Apply(s, e).calls| && Apply(s, e).calls[b] == s.calls[b]
  {
  }

  lemma TodoShrinks(s: State, e: Step, b: nat)
    requires Enabled(s, e) && b < |s.calls|
    ensures var s' := Apply(s, e);
            && b < |s'.calls| && s'.calls[b].start == s.calls[b].start
            && Todo(s'.calls[b]) == Todo(s.calls[b]) - (if e.ChannelSend? && e.b == b then {e.c} else {})
  {
    if !e.ChannelSend? && !e.ChannelDone? && !e.Notify? {
      CallKept(s, e, b);
    }
  }

  lemma {:induction false} NoVisitsYet(states: seq<State>, steps: seq<Step>, b: nat, c: Id)
    requires IsRun(states, steps) && |states[|steps|].calls| <= b
    ensures Visits(steps, b, c) == 0
  {
    if steps != [] {
      var n := |steps| - 1;
      PathPrefix(states, steps);
      var e := steps[n];
      assert |states[n].calls| <= |Apply(states[n], e).calls|;
      NoVisitsYet(states[..n + 1], steps[..n], b, c);
    }
  }

  /**
   However calls interleave, a BroadcastToChannel call looks at every client that was in the map when it began exactly
   once, and at no other; what it has yet to look at is its `todo`.
   */
  lemma {:induction false} EachClientVisitedOnce(states: seq<State>, steps: seq<Step>, b: nat, c: Id)
    requires IsRun(states, steps) && b < |states[|steps|].calls|
    ensures var call := states[|steps|].calls[b];
            && Todo(call) <= call.start
            && Visits(steps, b, c) == if c in call.start && c !in Todo(call) then 1 else 0
  {
    var n := |steps| - 1;
    PathPrefix(states, steps);
    var e, s := steps[n], states[n];
    if b < |s.calls| {
      EachClientVisitedOnce(states[..n + 1], steps[..n], b, c);
      TodoShrinks(s, e, b);
    } else {
      NoVisitsYet(states[..n + 1], steps[..n], b, c);
    }
  }

  /**
   What a visit does: the message goes, once, to the end of the queue of a subscribed client with room; a subscribed
   client without room joins the list of the call; no other queue, and no other call, changes.
   */
  lemma VisitDelivers(states: seq<State>, steps: seq<Step>, n: nat, b: nat, c: Id)
    requires IsRun(states, steps) && n < |steps| && steps[n] == ChannelSend(b, c)
    requires forall i {:trigger steps[i]} :: 0 <= i < |steps| ==> !AddsClosed(states[i], steps[i])
    ensures var s, s' := states[n], states[n + 1];
            && b < |s.calls| == |s'.calls| && s.calls[b].Sending? && s'.calls[b].Sending?
            && var taker := (c, s.calls[b].channel) in s.channels;
            && Queue(s', c) == Queue(s, c) + (if taker && |Queue(s, c)| < 256 then [s.calls[b].message] else [])
            && s'.calls[b].full == s.calls[b].full + (if taker && |Queue(s, c)| >= 256 then [c] else [])
            && (forall d :: d != c ==> Queue(s', d) == Queue(s, d))
            && (forall a :: 0 <= a < |s.calls| && a != b ==> s'.calls[a] == s.calls[a])
            && s'.clients == s.clients && s'.closed == s.closed && !s'.panicked
  {
    OpenIffNoneReadded(states, steps);
    var s, e := states[n], steps[n];
    assert states[n + 1] == Apply(s, e);
    assert Sound(s) && c in s.clients;
  }

  /** The client is subscribed to the channel of the call and has room. */
  predicate Takes(s: State, b: nat, c: Id) {
    b < |s.calls| && s.calls[b].Sending? && (c, s.calls[b].channel) in s.channels && |Queue(s, c)| < CAPACITY
  }

  /** Call `b` appends its message to the queue of the client. */
  ghost predicate Appends(s: State, e: Step, s': State, b: nat, c: Id) {
    && e.ChannelSend? && e.b == b && b < |s.calls| && s.calls[b].Sending?
    && Queue(s', c) == Queue(s, c) + [s.calls[b].message]
  }

  ghost predicate SafeRun(states: seq<State>, steps: seq<Step>) {
    && IsRun(states, steps)
    && forall i {:trigger steps[i]} :: 0 <= i < |steps| ==> !AddsClosed(states[i], steps[i])
  }

  lemma AppendsIff(states: seq<State>, steps: seq<Step>, n: nat, b: nat, c: Id)
    requires SafeRun(states, steps) && n < |steps|
    ensures Appends(states[n], steps[n], states[n + 1], b, c) <==>
            steps[n] == ChannelSend(b, c) && Takes(states[n], b, c)
  {
    if steps[n].ChannelSend? && steps[n].b == b {
      VisitDelivers(states, steps, n, b, steps[n].c);
    }
  }

  /** How often, within the first `n` steps, call `b` appended its message to the queue of the client. */
  ghost function Deliveries(states: seq<State>, steps: seq<Step>, n: nat, b: nat, c: Id): nat
    requires n <= |steps| < |states|
  {
    if n == 0 then 0
    else
      Deliveries(states, steps, n - 1, b, c)
      + (if Appends(states[n - 1], steps[n - 1], states[n], b, c) then 1 else 0)
  }

  lemma VisitsNext(steps: seq<Step>, n: nat, b: nat, c: Id)
    requires 0 < n <= |steps|
    ensures Visits(steps[..n], b, c)
         == Visits(steps[..n - 1], b, c) + (if steps[n - 1] == ChannelSend(b, c) then 1 else 0)
  {
    assert steps[..n][..n - 1] == steps[..n - 1];
  }

  lemma {:induction false} Unvisited(steps: seq<Step>, n: nat, b: nat, c: Id)
    requires n <= |steps| && Visits(steps[..n], b, c) == 0
    ensures forall i :: 0 <= i < n ==> steps[i] != ChannelSend(b, c)
  {
    if n > 0 {
      VisitsNext(steps, n, b, c);
      Unvisited(steps, n - 1, b, c);
    }
  }

  /** Call `b` appends to the queue exactly when it visits the client and the client takes the message. */
  ghost predicate AppendsByVisits(states: seq<State>, steps: seq<Step>, b: nat, c: Id) {
    && |states| == |steps| + 1
    && forall i {:trigger steps[i]} :: 0 <= i < |steps| ==>
         (Appends(states[i], steps[i], states[i + 1], b, c) <==>
            steps[i] == ChannelSend(b, c) && Takes(states[i], b, c))
  }

  lemma DeliveriesNext(states: seq<State>, steps: seq<Step>, n: nat, b: nat, c: Id)
    requires AppendsByVisits(states, steps, b, c) && 0 < n <= |steps|
    ensures Deliveries(states, steps, n, b, c)
         == Deliveries(states, steps, n - 1, b, c)
            + (if steps[n - 1] == ChannelSend(b, c) && Takes(states[n - 1], b, c) then 1 else 0)
  {
    var e := steps[n - 1];
  }

  lemma {:induction false} UnvisitedGetsNothing(states: seq<State>, steps: seq<Step>, n: nat, b: nat, c: Id)
    requires AppendsByVisits(states, steps, b, c) && n <= |steps| && Visits(steps[..n], b, c) == 0
    ensures Deliveries(states, steps, n, b, c) == 0
  {
    if n > 0 {
      VisitsNext(steps, n, b, c);
      UnvisitedGetsNothing(states, steps, n - 1, b, c);
      DeliveriesNext(states, steps, n, b, c);
    }
  }

  lemma {:induction false} VisitedGetsOne(states: seq<State>, steps: seq<Step>, n: nat, b: nat, c: Id) returns (i: nat)
    requires AppendsByVisits(states, steps, b, c) && n <= |steps| && Visits(steps[..n], b, c) == 1
    ensures i < n && steps[i] == ChannelSend(b, c) && forall j :: 0 <= j < n && steps[j] == ChannelSend(b, c) ==> j == i
    ensures Deliveries(states, steps, n, b, c) == if Takes(states[i], b, c) then 1 else 0
  {
    assert n > 0;
    VisitsNext(steps, n, b, c);
    DeliveriesNext(states, steps, n, b, c);
    if steps[n - 1] == ChannelSend(b, c) {
      UnvisitedGetsNothing(states, steps, n - 1, b, c);
      Unvisited(steps, n - 1, b, c);
      i := n - 1;
    } else {
      i := VisitedGetsOne(states, steps, n - 1, b, c);
    }
  }

  /** Step `i` is the only visit of call `b` to the client. */
  ghost predicate OnlyVisit(steps: seq<Step>, i: int, b: nat, c: Id) {
    && 0 <= i < |steps| && steps[i] == ChannelSend(b, c)
    && forall j :: 0 <= j < |steps| && steps[j] == ChannelSend(b, c) ==> j == i
  }

  /**
   Exact delivery under concurrency: in every safe run, a call that has gone through the clients appended its message
   once to the queue of each client that was in the map when it began and was subscribed with room when the call came
   to it, and to no other queue.
   */
  lemma BroadcastDeliversOnce(states: seq<State>, steps: seq<Step>, b: nat, c: Id)
    requires SafeRun(states, steps) && b < |states[|steps|].calls| && states[|steps|].calls[b].Notifying?
    ensures c !in states[|steps|].calls[b].start ==> Deliveries(states, steps, |steps|, b, c) == 0
    ensures c in states[|steps|].calls[b].start ==>
              exists i :: OnlyVisit(steps, i, b, c)
                          && Deliveries(states, steps, |steps|, b, c) == if Takes(states[i], b, c) then 1 else 0
  {
    EachClientVisitedOnce(states, steps, b, c);
    forall i {:trigger steps[i]} | 0 <= i < |steps|
      ensures Appends(states[i], steps[i], states[i + 1], b, c) <==>
              steps[i] == ChannelSend(b, c) && Takes(states[i], b, c)
    {
      AppendsIff(states, steps, i, b, c);
    }
    Totalled(states, steps, b, c);
  }

  /** Counting the visits counts the deliveries. */
  lemma Totalled(states: seq<State>, steps: seq<Step>, b: nat, c: Id)
    requires AppendsByVisits(states, steps, b, c) && Visits(steps, b, c) <= 1
    ensures Visits(steps, b, c) == 0 ==> Deliveries(states, steps, |steps|, b, c) == 0
    ensures Visits(steps, b, c) == 1 ==>
              exists i :: OnlyVisit(steps, i, b, c)
                          && Deliveries(states, steps, |steps|, b, c) == if Takes(states[i], b, c) then 1 else 0
  {
    assert steps[..|steps|] == steps;
    if Visits(steps, b, c) == 1 {
      var i := VisitedGetsOne(states, steps, |steps|, b, c);
      assert OnlyVisit(steps, i, b, c);
    } else {
      UnvisitedGetsNothing(states, steps, |steps|, b, c);
    }
  }

  /** A call or the loop has put the client aside for removal. */
  predicate Full(s: State, c: Id) {
    || ((s.loop.Broadcasting? || s.loop.Closing?) && c in s.loop.full)
    || exists b :: 0 <= b < |s.calls| && c in s.calls[b].full
  }

  ghost predicate QueueWasFull(states: seq<State>, n: nat, c: Id) {
    exists i :: 0 <= i < n && i < |states| && |Queue(states[i], c)| >= 256
  }

  lemma FullGrows(s: State, e: Step, c: Id)
    requires Enabled(s, e) && Full(Apply(s, e), c)
    ensures Full(s, c) || |Queue(s, c)| >= CAPACITY
  {
    var s' := Apply(s, e);
    if !((s'.loop.Broadcasting? || s'.loop.Closing?) && c in s'.loop.full) {
      var b :| 0 <= b < |s'.calls| && c in s'.calls[b].full;
      if b < |s.calls| {
        assert c in s.calls[b].full || |Queue(s, c)| >= CAPACITY;
      }
    }
  }

  /** Broadcasts put only slow clients aside: whoever is on a list had a full queue earlier in the run. */
  lemma {:induction false} OnlySlowClientsAreDropped(states: seq<State>, steps: seq<Step>, n: nat, c: Id)
    requires IsRun(states, steps) && n <= |steps| && Full(states[n], c)
    ensures QueueWasFull(states, n, c)
  {
    assert n > 0;
    var s, e := states[n - 1], steps[n - 1];
    assert states[n] == Apply(s, e);
    FullGrows(s, e, c);
    if Full(s, c) {
      OnlySlowClientsAreDropped(states, steps, n - 1, c);
    } else {
      assert |Queue(states[n - 1], c)| >= CAPACITY;
    }
  }

  // The loop gets back to its select

  /** Steps of the loop and of calls that hold the read lock; the others wait for the loop or come from outside. */
  predicate Internal(e: Step) {
    || e.Add? || e.Remove? || e.LoopSend? || e.LoopDone? || e.LoopClose? || e.LoopReturn?
    || e.ChannelSend? || e.ChannelDone?
  }

  function LoopWork(loop: Loop): nat {
    match loop
    case Idle => 0
    case Registering(_) => 1
    case Unregistering(_) => 1
    case Broadcasting(_, todo, full) => 2 * |todo| + |full| + 2
    case Closing(full) => |full| + 1
  }

  function CallWork(call: Call): nat {
    if call.Sending? then |call.todo| + 1 else 0
  }

  function CallsWork(calls: seq<Call>): nat {
    if calls == [] then 0 else CallsWork(calls[..|calls| - 1]) + CallWork(calls[|calls| - 1])
  }

  /** A bound on the internal steps left. */
  function Work(s: State): nat {
    LoopWork(s.loop) + CallsWork(s.calls)
  }

  lemma {:induction false} CallsWorkUpdated(calls: seq<Call>, b: nat, call: Call)
    requires b < |calls|
    ensures CallsWork(calls[b := call]) == CallsWork(calls) - CallWork(calls[b]) + CallWork(call)
  {
    var n := |calls| - 1;
    var after := calls[b := call];
    if b == n {
      assert after[..n] == calls[..n];
    } else {
      assert after[..n] == calls[..n][b := call];
      assert CallsWork(after) == CallsWork(calls[..n][b := call]) + CallWork(calls[n]);
      CallsWorkUpdated(calls[..n], b, call);
    }
  }

  lemma Fewer(a: set<Id>, c: Id)
    requires c in a
    ensures |a - {c}| == |a| - 1
  {
  }

  lemma InternalWorks(s: State, e: Step)
    requires Enabled(s, e) && Internal(e)
    ensures Work(Apply(s, e)) < Work(s)
  {
    if e.ChannelSend? {
      var call := Apply(s, e).calls[e.b];
      CallsWorkUpdated(s.calls, e.b, call);
      Fewer(s.calls[e.b].todo, e.c);
    } else if e.ChannelDone? {
      CallsWorkUpdated(s.calls, e.b, Apply(s, e).calls[e.b]);
    } else if e.LoopSend? {
      Fewer(s.loop.todo, e.c);
    }
  }

  /** From any state at most `Work` internal steps can follow. */
  lemma {:induction false} InternalRunsAreShort(states: seq<State>, steps: seq<Step>)
    requires IsPath(states, steps) && forall i :: 0 <= i < |steps| ==> Internal(steps[i])
    ensures |steps| + Work(states[|steps|]) <= Work(states[0])
  {
    if steps != [] {
      var n := |steps| - 1;
      PathPrefix(states, steps);
      InternalRunsAreShort(states[..n + 1], steps[..n]);
      var e := steps[n];
      InternalWorks(states[n], e);
    }
  }

  /** Outside its select, the loop or a call holding the read lock can go on: nobody waits while holding the lock. */
  lemma LoopIsNeverStuck(s: State) returns (e: Step)
    requires !s.panicked && !s.loop.Idle?
    ensures Internal(e) && Enabled(s, e)
  {
    if b :| 0 <= b < |s.calls| && s.calls[b].Sending? {
      if s.calls[b].todo == {} {
        e := ChannelDone(b);
      } else {
        var c :| c in s.calls[b].todo;
        e := ChannelSend(b, c);
      }
    } else {
      match s.loop
      case Registering(_) => e := Add;
      case Unregistering(_) => e := Remove;
      case Broadcasting(_, todo, _) =>
        if todo == {} {
          e := LoopDone;
        } else {
          var c :| c in todo;
          e := LoopSend(c);
        }
      case Closing(full) =>
        if full == [] {
          e := LoopReturn;
        } else {
          e := LoopClose;
        }
    }
  }

  lemma ReadyNext(s: State, e: Step)
    requires Ready(s) && Enabled(s, e) && Internal(e)
    ensures Ready(Apply(s, e))
  {
    SoundNext(s, e);
  }

  /** Internal steps leave alone the calls that wait to hand over a full client. */
  lemma WaitersKept(s: State, e: Step, b: nat)
    requires Enabled(s, e) && Internal(e) && b < |s.calls| && s.calls[b].Notifying?
    ensures b < |Apply(s, e).calls| && Apply(s, e).calls[b] == s.calls[b]
  {
  }

  /**
   From every safe state internal steps alone, no more than `Work`, bring the loop back to its select, where a call
   that waits to unregister a client is received.
   */
  lemma {:induction false} WaitersAreReceived(s: State, b: nat) returns (states: seq<State>, steps: seq<Step>)
    requires Ready(s) && b < |s.calls| && s.calls[b].Notifying? && s.calls[b].full != []
    ensures IsPath(states, steps) && states[0] == s && |steps| <= Work(s)
    ensures forall i :: 0 <= i < |steps| ==> Internal(steps[i])
    ensures Enabled(states[|steps|], Notify(b))
    decreases Work(s)
  {
    if s.loop.Idle? {
      return [s], [];
    }
    var e := LoopIsNeverStuck(s);
    var s' := Apply(s, e);
    InternalWorks(s, e);
    ReadyNext(s, e);
    WaitersKept(s, e, b);
    var states', steps' := WaitersAreReceived(s', b);
    states, steps := Prepend(s, e, states', steps');
  }

  /** A call stays ready to hand over its full client until the loop takes it: at every select it is a ready case. */
  lemma {:induction false} WaitersStayReady(states: seq<State>, steps: seq<Step>, b: nat)
    requires IsPath(states, steps) && forall i :: 0 <= i < |steps| ==> steps[i] != Notify(b)
    requires b < |states[0].calls| && states[0].calls[b].Notifying? && states[0].calls[b].full != []
    ensures b < |states[|steps|].calls| && states[|steps|].calls[b] == states[0].calls[b]
    ensures var s := states[|steps|];
            s.loop.Idle? && !s.panicked ==> Enabled(s, Notify(b))
  {
    if steps != [] {
      var n := |steps| - 1;
      PathPrefix(states, steps);
      WaitersStayReady(states[..n + 1], steps[..n], b);
      var e := steps[n];
      WaiterKept(states[n], e, b);
    }
  }

  lemma WaiterKept(s: State, e: Step, b: nat)
    requires Enabled(s, e) && e != Notify(b) && b < |s.calls| && s.calls[b].Notifying?
    ensures b < |Apply(s, e).calls| && Apply(s, e).calls[b] == s.calls[b]
  {
  }

  lemma Prepend(s: State, e: Step, states: seq<State>, steps: seq<Step>)
    returns (states': seq<State>, steps': seq<Step>)
    requires Enabled(s, e) && IsPath(states, steps) && states[0] == Apply(s, e)
    ensures IsPath(states', steps') && states' == [s] + states && steps' == [e] + steps
  {
    states', steps' := [s] + states, [e] + steps;
    forall i {:trigger steps'[i]} | 0 <= i < |steps'|
      ensures Enabled(states'[i], steps'[i]) && states'[i + 1] == Apply(states'[i], steps'[i])
    {
      if i > 0 {
        assert steps'[i] == steps[i - 1];
      }
    }
  }
}
