/**
 The WebSocket hub (pkg/websocket/hub.go) as interleaved steps: the Run loop, any number of concurrent
 BroadcastToChannel calls, and the clients' own goroutines.

 A step is what one goroutine does without another one seeing a state in between. The read lock is held by a loop that
 is `Broadcasting` and by a call that is `Sending`; a step that takes the write lock needs every reader gone. Sending
 on a closed channel, or closing one again, panics, after which nothing happens any more.
 */
module HubProtocol {

  type Id = nat
  type Payload = string

  /** The size of a client's send queue and of the hub's broadcast queue. */
  const CAPACITY := 256

  /** Where the Run loop is: in its select, or within one of the three cases. */
  datatype Loop =
    | Idle
    | Registering(client: Id)
    | Unregistering(client: Id)
    | Broadcasting(message: Payload, todo: set<Id>, full: seq<Id>)
    | Closing(full: seq<Id>)

  /**
   Where a BroadcastToChannel call is: going through the clients, or handing the full ones to the loop. `start` is
   the set of clients it found in the map.
   */
  datatype Call =
    | Sending(channel: string, message: Payload, start: set<Id>, todo: set<Id>, full: seq<Id>)
    | Notifying(start: set<Id>, full: seq<Id>)

  datatype State = State(
    clients: set<Id>,
    queues: map<Id, seq<Payload>>,
    closed: multiset<Id>, // every close of a client's channel
    channels: set<(Id, string)>,
    pending: seq<Payload>,
    loop: Loop,
    calls: seq<Call>,
    received: seq<Id>, // every client the loop received for registration
    panicked: bool)

  const INITIAL := State({}, map[], multiset{}, {}, [], Idle, [], [], false)

  datatype Step =
    | Register(c: Id)
    | Add
    | Unregister(c: Id)
    | Notify(b: nat)
    | Remove
    | Enqueue(m: Payload)
    | Dequeue
    | LoopSend(c: Id)
    | LoopDone
    | LoopClose
    | LoopReturn
    | BeginChannel(channel: string, m: Payload)
    | ChannelSend(b: nat, c: Id)
    | ChannelDone(b: nat)
    | Take(c: Id)
    | Subscribe(c: Id, channel: string)
    | Unsubscribe(c: Id, channel: string)

  function Queue(s: State, c: Id): seq<Payload> {
    if c in s.queues then s.queues[c] else []
  }

  /** No broadcaster holds the read lock. */
  predicate Unread(s: State) {
    forall b :: 0 <= b < |s.calls| ==> s.calls[b].Notifying?
  }

  predicate Enabled(s: State, e: Step) {
    && !s.panicked
    && match e
       case Register(_) => s.loop.Idle?
       case Add => s.loop.Registering? && Unread(s)
       case Unregister(_) => s.loop.Idle?
       case Notify(b) => s.loop.Idle? && b < |s.calls| && s.calls[b].Notifying? && s.calls[b].full != []
       case Remove => s.loop.Unregistering? && Unread(s)
       case Enqueue(_) => |s.pending| < CAPACITY
       case Dequeue => s.loop.Idle? && s.pending != []
       case LoopSend(c) => s.loop.Broadcasting? && c in s.loop.todo
       case LoopDone => s.loop.Broadcasting? && s.loop.todo == {}
       case LoopClose => s.loop.Closing? && s.loop.full != [] && Unread(s)
       case LoopReturn => s.loop.Closing? && s.loop.full == []
       case BeginChannel(_, _) => true
       case ChannelSend(b, c) => b < |s.calls| && s.calls[b].Sending? && c in s.calls[b].todo
       case ChannelDone(b) => b < |s.calls| && s.calls[b].Sending? && s.calls[b].todo == {}
       case Take(c) => Queue(s, c) != []
       case Subscribe(_, _) => true
       case Unsubscribe(_, _) => true
  }

  /** The non-blocking send of the hub. */
  function Offered(s: State, c: Id, m: Payload): State {
    if c in s.closed then s.(panicked := true)
    else if |Queue(s, c)| < CAPACITY then s.(queues := s.queues[c := Queue(s, c) + [m]])
    else s
  }

  /** Who is added to the list of full clients by that send. */
  function Rejected(s: State, c: Id): seq<Id> {
    if |Queue(s, c)| < CAPACITY then [] else [c]
  }

  /** What both ways of removing a client do under the write lock. */
  function Removed(s: State, c: Id): State {
    if c in s.clients then
      s.(clients := s.clients - {c}, closed := s.closed + multiset{c}, panicked := c in s.closed)
    else s
  }

  function Apply(s: State, e: Step): State
    requires Enabled(s, e)
  {
    match e
    case Register(c) => s.(loop := Registering(c), received := s.received + [c])
    case Add => s.(clients := s.clients + {s.loop.client}, loop := Idle)
    case Unregister(c) => s.(loop := Unregistering(c))
    case Notify(b) =>
      s.(loop := Unregistering(s.calls[b].full[0]), calls := s.calls[b := s.calls[b].(full := s.calls[b].full[1..])])
    case Remove => Removed(s, s.loop.client).(loop := Idle)
    case Enqueue(m) => s.(pending := s.pending + [m])
    case Dequeue => s.(loop := Broadcasting(s.pending[0], s.clients, []), pending := s.pending[1..])
    case LoopSend(c) =>
      Offered(s, c, s.loop.message)
        .(loop := s.loop.(todo := s.loop.todo - {c}, full := s.loop.full + Rejected(s, c)))
    case LoopDone => s.(loop := Closing(s.loop.full))
    case LoopClose => Removed(s, s.loop.full[0]).(loop := Closing(s.loop.full[1..]))
    case LoopReturn => s.(loop := Idle)
    case BeginChannel(channel, m) => s.(calls := s.calls + [Sending(channel, m, s.clients, s.clients, [])])
    case ChannelSend(b, c) =>
      var call := s.calls[b];
      if (c, call.channel) in s.channels then
        Offered(s, c, call.message)
          .(calls := s.calls[b := call.(todo := call.todo - {c}, full := call.full + Rejected(s, c))])
      else s.(calls := s.calls[b := call.(todo := call.todo - {c})])
    case ChannelDone(b) => s.(calls := s.calls[b := Notifying(s.calls[b].start, s.calls[b].full)])
    case Take(c) => s.(queues := s.queues[c := Queue(s, c)[1..]])
    case Subscribe(c, channel) => s.(channels := s.channels + {(c, channel)})
    case Unsubscribe(c, channel) => s.(channels := s.channels - {(c, channel)})
  }

  /** A run from `states[0]`: `steps[i]` leads from `states[i]` to `states[i + 1]`. */
  ghost predicate IsPath(states: seq<State>, steps: seq<Step>) {
    && |states| == |steps| + 1
    && forall i {:trigger steps[i]} :: 0 <= i < |steps| ==>
         Enabled(states[i], steps[i]) && states[i + 1] == Apply(states[i], steps[i])
  }

  ghost predicate IsRun(states: seq<State>, steps: seq<Step>) {
    IsPath(states, steps) && states[0] == INITIAL
  }

  lemma PathPrefix(states: seq<State>, steps: seq<Step>)
    requires IsPath(states, steps) && steps != []
    ensures IsPath(states[..|steps|], steps[..|steps| - 1])
  {
    var init := steps[..|steps| - 1];
    forall i {:trigger init[i]} | 0 <= i < |init|
      ensures Enabled(states[i], init[i]) && states[i + 1] == Apply(states[i], init[i])
    {
      assert init[i] == steps[i];
    }
  }
}
