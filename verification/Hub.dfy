/**
 The hub and its clients as objects (pkg/websocket/hub.go, pkg/websocket/client.go): what one broadcast, registration
 or unregistration does to the map, the bounded send queues and the channels when nothing interferes.
 */
module Hub {
  import opened HubProtocol

  class Client {
    var send: seq<Payload>
    var closed: bool
    var channels: set<string>

    constructor ()
      ensures send == [] && !closed && channels == {}
    {
      send, closed, channels := [], false, {};
    }

    predicate HasChannel(channel: string)
      reads this
    {
      channel in channels
    }

    method AddChannel(channel: string)
      modifies this`channels
      ensures forall ch :: HasChannel(ch) <==> ch == channel || old(HasChannel(ch))
    {
      channels := channels + {channel};
    }

    method RemoveChannel(channel: string)
      modifies this`channels
      ensures forall ch :: HasChannel(ch) <==> ch != channel && old(HasChannel(ch))
    {
      channels := channels - {channel};
    }

    predicate HasRoom()
      reads this
    {
      |send| < CAPACITY
    }

    /** The non-blocking send; it panics on a closed channel. */
    method Offer(m: Payload) returns (ok: bool)
      requires !closed
      modifies this`send
      ensures ok == old(HasRoom()) == (|old(send)| < 256)
      ensures send == if ok then old(send) + [m] else old(send)
    {
      ok := |send| < CAPACITY;
      if ok {
        send := send + [m];
      }
    }
  }

  ghost predicate NoRepeats(cs: seq<Client>) {
    forall i, j :: 0 <= i < j < |cs| ==> cs[i] != cs[j]
  }

  class Registry {
    var clients: set<Client>

    /** Everyone in the map has an open channel and a queue within bounds. */
    ghost predicate Valid()
      reads this, clients
    {
      forall c :: c in clients ==> !c.closed && |c.send| <= CAPACITY
    }

    constructor ()
      ensures Valid() && clients == {}
    {
      clients := {};
    }

    /** The register case of Run, which has no guard against a client whose channel was closed before. */
    method HandleRegister(client: Client)
      requires Valid()
      modifies this
      ensures clients == old(clients) + {client}
      ensures Valid() <==> !client.closed && |client.send| <= CAPACITY
    {
      clients := clients + {client};
    }

    /** The unregister case of Run: a client in the map is closed; for any other nothing happens. */
    method HandleUnregister(client: Client)
      requires Valid()
      modifies this, client`closed
      ensures Valid() && clients == old(clients) - {client}
      ensures client.closed == (old(client.closed) || client in old(clients))
    {
      if client in clients {
        clients := clients - {client};
        client.closed := true;
      }
    }

    /**
     The first half of BroadcastToChannel, under the read lock. The message goes once to exactly the subscribed
     clients with room; exactly the subscribed clients without room are returned, each once; all else stays.
     */
    method BroadcastToChannel(channel: string, m: Payload) returns (full: seq<Client>)
      requires Valid()
      modifies clients`send
      ensures Valid() && forall c :: c in clients ==> |c.send| <= 256
      ensures forall c :: c in clients ==>
                c.send == old(c.send) + (if c.HasChannel(channel) && old(c.HasRoom()) then [m] else [])
      ensures forall c :: c in full <==> c in clients && c.HasChannel(channel) && !old(c.HasRoom())
      ensures NoRepeats(full)
    {
      full := [];
      var todo := clients;
      while todo != {}
        invariant todo <= clients && Valid()
        invariant forall c :: c in todo ==> c.send == old(c.send)
        invariant forall c :: c in clients - todo ==>
                    c.send == old(c.send) + (if c.HasChannel(channel) && old(c.HasRoom()) then [m] else [])
        invariant forall c :: c in full <==> c in clients - todo && c.HasChannel(channel) && !old(c.HasRoom())
        invariant NoRepeats(full)
        decreases |todo|
      {
        var c :| c in todo;
        if c.HasChannel(channel) {
          var ok := c.Offer(m);
          if !ok {
            full := full + [c];
          }
        }
        todo := todo - {c};
      }
    }

    /** A list of clients is unregistered one after the other. */
    method UnregisterAll(full: seq<Client>)
      requires Valid()
      modifies this, full
      ensures Valid() && clients == old(clients) - (set c | c in full)
      ensures forall c :: c in full ==> c.closed == (old(c.closed) || c in old(clients))
      ensures forall c :: c in full ==> c.send == old(c.send) && c.channels == old(c.channels)
    {
      for i := 0 to |full|
        invariant clients == old(clients) - (set c | c in full[..i])
        invariant forall c :: c in full ==> c.send == old(c.send) && c.channels == old(c.channels)
        invariant forall c :: c in full ==> c.closed == (old(c.closed) || (c in old(clients) && c in full[..i]))
      {
        assert full[..i + 1] == full[..i] + [full[i]];
        HandleUnregister(full[i]);
      }
      assert full[..|full|] == full;
    }

    /** The whole of BroadcastToChannel, with the loop handling its unregistrations: slow subscribers are dropped. */
    method DeliverToChannel(channel: string, m: Payload)
      requires Valid()
      modifies this, clients
      ensures Valid()
      ensures forall c :: c in old(clients) ==>
                (c in clients <==> !(c.HasChannel(channel) && !old(c.HasRoom())))
      ensures clients <= old(clients)
      ensures forall c :: c in old(clients) ==> (c.closed <==> c !in clients)
      ensures forall c :: c in old(clients) ==>
                && c.channels == old(c.channels)
                && c.send == old(c.send) + (if c.HasChannel(channel) && old(c.HasRoom()) then [m] else [])
    {
      var full := BroadcastToChannel(channel, m);
      UnregisterAll(full);
    }

    /** The first half of the broadcast case of Run, under the read lock. */
    method SendToAll(m: Payload) returns (full: seq<Client>)
      requires Valid()
      modifies clients`send
      ensures Valid() && forall c :: c in clients ==> |c.send| <= 256
      ensures forall c :: c in clients ==> c.send == old(c.send) + (if old(c.HasRoom()) then [m] else [])
      ensures forall c :: c in full <==> c in clients && !old(c.HasRoom())
      ensures NoRepeats(full)
    {
      full := [];
      var todo := clients;
      while todo != {}
        invariant todo <= clients && Valid()
        invariant forall c :: c in todo ==> c.send == old(c.send)
        invariant forall c :: c in clients - todo ==> c.send == old(c.send) + (if old(c.HasRoom()) then [m] else [])
        invariant forall c :: c in full <==> c in clients - todo && !old(c.HasRoom())
        invariant NoRepeats(full)
        decreases |todo|
      {
        var c :| c in todo;
        var ok := c.Offer(m);
        if !ok {
          full := full + [c];
        }
        todo := todo - {c};
      }
    }

    /**
     The broadcast case of Run: every client with room gets the message, and every client without room is closed and
     dropped.
     */
    method HandleBroadcast(m: Payload)
      requires Valid()
      modifies this, clients
      ensures Valid() && clients == set c | c in old(clients) && old(c.HasRoom())
      ensures forall c :: c in old(clients) ==>
                && c.closed == !old(c.HasRoom()) && c.channels == old(c.channels)
                && c.send == old(c.send) + (if old(c.HasRoom()) then [m] else [])
    {
      var full := SendToAll(m);
      UnregisterAll(full);
    }
  }
}
