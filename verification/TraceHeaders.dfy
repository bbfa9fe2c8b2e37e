/**
 The Kafka message as a carrier of trace headers (pkg/kafka/trace_headers.go). Headers are a list in which a key may
 occur more than once; readers look at the first occurrence, and consumers route on the header "event_type".
 */
module TraceHeaders {

  datatype Header = Header(key: string, value: string)

  const EVENT_TYPE := "event_type"

  /** All values under a key, in order. */
  function Values(headers: seq<Header>, key: string): seq<string> {
    if headers == [] then []
    else (if headers[0].key == key then [headers[0].value] else []) + Values(headers[1..], key)
  }

  /** What a reader sees under a key: the first value, or the empty string. */
  function Lookup(headers: seq<Header>, key: string): string {
    var values := Values(headers, key);
    if values == [] then "" else values[0]
  }

  /** Whether `i` is the first place with the key. */
  predicate FirstAt(headers: seq<Header>, key: string, i: nat) {
    && i < |headers| && headers[i].key == key
    && forall j :: 0 <= j < i ==> headers[j].key != key
  }

  /** The headers after a Set: the first occurrence is overwritten, and a missing key goes to the end. */
  function Assign(headers: seq<Header>, key: string, value: string): seq<Header> {
    if headers == [] then [Header(key, value)]
    else if headers[0].key == key then [Header(key, value)] + headers[1..]
    else [headers[0]] + Assign(headers[1..], key, value)
  }

  /** The headers after a series of Sets. */
  function AssignAll(headers: seq<Header>, sets: seq<Header>): seq<Header> {
    if sets == [] then headers
    else
      var last := sets[|sets| - 1];
      Assign(AssignAll(headers, sets[..|sets| - 1]), last.key, last.value)
  }

  /** The position of the last Set of a key, or -1. */
  function LastSet(sets: seq<Header>, key: string): (r: int)
    ensures -1 <= r < |sets|
    ensures r >= 0 ==> sets[r].key == key
    ensures forall j :: r < j < |sets| ==> sets[j].key != key
  {
    if sets == [] then -1
    else if sets[|sets| - 1].key == key then |sets| - 1
    else LastSet(sets[..|sets| - 1], key)
  }

  lemma {:induction false} ValuesSplit(a: seq<Header>, b: seq<Header>, key: string)
    ensures Values(a + b, key) == Values(a, key) + Values(b, key)
  {
    if a == [] {
      assert a + b == b;
    } else {
      assert (a + b)[1..] == a[1..] + b;
      ValuesSplit(a[1..], b, key);
    }
  }

  lemma {:induction false} NoValues(headers: seq<Header>, key: string)
    requires forall j :: 0 <= j < |headers| ==> headers[j].key != key
    ensures Values(headers, key) == []
  {
    if headers != [] {
      NoValues(headers[1..], key);
    }
  }

  lemma FirstValue(headers: seq<Header>, key: string, i: nat)
    requires FirstAt(headers, key, i)
    ensures Values(headers, key) == [headers[i].value] + Values(headers[i + 1..], key)
  {
    assert headers == headers[..i] + headers[i..];
    ValuesSplit(headers[..i], headers[i..], key);
    NoValues(headers[..i], key);
    assert headers[i..][1..] == headers[i + 1..];
  }

  lemma {:induction false} AssignAt(headers: seq<Header>, key: string, value: string, i: nat)
    requires FirstAt(headers, key, i)
    ensures Assign(headers, key, value) == headers[i := Header(key, value)]
  {
    if i > 0 {
      AssignAt(headers[1..], key, value, i - 1);
    }
  }

  lemma {:induction false} AssignMissing(headers: seq<Header>, key: string, value: string)
    requires forall j :: 0 <= j < |headers| ==> headers[j].key != key
    ensures Assign(headers, key, value) == headers + [Header(key, value)]
  {
    if headers != [] {
      AssignMissing(headers[1..], key, value);
    }
  }

  /**
   A Set on any list, duplicates included: under its own key it replaces the first value and keeps the others, and
   every other key keeps all its values in order.
   */
  lemma {:induction false} AssignValues(headers: seq<Header>, key: string, value: string, k: string)
    ensures var before, after := Values(headers, k), Values(Assign(headers, key, value), k);
            after == if k != key then before else if before == [] then [value] else before[0 := value]
  {
    if headers == [] {
      assert Values([Header(key, value)], k) == (if k == key then [value] else []) + Values([], k);
    } else if headers[0].key == key {
      var after := [Header(key, value)] + headers[1..];
      assert after[1..] == headers[1..];
    } else {
      var rest := Assign(headers[1..], key, value);
      assert ([headers[0]] + rest)[1..] == rest;
      AssignValues(headers[1..], key, value, k);
    }
  }

  /** Nothing is lost or moved: the keys stay where they are, and a missing key is added at the end. */
  lemma {:induction false} AssignKeepsPlaces(headers: seq<Header>, key: string, value: string)
    ensures var after := Assign(headers, key, value);
            && |headers| <= |after|
            && (forall i :: 0 <= i < |headers| ==> after[i].key == headers[i].key)
            && (forall i :: 0 <= i < |headers| && !FirstAt(headers, key, i) ==> after[i] == headers[i])
            && (if exists i :: FirstAt(headers, key, i) then |after| == |headers|
                else after == headers + [Header(key, value)])
  {
    if i: nat :| FirstAt(headers, key, i) {
      AssignAt(headers, key, value, i);
    } else {
      MissingIff(headers, key);
      AssignMissing(headers, key, value);
    }
  }

  lemma {:induction false} MissingIff(headers: seq<Header>, key: string)
    ensures (exists i: nat :: FirstAt(headers, key, i)) <==> (exists j :: 0 <= j < |headers| && headers[j].key == key)
  {
    if j :| 0 <= j < |headers| && headers[j].key == key {
      var i: nat := 0;
      while headers[i].key != key
        invariant i <= j && forall m :: 0 <= m < i ==> headers[m].key != key
        decreases j - i
      {
        i := i + 1;
      }
      assert FirstAt(headers, key, i);
    }
  }

  /** After any series of Sets a reader sees the last value set, or what was there before if the key was not set. */
  lemma {:induction false} LastValueWins(headers: seq<Header>, sets: seq<Header>, key: string)
    ensures var last := LastSet(sets, key);
            Lookup(AssignAll(headers, sets), key) == if last >= 0 then sets[last].value else Lookup(headers, key)
  {
    if sets != [] {
      var init, last := sets[..|sets| - 1], sets[|sets| - 1];
      LastValueWins(headers, init, key);
      AssignValues(AssignAll(headers, init), last.key, last.value, key);
    }
  }

  /** The headers of a message built by publishEvent, before the trace headers are injected. */
  function EventHeaders(eventType: string, eventId: string, correlationId: string): seq<Header> {
    [Header(EVENT_TYPE, eventType), Header("event_id", eventId), Header("correlation_id", correlationId)]
  }

  /** What a reader sees of a new event message. */
  lemma EventLookups(eventType: string, eventId: string, correlationId: string)
    ensures var headers := EventHeaders(eventType, eventId, correlationId);
            && Lookup(headers, "event_type") == eventType && Lookup(headers, "event_id") == eventId
            && Lookup(headers, "correlation_id") == correlationId
  {
    var headers := EventHeaders(eventType, eventId, correlationId);
    FirstValue(headers, "event_type", 0);
    FirstValue(headers, "event_id", 1);
    FirstValue(headers, "correlation_id", 2);
  }

  /**
   Routing survives injection exactly when the propagator leaves "event_type" alone, or its last Set on it writes the
   same type.
   */
  lemma RoutingSurvivesIff(eventType: string, eventId: string, correlationId: string, sets: seq<Header>)
    ensures var sent := AssignAll(EventHeaders(eventType, eventId, correlationId), sets);
            var last := LastSet(sets, "event_type");
            Lookup(sent, "event_type") == eventType <==> last == -1 || sets[last].value == eventType
  {
    LastValueWins(EventHeaders(eventType, eventId, correlationId), sets, "event_type");
    EventLookups(eventType, eventId, correlationId);
  }

  class Message {
    var headers: seq<Header>

    constructor (headers: seq<Header>)
      ensures this.headers == headers
    {
      this.headers := headers;
    }

    /** KafkaMessageCarrier.Get, and getEventType for the key "event_type". */
    method Get(key: string) returns (r: string)
      ensures r == Lookup(headers, key)
      ensures (forall j :: 0 <= j < |headers| ==> headers[j].key != key) ==> r == ""
      ensures forall i: nat :: FirstAt(headers, key, i) ==> r == headers[i].value
    {
      for i := 0 to |headers|
        invariant forall j :: 0 <= j < i ==> headers[j].key != key
      {
        if headers[i].key == key {
          FirstValue(headers, key, i);
          return headers[i].value;
        }
      }
      NoValues(headers, key);
      return "";
    }

    /** KafkaMessageCarrier.Set. */
    method Set(key: string, value: string)
      modifies this
      ensures headers == Assign(old(headers), key, value)
      ensures (forall j :: 0 <= j < |old(headers)| ==> old(headers)[j].key != key) ==>
                headers == old(headers) + [Header(key, value)]
      ensures forall i: nat :: FirstAt(old(headers), key, i) ==> headers == old(headers)[i := Header(key, value)]
    {
      for i := 0 to |headers|
        invariant headers == old(headers)
        invariant forall j :: 0 <= j < i ==> headers[j].key != key
      {
        if headers[i].key == key {
          AssignAt(headers, key, value, i);
          headers := headers[i := Header(key, value)];
          return;
        }
      }
      AssignMissing(headers, key, value);
      headers := headers + [Header(key, value)];
    }

    /** KafkaMessageCarrier.Keys: one key per header, in order, duplicates included. */
    method Keys() returns (keys: seq<string>)
      ensures |keys| == |headers| && forall i :: 0 <= i < |keys| ==> keys[i] == headers[i].key
    {
      keys := [];
      for i := 0 to |headers|
        invariant |keys| == i && forall j :: 0 <= j < i ==> keys[j] == headers[j].key
      {
        keys := keys + [headers[i].key];
      }
    }

    /** InjectTraceHeaders: the propagator calls Set any number of times. */
    method Inject(sets: seq<Header>)
      modifies this
      ensures headers == AssignAll(old(headers), sets)
    {
      for i := 0 to |sets|
        invariant headers == AssignAll(old(headers), sets[..i])
      {
        assert sets[..i + 1][..i] == sets[..i];
        Set(sets[i].key, sets[i].value);
      }
      assert sets[..|sets|] == sets;
    }
  }

  /**
   From publishEvent through injection to the consumer's getEventType: with a propagator that sets other keys only,
   such as "traceparent" and "tracestate", the consumer routes on the type of the event, and sees its id.
   */
  method Route(eventType: string, eventId: string, correlationId: string, sets: seq<Header>)
    returns (routed: string, id: string, correlation: string)
    ensures (forall i :: 0 <= i < |sets| ==> sets[i].key != "event_type") ==> routed == eventType
    ensures (forall i :: 0 <= i < |sets| ==> sets[i].key != "event_id") ==> id == eventId
    ensures (forall i :: 0 <= i < |sets| ==> sets[i].key != "correlation_id") ==> correlation == correlationId
    ensures routed != eventType ==> exists i :: 0 <= i < |sets| && sets[i] == Header("event_type", routed)
  {
    var msg := new Message(EventHeaders(eventType, eventId, correlationId));
    msg.Inject(sets);
    routed := msg.Get(EVENT_TYPE);
    id := msg.Get("event_id");
    correlation := msg.Get("correlation_id");
    EventLookups(eventType, eventId, correlationId);
    LastValueWins(EventHeaders(eventType, eventId, correlationId), sets, "event_type");
    LastValueWins(EventHeaders(eventType, eventId, correlationId), sets, "event_id");
    LastValueWins(EventHeaders(eventType, eventId, correlationId), sets, "correlation_id");
  }
}
