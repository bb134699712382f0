/**
 * The message bus: the `topic \0 payload` frame the socket transports put on
 * the wire, and the in-process topic registry the default build uses, in
 * which every subscriber owns a queue that a publish to its topic appends to.
 */
module PubSub {
  import opened Wrappers
  import opened Numeric
  import opened Json

  // ---------------------------------------------------------------- frames

  /** `publish` of the socket transports: the topic's bytes, a 0x00 separator, the payload. */
  function EncodeFrame(topic: seq<byte>, payload: seq<byte>): (f: seq<byte>)
    ensures |f| == |topic| + 1 + |payload|
    ensures f[..|topic|] == topic && f[|topic|] == 0 && f[|topic| + 1..] == payload
  {
    topic + [0] + payload
  }

  /** `position(|&b| b == 0)`: the index of the first 0x00 byte. */
  function FirstZero(msg: seq<byte>): (r: Option<nat>)
    ensures r.Some? ==> r.value < |msg| && msg[r.value] == 0 && 0 !in msg[..r.value]
    ensures r.None? <==> 0 !in msg
  {
    if msg == [] then None
    else if msg[0] == 0 then Some(0)
    else match FirstZero(msg[1..])
      case Some(i) =>
        assert msg[..i + 1] == [msg[0]] + msg[1..][..i];
        Some(i + 1)
      case None => None
  }

  /** The subscriber side: split at the first 0x00; without one, an empty topic and the whole message as payload. */
  function DecodeFrame(msg: seq<byte>): (r: (seq<byte>, seq<byte>))
    ensures 0 in msg ==> 0 !in r.0 && r.0 + [0] + r.1 == msg
    ensures 0 !in msg ==> r == ([], msg)
  {
    match FirstZero(msg)
    case Some(pos) =>
      assert msg == msg[..pos] + [0] + msg[pos + 1..];
      (msg[..pos], msg[pos + 1..])
    case None => ([], msg)
  }

  lemma {:induction false} FirstZeroOfFrame(topic: seq<byte>, payload: seq<byte>)
    requires 0 !in topic
    ensures FirstZero(EncodeFrame(topic, payload)) == Some(|topic|)
  {
    if topic != [] {
      assert EncodeFrame(topic, payload)[1..] == EncodeFrame(topic[1..], payload);
      assert topic[0] in topic;
      FirstZeroOfFrame(topic[1..], payload);
    }
  }

  /** A topic without 0x00 comes back apart from its payload, which may hold zeros. */
  lemma DecodeEncode(topic: seq<byte>, payload: seq<byte>)
    requires 0 !in topic
    ensures DecodeFrame(EncodeFrame(topic, payload)) == (topic, payload)
  {
    FirstZeroOfFrame(topic, payload);
  }

  /** The socket transports subscribe by byte prefix of the whole frame. */
  predicate Accepts(subscription: seq<byte>, frame: seq<byte>)
  {
    |subscription| <= |frame| && frame[..|subscription|] == subscription
  }

  /** A subscription to a topic also accepts frames of every longer topic it is a prefix of. */
  lemma PrefixTopicsAccepted(sub: seq<byte>, topic: seq<byte>, payload: seq<byte>)
    requires |sub| <= |topic| && topic[..|sub|] == sub
    ensures Accepts(sub, EncodeFrame(topic, payload))
  {
    assert EncodeFrame(topic, payload)[..|sub|] == topic[..|sub|];
  }

  /** `room/a` accepts the frames of `room/ab`. */
  lemma ShorterRoomAcceptsLonger(payload: seq<byte>)
    ensures var a: seq<byte> := [114, 111, 111, 109, 47, 97];
      var ab: seq<byte> := [114, 111, 111, 109, 47, 97, 98];
      Accepts(a, EncodeFrame(ab, payload)) && a != ab
  {
    PrefixTopicsAccepted([114, 111, 111, 109, 47, 97], [114, 111, 111, 109, 47, 97, 98], payload);
  }

  // ---------------------------------------------------------------- the in-process registry

  /** The payloads a subscriber to `topic` is owed from a run of publishes: those to exactly `topic`, in order. */
  function Deliveries(log: seq<(string, Json)>, topic: string): (d: seq<(string, Json)>)
    ensures |d| <= |log|
  {
    if log == [] then []
    else Deliveries(log[..|log| - 1], topic) + (if log[|log| - 1].0 == topic then [log[|log| - 1]] else [])
  }

  lemma {:induction false} DeliveriesAppend(a: seq<(string, Json)>, b: seq<(string, Json)>, topic: string)
    ensures Deliveries(a + b, topic) == Deliveries(a, topic) + Deliveries(b, topic)
  {
    if b != [] {
      assert (a + b)[..|a + b| - 1] == a + b[..|b| - 1];
      DeliveriesAppend(a, b[..|b| - 1], topic);
    } else {
      assert a + b == a;
    }
  }

  /** A subscriber is owed exactly the publishes to its own topic. */
  lemma {:induction false} DeliveriesMember(log: seq<(string, Json)>, topic: string, e: (string, Json))
    ensures e in Deliveries(log, topic) <==> e in log && e.0 == topic
  {
    if log != [] {
      var init := log[..|log| - 1];
      DeliveriesMember(init, topic, e);
      assert log == init + [log[|log| - 1]];
    }
  }

  /** One subscriber: its topic, the length of the publish log when it connected, and what it has received. */
  datatype Subscription = Subscription(topic: string, from: nat, received: nat, queue: seq<(string, Json)>)

  /** A subscriber's queue holds what it is owed since it connected, less what it has received. */
  predicate Owed(s: Subscription, log: seq<(string, Json)>)
  {
    && s.from <= |log|
    && s.received <= |Deliveries(log[s.from..], s.topic)|
    && s.queue == Deliveries(log[s.from..], s.topic)[s.received..]
  }

  /** The subscriber after one publish: its queue grows by the payload when the topic is its own. */
  function Delivered(s: Subscription, topic: string, payload: Json): (t: Subscription)
    ensures t.topic == s.topic && t.from == s.from && t.received == s.received
  {
    s.(queue := s.queue + if s.topic == topic then [(topic, payload)] else [])
  }

  /** The same subscribers, each with its topic, connection point and received count. */
  predicate SameSubscribers(a: seq<Subscription>, b: seq<Subscription>)
  {
    |a| == |b| && forall i :: 0 <= i < |a| ==> a[i].topic == b[i].topic && a[i].from == b[i].from && a[i].received == b[i].received
  }

  /** Every subscriber after one publish. */
  function DeliverAll(subs: seq<Subscription>, topic: string, payload: Json): (d: seq<Subscription>)
    ensures |d| == |subs| && forall i :: 0 <= i < |subs| ==> d[i] == Delivered(subs[i], topic, payload)
  {
    seq(|subs|, i requires 0 <= i < |subs| => Delivered(subs[i], topic, payload))
  }

  /** Delivering each publish to the matching queues keeps every subscriber owed exactly its due. */
  lemma DeliveredOwed(s: Subscription, log: seq<(string, Json)>, topic: string, payload: Json)
    requires Owed(s, log)
    ensures Owed(Delivered(s, topic, payload), log + [(topic, payload)])
  {
    var log' := log + [(topic, payload)];
    assert log'[s.from..] == log[s.from..] + [(topic, payload)];
    DeliveriesAppend(log[s.from..], [(topic, payload)], s.topic);
    assert Deliveries([(topic, payload)], s.topic) == if s.topic == topic then [(topic, payload)] else [] by {
      assert [(topic, payload)][..0] == [];
    }
  }

  /** The bus a gateway shares: `Publisher` and `Subscriber` over the process-wide registry. */
  class Hub {
    /** Every payload published, with its topic, in publish order. */
    var log: seq<(string, Json)>
    /** Topics with a registry entry. */
    var topics: set<string>
    var subs: seq<Subscription>
    /** Whether a socket transport's send fails; the in-process registry never fails. */
    const sendFails: bool

    /** Each queue holds what its subscriber is owed since it connected, less what it has received. */
    ghost predicate Valid()
      reads this
    {
      forall i :: 0 <= i < |subs| ==> Owed(subs[i], log)
    }

    constructor (sendFails: bool)
      ensures Valid()
      ensures log == [] && topics == {} && subs == [] && this.sendFails == sendFails
    {
      log, topics, subs := [], {}, [];
      this.sendFails := sendFails;
    }

    /** `Subscriber::connect`: the entry for the topic is created if missing; the new queue starts empty. */
    method Connect(topic: string) returns (id: nat)
      requires Valid()
      modifies this
      ensures Valid()
      ensures id == |old(subs)| && subs == old(subs) + [Subscription(topic, |log|, 0, [])]
      ensures log == old(log) && topics == old(topics) + {topic}
    {
      id := |subs|;
      assert log[|log|..] == [];
      subs := subs + [Subscription(topic, |log|, 0, [])];
      topics := topics + {topic};
    }

    /**
     * `Publisher::publish`: appends the payload to the queue of every
     * subscriber of exactly this topic. With no subscriber it still succeeds.
     */
    method Publish(topic: string, payload: Json) returns (r: Result<(), string>)
      requires Valid()
      modifies this
      ensures Valid()
      ensures r.Err? <==> sendFails
      ensures r.Err? ==> log == old(log) && subs == old(subs) && topics == old(topics)
      ensures r.Ok? ==> log == old(log) + [(topic, payload)] && topics == old(topics) + {topic}
      ensures r.Ok? ==> subs == DeliverAll(old(subs), topic, payload)
      ensures SameSubscribers(old(subs), subs)
    {
      if sendFails {
        return Err("send failed");
      }
      ghost var log0 := log;
      log := log + [(topic, payload)];
      topics := topics + {topic};
      var i := 0;
      while i < |subs|
        invariant 0 <= i <= |subs| == |old(subs)|
        invariant log == log0 + [(topic, payload)] && topics == old(topics) + {topic}
        invariant forall j :: 0 <= j < i ==> subs[j] == Delivered(old(subs[j]), topic, payload)
        invariant forall j :: i <= j < |subs| ==> subs[j] == old(subs[j])
      {
        subs := subs[i := Delivered(subs[i], topic, payload)];
        i := i + 1;
      }
      forall j | 0 <= j < |subs|
        ensures Owed(subs[j], log)
      {
        DeliveredOwed(old(subs[j]), log0, topic, payload);
      }
      return Ok(());
    }

    /** `receiver().recv()` on a subscriber whose queue is not empty: the oldest payload owed. */
    method Receive(id: nat) returns (e: Option<(string, Json)>)
      requires Valid() && id < |subs|
      modifies this
      ensures Valid()
      ensures old(subs[id].queue) == [] ==> e.None? && subs == old(subs)
      ensures old(subs[id].queue) != [] ==>
        && e == Some(old(subs[id].queue[0]))
        && subs == old(subs)[id := old(subs[id]).(received := old(subs[id].received) + 1, queue := old(subs[id].queue[1..]))]
      ensures log == old(log) && topics == old(topics)
    {
      var s := subs[id];
      if s.queue == [] {
        return None;
      }
      subs := subs[id := s.(received := s.received + 1, queue := s.queue[1..])];
      return Some(s.queue[0]);
    }
  }
}
