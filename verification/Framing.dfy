/**
 MQTT packets of pkg/messagix: Request.Write puts a fixed header in front of a payload, Response.Read takes a packet
 apart, and for a PUBLISH with QoS 1 cuts the packet identifier out of the buffer in place (request.go, response.go).
 */
module Framing {
  import opened Common
  import opened Byter

  const CONNACK := 2
  const PUBLISH := 3
  const PUBACK := 4
  const SUBACK := 9
  const PINGRESP := 13

  const HEADER := [UInt(W8, Big), Vlq]
  const TOPIC := [Text(Unsigned(W16), Big)]

  /** The payload is at most what a Go slice holds; its length is stored in a uint32. */
  function Packet(packetByte: byte, payload: seq<byte>): seq<byte> {
    WriteFields(HEADER, [Number(packetByte), Number(|payload| % 0x1_0000_0000)]) + payload
  }

  method WriteRequest(packetByte: byte, payload: seq<byte>) returns (packet: seq<byte>)
    ensures packet == Packet(packetByte, payload)
  {
    var remainingLength := |payload| % 0x1_0000_0000;
    var writer := new Buffer([]);
    writer.WriteFromStruct(HEADER, [Number(packetByte), Number(remainingLength)]);
    packet := writer.Buff + payload;
  }

  /** What is read before the payload is interpreted: the type, the QoS, and the bytes behind the fixed header. */
  datatype Header = Header(packetType: nat, qos: nat, body: seq<byte>)

  datatype Read<+T> = Done(value: T) | Failed | Panicked

  function ReadHeader(data: seq<byte>): Read<Header> {
    match ReadFields(HEADER, [Number(0), Number(0)], data)
    case Err(_) => Failed
    case Ok(vs, body) =>
      if |vs| != 2 || !vs[0].Number? then Failed
      else
        var packetType, qos := vs[0].n / 16, vs[0].n / 2 % 4;
        if packetType in {CONNACK, PUBLISH, PUBACK, SUBACK, PINGRESP} then Done(Header(packetType, qos, body)) else Failed
  }

  /** A PUBLISH: its topic, its identifier (0 when it has none), and the JSON text behind them, not parsed further. */
  datatype Publication = Publication(topic: seq<byte>, identifier: nat, payload: seq<byte>)

  /** The identifier is taken from a fixed place: behind a topic of eight bytes. */
  const IDENTIFIER_AT := 10

  function ReadPublish(data: seq<byte>): Read<Publication> {
    match ReadHeader(data)
    case Failed => Failed
    case Panicked => Panicked
    case Done(h) =>
      if h.packetType != PUBLISH then Failed
      else if h.qos == 1 then
        if |h.body| < IDENTIFIER_AT + 2 then Panicked
        else
          var identifier := IntOf(h.body[IDENTIFIER_AT..IDENTIFIER_AT + 2], Big);
          ReadTopic(identifier, h.body[..IDENTIFIER_AT] + h.body[IDENTIFIER_AT + 2..])
      else ReadTopic(0, h.body)
  }

  function ReadTopic(identifier: nat, body: seq<byte>): Read<Publication> {
    match ReadFields(TOPIC, [Bytes([])], body)
    case Err(_) => Failed
    case Ok(vs, payload) =>
      if |vs| != 1 || !vs[0].Bytes? then Failed else Done(Publication(vs[0].bytes, identifier, payload))
  }

  /** Response.Read on a packet buffer that it may change: the identifier is removed by moving the bytes behind it. */
  method ReadResponse(data: seq<byte>) returns (r: Read<Publication>)
    ensures r == ReadPublish(data)
  {
    var reader := new Buffer(data);
    var header := reader.ReadToStruct(HEADER, [Number(0), Number(0)]);
    if header.Err? || |header.value| != 2 || !header.value[0].Number? {
      return Failed;
    }
    var packetType, qosLevel := header.value[0].n / 16, header.value[0].n / 2 % 4;
    if packetType != PUBLISH {
      return Failed;
    }
    var identifier := 0;
    if qosLevel == 1 {
      var bufferBytes := reader.Buff;
      if |bufferBytes| < IDENTIFIER_AT + 2 {
        return Panicked;
      }
      identifier := IntOf(bufferBytes[IDENTIFIER_AT..IDENTIFIER_AT + 2], Big);
      bufferBytes := bufferBytes[..IDENTIFIER_AT] + bufferBytes[IDENTIFIER_AT + 2..];
      reader := new Buffer(bufferBytes);
    }
    var topic := reader.ReadToStruct(TOPIC, [Bytes([])]);
    if topic.Err? || |topic.value| != 1 || !topic.value[0].Bytes? {
      return Failed;
    }
    return Done(Publication(topic.value[0].bytes, identifier, topic.rest));
  }

  /** The body of a QoS 1 PUBLISH, section 3.3.2 of MQTT 3.1.1: topic, identifier, application message. */
  function PublishBody(topic: seq<byte>, identifier: nat, payload: seq<byte>): seq<byte> {
    IntBytes(|topic|, 2, Big) + topic + IntBytes(identifier, 2, Big) + payload
  }

  const QOS1_PUBLISH: byte := 0x32

  /** Every packet whose remaining length fits four bytes is taken apart into what it was written from. */
  lemma {:induction false} HeaderRoundTrip(packetByte: byte, payload: seq<byte>)
    requires |payload| < 0x1000_0000
    requires packetByte / 16 in {CONNACK, PUBLISH, PUBACK, SUBACK, PINGRESP}
    ensures ReadHeader(Packet(packetByte, payload)) ==
            Done(Header(packetByte / 16, packetByte / 2 % 4, payload))
  {
    var vs := [Number(packetByte), Number(|payload|)];
    StructRoundTrip(HEADER, vs, [Number(0), Number(0)], payload);
  }

  /** A longer one is always rejected. */
  lemma {:induction false} LongPacketRejected(packetByte: byte, payload: seq<byte>)
    requires 0x1000_0000 <= |payload| < 0x1_0000_0000
    ensures ReadHeader(Packet(packetByte, payload)) == Failed
  {
    var vs := [Number(packetByte), Number(|payload|)];
    assert HEADER[1..] == [Vlq] && vs[1..] == [Number(|payload|)];
    var rest := VlqBytes(|payload|) + payload;
    assert WriteFields([Vlq], [Number(|payload|)]) == VlqBytes(|payload|) + [];
    assert Packet(packetByte, payload) == IntBytes(packetByte, 1, Big) + rest;
    FieldRoundTrip(UInt(W8, Big), Number(packetByte), rest);
    VlqTooLong(|payload|, 0, payload);
    assert ReadFields([Vlq], [Number(0)], rest) == Err(MalformedVlq);
    assert [Number(0), Number(0)][1..] == [Number(0)];
  }

  lemma {:induction false} TopicRoundTrip(topic: seq<byte>, identifier: nat, payload: seq<byte>)
    requires |topic| < 0x1_0000
    ensures ReadTopic(identifier, IntBytes(|topic|, 2, Big) + topic + payload) ==
            Done(Publication(topic, identifier, payload))
  {
    assert Pow256(2) == 0x1_0000;
    StructRoundTrip(TOPIC, [Bytes(topic)], [Bytes([])], payload);
    assert WriteFields(TOPIC, [Bytes(topic)]) == IntBytes(|topic|, 2, Big) + topic;
  }

  lemma {:induction false} BehindEight(length: seq<byte>, topic: seq<byte>, identifier: seq<byte>, payload: seq<byte>)
    requires |length| == |identifier| == 2 && |topic| == 8
    ensures var body := length + topic + identifier + payload;
            body[10..12] == identifier && body[..10] + body[12..] == length + topic + payload
  {
  }

  lemma {:induction false} WithinTopic(length: seq<byte>, topic: seq<byte>, rest: seq<byte>)
    requires |length| == 2 && 8 < |topic| && |rest| >= 2
    ensures (length + topic + rest)[10..12][0] == topic[8]
  {
  }

  /** A publication on a topic of eight bytes, "/ls_resp" for one, is read as its topic, identifier and payload. */
  lemma {:induction false} EightByteTopicIsRead(topic: seq<byte>, identifier: nat, payload: seq<byte>)
    requires |topic| == 8 && identifier < 0x1_0000 && |PublishBody(topic, identifier, payload)| < 0x1000_0000
    ensures ReadPublish(Packet(QOS1_PUBLISH, PublishBody(topic, identifier, payload))) ==
            Done(Publication(topic, identifier, payload))
  {
    var body := PublishBody(topic, identifier, payload);
    HeaderRoundTrip(QOS1_PUBLISH, body);
    BehindEight(IntBytes(8, 2, Big), topic, IntBytes(identifier, 2, Big), payload);
    assert Pow256(2) == 0x1_0000;
    IntRoundTrip(identifier, 2, Big);
    TopicRoundTrip(topic, identifier, payload);
  }

  ghost predicate AlwaysRead(topic: seq<byte>) {
    forall identifier: nat, payload ::
      identifier < 0x1_0000 && |PublishBody(topic, identifier, payload)| < 0x1000_0000 ==>
        ReadPublish(Packet(QOS1_PUBLISH, PublishBody(topic, identifier, payload))) ==
        Done(Publication(topic, identifier, payload))
  }

  /** The identifier read from a packet on a longer topic has bytes of the topic in it. */
  lemma {:induction false} LongTopicMisread(topic: seq<byte>)
    requires 8 < |topic| < 0x1_0000
    ensures !AlwaysRead(topic)
  {
    var high: nat := if topic[8] == 0 then 1 else 0;
    var identifier := 256 * high;
    var body := PublishBody(topic, identifier, []);
    HeaderRoundTrip(QOS1_PUBLISH, body);
    var read := body[10..12];
    WithinTopic(IntBytes(|topic|, 2, Big), topic, IntBytes(identifier, 2, Big));
    assert body == IntBytes(|topic|, 2, Big) + topic + IntBytes(identifier, 2, Big);
    TwoBytes(read);
    assert IntOf(read, Big) != identifier;
    assert ReadPublish(Packet(QOS1_PUBLISH, body)) != Done(Publication(topic, identifier, []));
  }

  /** Over all identifiers and payloads, QoS 1 publications are read correctly on exactly the topics of eight bytes. */
  lemma {:induction false} PublishReadExactly(topic: seq<byte>)
    requires |topic| < 0x1_0000
    ensures AlwaysRead(topic) <==> |topic| == 8
  {
    if |topic| == 8 {
      forall identifier: nat, payload
        | identifier < 0x1_0000 && |PublishBody(topic, identifier, payload)| < 0x1000_0000
        ensures ReadPublish(Packet(QOS1_PUBLISH, PublishBody(topic, identifier, payload))) ==
                Done(Publication(topic, identifier, payload))
      {
        EightByteTopicIsRead(topic, identifier, payload);
      }
    } else if |topic| > 8 {
      LongTopicMisread(topic);
    } else {
      var body := PublishBody(topic, 0, []);
      HeaderRoundTrip(QOS1_PUBLISH, body);
      assert |body| < 12;
      assert ReadPublish(Packet(QOS1_PUBLISH, body)) == Panicked;
    }
  }
}
