/** The frames of pkg/messagix/dgw/frames.go, and the loop of dgwsocket.go that splits a binary message into them. */
module Dgw {
  import opened Common
  import opened Byter

  const PING := 0x09
  const PONG := 0x0a
  const ACK := 0x0c
  const DATA := 0x0d
  const OPEN := 0x0f

  datatype Frame =
    | PingFrame
    | PongFrame
    | AckFrame(streamID: nat, ackID: nat)
    | DataFrame(streamID: nat, payload: seq<byte>, requiresAck: bool, ackID: nat)
    | OpenFrame(streamID: nat, raw: seq<byte>)
    | UnsupportedFrame(raw: seq<byte>)

  predicate IsUint16(n: nat) {
    n < 0x1_0000
  }

  /** The frames that are both written and read here, with 16-bit numbers as in the source. */
  predicate IsTwoWay(f: Frame) {
    match f
    case PingFrame => true
    case PongFrame => true
    case AckFrame(streamID, ackID) => IsUint16(streamID) && IsUint16(ackID)
    case DataFrame(streamID, _, _, ackID) => IsUint16(streamID) && IsUint16(ackID)
    case OpenFrame(_, _) => false
    case UnsupportedFrame(_) => false
  }

  function Uint16(n: nat): (bytes: seq<byte>)
    ensures |bytes| == 2
  {
    IntBytes(n, 2, Little)
  }

  function Marshal(f: Frame): (b: seq<byte>)
    requires IsTwoWay(f)
    ensures |b| > 0
  {
    match f
    case PingFrame => [PING]
    case PongFrame => [PONG]
    case AckFrame(streamID, ackID) => [ACK] + Uint16(streamID) + Uint16(2) + [0] + Uint16(ackID)
    case DataFrame(streamID, payload, requiresAck, ackID) =>
      [DATA] + Uint16(streamID) + Uint16((|payload| + 2) % 0x1_0000) + [0] + [ackID % 256, MarkedAck(ackID, requiresAck)] + payload
  }

  /** The high byte of an ack ID with its top bit replaced by the flag. */
  function MarkedAck(ackID: nat, requiresAck: bool): byte
    requires IsUint16(ackID)
  {
    ackID / 256 % 128 + if requiresAck then 128 else 0
  }

  /** Fails leaves nothing to read; Unchanged leaves all of it; Panics is a slice out of range. */
  datatype Unmarshalled = Frame(frame: Frame, rest: seq<byte>) | Fails | Unchanged | Panics

  function Field(b: seq<byte>, at: nat): (n: nat)
    requires at + 2 <= |b|
    ensures IsUint16(n)
  {
    IntBelow(b[at..at + 2], Little);
    assert Pow256(2) == 0x1_0000;
    IntOf(b[at..at + 2], Little)
  }

  /** The payload length and the end of the payload are 16-bit differences and sums. */
  function UnmarshalData(b: seq<byte>): (r: Unmarshalled)
    ensures r.Frame? ==> |r.rest| < |b|
  {
    if |b| < 8 then Fails
    else
      var payloadLength := (Field(b, 3) + 0xFFFE) % 0x1_0000;
      var end := (8 + payloadLength) % 0x1_0000;
      if |b| < end then Fails
      else if end < 8 then Panics
      else Frame(DataFrame(Field(b, 1), b[8..end], b[7] >= 128, Field(b, 6) % 0x8000), b[end..])
  }

  function UnmarshalAck(b: seq<byte>): (r: Unmarshalled)
    ensures r.Frame? ==> |r.rest| < |b|
  {
    if |b| < 8 then Fails
    else if Field(b, 3) != 2 then Fails
    else Frame(AckFrame(Field(b, 1), Field(b, 6)), b[8..])
  }

  /** Whether the payload is acceptable JSON is a parameter; when it is not, the input is handed back whole. */
  function UnmarshalOpen(b: seq<byte>, isJson: seq<byte> -> bool): (r: Unmarshalled)
    ensures r.Frame? ==> |r.rest| < |b|
  {
    if |b| < 6 then Fails
    else
      var end := (6 + Field(b, 3)) % 0x1_0000;
      if |b| < end then Fails
      else if end < 6 then Panics
      else if !isJson(b[6..end]) then Unchanged
      else Frame(OpenFrame(Field(b, 1), b), b[end..])
  }

  /** CheckFrameType and then the Unmarshal of the type it chose. */
  function Unmarshal(b: seq<byte>, isJson: seq<byte> -> bool): (r: Unmarshalled)
    requires b != []
    ensures r.Frame? ==> |r.rest| < |b|
  {
    if b[0] == PING then Frame(PingFrame, b[1..])
    else if b[0] == PONG then Frame(PongFrame, b[1..])
    else if b[0] == ACK then UnmarshalAck(b)
    else if b[0] == DATA then UnmarshalData(b)
    else if b[0] == OPEN then UnmarshalOpen(b, isJson)
    else Frame(UnsupportedFrame(b), [])
  }

  /** What the loop has sent to its channel when it ends, when it panics, or from where on it repeats itself forever. */
  datatype Outcome = Done(sent: seq<Frame>) | Panicked(sent: seq<Frame>) | Spins(sent: seq<Frame>)

  function Split(data: seq<byte>, isJson: seq<byte> -> bool): Outcome
    decreases |data|
  {
    if data == [] then Done([])
    else match Unmarshal(data, isJson)
      case Fails => Done([])
      case Unchanged => Spins([])
      case Panics => Panicked([])
      case Frame(frame, rest) => After([frame], Split(rest, isJson))
  }

  function After(sent: seq<Frame>, o: Outcome): Outcome {
    o.(sent := sent + o.sent)
  }

  /** The inbound loop over one binary message. A frame whose unmarshalling fails is dropped with all that follows it. */
  method ReadMessage(message: seq<byte>, isJson: seq<byte> -> bool) returns (outcome: Outcome)
    ensures outcome == Split(message, isJson)
  {
    var data := message;
    var incoming: seq<Frame> := [];
    while |data| > 0
      invariant Split(message, isJson) == After(incoming, Split(data, isJson))
      decreases |data|
    {
      match Unmarshal(data, isJson) {
        case Fails =>
          data := [];
        case Unchanged =>
          return Spins(incoming);
        case Panics =>
          return Panicked(incoming);
        case Frame(frame, rest) =>
          AfterAfter(incoming, frame, Split(rest, isJson));
          incoming, data := incoming + [frame], rest;
      }
    }
    outcome := Done(incoming);
  }

  lemma {:induction false} AfterAfter(sent: seq<Frame>, frame: Frame, o: Outcome)
    ensures After(sent, After([frame], o)) == After(sent + [frame], o)
  {
    assert sent + ([frame] + o.sent) == sent + [frame] + o.sent;
  }

  // ----- reading what was written -----

  /** The guard for a lossless Data frame: the 16-bit sum 8 + length does not wrap, and the ack ID leaves the flag its bit. */
  predicate Fits(f: Frame) {
    f.DataFrame? ==> |f.payload| <= 65527 && f.ackID < 0x8000
  }

  lemma {:induction false} Uint16RoundTrip(n: nat)
    requires IsUint16(n)
    ensures IntOf(Uint16(n), Little) == n
  {
    assert Pow256(2) == 0x1_0000;
    IntRoundTrip(n, 2, Little);
  }

  lemma {:induction false} AckFieldOf(ackID: nat, requiresAck: bool)
    requires IsUint16(ackID)
    ensures IntOf([ackID % 256, MarkedAck(ackID, requiresAck)], Little) % 0x8000 == ackID % 0x8000
    ensures MarkedAck(ackID, requiresAck) >= 128 <==> requiresAck
  {
    var low: nat, high: nat := ackID % 256, MarkedAck(ackID, requiresAck);
    var two: seq<byte> := [low, high];
    assert two[1..] == [high] && two[1..][1..] == [];
    assert IntOf([high], Little) == high;
    assert IntOf(two, Little) == low + 256 * high;
    SplitAck(ackID, ackID % 256, ackID / 256);
  }

  lemma {:induction false} SplitAck(ackID: nat, low: nat, high: nat)
    requires ackID == low + 256 * high && low < 256 && high < 256
    ensures ackID % 0x8000 == low + 256 * (high % 128)
  {
    assert high == high % 128 + 128 * (high / 128);
  }

  /** Where the fields of a marshalled Data frame lie, whatever follows it. */
  lemma {:induction false} DataLayout(f: Frame, tail: seq<byte>)
    requires IsTwoWay(f) && f.DataFrame?
    ensures var b := Marshal(f) + tail;
      && |b| == 8 + |f.payload| + |tail| && b[0] == DATA && b[8..] == f.payload + tail
      && Field(b, 1) == f.streamID && Field(b, 3) == (|f.payload| + 2) % 0x1_0000
      && Field(b, 6) % 0x8000 == f.ackID % 0x8000 && (b[7] >= 128 <==> f.requiresAck)
  {
    var length := (|f.payload| + 2) % 0x1_0000;
    var ack: seq<byte> := [f.ackID % 256, MarkedAck(f.ackID, f.requiresAck)];
    PartsInOrder(Uint16(f.streamID), Uint16(length), ack, f.payload, tail);
    Uint16RoundTrip(f.streamID);
    Uint16RoundTrip(length);
    AckFieldOf(f.ackID, f.requiresAck);
  }

  lemma {:induction false} PartsInOrder(stream: seq<byte>, length: seq<byte>, ack: seq<byte>, payload: seq<byte>,
      tail: seq<byte>)
    requires |stream| == |length| == |ack| == 2
    ensures var b := [DATA] + stream + length + [0] + ack + payload + tail;
      && |b| == 8 + |payload| + |tail| && b[0] == DATA && b[8..] == payload + tail
      && b[1..3] == stream && b[3..5] == length && b[6..8] == ack && b[7] == ack[1]
  {
  }

  lemma {:induction false} Cut(b: seq<byte>, payload: seq<byte>, tail: seq<byte>)
    requires |b| >= 8 && b[8..] == payload + tail
    ensures b[8..8 + |payload|] == payload && b[8 + |payload|..] == tail
  {
    assert b[8..8 + |payload|] == b[8..][..|payload|] && b[8 + |payload|..] == b[8..][|payload|..];
  }

  lemma {:induction false} LengthRead(n: nat)
    ensures ((n + 2) % 0x1_0000 + 0xFFFE) % 0x1_0000 == n % 0x1_0000
  {
  }

  /** A short payload is cut out whole; a longer one is not cut out at all, or not whole. */
  lemma {:induction false} ShortPayloadIsRead(b: seq<byte>, payload: seq<byte>, tail: seq<byte>)
    requires |b| >= 8 && b[8..] == payload + tail && Field(b, 3) == (|payload| + 2) % 0x1_0000 && |payload| <= 65527
    ensures UnmarshalData(b) == Frame(DataFrame(Field(b, 1), payload, b[7] >= 128, Field(b, 6) % 0x8000), tail)
  {
    LengthRead(|payload|);
    Cut(b, payload, tail);
  }

  lemma {:induction false} LongPayloadIsNotRead(b: seq<byte>, payload: seq<byte>)
    requires |b| >= 8 && Field(b, 3) == (|payload| + 2) % 0x1_0000 && |payload| > 65527
    ensures var r := UnmarshalData(b); r.Frame? ==> r.frame.DataFrame? && |r.frame.payload| < |payload|
  {
    LengthRead(|payload|);
  }

  /** A marshalled Data frame is read back, leaving what followed it, exactly when it fits. */
  lemma {:induction false} DataRoundTripExactly(f: Frame, tail: seq<byte>)
    requires IsTwoWay(f) && f.DataFrame?
    ensures UnmarshalData(Marshal(f) + tail) == Frame(f, tail) <==> Fits(f)
  {
    DataLayout(f, tail);
    if |f.payload| <= 65527 {
      ShortPayloadIsRead(Marshal(f) + tail, f.payload, tail);
    } else {
      LongPayloadIsNotRead(Marshal(f) + tail, f.payload);
    }
  }

  lemma {:induction false} AckRoundTrip(f: Frame, tail: seq<byte>)
    requires IsTwoWay(f) && f.AckFrame?
    ensures UnmarshalAck(Marshal(f) + tail) == Frame(f, tail) && (Marshal(f) + tail)[0] == ACK
  {
    var b := Marshal(f) + tail;
    assert b[1..3] == Uint16(f.streamID) && b[3..5] == Uint16(2) && b[6..8] == Uint16(f.ackID) && b[8..] == tail;
    Uint16RoundTrip(f.streamID);
    Uint16RoundTrip(2);
    Uint16RoundTrip(f.ackID);
  }

  lemma {:induction false} FrameRoundTripExactly(f: Frame, tail: seq<byte>, isJson: seq<byte> -> bool)
    requires IsTwoWay(f)
    ensures Unmarshal(Marshal(f) + tail, isJson) == Frame(f, tail) <==> Fits(f)
    ensures Unmarshal(Marshal(f) + tail, isJson).Frame? ==> Unmarshal(Marshal(f) + tail, isJson).frame == f ==> Fits(f)
  {
    match f {
      case PingFrame => assert (Marshal(f) + tail)[1..] == tail;
      case PongFrame => assert (Marshal(f) + tail)[1..] == tail;
      case AckFrame(_, _) => AckRoundTrip(f, tail);
      case DataFrame(_, _, _, _) =>
        DataLayout(f, tail);
        DataRoundTripExactly(f, tail);
    }
  }

  function MarshalAll(fs: seq<Frame>): seq<byte>
    requires forall k :: 0 <= k < |fs| ==> IsTwoWay(fs[k])
  {
    if fs == [] then [] else Marshal(fs[0]) + MarshalAll(fs[1..])
  }

  /** The loop splits a concatenation of marshalled frames back into just those frames exactly when each of them fits. */
  lemma {:induction false} SplitOfMarshalled(fs: seq<Frame>, isJson: seq<byte> -> bool)
    requires forall k :: 0 <= k < |fs| ==> IsTwoWay(fs[k])
    ensures Split(MarshalAll(fs), isJson) == Done(fs) <==> forall k :: 0 <= k < |fs| ==> Fits(fs[k])
  {
    if fs != [] {
      var tail := MarshalAll(fs[1..]);
      FrameRoundTripExactly(fs[0], tail, isJson);
      if Fits(fs[0]) {
        SplitOfMarshalled(fs[1..], isJson);
        HeadAndTail(fs, Split(tail, isJson));
        assert (forall k :: 0 <= k < |fs| ==> Fits(fs[k])) <==> forall k :: 0 <= k < |fs[1..]| ==> Fits(fs[1..][k]) by {
          assert forall k :: 0 <= k < |fs[1..]| ==> fs[1..][k] == fs[k + 1];
          assert forall k :: 0 < k < |fs| ==> fs[k] == fs[1..][k - 1];
        }
      } else {
        var r := Unmarshal(MarshalAll(fs), isJson);
        assert r.Frame? ==> Split(MarshalAll(fs), isJson).sent[0] == r.frame != fs[0];
      }
    }
  }

  lemma {:induction false} HeadAndTail(fs: seq<Frame>, o: Outcome)
    requires fs != []
    ensures After([fs[0]], o) == Done(fs) <==> o == Done(fs[1..])
  {
    assert ([fs[0]] + o.sent)[1..] == o.sent && [fs[0]] + fs[1..] == fs;
  }

  /** Reading a Data frame panics exactly when the 16-bit end of the payload wraps: a length field below 2, or above 65529. */
  lemma {:induction false} DataPanicsExactly(b: seq<byte>)
    ensures UnmarshalData(b).Panics? <==> |b| >= 8 && (Field(b, 3) < 2 || Field(b, 3) > 65529)
  {
  }

  /** An Open frame whose payload is rejected stands at index k. */
  predicate SpinsAt(data: seq<byte>, isJson: seq<byte> -> bool, k: nat) {
    k < |data| && data[k] == OPEN && UnmarshalOpen(data[k..], isJson).Unchanged?
  }

  lemma {:induction false} SpinsBehind(data: seq<byte>, isJson: seq<byte> -> bool, used: nat, k: nat)
    requires used <= |data| && SpinsAt(data[used..], isJson, k)
    ensures SpinsAt(data, isJson, used + k)
  {
    assert data[used..][k..] == data[used + k..];
  }

  /** What a frame leaves is the end of the data. */
  lemma {:induction false} RestIsBehind(data: seq<byte>, isJson: seq<byte> -> bool)
    requires data != [] && Unmarshal(data, isJson).Frame?
    ensures var rest := Unmarshal(data, isJson).rest; rest == data[|data| - |rest|..]
  {
  }

  /** The loop repeats itself only on an Open frame whose payload is rejected. */
  lemma {:induction false} SpinsOnlyOnOpen(data: seq<byte>, isJson: seq<byte> -> bool)
    requires Split(data, isJson).Spins?
    ensures exists k :: SpinsAt(data, isJson, k)
    decreases |data|
  {
    if Unmarshal(data, isJson).Frame? {
      var rest := Unmarshal(data, isJson).rest;
      RestIsBehind(data, isJson);
      SpinsOnlyOnOpen(rest, isJson);
      var k :| SpinsAt(rest, isJson, k);
      SpinsBehind(data, isJson, |data| - |rest|, k);
    } else {
      assert data[0..] == data;
      assert SpinsAt(data, isJson, 0);
    }
  }
}
