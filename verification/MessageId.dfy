/** The message IDs of pkg/messagix/methods/methods.go: "mid.$", a chat type, and 21 bytes in URL-safe base64. */
module MessageId {
  import opened Common
  import opened Sextets
  import opened Byter

  const META_EPOCH_MS := 1072915200000
  const PREFIX := "mid.$"

  /** Time is in Unix milliseconds. */
  datatype MetaMessageID = MetaMessageID(chatType: char, chatID: int, time: int, txnID: int)

  predicate IsAscii(c: char) {
    (c as int) < 0x80
  }

  /** The values a Go MetaMessageID can hold, with a one-byte chat type. */
  predicate IsMessageID(id: MetaMessageID) {
    IsAscii(id.chatType) && IsInt64(id.chatID) && IsInt64(id.txnID) && IsInt64(id.time) && IsInt64(id.time - META_EPOCH_MS)
  }

  // ----- bytes as bits -----

  function ByteBits(b: byte): (bits: seq<int>)
    ensures |bits| == 8 && AllBits(bits)
  {
    [b / 128, b / 64 % 2, b / 32 % 2, b / 16 % 2, b / 8 % 2, b / 4 % 2, b / 2 % 2, b % 2]
  }

  function BitsByte(bits: seq<int>): byte
    requires |bits| == 8 && AllBits(bits)
  {
    128 * bits[0] + 64 * bits[1] + 32 * bits[2] + 16 * bits[3] + 8 * bits[4] + 4 * bits[5] + 2 * bits[6] + bits[7]
  }

  function BytesToBits(bytes: seq<byte>): (bits: seq<int>)
    ensures |bits| == 8 * |bytes| && AllBits(bits)
  {
    if bytes == [] then [] else ByteBits(bytes[0]) + BytesToBits(bytes[1..])
  }

  /** Whole bytes only; bits left over at the end are dropped. */
  function BitsToBytes(bits: seq<int>): (bytes: seq<byte>)
    requires AllBits(bits)
    ensures |bytes| == |bits| / 8
    decreases |bits|
  {
    if |bits| < 8 then [] else [BitsByte(bits[..8])] + BitsToBytes(bits[8..])
  }

  lemma {:induction false} BitsByteOfByteBits(b: byte)
    ensures BitsByte(ByteBits(b)) == b
  {
    var b1, b2, b3, b4, b5, b6, b7 := b / 2, b / 4, b / 8, b / 16, b / 32, b / 64, b / 128;
    assert b1 / 2 == b2 && b2 / 2 == b3 && b3 / 2 == b4 && b4 / 2 == b5 && b5 / 2 == b6 && b6 / 2 == b7;
    EightBits(b, b1, b2, b3, b4, b5, b6, b7);
  }

  /** A number below 256 from its successive halves. */
  lemma {:induction false} EightBits(b: nat, b1: nat, b2: nat, b3: nat, b4: nat, b5: nat, b6: nat, b7: nat)
    requires b1 == b / 2 && b2 == b1 / 2 && b3 == b2 / 2 && b4 == b3 / 2 && b5 == b4 / 2 && b6 == b5 / 2 && b7 == b6 / 2
    ensures b == 128 * b7 + 64 * (b6 % 2) + 32 * (b5 % 2) + 16 * (b4 % 2) + 8 * (b3 % 2) + 4 * (b2 % 2) + 2 * (b1 % 2) + b % 2
  {
    assert b == 2 * b1 + b % 2 && b1 == 2 * b2 + b1 % 2 && b2 == 2 * b3 + b2 % 2 && b3 == 2 * b4 + b3 % 2;
    assert b4 == 2 * b5 + b4 % 2 && b5 == 2 * b6 + b5 % 2 && b6 == 2 * b7 + b6 % 2;
  }

  lemma {:induction false} ByteBitsOfBitsByte(bits: seq<int>)
    requires |bits| == 8 && AllBits(bits)
    ensures ByteBits(BitsByte(bits)) == bits
  {
    var b := BitsByte(bits);
    assert b / 2 == 64 * bits[0] + 32 * bits[1] + 16 * bits[2] + 8 * bits[3] + 4 * bits[4] + 2 * bits[5] + bits[6];
    assert b / 4 == 32 * bits[0] + 16 * bits[1] + 8 * bits[2] + 4 * bits[3] + 2 * bits[4] + bits[5];
    assert b / 8 == 16 * bits[0] + 8 * bits[1] + 4 * bits[2] + 2 * bits[3] + bits[4];
    assert b / 16 == 8 * bits[0] + 4 * bits[1] + 2 * bits[2] + bits[3];
    assert b / 32 == 4 * bits[0] + 2 * bits[1] + bits[2];
    assert b / 64 == 2 * bits[0] + bits[1];
    assert b / 128 == bits[0];
  }

  lemma {:induction false} BytesOfBits(bytes: seq<byte>)
    ensures BitsToBytes(BytesToBits(bytes)) == bytes
  {
    if bytes != [] {
      var bits := BytesToBits(bytes);
      assert bits[..8] == ByteBits(bytes[0]) && bits[8..] == BytesToBits(bytes[1..]);
      BitsByteOfByteBits(bytes[0]);
      BytesOfBits(bytes[1..]);
    }
  }

  lemma {:induction false} BitsOfBytes(bits: seq<int>)
    requires AllBits(bits) && |bits| % 8 == 0
    ensures BytesToBits(BitsToBytes(bits)) == bits
    decreases |bits|
  {
    if bits != [] {
      ByteBitsOfBitsByte(bits[..8]);
      BitsOfBytes(bits[8..]);
      assert bits[..8] + bits[8..] == bits;
    }
  }

  // ----- base64 without padding -----

  function WithoutLineBreaks(text: string): (t: string)
    ensures |t| <= |text|
  {
    if text == "" then ""
    else (if text[0] == '\r' || text[0] == '\n' then "" else [text[0]]) + WithoutLineBreaks(text[1..])
  }

  /** Go's RawURLEncoding.DecodeString: line breaks are skipped, and a single character left over is an error. */
  function DecodeString(text: string): Option<seq<byte>> {
    var t := WithoutLineBreaks(text);
    match BitsOf(UrlSafe, t)
    case None => None
    case Some(bits) => if |t| % 4 == 1 then None else Some(BitsToBytes(bits))
  }

  // ----- printing and parsing -----

  /** The bytes of the body: chat ID, the low five bytes of the time since the Meta epoch, transaction ID. */
  function Body(id: MetaMessageID): (body: seq<byte>)
    requires IsMessageID(id)
    ensures |body| == 21
  {
    IntBytes(ToUint64(id.chatID), 8, Big) + IntBytes(ToUint64(id.time - META_EPOCH_MS), 5, Big) + IntBytes(ToUint64(id.txnID), 8, Big)
  }

  function Print(id: MetaMessageID): string
    requires IsMessageID(id)
  {
    PREFIX + [id.chatType] + TextOf(UrlSafe, BytesToBits(Body(id)))
  }

  method PutUint64(body: array<byte>, at: nat, v: nat)
    requires at + 8 <= body.Length
    modifies body
    ensures body[..] == old(body[..at]) + IntBytes(v, 8, Big) + old(body[at + 8..])
  {
    var bytes := IntBytes(v, 8, Big);
    forall k | at <= k < at + 8 {
      body[k] := bytes[k - at];
    }
  }

  /** What the three overlapping writes leave. */
  lemma {:induction false} Overwritten(zeros: seq<byte>, time: seq<byte>, chat: seq<byte>, txn: seq<byte>)
    requires |zeros| == 21 && |time| == |chat| == |txn| == 8
    ensures var one := zeros[..5] + time + zeros[13..];
      var two := one[..0] + chat + one[8..];
      two[..13] + txn + two[21..] == chat + time[3..] + txn
  {
  }

  /** The source writes the time first, eight bytes of it, and then the chat ID over the first three of those. */
  method ToText(id: MetaMessageID) returns (text: string)
    requires IsMessageID(id)
    ensures text == Print(id)
  {
    var body := new byte[21](_ => 0);
    ghost var zeros := body[..];
    PutUint64(body, 5, ToUint64(id.time - META_EPOCH_MS));
    PutUint64(body, 0, ToUint64(id.chatID));
    PutUint64(body, 13, ToUint64(id.txnID));
    Overwritten(zeros, IntBytes(ToUint64(id.time - META_EPOCH_MS), 8, Big), IntBytes(ToUint64(id.chatID), 8, Big),
                IntBytes(ToUint64(id.txnID), 8, Big));
    LowBytes(ToUint64(id.time - META_EPOCH_MS), 8, 5);
    text := PREFIX + [id.chatType] + TextOf(UrlSafe, BytesToBits(body[..]));
  }

  lemma {:induction false} LowBytes(n: nat, size: nat, low: nat)
    requires low <= size
    ensures IntBytes(n, size, Big)[size - low..] == IntBytes(n, low, Big)
  {
    if low > 0 {
      LowBytes(n / 256, size - 1, low - 1);
      var all, front := IntBytes(n, size, Big), IntBytes(n / 256, size - 1, Big);
      assert all[size - low..] == front[size - low..] + [n % 256];
    }
  }

  lemma {:induction false} NoLineBreaks(text: string)
    requires '\r' !in text && '\n' !in text
    ensures WithoutLineBreaks(text) == text
  {
    if text != "" {
      NoLineBreaks(text[1..]);
      assert [text[0]] + text[1..] == text;
    }
  }

  lemma {:induction false} EncodedHasNoLineBreaks(bits: seq<int>)
    requires |bits| % 6 == 0 && AllBits(bits)
    ensures '\r' !in TextOf(UrlSafe, bits) && '\n' !in TextOf(UrlSafe, bits)
    decreases |bits|
  {
    if bits != [] {
      EncodedHasNoLineBreaks(bits[6..]);
      var c := CharOf(UrlSafe, Sextet(bits[..6]));
      assert c != '\r' && c != '\n';
    }
  }

  lemma {:induction false} DecodeOfEncode(body: seq<byte>)
    requires |body| == 21
    ensures DecodeString(TextOf(UrlSafe, BytesToBits(body))) == Some(body)
  {
    var bits := BytesToBits(body);
    EncodedHasNoLineBreaks(bits);
    NoLineBreaks(TextOf(UrlSafe, bits));
    BitsOfTextOf(UrlSafe, bits);
    BytesOfBits(body);
  }

  /** Leading zero bytes add nothing. */
  lemma {:induction false} ZerosInFront(bytes: seq<byte>, zeros: nat)
    ensures IntOf(seq(zeros, _ => 0) + bytes, Big) == IntOf(bytes, Big)
    decreases |bytes|, zeros
  {
    var all: seq<byte> := seq(zeros, _ => 0) + bytes;
    if |bytes| > 0 {
      assert all[..|all| - 1] == seq(zeros, _ => 0) + bytes[..|bytes| - 1];
      ZerosInFront(bytes[..|bytes| - 1], zeros);
    } else if zeros > 0 {
      assert all[..|all| - 1] == seq(zeros - 1, _ => 0) + bytes;
      ZerosInFront(bytes, zeros - 1);
    } else {
      assert all == [];
    }
  }

  /** Five bytes keep a number exactly when it is below 2^40. */
  lemma {:induction false} FiveBytes(n: nat)
    ensures IntOf(IntBytes(n, 5, Big), Big) == n <==> n < 0x100_0000_0000
  {
    assert Pow256(5) == 0x100_0000_0000;
    IntBelow(IntBytes(n, 5, Big), Big);
    if n < 0x100_0000_0000 {
      IntRoundTrip(n, 5, Big);
    }
  }

  /** What the three fields of a 21-byte body parse to. */
  function Fields(chatType: char, payload: seq<byte>): (id: MetaMessageID)
    requires |payload| == 21
    ensures IsInt64(id.chatID) && ToUint64(id.chatID) == IntOf(payload[..8], Big)
    ensures id.time == IntOf(payload[8..13], Big) + META_EPOCH_MS && IntOf(payload[8..13], Big) < 0x100_0000_0000
    ensures IsInt64(id.txnID) && ToUint64(id.txnID) == IntOf(payload[13..], Big)
  {
    IntBelow(payload[..8], Big);
    IntBelow(payload[13..], Big);
    IntBelow(payload[8..13], Big);
    ByteCounts();
    assert [0, 0, 0] == seq(3, _ => 0);
    ZerosInFront(payload[8..13], 3);
    MetaMessageID(chatType, FromUint64(IntOf(payload[..8], Big)), IntOf([0, 0, 0] + payload[8..13], Big) + META_EPOCH_MS,
                  FromUint64(IntOf(payload[13..], Big)))
  }

  lemma {:induction false} ByteCounts()
    ensures Pow256(5) == 0x100_0000_0000 && Pow256(8) == 0x1_0000_0000_0000_0000
  {
  }

  function Parse(text: string): Option<MetaMessageID> {
    if |text| < 6 || text[..5] != PREFIX then None
    else match DecodeString(text[6..])
      case None => None
      case Some(payload) => if |payload| != 21 then None else Some(Fields(text[5], payload))
  }

  lemma {:induction false} FieldsOfBody(id: MetaMessageID)
    requires IsMessageID(id)
    ensures var parsed := Fields(id.chatType, Body(id));
      parsed.chatID == id.chatID && parsed.txnID == id.txnID &&
      parsed.time == IntOf(IntBytes(ToUint64(id.time - META_EPOCH_MS), 5, Big), Big) + META_EPOCH_MS
  {
    var body := Body(id);
    var chat, since, txn := ToUint64(id.chatID), ToUint64(id.time - META_EPOCH_MS), ToUint64(id.txnID);
    assert body[..8] == IntBytes(chat, 8, Big) && body[8..13] == IntBytes(since, 5, Big) && body[13..] == IntBytes(txn, 8, Big);
    ByteCounts();
    IntRoundTrip(chat, 8, Big);
    IntRoundTrip(txn, 8, Big);
    SameUint64(Fields(id.chatType, body).chatID, id.chatID);
    SameUint64(Fields(id.chatType, body).txnID, id.txnID);
  }

  lemma {:induction false} SameUint64(a: int, b: int)
    requires IsInt64(a) && IsInt64(b) && ToUint64(a) == ToUint64(b)
    ensures a == b
  {
  }

  lemma {:induction false} BodyOfFields(chatType: char, payload: seq<byte>)
    requires IsAscii(chatType) && |payload| == 21
    ensures IsMessageID(Fields(chatType, payload)) && Body(Fields(chatType, payload)) == payload
  {
    BytesOfInt(payload[..8]);
    BytesOfInt(payload[8..13]);
    BytesOfInt(payload[13..]);
    assert payload == payload[..8] + payload[8..13] + payload[13..];
  }

  /**
   Parsing a printed ID gives it back exactly when its time is within 2^40 milliseconds (34 years) after the Meta epoch.
   */
  lemma {:induction false} ParseOfPrint(id: MetaMessageID)
    requires IsMessageID(id)
    ensures Parse(Print(id)) == Some(id) <==> META_EPOCH_MS <= id.time < META_EPOCH_MS + 0x100_0000_0000
  {
    var body, text := Body(id), Print(id);
    assert text[..5] == PREFIX && text[5] == id.chatType && text[6..] == TextOf(UrlSafe, BytesToBits(body));
    DecodeOfEncode(body);
    FieldsOfBody(id);
    FiveBytes(ToUint64(id.time - META_EPOCH_MS));
  }

  lemma {:induction false} BytesOfInt(bytes: seq<byte>)
    ensures IntBytes(IntOf(bytes, Big), |bytes|, Big) == bytes
    decreases |bytes|
  {
    if bytes != [] {
      BytesOfInt(bytes[..|bytes| - 1]);
      var high, last := IntOf(bytes[..|bytes| - 1], Big), bytes[|bytes| - 1];
      assert (256 * high + last) / 256 == high && (256 * high + last) % 256 == last;
    }
  }

  lemma {:induction false} EncodeOfDecode(text: string)
    requires '\r' !in text && '\n' !in text && DecodeString(text).Some? && |DecodeString(text).value| == 21
    ensures TextOf(UrlSafe, BytesToBits(DecodeString(text).value)) == text
  {
    NoLineBreaks(text);
    var bits := BitsOf(UrlSafe, text).value;
    assert |bits| == 6 * |text| && |bits| / 8 == 21;
    assert |text| == 28;
    BitsOfBytes(bits);
    TextOfBitsOf(UrlSafe, text);
  }

  /** Printing a parsed ID whose chat type is ASCII gives back the text exactly when the encoded body has no line breaks. */
  lemma {:induction false} PrintOfParse(text: string)
    requires Parse(text).Some? && IsAscii(text[5])
    ensures IsMessageID(Parse(text).value)
    ensures Print(Parse(text).value) == text <==> '\r' !in text[6..] && '\n' !in text[6..]
  {
    var payload := DecodeString(text[6..]).value;
    BodyOfFields(text[5], payload);
    var encoded := TextOf(UrlSafe, BytesToBits(payload));
    EncodedHasNoLineBreaks(BytesToBits(payload));
    assert text == PREFIX + [text[5]] + text[6..];
    assert (PREFIX + [text[5]] + encoded)[6..] == encoded;
    if '\r' !in text[6..] && '\n' !in text[6..] {
      EncodeOfDecode(text[6..]);
    }
  }
}
