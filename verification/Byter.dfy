/**
 The schema-driven codec of pkg/messagix/byter (write.go, read.go, byter.go). Struct tags are replaced by a list of
 field types; field values are numbers or byte strings.
 */
module Byter {
  import opened Common

  datatype Endian = Big | Little

  /** The integer kinds the endian table knows; the size is in bytes. */
  datatype Width = W8 | W16 | W32 | W64

  function Size(w: Width): nat {
    match w
    case W8 => 1
    case W16 => 2
    case W32 => 4
    case W64 => 8
  }

  /** The tag "int8" names an unsigned byte, so the signed kinds are wider. */
  type SignedWidth = w: Width | !w.W8? witness W16

  /** A signed length type has a size but no entry in the endian table: nothing is written, and reading fails. */
  datatype LengthType = NoLength | Unsigned(width: Width) | Signed(signed: SignedWidth)

  /** An enum is an integer that is written as one byte; a field with a skip tag is read, but not written, and so is a bool. */
  datatype FieldType =
    | UInt(width: Width, endian: Endian)
    | Enum(width: Width, endian: Endian)
    | Vlq
    | Text(lengthType: LengthType, endian: Endian)
    | Flag
    | Skipped(field: FieldType)

  datatype Value = Number(n: nat) | Bytes(bytes: seq<byte>) | Boolean(b: bool)

  datatype Error = Eof | MalformedVlq | InvalidLengthType | UnsupportedKind

  datatype Result<+T> = Ok(value: T, rest: seq<byte>) | Err(error: Error)

  /** The Go type of the field holds the value: an unsigned integer of its width, a uint32, or a string. */
  predicate HasType(t: FieldType, v: Value) {
    match t
    case UInt(width, _) => v.Number? && v.n < Pow256(Size(width))
    case Enum(width, _) => v.Number? && v.n < Pow256(Size(width))
    case Vlq => v.Number? && v.n < 0x1_0000_0000
    case Text(_, _) => v.Bytes?
    case Flag => v.Boolean?
    case Skipped(field) => HasType(field, v)
  }

  predicate HaveTypes(ts: seq<FieldType>, vs: seq<Value>) {
    |ts| == |vs| && forall k | 0 <= k < |ts| :: HasType(ts[k], vs[k])
  }

  // ----- integers -----

  function Pow256(k: nat): (p: nat)
    ensures p > 0
  {
    if k == 0 then 1 else 256 * Pow256(k - 1)
  }

  /** The low `size` bytes of a number. */
  function IntBytes(n: nat, size: nat, endian: Endian): (bytes: seq<byte>)
    ensures |bytes| == size
  {
    if size == 0 then []
    else match endian
      case Big => IntBytes(n / 256, size - 1, endian) + [n % 256]
      case Little => [n % 256] + IntBytes(n / 256, size - 1, endian)
  }

  function IntOf(bytes: seq<byte>, endian: Endian): nat {
    if bytes == [] then 0
    else match endian
      case Big => 256 * IntOf(bytes[..|bytes| - 1], endian) + bytes[|bytes| - 1]
      case Little => bytes[0] + 256 * IntOf(bytes[1..], endian)
  }

  // ----- variable-length integers, section 2.2.3 of MQTT 3.1.1 -----

  function VlqBytes(n: nat): (bytes: seq<byte>)
    ensures |bytes| > 0
  {
    if n < 128 then [n] else [n % 128 + 128] + VlqBytes(n / 128)
  }

  /** Reads from the k-th byte on; a fifth byte is malformed. */
  function ReadVlq(buff: seq<byte>, k: nat): (r: Result<nat>)
    ensures r.Ok? ==> |r.rest| < |buff|
  {
    if buff == [] then Err(Eof)
    else if k > 3 then Err(MalformedVlq)
    else if buff[0] < 128 then Ok(buff[0], buff[1..])
    else match ReadVlq(buff[1..], k + 1)
      case Ok(n, rest) => Ok(buff[0] - 128 + 128 * n, rest)
      case Err(e) => Err(e)
  }

  // ----- fields -----

  function WriteField(t: FieldType, v: Value): (bytes: seq<byte>)
    requires HasType(t, v)
  {
    match t
    case UInt(width, endian) => IntBytes(v.n, Size(width), endian)
    case Enum(_, _) => [v.n % 256]
    case Flag => []
    case Skipped(_) => []
    case Vlq => VlqBytes(v.n)
    case Text(Unsigned(width), endian) => IntBytes(|v.bytes|, Size(width), endian) + v.bytes
    case Text(_, _) => v.bytes
  }

  /** bytes.Buffer.Read into a slice of n bytes: what is there, and zeros for the rest; nothing at all is an error. */
  function Take(buff: seq<byte>, n: nat): (r: Result<seq<byte>>)
    ensures r.Ok? ==> |r.value| == n
  {
    if buff == [] && n > 0 then Err(Eof)
    else if n <= |buff| then Ok(buff[..n], buff[n..])
    else Ok(buff + seq(n - |buff|, _ => 0), [])
  }

  function ReadInt(buff: seq<byte>, width: Width, endian: Endian): Result<nat> {
    match Take(buff, Size(width))
    case Ok(bytes, rest) => Ok(IntOf(bytes, endian), rest)
    case Err(e) => Err(e)
  }

  function NumberOf(r: Result<nat>): Result<Value> {
    match r
    case Ok(n, rest) => Ok(Number(n), rest)
    case Err(e) => Err(e)
  }

  function ReadField(t: FieldType, buff: seq<byte>): Result<Value>
    decreases t
  {
    match t
    case UInt(width, endian) => NumberOf(ReadInt(buff, width, endian))
    case Enum(width, endian) => NumberOf(ReadInt(buff, width, endian))
    case Flag => if buff == [] then Err(Eof) else Ok(Boolean(buff[0] != 0), buff[1..])
    case Skipped(field) => ReadField(field, buff)
    case Vlq => NumberOf(ReadVlq(buff, 0))
    case Text(NoLength, _) => Err(InvalidLengthType)
    case Text(Signed(width), endian) =>
      (match ReadInt(buff, width, endian)
       case Ok(_, _) => Err(UnsupportedKind)
       case Err(e) => Err(e))
    case Text(Unsigned(width), endian) =>
      match ReadInt(buff, width, endian)
      case Err(e) => Err(e)
      case Ok(length, body) =>
        match Take(body, length)
        case Ok(bytes, rest) => Ok(Bytes(bytes), rest)
        case Err(e) => Err(e)
  }

  function WriteFields(ts: seq<FieldType>, vs: seq<Value>): seq<byte>
    requires HaveTypes(ts, vs)
  {
    if ts == [] then [] else WriteField(ts[0], vs[0]) + WriteFields(ts[1..], vs[1..])
  }

  /** On an exhausted buffer the fields that are left keep the values they had. */
  function ReadFields(ts: seq<FieldType>, old': seq<Value>, buff: seq<byte>): Result<seq<Value>>
    requires |old'| == |ts|
  {
    if ts == [] || buff == [] then Ok(old', buff)
    else match ReadField(ts[0], buff)
      case Err(e) => Err(e)
      case Ok(v, rest) =>
        match ReadFields(ts[1..], old'[1..], rest)
        case Ok(vs, end) => Ok([v] + vs, end)
        case Err(e) => Err(e)
  }

  // ----- the codec as the source runs it -----

  class Buffer {
    var Buff: seq<byte>

    constructor (data: seq<byte>)
      ensures Buff == data
    {
      Buff := data;
    }

    method WriteInteger(value: nat, width: Width, endian: Endian)
      modifies this
      ensures Buff == old(Buff) + IntBytes(value, Size(width), endian)
    {
      Buff := Buff + IntBytes(value, Size(width), endian);
    }

    method EncodeVLQ(value: nat)
      modifies this
      ensures Buff == old(Buff) + VlqBytes(value)
    {
      var v := value;
      while true
        invariant Buff + VlqBytes(v) == old(Buff) + VlqBytes(value)
        decreases v
      {
        var encodedByte: byte := v % 128;
        var more := v / 128;
        if more > 0 {
          assert Buff + ([encodedByte + 128] + VlqBytes(more)) == Buff + [encodedByte + 128] + VlqBytes(more);
          encodedByte := encodedByte + 128;
        }
        Buff := Buff + [encodedByte];
        if more == 0 {
          break;
        }
        v := more;
      }
    }

    method WriteString(bytes: seq<byte>, lengthType: LengthType, endian: Endian)
      modifies this
      ensures Buff == old(Buff) + WriteField(Text(lengthType, endian), Bytes(bytes))
    {
      if lengthType.Unsigned? {
        WriteInteger(|bytes|, lengthType.width, endian);
        Associative(old(Buff), IntBytes(|bytes|, Size(lengthType.width), endian), bytes);
      }
      Buff := Buff + bytes;
    }

    method WriteOne(t: FieldType, v: Value)
      requires HasType(t, v)
      modifies this
      ensures Buff == old(Buff) + WriteField(t, v)
    {
      match t {
        case UInt(width, endian) => WriteInteger(v.n, width, endian);
        case Enum(_, _) => Buff := Buff + [v.n % 256];
        case Vlq => EncodeVLQ(v.n);
        case Text(lengthType, endian) => WriteString(v.bytes, lengthType, endian);
        case Flag =>
        case Skipped(_) =>
      }
    }

    method WriteFromStruct(ts: seq<FieldType>, vs: seq<Value>)
      requires HaveTypes(ts, vs)
      modifies this
      ensures Buff == old(Buff) + WriteFields(ts, vs)
    {
      var i := 0;
      assert ts[0..] == ts && vs[0..] == vs;
      while i < |ts|
        invariant 0 <= i <= |ts|
        invariant Buff + WriteFields(ts[i..], vs[i..]) == old(Buff) + WriteFields(ts, vs)
      {
        WriteNext(Buff, ts, vs, i);
        WriteOne(ts[i], vs[i]);
        i := i + 1;
      }
    }

    /** Consumes what it can; after an error the buffer is not specified. */
    method ReadInteger(width: Width, endian: Endian) returns (r: Result<nat>)
      modifies this
      ensures r == ReadInt(old(Buff), width, endian) && (r.Ok? ==> Buff == r.rest)
    {
      var bytes := Take(Buff, Size(width));
      if bytes.Err? {
        return Err(bytes.error);
      }
      Buff := bytes.rest;
      return Ok(IntOf(bytes.value, endian), Buff);
    }

    method ReadString(lengthType: LengthType, endian: Endian) returns (r: Result<Value>)
      modifies this
      ensures r == ReadField(Text(lengthType, endian), old(Buff)) && (r.Ok? ==> Buff == r.rest)
    {
      if lengthType.NoLength? {
        return Err(InvalidLengthType);
      }
      var width: Width := if lengthType.Signed? then lengthType.signed else lengthType.width;
      var length := ReadInteger(width, endian);
      if length.Err? {
        return Err(length.error);
      }
      if lengthType.Signed? {
        return Err(UnsupportedKind);
      }
      var bytes := Take(Buff, length.value);
      if bytes.Err? {
        return Err(bytes.error);
      }
      Buff := bytes.rest;
      return Ok(Bytes(bytes.value), Buff);
    }

    method DecodeVLQ() returns (r: Result<nat>)
      modifies this
      ensures r == ReadVlq(old(Buff), 0) && (r.Ok? ==> Buff == r.rest)
    {
      var multiplier, value := 1, 0;
      ghost var k := 0;
      while true
        invariant k <= 4 && multiplier == [1, 128, 16384, 2097152, 268435456][k]
        invariant match ReadVlq(Buff, k)
                  case Ok(n, rest) => ReadVlq(old(Buff), 0) == Ok(value + multiplier * n, rest)
                  case Err(error) => ReadVlq(old(Buff), 0) == Err(error)
        decreases |Buff|
      {
        if Buff == [] {
          return Err(Eof);
        }
        var encodedByte := Buff[0];
        Buff := Buff[1..];
        value := value + encodedByte % 128 * multiplier;
        if multiplier > 2097152 {
          return Err(MalformedVlq);
        }
        multiplier := multiplier * 128;
        k := k + 1;
        if encodedByte < 128 {
          return Ok(value, Buff);
        }
      }
    }

    /** One field; reading does not look at the skip tag. */
    method ReadOne(t: FieldType) returns (r: Result<Value>)
      modifies this
      ensures r == ReadField(t, old(Buff)) && (r.Ok? ==> Buff == r.rest)
      decreases t
    {
      match t {
        case UInt(width, endian) =>
          var n := ReadInteger(width, endian);
          r := if n.Ok? then Ok(Number(n.value), n.rest) else Err(n.error);
        case Enum(width, endian) =>
          var n := ReadInteger(width, endian);
          r := if n.Ok? then Ok(Number(n.value), n.rest) else Err(n.error);
        case Vlq =>
          var n := DecodeVLQ();
          r := if n.Ok? then Ok(Number(n.value), n.rest) else Err(n.error);
        case Text(lengthType, endian) => r := ReadString(lengthType, endian);
        case Flag =>
          if Buff == [] {
            return Err(Eof);
          }
          var boolByte := Buff[0];
          Buff := Buff[1..];
          r := Ok(Boolean(boolByte != 0), Buff);
        case Skipped(field) => r := ReadOne(field);
      }
    }

    method ReadToStruct(ts: seq<FieldType>, initial: seq<Value>) returns (r: Result<seq<Value>>)
      requires |initial| == |ts|
      modifies this
      ensures r == ReadFields(ts, initial, old(Buff)) && (r.Ok? ==> Buff == r.rest)
    {
      var vs := initial;
      var i := 0;
      assert ts[0..] == ts && initial[0..] == initial && vs[..0] == [];
      ghost var whole := ReadFields(ts, initial, Buff);
      if whole.Ok? {
        assert [] + whole.value == whole.value;
      }
      while i < |ts|
        invariant 0 <= i <= |ts| == |vs| && vs[i..] == initial[i..]
        invariant whole == Prepend(vs[..i], ReadFields(ts[i..], initial[i..], Buff))
      {
        if Buff == [] {
          assert vs[..i] + initial[i..] == vs;
          return Ok(vs, Buff);
        }
        assert ts[i..][1..] == ts[i + 1..] && initial[i..][1..] == initial[i + 1..];
        var field := ReadOne(ts[i]);
        if field.Err? {
          return Err(field.error);
        }
        vs := vs[i := field.value];
        assert vs[..i + 1] == vs[..i] + [field.value];
        PrependMore(vs[..i], field.value, ReadFields(ts[i + 1..], initial[i + 1..], Buff));
        i := i + 1;
      }
      assert vs[..i] + [] == vs;
      return Ok(vs, Buff);
    }
  }

  function Prepend(front: seq<Value>, r: Result<seq<Value>>): Result<seq<Value>> {
    match r
    case Ok(vs, rest) => Ok(front + vs, rest)
    case Err(e) => Err(e)
  }

  lemma {:induction false} WriteNext(before: seq<byte>, ts: seq<FieldType>, vs: seq<Value>, i: nat)
    requires HaveTypes(ts, vs) && i < |ts|
    ensures before + WriteFields(ts[i..], vs[i..]) ==
            (before + WriteField(ts[i], vs[i])) + WriteFields(ts[i + 1..], vs[i + 1..])
  {
    assert ts[i..][1..] == ts[i + 1..] && vs[i..][1..] == vs[i + 1..];
  }

  lemma {:induction false} PrependMore(front: seq<Value>, v: Value, r: Result<seq<Value>>)
    ensures Prepend(front, Prepend([v], r)) == Prepend(front + [v], r)
  {
    if r.Ok? {
      assert front + ([v] + r.value) == front + [v] + r.value;
    }
  }

  // ----- the round trip -----

  lemma {:induction false} IntRoundTrip(n: nat, size: nat, endian: Endian)
    requires n < Pow256(size)
    ensures IntOf(IntBytes(n, size, endian), endian) == n
  {
    if size > 0 {
      LowByteFirst(n, Pow256(size - 1));
      IntRoundTrip(n / 256, size - 1, endian);
      IntOfIntBytes(n, size, endian);
    }
  }

  lemma {:induction false} LowByteFirst(n: nat, p: nat)
    ensures n < 256 * p ==> n / 256 < p
    ensures 256 * (n / 256) + n % 256 == n
  {
  }

  lemma {:induction false} IntOfIntBytes(n: nat, size: nat, endian: Endian)
    requires size > 0
    ensures IntOf(IntBytes(n, size, endian), endian) == 256 * IntOf(IntBytes(n / 256, size - 1, endian), endian) + n % 256
  {
    var high, low := IntBytes(n / 256, size - 1, endian), n % 256;
    if endian.Big? {
      assert (high + [low])[..size - 1] == high && (high + [low])[size - 1] == low;
    } else {
      assert ([low] + high)[1..] == high && ([low] + high)[0] == low;
    }
  }

  /** Writing keeps a number up to a multiple of its width: the bytes read as what is left of it, in either order. */
  lemma {:induction false} IntBytesKeepTheLowBytes(n: nat, size: nat, endian: Endian) returns (high: nat)
    ensures n == high * Pow256(size) + IntOf(IntBytes(n, size, endian), endian)
    ensures IntOf(IntBytes(n, size, endian), endian) < Pow256(size)
  {
    IntBelow(IntBytes(n, size, endian), endian);
    if size == 0 {
      high := n;
    } else {
      high := IntBytesKeepTheLowBytes(n / 256, size - 1, endian);
      var low, bytes := IntBytes(n / 256, size - 1, endian), IntBytes(n, size, endian);
      if endian.Big? {
        assert bytes[..|bytes| - 1] == low;
      } else {
        assert bytes[1..] == low;
      }
      Shifted(n, high, Pow256(size - 1), IntOf(low, endian));
    }
  }

  lemma {:induction false} Shifted(n: nat, high: nat, p: nat, low: nat)
    requires n / 256 == high * p + low
    ensures n == high * (256 * p) + (256 * low + n % 256)
  {
    assert 256 * (high * p) == high * (256 * p);
  }

  lemma {:induction false} IntBelow(bytes: seq<byte>, endian: Endian)
    ensures IntOf(bytes, endian) < Pow256(|bytes|)
    decreases |bytes|
  {
    if bytes != [] {
      IntBelow(if endian.Big? then bytes[..|bytes| - 1] else bytes[1..], endian);
    }
  }

  lemma {:induction false} TwoBytes(bytes: seq<byte>)
    requires |bytes| == 2
    ensures IntOf(bytes, Big) == 256 * bytes[0] as int + bytes[1] as int
  {
    var high := bytes[..1];
    assert high[..0] == [] && IntOf(high[..0], Big) == 0;
    assert IntOf(high, Big) == bytes[0];
  }

  lemma {:induction false} VlqRoundTrip(n: nat, k: nat, tail: seq<byte>)
    requires k <= 3 && n < [0x1000_0000, 0x20_0000, 0x4000, 0x80][k]
    ensures ReadVlq(VlqBytes(n) + tail, k) == Ok(n, tail)
    decreases n
  {
    var bytes := VlqBytes(n) + tail;
    if n < 128 {
      assert bytes[1..] == tail;
    } else {
      assert bytes[1..] == VlqBytes(n / 128) + tail;
      VlqRoundTrip(n / 128, k + 1, tail);
    }
  }

  lemma {:induction false} VlqTooLong(n: nat, k: nat, tail: seq<byte>)
    requires k <= 3 && [0x1000_0000, 0x20_0000, 0x4000, 0x80][k] <= n
    ensures ReadVlq(VlqBytes(n) + tail, k) == Err(MalformedVlq)
    ensures n < [0x1_0000_0000, 0x200_0000, 0x4_0000, 0x800][k] ==> |VlqBytes(n)| == 5 - k
    decreases n
  {
    var bytes := VlqBytes(n) + tail;
    assert bytes[1..] == VlqBytes(n / 128) + tail;
    if k < 3 {
      VlqTooLong(n / 128, k + 1, tail);
    } else {
      assert bytes[1..] != [];
    }
  }

  /** The field can be read back: it is written, its prefix counts it, an enum has one byte and a VLQ no more than four. */
  predicate Fits(t: FieldType, v: Value)
    requires HasType(t, v)
  {
    match t
    case UInt(_, _) => true
    case Enum(width, _) => width.W8?
    case Flag => false
    case Skipped(_) => false
    case Vlq => v.n < 0x1000_0000
    case Text(Unsigned(width), _) => |v.bytes| < Pow256(Size(width))
    case Text(_, _) => false
  }

  lemma {:induction false} IntFieldRoundTrip(n: nat, width: Width, endian: Endian, tail: seq<byte>)
    requires n < Pow256(Size(width))
    ensures ReadInt(IntBytes(n, Size(width), endian) + tail, width, endian) == Ok(n, tail)
  {
    var bytes := IntBytes(n, Size(width), endian);
    IntRoundTrip(n, Size(width), endian);
    assert (bytes + tail)[..Size(width)] == bytes && (bytes + tail)[Size(width)..] == tail;
  }

  lemma {:induction false} TakeFront(front: seq<byte>, tail: seq<byte>)
    ensures Take(front + tail, |front|) == Ok(front, tail)
  {
    assert (front + tail)[..|front|] == front && (front + tail)[|front|..] == tail;
  }

  lemma {:induction false} OneByte(n: nat, endian: Endian)
    ensures IntBytes(n, 1, endian) == [n % 256]
  {
    assert IntBytes(n / 256, 0, endian) == [];
  }

  /** Nothing can be read from an empty buffer. */
  lemma {:induction false} NothingToRead(t: FieldType)
    ensures ReadField(t, []).Err?
    decreases t
  {
    if t.Skipped? {
      NothingToRead(t.field);
    }
  }

  lemma {:induction false} FieldRoundTrip(t: FieldType, v: Value, tail: seq<byte>)
    requires HasType(t, v) && Fits(t, v)
    ensures ReadField(t, WriteField(t, v) + tail) == Ok(v, tail) && WriteField(t, v) != []
  {
    match t {
      case UInt(width, endian) =>
        IntFieldRoundTrip(v.n, width, endian, tail);
      case Enum(width, endian) =>
        OneByte(v.n, endian);
        IntFieldRoundTrip(v.n, width, endian, tail);
      case Vlq =>
        VlqRoundTrip(v.n, 0, tail);
      case Text(lengthType, endian) =>
        var prefix := IntBytes(|v.bytes|, Size(lengthType.width), endian);
        assert prefix + v.bytes + tail == prefix + (v.bytes + tail);
        IntFieldRoundTrip(|v.bytes|, lengthType.width, endian, v.bytes + tail);
        TakeFront(v.bytes, tail);
    }
  }

  /** Reading gives back what was written, exactly when the field fits. */
  lemma {:induction false} FieldRoundTripExactly(t: FieldType, v: Value)
    requires HasType(t, v)
    ensures Fits(t, v) <==> forall tail :: ReadField(t, WriteField(t, v) + tail) == Ok(v, tail)
  {
    if Fits(t, v) {
      forall tail ensures ReadField(t, WriteField(t, v) + tail) == Ok(v, tail) {
        FieldRoundTrip(t, v, tail);
      }
    } else if t.Flag? || t.Skipped? {
      NothingToRead(t);
      assert WriteField(t, v) + [] == [];
    } else if t.Enum? {
      var tail: seq<byte> := [0];
      assert ReadField(t, WriteField(t, v) + tail) != Ok(v, tail);
    } else {
      assert ReadField(t, WriteField(t, v) + []) != Ok(v, []) by {
        match t {
          case Vlq => VlqTooLong(v.n, 0, []);
          case Text(Unsigned(width), endian) =>
            var prefix := IntBytes(|v.bytes|, Size(width), endian);
            assert prefix + v.bytes + [] == prefix + v.bytes;
            TakeFront(prefix, v.bytes);
            IntBelow(prefix, endian);
          case Text(_, _) =>
        }
      }
    }
  }

  lemma {:induction false} Associative(a: seq<byte>, b: seq<byte>, c: seq<byte>)
    ensures a + b + c == a + (b + c)
  {
  }

  /** A struct of fitting fields is read back whole, and what follows it is left in the buffer. */
  lemma {:induction false} StructRoundTrip(ts: seq<FieldType>, vs: seq<Value>, initial: seq<Value>, tail: seq<byte>)
    requires HaveTypes(ts, vs) && |initial| == |ts| && forall k :: 0 <= k < |ts| ==> Fits(ts[k], vs[k])
    ensures ReadFields(ts, initial, WriteFields(ts, vs) + tail) == Ok(vs, tail)
    decreases |ts|
  {
    if ts != [] {
      var rest := WriteFields(ts[1..], vs[1..]) + tail;
      Associative(WriteField(ts[0], vs[0]), WriteFields(ts[1..], vs[1..]), tail);
      FieldRoundTrip(ts[0], vs[0], rest);
      StructRoundTrip(ts[1..], vs[1..], initial[1..], tail);
      assert [vs[0]] + vs[1..] == vs;
    }
  }
}
