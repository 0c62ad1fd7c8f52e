/**
 Bit strings as text of 6-bit characters, most significant bit first, over two alphabets: the bitmap's own, and the
 URL-safe one of section 5 of RFC 4648.
 */
module Sextets {
  import opened Common

  datatype Alphabet = DigitsFirst | UrlSafe

  predicate IsBit(b: int) {
    b == 0 || b == 1
  }

  ghost predicate AllBits(bits: seq<int>) {
    forall k :: 0 <= k < |bits| ==> IsBit(bits[k])
  }

  /** Digits, small letters, capitals, '-', '_'; or capitals, small letters, digits, '-', '_'. */
  function CharOf(alphabet: Alphabet, v: nat): char
    requires v < 64
  {
    if v == 62 then '-'
    else if v == 63 then '_'
    else match alphabet
      case DigitsFirst => (v + if v < 10 then '0' as int else if v < 36 then 'a' as int - 10 else 'A' as int - 36) as char
      case UrlSafe => (v + if v < 26 then 'A' as int else if v < 52 then 'a' as int - 26 else '0' as int - 52) as char
  }

  function ValueOf(alphabet: Alphabet, c: char): (v: Option<nat>)
    ensures v.Some? ==> v.value < 64 && CharOf(alphabet, v.value) == c
  {
    if c == '-' then Some(62)
    else if c == '_' then Some(63)
    else if '0' <= c <= '9' then Some(c as int - '0' as int + if alphabet.DigitsFirst? then 0 else 52)
    else if 'a' <= c <= 'z' then Some(c as int - 'a' as int + if alphabet.DigitsFirst? then 10 else 26)
    else if 'A' <= c <= 'Z' then Some(c as int - 'A' as int + if alphabet.DigitsFirst? then 36 else 0)
    else None
  }

  lemma {:induction false} ValueOfCharOf(alphabet: Alphabet, v: nat)
    requires v < 64
    ensures ValueOf(alphabet, CharOf(alphabet, v)) == Some(v)
  {
  }

  function Sextet(bits: seq<int>): (v: nat)
    requires |bits| == 6 && AllBits(bits)
    ensures v < 64
  {
    32 * bits[0] + 16 * bits[1] + 8 * bits[2] + 4 * bits[3] + 2 * bits[4] + bits[5]
  }

  function SextetBits(v: nat): (bits: seq<int>)
    requires v < 64
    ensures |bits| == 6 && AllBits(bits)
  {
    [v / 32, v / 16 % 2, v / 8 % 2, v / 4 % 2, v / 2 % 2, v % 2]
  }

  lemma {:induction false} SextetOfBits(v: nat)
    requires v < 64
    ensures Sextet(SextetBits(v)) == v
  {
    var a := v / 2;
    var b := v / 4;
    var c := v / 8;
    var d := v / 16;
    assert a / 2 == b && b / 2 == c && c / 2 == d && d / 2 == v / 32;
    assert v == 2 * a + v % 2 && a == 2 * b + a % 2 && b == 2 * c + b % 2 && c == 2 * d + c % 2 && d == 2 * (d / 2) + d % 2;
  }

  lemma {:induction false} BitsOfSextet(bits: seq<int>)
    requires |bits| == 6 && AllBits(bits)
    ensures SextetBits(Sextet(bits)) == bits
  {
    var a, b, c, d, e, f := bits[0], bits[1], bits[2], bits[3], bits[4], bits[5];
    var v := Sextet(bits);
    assert v / 2 == 16 * a + 8 * b + 4 * c + 2 * d + e;
    assert v / 4 == 8 * a + 4 * b + 2 * c + d;
    assert v / 8 == 4 * a + 2 * b + c;
    assert v / 16 == 2 * a + b;
    assert v / 32 == a;
  }

  function TextOf(alphabet: Alphabet, bits: seq<int>): (text: string)
    requires |bits| % 6 == 0 && AllBits(bits)
    ensures |text| == |bits| / 6
    decreases |bits|
  {
    if bits == [] then "" else [CharOf(alphabet, Sextet(bits[..6]))] + TextOf(alphabet, bits[6..])
  }

  /** None when some character is not in the alphabet. */
  function BitsOf(alphabet: Alphabet, text: string): (r: Option<seq<int>>)
    ensures r.Some? ==> AllBits(r.value) && |r.value| == 6 * |text|
  {
    if text == "" then Some([])
    else match ValueOf(alphabet, text[0])
      case None => None
      case Some(v) =>
        match BitsOf(alphabet, text[1..])
        case None => None
        case Some(rest) => Some(SextetBits(v) + rest)
  }

  lemma {:induction false} BitsOfTextOf(alphabet: Alphabet, bits: seq<int>)
    requires |bits| % 6 == 0 && AllBits(bits)
    ensures BitsOf(alphabet, TextOf(alphabet, bits)) == Some(bits)
    decreases |bits|
  {
    if bits != [] {
      ValueOfCharOf(alphabet, Sextet(bits[..6]));
      BitsOfSextet(bits[..6]);
      BitsOfTextOf(alphabet, bits[6..]);
      assert TextOf(alphabet, bits)[1..] == TextOf(alphabet, bits[6..]);
      assert bits[..6] + bits[6..] == bits;
    }
  }

  lemma {:induction false} TextOfBitsOf(alphabet: Alphabet, text: string)
    requires BitsOf(alphabet, text).Some?
    ensures TextOf(alphabet, BitsOf(alphabet, text).value) == text
    decreases |text|
  {
    if text != "" {
      var v := ValueOf(alphabet, text[0]).value;
      var rest := BitsOf(alphabet, text[1..]).value;
      var bits := SextetBits(v) + rest;
      assert bits[..6] == SextetBits(v) && bits[6..] == rest;
      SextetOfBits(v);
      TextOfBitsOf(alphabet, text[1..]);
      assert [text[0]] + text[1..] == text;
    }
  }
}
