/**
 Go's utf16.Encode and utf16.Decode, after section 2 of RFC 2781. A string is its code points: Dafny's characters are
 exactly the Unicode scalar values.
 */
module Utf16 {

  type unit = u: int | 0 <= u < 0x1_0000

  const REPLACEMENT: char := 0xFFFD as char

  predicate IsHigh(u: unit) {
    0xD800 <= u < 0xDC00
  }

  predicate IsLow(u: unit) {
    0xDC00 <= u < 0xE000
  }

  function EncodeChar(c: char): (units: seq<unit>)
    ensures 1 <= |units| <= 2
  {
    var v := c as int;
    if v < 0x1_0000 then [v]
    else [0xD800 + (v - 0x1_0000) / 0x400, 0xDC00 + (v - 0x1_0000) % 0x400]
  }

  function Encode(s: string): seq<unit> {
    if s == "" then [] else EncodeChar(s[0]) + Encode(s[1..])
  }

  function Combine(high: unit, low: unit): char
    requires IsHigh(high) && IsLow(low)
  {
    ((high - 0xD800) * 0x400 + (low - 0xDC00) + 0x1_0000) as char
  }

  /** A pair of surrogates starts the text. */
  predicate StartsWithPair(units: seq<unit>) {
    |units| >= 2 && IsHigh(units[0]) && IsLow(units[1])
  }

  function First(units: seq<unit>): char
    requires units != []
  {
    if StartsWithPair(units) then Combine(units[0], units[1])
    else if IsHigh(units[0]) || IsLow(units[0]) then REPLACEMENT
    else units[0] as char
  }

  function FirstSize(units: seq<unit>): (n: nat)
    requires units != []
    ensures 1 <= n <= |units|
  {
    if StartsWithPair(units) then 2 else 1
  }

  function Decode(units: seq<unit>): string {
    if units == [] then "" else [First(units)] + Decode(units[FirstSize(units)..])
  }

  lemma {:induction false} DecodeOfEncode(s: string)
    ensures Decode(Encode(s)) == s
  {
    if s != "" {
      var units, c := Encode(s), EncodeChar(s[0]);
      DecodeOfEncode(s[1..]);
      assert units[|c|..] == Encode(s[1..]);
      if |c| == 2 {
        var v := s[0] as int - 0x1_0000;
        assert v == 0x400 * (v / 0x400) + v % 0x400;
        assert units[0] == c[0] && units[1] == c[1];
        assert First(units) == s[0];
      } else {
        assert units[0] == c[0] == s[0] as int;
      }
      assert FirstSize(units) == |c|;
      assert [s[0]] + s[1..] == s;
    }
  }

  /** The cut between the two texts goes through a surrogate pair. */
  predicate CutsPair(front: seq<unit>, back: seq<unit>) {
    front != [] && back != [] && IsHigh(front[|front| - 1]) && IsLow(back[0])
  }

  /** Decoding goes piece by piece, except that a pair that is cut decodes to two replacements instead of one character. */
  lemma {:induction false} DecodeOfCut(front: seq<unit>, back: seq<unit>)
    ensures !CutsPair(front, back) ==> Decode(front) + Decode(back) == Decode(front + back)
    ensures CutsPair(front, back) ==> |Decode(front) + Decode(back)| == |Decode(front + back)| + 1
    decreases |front|
  {
    if front == [] {
      assert front + back == back;
    } else if |front| == 1 && CutsPair(front, back) {
      assert (front + back)[2..] == back[1..];
      assert front[1..] == [];
    } else {
      var behind := front[FirstSize(front)..];
      FirstOfCut(front, back);
      DecodeOfCut(behind, back);
      Prepend(First(front), Decode(behind), Decode(back));
    }
  }

  lemma {:induction false} Prepend<T>(x: T, a: seq<T>, b: seq<T>)
    ensures [x] + (a + b) == ([x] + a) + b
  {
  }

  /** The first character of a text is read alike with more text behind it, unless that completes a pair. */
  lemma {:induction false} FirstOfCut(front: seq<unit>, back: seq<unit>)
    requires front != [] && !(|front| == 1 && CutsPair(front, back))
    ensures var n := FirstSize(front);
            && FirstSize(front + back) == n && First(front + back) == First(front)
            && (front + back)[n..] == front[n..] + back
            && (CutsPair(front, back) <==> CutsPair(front[n..], back))
  {
    var n := FirstSize(front);
    assert |front| > 1 ==> (front + back)[1] == front[1];
    if front[n..] != [] {
      assert front[n..][|front[n..]| - 1] == front[|front| - 1];
    } else {
      assert front[|front| - 1] == front[n - 1];
    }
  }

  // ----- texts in pieces -----

  function Flatten(pieces: seq<seq<unit>>): seq<unit> {
    if pieces == [] then [] else pieces[0] + Flatten(pieces[1..])
  }

  function DecodeEach(pieces: seq<seq<unit>>): string {
    if pieces == [] then "" else Decode(pieces[0]) + DecodeEach(pieces[1..])
  }

  /** How many of the cuts between pieces go through a pair. */
  function CutPairs(pieces: seq<seq<unit>>): nat {
    if pieces == [] then 0
    else (if CutsPair(pieces[0], Flatten(pieces[1..])) then 1 else 0) + CutPairs(pieces[1..])
  }

  lemma {:induction false} DecodeEachLength(pieces: seq<seq<unit>>)
    ensures |DecodeEach(pieces)| == |Decode(Flatten(pieces))| + CutPairs(pieces)
    ensures CutPairs(pieces) == 0 ==> DecodeEach(pieces) == Decode(Flatten(pieces))
  {
    if pieces != [] {
      DecodeEachLength(pieces[1..]);
      DecodeOfCut(pieces[0], Flatten(pieces[1..]));
    }
  }

  /** Decoding a text in pieces gives the text exactly when no cut goes through a surrogate pair. */
  lemma {:induction false} DecodeInPieces(s: string, pieces: seq<seq<unit>>)
    requires Flatten(pieces) == Encode(s)
    ensures DecodeEach(pieces) == s <==> CutPairs(pieces) == 0
  {
    DecodeEachLength(pieces);
    DecodeOfEncode(s);
  }
}
