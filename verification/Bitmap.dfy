/**
 The bitmap compressor of pkg/messagix/crypto/bitmap.go: the first bit, then the lengths of the alternating runs in
 Elias gamma code, padded with zeros to whole 6-bit characters; and the cache that Update invalidates.

 The repository has no decoder. Decompress is one, and CompressRoundTrip shows that nothing is lost.
 */
module Bitmap {
  import opened Common
  import opened Sextets

  // ----- run lengths -----

  /** Binary digits, most significant first, as FormatInt(n, 2). */
  function Binary(n: nat): (bits: seq<int>)
    ensures |bits| > 0 && AllBits(bits)
    ensures n > 0 ==> bits[0] == 1
  {
    if n < 2 then [n] else Binary(n / 2) + [n % 2]
  }

  function FromBinary(bits: seq<int>): int {
    if bits == [] then 0 else 2 * FromBinary(bits[..|bits| - 1]) + bits[|bits| - 1]
  }

  function Zeros(n: nat): (bits: seq<int>)
    ensures |bits| == n && AllBits(bits)
  {
    seq(n, _ => 0)
  }

  /** Elias gamma code: as many zeros as there are binary digits after the first, then the digits. */
  function RunCode(n: nat): (bits: seq<int>)
    ensures |bits| > 0 && AllBits(bits)
  {
    Zeros(|Binary(n)| - 1) + Binary(n)
  }

  /** The codes of the runs of the bits from k on, in a run of `count` equal bits so far. */
  function RunsFrom(bits: seq<int>, k: nat, count: nat): (code: seq<int>)
    requires 0 < k <= |bits|
    ensures AllBits(code)
    decreases |bits| - k
  {
    if k == |bits| then RunCode(count)
    else if bits[k] == bits[k - 1] then RunsFrom(bits, k + 1, count + 1)
    else RunCode(count) + RunsFrom(bits, k + 1, 1)
  }

  function Code(bits: seq<int>): (code: seq<int>)
    requires |bits| > 0 && AllBits(bits)
    ensures AllBits(code) && |code| > 0
  {
    [bits[0]] + RunsFrom(bits, 1, 1)
  }

  // ----- characters -----

  function Pad(bits: seq<int>): (padded: seq<int>)
    requires AllBits(bits)
    ensures AllBits(padded) && |padded| % 6 == 0
    ensures |bits| <= |padded| < |bits| + 6 && padded == bits + Zeros(|padded| - |bits|)
  {
    bits + Zeros((6 - |bits| % 6) % 6)
  }

  /** What ToCompressedString stores for a bitmap that is not empty. */
  function Compress(bits: seq<int>): (text: string)
    requires |bits| > 0 && AllBits(bits)
    ensures |text| > 0
  {
    TextOf(DigitsFirst, Pad(Code(bits)))
  }

  // ----- the decoder -----

  function LeadingZeros(bits: seq<int>): (n: nat)
    ensures n <= |bits|
    ensures forall k :: 0 <= k < n ==> bits[k] == 0
    ensures n < |bits| ==> bits[n] != 0
  {
    if bits == [] || bits[0] != 0 then 0 else 1 + LeadingZeros(bits[1..])
  }

  /** Reads runs of alternating values until only padding is left. */
  function Expand(code: seq<int>, value: int): (bits: seq<int>)
    requires AllBits(code)
    decreases |code|
  {
    var z := LeadingZeros(code);
    if |code| < 2 * z + 1 then []
    else
      var n := FromBinary(code[z..2 * z + 1]);
      Repeat(value, if n < 0 then 0 else n) + Expand(code[2 * z + 1..], 1 - value)
  }

  function Repeat(value: int, n: nat): (bits: seq<int>)
    ensures |bits| == n
  {
    seq(n, _ => value)
  }

  function Decompress(text: string): Option<seq<int>> {
    match BitsOf(DigitsFirst, text)
    case None => None
    case Some(bits) => if bits == [] then Some([]) else Some(Expand(bits[1..], bits[0]))
  }

  // ----- the round trip -----

  lemma {:induction false} FromBinaryOfBinary(n: nat)
    ensures FromBinary(Binary(n)) == n
  {
    if n < 2 {
      assert [n][..0] == [];
    } else {
      FromBinaryOfBinary(n / 2);
      assert Binary(n)[..|Binary(n)| - 1] == Binary(n / 2);
    }
  }

  lemma {:induction false} LeadingZerosOf(n: nat, rest: seq<int>)
    requires rest != [] && rest[0] != 0
    ensures LeadingZeros(Zeros(n) + rest) == n
  {
    if n > 0 {
      assert (Zeros(n) + rest)[1..] == Zeros(n - 1) + rest;
      LeadingZerosOf(n - 1, rest);
    } else {
      assert Zeros(n) + rest == rest;
    }
  }

  /** A run code is self-delimiting: whatever follows, it is read back as its run. */
  lemma {:induction false} ExpandRun(n: nat, rest: seq<int>, value: int)
    requires n > 0 && AllBits(rest)
    ensures Expand(RunCode(n) + rest, value) == Repeat(value, n) + Expand(rest, 1 - value)
  {
    var digits := Binary(n);
    var z: nat := |digits| - 1;
    var code := RunCode(n) + rest;
    assert code == Zeros(z) + (digits + rest);
    LeadingZerosOf(z, digits + rest);
    assert code[z..2 * z + 1] == digits;
    assert code[2 * z + 1..] == rest;
    FromBinaryOfBinary(n);
  }

  /** Padding is shorter than a run code of its own zeros, so it is never read as a run. */
  lemma {:induction false} ExpandPadding(n: nat, value: int)
    ensures Expand(Zeros(n), value) == []
  {
    var z := LeadingZeros(Zeros(n));
    assert z == n;
  }

  /** A run of `count` equal bits that ends before index k. */
  ghost predicate RunEndsAt(bits: seq<int>, k: nat, count: nat) {
    0 < count <= k <= |bits| && bits[k - count..k] == Repeat(bits[k - 1], count)
  }

  /** The code from index k on, padded, is read back as the bits from the start of the run on. */
  ghost predicate IsReadBack(bits: seq<int>, k: nat, count: nat, padding: nat)
    requires AllBits(bits) && RunEndsAt(bits, k, count)
  {
    Expand(RunsFrom(bits, k, count) + Zeros(padding), bits[k - 1]) == bits[k - count..]
  }

  lemma {:induction false} ExpandRuns(bits: seq<int>, k: nat, count: nat, padding: nat)
    requires AllBits(bits) && RunEndsAt(bits, k, count)
    ensures IsReadBack(bits, k, count, padding)
    decreases |bits| - k, 1
  {
    if k == |bits| {
      ExpandLastRun(bits, count, padding);
    } else if bits[k] == bits[k - 1] {
      ExpandOnSameBit(bits, k, count, padding);
    } else {
      ExpandOnOtherBit(bits, k, count, padding);
    }
  }

  lemma {:induction false} ExpandOnSameBit(bits: seq<int>, k: nat, count: nat, padding: nat)
    requires AllBits(bits) && RunEndsAt(bits, k, count) && k < |bits| && bits[k] == bits[k - 1]
    ensures IsReadBack(bits, k, count, padding)
    decreases |bits| - k, 0
  {
    RunGrows(bits, k, count);
    ExpandRuns(bits, k + 1, count + 1, padding);
    ExpandSameRun(bits, k, count, padding);
  }

  lemma {:induction false} ExpandOnOtherBit(bits: seq<int>, k: nat, count: nat, padding: nat)
    requires AllBits(bits) && RunEndsAt(bits, k, count) && k < |bits| && bits[k] != bits[k - 1]
    ensures IsReadBack(bits, k, count, padding)
    decreases |bits| - k, 0
  {
    OtherBit(bits, k);
    ExpandRuns(bits, k + 1, 1, padding);
    ExpandFirstRun(bits, k, count, padding);
  }

  lemma {:induction false} ExpandLastRun(bits: seq<int>, count: nat, padding: nat)
    requires AllBits(bits) && RunEndsAt(bits, |bits|, count)
    ensures IsReadBack(bits, |bits|, count, padding)
  {
    ExpandPadding(padding, 1 - bits[|bits| - 1]);
    ExpandOneRun(bits, |bits|, count, RunsFrom(bits, |bits|, count) + Zeros(padding), Zeros(padding));
  }

  lemma {:induction false} ExpandSameRun(bits: seq<int>, k: nat, count: nat, padding: nat)
    requires AllBits(bits) && RunEndsAt(bits, k, count) && k < |bits| && bits[k] == bits[k - 1]
    requires RunEndsAt(bits, k + 1, count + 1) && IsReadBack(bits, k + 1, count + 1, padding)
    ensures IsReadBack(bits, k, count, padding)
  {
  }

  lemma {:induction false} ExpandFirstRun(bits: seq<int>, k: nat, count: nat, padding: nat)
    requires AllBits(bits) && RunEndsAt(bits, k, count) && k < |bits| && bits[k] == 1 - bits[k - 1]
    requires RunEndsAt(bits, k + 1, 1) && IsReadBack(bits, k + 1, 1, padding)
    ensures IsReadBack(bits, k, count, padding)
  {
    Associative(RunCode(count), RunsFrom(bits, k + 1, 1), Zeros(padding));
    ExpandOneRun(bits, k, count, RunsFrom(bits, k, count) + Zeros(padding), RunsFrom(bits, k + 1, 1) + Zeros(padding));
  }

  lemma {:induction false} OtherBit(bits: seq<int>, k: nat)
    requires AllBits(bits) && 0 < k < |bits| && bits[k] != bits[k - 1]
    ensures bits[k] == 1 - bits[k - 1] && RunEndsAt(bits, k + 1, 1)
  {
  }

  lemma {:induction false} ExpandOneRun(bits: seq<int>, k: nat, count: nat, code: seq<int>, behind: seq<int>)
    requires RunEndsAt(bits, k, count) && AllBits(code) && AllBits(behind)
    requires code == RunCode(count) + behind && Expand(behind, 1 - bits[k - 1]) == bits[k..]
    ensures Expand(code, bits[k - 1]) == bits[k - count..]
  {
    ExpandRun(count, behind, bits[k - 1]);
    assert bits[k - count..k] + bits[k..] == bits[k - count..];
  }

  lemma {:induction false} RunGrows(bits: seq<int>, k: nat, count: nat)
    requires RunEndsAt(bits, k, count) && k < |bits| && bits[k] == bits[k - 1]
    ensures RunEndsAt(bits, k + 1, count + 1)
  {
    assert bits[k - count..k + 1] == bits[k - count..k] + [bits[k]];
  }

  lemma {:induction false} Associative(a: seq<int>, b: seq<int>, c: seq<int>)
    ensures a + b + c == a + (b + c)
  {
  }

  /** Decompressing gives back every bitmap that is not empty. */
  lemma {:induction false} CompressRoundTrip(bits: seq<int>)
    requires |bits| > 0 && AllBits(bits)
    ensures Decompress(Compress(bits)) == Some(bits)
  {
    var code := Code(bits);
    var padded := Pad(code);
    BitsOfTextOf(DigitsFirst, padded);
    var padding := |padded| - |code|;
    assert padded[1..] == RunsFrom(bits, 1, 1) + Zeros(padding);
    ExpandRuns(bits, 1, 1, padding);
  }

  // ----- the bitmap -----

  ghost function Ones(bits: seq<int>): set<nat> {
    set i: nat | i < |bits| && bits[i] == 1
  }

  ghost function Elements(data: seq<nat>): set<nat> {
    set i | i in data
  }

  lemma {:induction false} OnesOfUpdate(bits: seq<int>, i: nat)
    requires i < |bits|
    ensures Ones(bits[i := 1]) == Ones(bits) + {i}
    ensures AllBits(bits) ==> AllBits(bits[i := 1])
    ensures bits[i] == 1 ==> bits[i := 1] == bits
  {
  }

  lemma {:induction false} OnesOfExtension(bits: seq<int>, n: nat)
    ensures Ones(bits + Zeros(n)) == Ones(bits)
  {
  }

  class BitmapCache {
    var BMap: seq<int>
    var CompressedStr: string
    ghost var given: set<nat>

    /**
     The bitmap is the indicator of the indices given so far and reaches to the largest of them, and a cached string
     is a fresh compression of it.
     */
    ghost predicate Valid()
      reads this
    {
      && AllBits(BMap) && Ones(BMap) == given && (|BMap| > 0 ==> BMap[|BMap| - 1] == 1)
      && (CompressedStr != "" ==> |BMap| > 0 && CompressedStr == Compress(BMap))
    }

    constructor ()
      ensures Valid() && given == {} && BMap == []
    {
      BMap, CompressedStr, given := [], "", {};
    }

    method Update(data: seq<nat>)
      requires Valid()
      modifies this
      ensures Valid() && given == old(given) + Elements(data)
      ensures BMap == old(BMap) ==> CompressedStr == old(CompressedStr)
    {
      var maxIndex := MaxIndex(data);
      if maxIndex >= |BMap| {
        OnesOfExtension(BMap, maxIndex + 1 - |BMap|);
        BMap := BMap + Zeros(maxIndex + 1 - |BMap|);
      }
      ghost var start := BMap;
      for k := 0 to |data|
        invariant given == old(given) && AllBits(BMap) && |BMap| == |start|
        invariant Ones(BMap) == given + Elements(data[..k])
        invariant BMap == start ==> CompressedStr == old(CompressedStr)
        invariant BMap == start || CompressedStr == ""
      {
        if BMap[data[k]] == 0 && CompressedStr != "" {
          CompressedStr := "";
        }
        OnesOfUpdate(BMap, data[k]);
        BMap := BMap[data[k] := 1];
        assert data[..k + 1] == data[..k] + [data[k]];
      }
      assert data[..|data|] == data;
      given := given + Elements(data);
      if |BMap| > |old(BMap)| {
        assert maxIndex in Ones(BMap) && BMap[maxIndex] == 1 && start[maxIndex] == 0;
      } else if |BMap| > 0 {
        assert |BMap| - 1 in Ones(BMap);
      }
    }

    method ToCompressedString()
      requires Valid()
      modifies this`CompressedStr
      ensures Valid()
      ensures CompressedStr == if |BMap| == 0 then "" else Compress(BMap)
    {
      if |BMap| == 0 || CompressedStr != "" {
        return;
      }
      var buf := [BMap[0]];
      var count, lastValue := 1, BMap[0];
      for i := 1 to |BMap|
        invariant count > 0 && lastValue == BMap[i - 1]
        invariant AllBits(buf) && buf + RunsFrom(BMap, i, count) == Code(BMap)
      {
        if BMap[i] == lastValue {
          count := count + 1;
        } else {
          assert buf + (RunCode(count) + RunsFrom(BMap, i + 1, 1)) == buf + RunCode(count) + RunsFrom(BMap, i + 1, 1);
          buf := buf + RunCode(count);
          lastValue := BMap[i];
          count := 1;
        }
      }
      buf := buf + RunCode(count);
      CompressedStr := EncodeBase64(buf);
    }
  }

  method MaxIndex(data: seq<nat>) returns (maxIndex: int)
    ensures forall j :: 0 <= j < |data| ==> data[j] <= maxIndex
    ensures if data == [] then maxIndex == -1 else maxIndex in data
  {
    maxIndex := -1;
    for k := 0 to |data|
      invariant maxIndex >= -1 && forall j :: 0 <= j < k ==> data[j] <= maxIndex
      invariant if k == 0 then maxIndex == -1 else maxIndex in data
    {
      if data[k] > maxIndex {
        maxIndex := data[k];
      }
    }
  }

  /** The characters of the bits from the k-th group of six on. */
  function TextFrom(bits: seq<int>, k: nat): (text: string)
    requires AllBits(bits) && |bits| % 6 == 0 && k <= |bits| / 6
  {
    TextOf(DigitsFirst, bits[6 * k..])
  }

  lemma {:induction false} TextFromNext(bits: seq<int>, k: nat)
    requires AllBits(bits) && |bits| % 6 == 0 && k < |bits| / 6
    ensures TextFrom(bits, k) == [CharOf(DigitsFirst, Sextet(bits[6 * k..6 * k + 6]))] + TextFrom(bits, k + 1)
  {
    assert bits[6 * k..][..6] == bits[6 * k..6 * k + 6] && bits[6 * k..][6..] == bits[6 * (k + 1)..];
  }

  lemma {:induction false} CharBehind(text: string, c: char, rest: string)
    ensures text + ([c] + rest) == text + [c] + rest
  {
  }

  method EncodeBase64(bits: seq<int>) returns (result: string)
    requires AllBits(bits)
    ensures result == TextOf(DigitsFirst, Pad(bits))
  {
    var binary := PadWithZeros(bits);
    result := "";
    var i := 0;
    ghost var k := 0;
    ghost var whole := TextFrom(binary, 0);
    assert binary[0..] == binary;
    while i < |binary|
      invariant i == 6 * k && k <= |binary| / 6
      invariant whole == result + TextFrom(binary, k)
    {
      TextFromNext(binary, k);
      assert i + 6 <= |binary|;
      CharBehind(result, CharOf(DigitsFirst, Sextet(binary[i..i + 6])), TextFrom(binary, k + 1));
      result := result + [CharOf(DigitsFirst, Sextet(binary[i..i + 6]))];
      i := i + 6;
      k := k + 1;
    }
    assert binary[6 * k..] == [];
  }

  lemma {:induction false} OneMoreZero(bits: seq<int>, n: nat)
    ensures bits + Zeros(n) + [0] == bits + Zeros(n + 1)
  {
    assert Zeros(n) + [0] == Zeros(n + 1);
  }

  lemma {:induction false} PaddingEnds(length: nat, added: nat)
    requires added <= (6 - length % 6) % 6
    ensures (length + added) % 6 == 0 <==> added == (6 - length % 6) % 6
  {
  }

  method PadWithZeros(bits: seq<int>) returns (padded: seq<int>)
    requires AllBits(bits)
    ensures padded == Pad(bits)
  {
    padded := bits;
    ghost var added, wanted := 0, (6 - |bits| % 6) % 6;
    PaddingEnds(|bits|, 0);
    while |padded| % 6 != 0
      invariant added <= wanted && padded == bits + Zeros(added)
      invariant |padded| % 6 == 0 <==> added == wanted
      decreases wanted - added
    {
      OneMoreZero(bits, added);
      padded := padded + [0];
      added := added + 1;
      PaddingEnds(|bits|, added);
    }
  }
}
