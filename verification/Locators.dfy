/**
 Outgoing mentions, the loop of parseFormattedBody in pkg/msgconv/from-matrix.go: the HTML parser has left one random
 locator in the text for each mention; the loop replaces them one after another by "@" and a name, and records where.
 Texts are their bytes, one char each.
 */
module Locators {
  import opened Common
  import opened Utf16

  datatype MetaMention = MetaMention(locator: string, name: string, userID: int)

  datatype Recorded = Recorded(userID: int, offset: nat, length: nat)

  predicate OccursAt(text: string, pattern: string, i: nat) {
    i + |pattern| <= |text| && text[i..i + |pattern|] == pattern
  }

  /** strings.Index, from index i on. */
  function IndexFrom(text: string, pattern: string, i: nat): (r: Option<nat>)
    ensures r.Some? ==> i <= r.value && OccursAt(text, pattern, r.value)
    ensures r.Some? ==> forall j :: i <= j < r.value ==> !OccursAt(text, pattern, j)
    ensures r.None? ==> forall j :: i <= j ==> !OccursAt(text, pattern, j)
    decreases |text| - i
  {
    if i + |pattern| > |text| then None
    else if OccursAt(text, pattern, i) then Some(i)
    else IndexFrom(text, pattern, i + 1)
  }

  function Index(text: string, pattern: string): Option<nat> {
    IndexFrom(text, pattern, 0)
  }

  function Label(m: MetaMention): string {
    "@" + m.name
  }

  /** The text that is left and the mentions recorded when the loop has gone through all of ms. */
  function Substitute(text: string, ms: seq<MetaMention>): (string, seq<Recorded>)
    decreases |ms|
  {
    if ms == [] then (text, [])
    else match Index(text, ms[0].locator)
      case None => Substitute(text, ms[1..])
      case Some(i) =>
        var (after, recorded) := Substitute(text[..i] + Label(ms[0]) + text[i + |ms[0].locator|..], ms[1..]);
        (after, [Recorded(ms[0].userID, i, |Label(ms[0])|)] + recorded)
  }

  method ReplaceLocators(text: string, mentions: seq<MetaMention>) returns (parsed: string, socketMentions: seq<Recorded>)
    ensures (parsed, socketMentions) == Substitute(text, mentions)
  {
    parsed, socketMentions := text, [];
    var k := 0;
    assert mentions[0..] == mentions;
    ghost var whole := Substitute(text, mentions);
    assert [] + whole.1 == whole.1;
    while k < |mentions|
      invariant 0 <= k <= |mentions|
      invariant var rest := Substitute(parsed, mentions[k..]); whole == (rest.0, socketMentions + rest.1)
    {
      var mention := mentions[k];
      assert mentions[k..][1..] == mentions[k + 1..];
      var mentionIndex := Index(parsed, mention.locator);
      if mentionIndex.Some? {
        var i := mentionIndex.value;
        var recorded := Recorded(mention.userID, i, |Label(mention)|);
        parsed := parsed[..i] + Label(mention) + parsed[i + |mention.locator|..];
        ghost var rest := Substitute(parsed, mentions[k + 1..]).1;
        assert socketMentions + ([recorded] + rest) == socketMentions + [recorded] + rest;
        socketMentions := socketMentions + [recorded];
      }
      k := k + 1;
    }
    assert socketMentions + [] == socketMentions;
  }

  // ----- what it should do -----

  /** The text the loop starts from: pieces of plain text with one locator between each two. */
  function WithLocators(parts: seq<string>, ms: seq<MetaMention>): string
    requires |parts| == |ms| + 1
  {
    if ms == [] then parts[0] else parts[0] + ms[0].locator + WithLocators(parts[1..], ms[1..])
  }

  function WithLabels(parts: seq<string>, ms: seq<MetaMention>): string
    requires |parts| == |ms| + 1
  {
    if ms == [] then parts[0] else parts[0] + Label(ms[0]) + WithLabels(parts[1..], ms[1..])
  }

  /** The mentions' places in the text with labels, behind `done` bytes. */
  function Places(done: nat, parts: seq<string>, ms: seq<MetaMention>): (places: seq<Recorded>)
    requires |parts| == |ms| + 1
    ensures |places| == |ms|
    decreases |ms|
  {
    if ms == [] then []
    else [Recorded(ms[0].userID, done + |parts[0]|, |Label(ms[0])|)]
         + Places(done + |parts[0]| + |Label(ms[0])|, parts[1..], ms[1..])
  }

  /** No locator occurs before its own place, once the labels in front of it are in. */
  predicate Clear(done: string, parts: seq<string>, ms: seq<MetaMention>)
    requires |parts| == |ms| + 1
    decreases |ms|
  {
    ms == [] ||
    (var before := done + parts[0];
     Index(before + ms[0].locator, ms[0].locator) == Some(|before|)
     && Clear(before + Label(ms[0]), parts[1..], ms[1..]))
  }

  /** What stands behind a locator does not matter for where it first occurs. */
  lemma {:induction false} IndexIgnoresTail(before: string, locator: string, tail: string)
    ensures Index(before + locator, locator) == Some(|before|) <==> Index(before + locator + tail, locator) == Some(|before|)
    ensures Index(before + locator + tail, locator).Some? && Index(before + locator + tail, locator).value <= |before|
  {
    var short, long := before + locator, before + locator + tail;
    assert short[|before|..|before| + |locator|] == locator && long[|before|..|before| + |locator|] == locator;
    assert OccursAt(short, locator, |before|) && OccursAt(long, locator, |before|);
    forall j: nat | j < |before| ensures OccursAt(short, locator, j) <==> OccursAt(long, locator, j) {
      assert short[j..j + |locator|] == long[j..j + |locator|];
    }
  }

  /** One turn of the loop on a text whose locator is found. */
  lemma {:induction false} SubstituteFound(before: string, tail: string, ms: seq<MetaMention>)
    requires ms != [] && Index(before + ms[0].locator + tail, ms[0].locator) == Some(|before|)
    ensures var rest := Substitute(before + Label(ms[0]) + tail, ms[1..]);
            Substitute(before + ms[0].locator + tail, ms) ==
            (rest.0, [Recorded(ms[0].userID, |before|, |Label(ms[0])|)] + rest.1)
  {
    var text := before + ms[0].locator + tail;
    assert text[..|before|] == before && text[|before| + |ms[0].locator|..] == tail;
  }

  lemma {:induction false} SameBehind(text: string, text': string, head: Recorded, a: seq<Recorded>, b: seq<Recorded>)
    ensures (text, [head] + a) == (text', [head] + b) <==> (text, a) == (text', b)
  {
    assert ([head] + a)[1..] == a && ([head] + b)[1..] == b;
  }

  /** The loop leaves the labelled text and records exactly the labels' places. */
  predicate Exact(done: string, parts: seq<string>, ms: seq<MetaMention>)
    requires |parts| == |ms| + 1
  {
    Substitute(done + WithLocators(parts, ms), ms) == (done + WithLabels(parts, ms), Places(|done|, parts, ms))
  }

  /** The text before a locator, the locator or its label, and what follows. */
  lemma {:induction false} InFront(done: string, parts: seq<string>, ms: seq<MetaMention>)
    requires |parts| == |ms| + 1 && ms != []
    ensures done + WithLocators(parts, ms) == done + parts[0] + ms[0].locator + WithLocators(parts[1..], ms[1..])
    ensures done + WithLabels(parts, ms) == done + parts[0] + Label(ms[0]) + WithLabels(parts[1..], ms[1..])
  {
    ThreeParts(done, parts[0], ms[0].locator, WithLocators(parts[1..], ms[1..]));
    ThreeParts(done, parts[0], Label(ms[0]), WithLabels(parts[1..], ms[1..]));
  }

  lemma {:induction false} ThreeParts(a: string, b: string, c: string, d: string)
    ensures a + (b + c + d) == a + b + c + d
  {
  }

  lemma {:induction false} PlacesInFront(done: nat, done': nat, parts: seq<string>, ms: seq<MetaMention>)
    requires |parts| == |ms| + 1 && ms != [] && done' == done + |parts[0]| + |Label(ms[0])|
    ensures Places(done, parts, ms) == [Recorded(ms[0].userID, done + |parts[0]|, |Label(ms[0])|)] + Places(done', parts[1..], ms[1..])
  {
  }

  lemma {:induction false} FoundInPlace(done: string, parts: seq<string>, ms: seq<MetaMention>)
    requires |parts| == |ms| + 1 && ms != []
    requires var before := done + parts[0]; Index(before + ms[0].locator, ms[0].locator) == Some(|before|)
    ensures Exact(done, parts, ms) <==> Exact(done + parts[0] + Label(ms[0]), parts[1..], ms[1..])
  {
    var before, m, tail := done + parts[0], ms[0], WithLocators(parts[1..], ms[1..]);
    var done' := before + Label(m);
    InFront(done, parts, ms);
    IndexIgnoresTail(before, m.locator, tail);
    SubstituteFound(before, tail, ms);
    PlacesInFront(|done|, |done'|, parts, ms);
    var rest := Substitute(done' + tail, ms[1..]);
    SameBehind(rest.0, done' + WithLabels(parts[1..], ms[1..]), Recorded(m.userID, |before|, |Label(m)|), rest.1,
               Places(|done'|, parts[1..], ms[1..]));
  }

  lemma {:induction false} FoundTooEarly(done: string, parts: seq<string>, ms: seq<MetaMention>)
    requires |parts| == |ms| + 1 && ms != []
    requires var before := done + parts[0]; Index(before + ms[0].locator, ms[0].locator) != Some(|before|)
    ensures !Exact(done, parts, ms)
  {
    var before, m, tail := done + parts[0], ms[0], WithLocators(parts[1..], ms[1..]);
    assert done + WithLocators(parts, ms) == before + m.locator + tail;
    IndexIgnoresTail(before, m.locator, tail);
    assert Substitute(before + m.locator + tail, ms).1[0].offset != |before|;
    assert Places(|done|, parts, ms)[0].offset == |before|;
  }

  /** The loop does what it should exactly when no locator occurs too early. */
  lemma {:induction false} SubstituteExactly(done: string, parts: seq<string>, ms: seq<MetaMention>)
    requires |parts| == |ms| + 1
    ensures Exact(done, parts, ms) <==> Clear(done, parts, ms)
    decreases |ms|
  {
    if ms != [] {
      var before := done + parts[0];
      if Index(before + ms[0].locator, ms[0].locator) == Some(|before|) {
        FoundInPlace(done, parts, ms);
        SubstituteExactly(before + Label(ms[0]), parts[1..], ms[1..]);
      } else {
        FoundTooEarly(done, parts, ms);
      }
    }
  }

  /** The recorded mention is this one, and its range of the text reads "@" and its name. */
  predicate Records(text: string, m: MetaMention, r: Recorded) {
    r.userID == m.userID && r.length == |Label(m)| && OccursAt(text, Label(m), r.offset)
  }

  /** Every place holds its label, and the places come one after another. */
  lemma {:induction false} PlacesHoldLabels(done: string, parts: seq<string>, ms: seq<MetaMention>, k: nat)
    requires |parts| == |ms| + 1 && k < |ms|
    ensures var places := Places(|done|, parts, ms);
            && Records(done + WithLabels(parts, ms), ms[k], places[k]) && |done| <= places[k].offset
            && (k > 0 ==> places[k - 1].offset + places[k - 1].length <= places[k].offset)
    decreases |ms|
  {
    var done' := done + parts[0] + Label(ms[0]);
    assert done + WithLabels(parts, ms) == done' + WithLabels(parts[1..], ms[1..]);
    if k == 0 {
      assert (done' + WithLabels(parts[1..], ms[1..]))[|done + parts[0]|..|done'|] == Label(ms[0]);
    } else {
      PlacesHoldLabels(done', parts[1..], ms[1..], k - 1);
    }
  }

  /** On a clear text the loop leaves the labelled text and records each label where it stands, in increasing disjoint ranges. */
  lemma {:induction false} LocatorsReplaced(parts: seq<string>, ms: seq<MetaMention>)
    requires |parts| == |ms| + 1 && Clear("", parts, ms)
    ensures var (text, recorded) := Substitute(WithLocators(parts, ms), ms);
            && text == WithLabels(parts, ms) && |recorded| == |ms|
            && (forall k :: 0 <= k < |ms| ==> Records(text, ms[k], recorded[k]))
            && (forall k :: 0 < k < |ms| ==> recorded[k - 1].offset + recorded[k - 1].length <= recorded[k].offset)
  {
    SubstituteExactly("", parts, ms);
    assert "" + WithLocators(parts, ms) == WithLocators(parts, ms) && "" + WithLabels(parts, ms) == WithLabels(parts, ms);
    var places := Places(0, parts, ms);
    forall k | 0 <= k < |ms|
      ensures Records(WithLabels(parts, ms), ms[k], places[k])
      ensures k > 0 ==> places[k - 1].offset + places[k - 1].length <= places[k].offset
    {
      PlacesHoldLabels("", parts, ms, k);
    }
  }

  // ----- a text is clear unless it spells out the mark of a locator -----

  const MARK := "meta_mention_"

  predicate IsLocator(locator: string) {
    MARK <= locator
  }

  predicate Mentions(text: string, pattern: string) {
    Index(text, pattern).Some?
  }

  /** The mark does not overlap itself. */
  lemma {:induction false} MarkHasNoBorder(k: nat)
    requires 0 < k < |MARK|
    ensures exists j: nat :: k + j < |MARK| && MARK[k + j] != MARK[j]
  {
    if k == 5 {
      assert MARK[5 + 2] != MARK[2];
    } else {
      assert MARK[k + 0] != MARK[0];
    }
  }

  lemma {:induction false} Across(before: string, locator: string, k: nat, j: nat)
    requires k <= |before| && k + j < |locator| && locator[k + j] != locator[j]
    ensures !OccursAt(before + locator, locator, |before| - k)
  {
    Mismatch(before + locator, locator, |before| - k, k + j);
  }

  /** A locator does not start within the length of a mark in front of another. */
  lemma {:induction false} NotAcross(before: string, locator: string, k: nat)
    requires IsLocator(locator) && 0 < k < |MARK| && k <= |before|
    ensures !OccursAt(before + locator, locator, |before| - k)
  {
    MarkHasNoBorder(k);
    var j: nat :| k + j < |MARK| && MARK[k + j] != MARK[j];
    StartsWithMark(locator, j);
    StartsWithMark(locator, k + j);
    Across(before, locator, k, j);
  }

  lemma {:induction false} StartsWithMark(locator: string, j: nat)
    requires IsLocator(locator) && j < |MARK|
    ensures |MARK| <= |locator| && locator[j] == MARK[j]
  {
    assert locator[..|MARK|][j] == locator[j];
  }

  lemma {:induction false} LocatorFirstAtItsPlace(before: string, locator: string)
    requires IsLocator(locator) && !Mentions(before, MARK)
    ensures Index(before + locator, locator) == Some(|before|)
  {
    var text := before + locator;
    assert text[|before|..|before| + |locator|] == locator;
    assert OccursAt(text, locator, |before|);
    forall i: nat | i < |before| ensures !OccursAt(text, locator, i) {
      if i + |MARK| <= |before| {
        if OccursAt(text, locator, i) {
          MarkInFront(before, locator, i);
        }
      } else {
        NotAcross(before, locator, |before| - i);
      }
    }
  }

  lemma {:induction false} Mismatch(text: string, pattern: string, i: nat, j: nat)
    requires j < |pattern| && i + j < |text| && text[i + j] != pattern[j]
    ensures !OccursAt(text, pattern, i)
  {
    assert i + |pattern| <= |text| ==> text[i..i + |pattern|][j] == text[i + j];
  }

  lemma {:induction false} OccursAtEach(text: string, pattern: string, i: nat, j: nat)
    requires OccursAt(text, pattern, i) && j < |pattern|
    ensures i + j < |text| && text[i + j] == pattern[j]
  {
    assert text[i..i + |pattern|][j] == pattern[j];
  }

  lemma {:induction false} MarkInFront(before: string, locator: string, i: nat)
    requires IsLocator(locator) && i + |MARK| <= |before| && OccursAt(before + locator, locator, i)
    ensures OccursAt(before, MARK, i)
  {
    forall j: nat | j < |MARK| ensures before[i + j] == MARK[j] {
      OccursAtEach(before + locator, locator, i, j);
      StartsWithMark(locator, j);
    }
    assert before[i..i + |MARK|] == MARK;
  }

  lemma {:induction false} LongerTextMentions(a: string, b: string, pattern: string)
    requires Mentions(a, pattern)
    ensures Mentions(a + b, pattern)
  {
    var i := Index(a, pattern).value;
    assert (a + b)[i..i + |pattern|] == a[i..i + |pattern|];
    assert OccursAt(a + b, pattern, i);
  }

  /** When the finished text does not contain the mark, no locator can have occurred too early. */
  lemma {:induction false} ClearWithoutMark(done: string, parts: seq<string>, ms: seq<MetaMention>)
    requires |parts| == |ms| + 1 && forall k :: 0 <= k < |ms| ==> IsLocator(ms[k].locator)
    requires !Mentions(done + WithLabels(parts, ms), MARK)
    ensures Clear(done, parts, ms)
    decreases |ms|
  {
    if ms != [] {
      var before := done + parts[0];
      var behind := Label(ms[0]) + WithLabels(parts[1..], ms[1..]);
      assert done + WithLabels(parts, ms) == before + behind;
      if Mentions(before, MARK) {
        LongerTextMentions(before, behind, MARK);
      }
      LocatorFirstAtItsPlace(before, ms[0].locator);
      assert before + behind == before + Label(ms[0]) + WithLabels(parts[1..], ms[1..]);
      ClearWithoutMark(before + Label(ms[0]), parts[1..], ms[1..]);
    }
  }

  // ----- bytes and UTF-16 units -----

  // A Go string is its bytes: the texts above are characters below 256, one for each byte.

  /** A character in UTF-8, section 3 of RFC 3629. */
  function Utf8Char(c: char): (bytes: string)
    ensures |bytes| >= |EncodeChar(c)|
    ensures |bytes| == |EncodeChar(c)| <==> (c as int) < 0x80
  {
    var v := c as int;
    if v < 0x80 then [c]
    else if v < 0x800 then [(0xC0 + v / 0x40) as char, Following(v)]
    else if v < 0x1_0000 then [(0xE0 + v / 0x1000) as char, Following(v / 0x40), Following(v)]
    else [(0xF0 + v / 0x4_0000) as char, Following(v / 0x1000), Following(v / 0x40), Following(v)]
  }

  /** The byte for the low six bits. */
  function Following(v: nat): char {
    (0x80 + v % 0x40) as char
  }

  function Utf8(s: string): string {
    if s == "" then "" else Utf8Char(s[0]) + Utf8(s[1..])
  }

  lemma {:induction false} Utf8InOrder(a: string, b: string)
    ensures Utf8(a + b) == Utf8(a) + Utf8(b)
    decreases |a|
  {
    if a == "" {
      assert a + b == b;
    } else {
      Utf8InOrder(a[1..], b);
      assert (a + b)[1..] == a[1..] + b;
      Joined(Utf8Char(a[0]), Utf8(a[1..]), Utf8(b));
    }
  }

  lemma {:induction false} Joined(a: string, b: string, c: string)
    ensures a + (b + c) == a + b + c
  {
  }

  predicate IsAscii(s: string) {
    forall k :: 0 <= k < |s| ==> (s[k] as int) < 0x80
  }

  /** A text has as many UTF-16 units as bytes exactly when it is ASCII. */
  lemma {:induction false} SizesAgreeExactly(s: string)
    ensures |Utf8(s)| >= |Encode(s)|
    ensures |Utf8(s)| == |Encode(s)| <==> IsAscii(s)
  {
    if s != "" {
      SizesAgreeExactly(s[1..]);
      assert IsAscii(s) <==> (s[0] as int) < 0x80 && IsAscii(s[1..]) by {
        assert forall k :: 0 < k < |s| ==> s[k] == s[1..][k - 1];
        assert forall k :: 0 <= k < |s[1..]| ==> s[1..][k] == s[k + 1];
      }
    }
  }

  function Utf8Each(parts: seq<string>): (bytes: seq<string>)
    ensures |bytes| == |parts|
  {
    seq(|parts|, k requires 0 <= k < |parts| => Utf8(parts[k]))
  }

  function Utf8Mentions(ms: seq<MetaMention>): (bytes: seq<MetaMention>)
    ensures |bytes| == |ms|
  {
    seq(|ms|, k requires 0 <= k < |ms| => MetaMention(Utf8(ms[k].locator), Utf8(ms[k].name), ms[k].userID))
  }

  /** The finished text in front of label k. */
  function InFrontOf(parts: seq<string>, ms: seq<MetaMention>, k: nat): string
    requires |parts| == |ms| + 1 && k < |ms|
    decreases k
  {
    if k == 0 then parts[0] else parts[0] + Label(ms[0]) + InFrontOf(parts[1..], ms[1..], k - 1)
  }

  lemma {:induction false} LabelInBytes(m: MetaMention)
    ensures Utf8(Label(m)) == "@" + Utf8(m.name)
  {
    assert Label(m)[1..] == m.name;
  }

  /** The recorded offset is that of the text in front, in bytes, and the length that of the label. */
  predicate IsPlaced(done: nat, parts: seq<string>, ms: seq<MetaMention>, k: nat)
    requires |parts| == |ms| + 1 && k < |ms|
  {
    Places(done, Utf8Each(parts), Utf8Mentions(ms))[k] ==
    Recorded(ms[k].userID, done + |Utf8(InFrontOf(parts, ms, k))|, |Utf8(Label(ms[k]))|)
  }

  lemma {:induction false} PlacesInBytes(done: nat, parts: seq<string>, ms: seq<MetaMention>, k: nat)
    requires |parts| == |ms| + 1 && k < |ms|
    ensures IsPlaced(done, parts, ms, k)
    decreases k
  {
    if k == 0 {
      FirstPlace(done, parts, ms);
    } else {
      var next := done + |Utf8(parts[0])| + |Utf8(Label(ms[0]))|;
      PlacesInBytes(next, parts[1..], ms[1..], k - 1);
      LaterPlace(done, next, parts, ms, k);
    }
  }

  lemma {:induction false} LaterPlace(done: nat, next: nat, parts: seq<string>, ms: seq<MetaMention>, k: nat)
    requires |parts| == |ms| + 1 && 0 < k < |ms| && next == done + |Utf8(parts[0])| + |Utf8(Label(ms[0]))|
    requires IsPlaced(next, parts[1..], ms[1..], k - 1)
    ensures IsPlaced(done, parts, ms, k)
  {
    NextPlace(done, next, parts, ms, k);
    SizeInFront(parts, ms, k);
  }

  lemma {:induction false} SizeInFront(parts: seq<string>, ms: seq<MetaMention>, k: nat)
    requires |parts| == |ms| + 1 && 0 < k < |ms|
    ensures |Utf8(InFrontOf(parts, ms, k))| ==
      |Utf8(parts[0])| + |Utf8(Label(ms[0]))| + |Utf8(InFrontOf(parts[1..], ms[1..], k - 1))|
  {
    SizesInOrder(parts[0], Label(ms[0]), InFrontOf(parts[1..], ms[1..], k - 1));
  }

  lemma {:induction false} FirstPlace(done: nat, parts: seq<string>, ms: seq<MetaMention>)
    requires |parts| == |ms| + 1 && ms != []
    ensures IsPlaced(done, parts, ms, 0)
  {
    LabelInBytes(ms[0]);
  }

  lemma {:induction false} NextPlace(done: nat, next: nat, parts: seq<string>, ms: seq<MetaMention>, k: nat)
    requires |parts| == |ms| + 1 && 0 < k < |ms| && next == done + |Utf8(parts[0])| + |Utf8(Label(ms[0]))|
    ensures Places(done, Utf8Each(parts), Utf8Mentions(ms))[k] == Places(next, Utf8Each(parts[1..]), Utf8Mentions(ms[1..]))[k - 1]
  {
    var parts8, ms8 := Utf8Each(parts), Utf8Mentions(ms);
    LabelInBytes(ms[0]);
    assert parts8[1..] == Utf8Each(parts[1..]) && ms8[1..] == Utf8Mentions(ms[1..]);
    PlacesInFront(done, next, parts8, ms8);
  }

  lemma {:induction false} SizesInOrder(a: string, b: string, c: string)
    ensures |Utf8(a + b + c)| == |Utf8(a)| + |Utf8(b)| + |Utf8(c)|
  {
    Utf8InOrder(a + b, c);
    Utf8InOrder(a, b);
  }

  /**
   The loop records byte offsets and lengths, and incoming mentions are cut in UTF-16 units: a recorded offset is the
   label's offset for both exactly when the text in front of it is ASCII, and its length exactly when the name is.
   */
  lemma {:induction false} OffsetsAgreeExactly(parts: seq<string>, ms: seq<MetaMention>, k: nat)
    requires |parts| == |ms| + 1 && k < |ms|
    ensures var place := Places(0, Utf8Each(parts), Utf8Mentions(ms))[k];
      && (place.offset == |Encode(InFrontOf(parts, ms, k))| <==> IsAscii(InFrontOf(parts, ms, k)))
      && (place.length == |Encode(Label(ms[k]))| <==> IsAscii(ms[k].name))
  {
    PlacesInBytes(0, parts, ms, k);
    SizesAgreeExactly(InFrontOf(parts, ms, k));
    SizesAgreeExactly(Label(ms[k]));
    assert IsAscii(Label(ms[k])) <==> IsAscii(ms[k].name) by {
      assert forall i :: 0 < i < |Label(ms[k])| ==> Label(ms[k])[i] == ms[k].name[i - 1];
      assert forall i :: 0 <= i < |ms[k].name| ==> ms[k].name[i] == Label(ms[k])[i + 1];
    }
  }
}
