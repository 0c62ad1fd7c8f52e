/**
 Mentions in message text: the comma-separated wire form (pkg/messagix/socket/threads.go) and the loop that cuts a
 message into plain text and links (pkg/msgconv/mentions.go).
 */
module Mentions {
  import opened Common
  import opened Decimal
  import opened Splitting
  import opened Utf16

  /** Offsets and lengths count UTF-16 units. */
  datatype Mention = Mention(id: int, offset: int, length: int, kind: string)

  const PERSON := "p"

  // ----- the wire form -----

  datatype MentionData = MentionData(ids: string, offsets: string, lengths: string, kinds: string)

  datatype ParseResult = Parsed(mentions: seq<Mention>) | Absent | Invalid

  function Column(ms: seq<Mention>, field: Mention -> string): (texts: seq<string>)
    ensures |texts| == |ms| && forall k :: 0 <= k < |ms| ==> texts[k] == field(ms[k])
  {
    seq(|ms|, k requires 0 <= k < |ms| => field(ms[k]))
  }

  function ToData(ms: seq<Mention>): MentionData {
    MentionData(Join(Column(ms, (m: Mention) => IntText(m.id)), ','), Join(Column(ms, (m: Mention) => IntText(m.offset)), ','),
                Join(Column(ms, (m: Mention) => IntText(m.length)), ','), Join(Column(ms, (m: Mention) => m.kind), ','))
  }

  function ParseRows(ids: seq<string>, offsets: seq<string>, lengths: seq<string>, kinds: seq<string>): Option<seq<Mention>>
    requires |ids| == |offsets| == |lengths| == |kinds|
  {
    if ids == [] then Some([])
    else match (ParseInt(ids[0]), ParseInt(offsets[0]), ParseInt(lengths[0]))
      case (Some(id), Some(offset), Some(length)) =>
        (match ParseRows(ids[1..], offsets[1..], lengths[1..], kinds[1..])
         case Some(rest) => Some([Mention(id, offset, length, kinds[0])] + rest)
         case None => None)
      case _ => None
  }

  /** What Parse holds when it comes to sort. */
  function ParseUnsorted(data: MentionData): ParseResult {
    if data.ids == "" then Absent
    else
      var ids, offsets := Split(data.ids, ','), Split(data.offsets, ',');
      var lengths, kinds := Split(data.lengths, ','), Split(data.kinds, ',');
      if !(|ids| == |offsets| == |lengths| == |kinds|) then Invalid
      else match ParseRows(ids, offsets, lengths, kinds)
        case Some(ms) => Parsed(ms)
        case None => Invalid
  }

  /** Parse up to its call of sort.Sort. */
  method Parse(data: MentionData) returns (r: ParseResult)
    ensures r == ParseUnsorted(data)
  {
    if data.ids == "" {
      return Absent;
    }
    var ids, offsets := Split(data.ids, ','), Split(data.offsets, ',');
    var lengths, kinds := Split(data.lengths, ','), Split(data.kinds, ',');
    if |ids| != |offsets| || |offsets| != |lengths| || |lengths| != |kinds| {
      return Invalid;
    }
    var rows := ParseColumns(ids, offsets, lengths, kinds);
    return if rows.Some? then Parsed(rows.value) else Invalid;
  }

  method ParseColumns(ids: seq<string>, offsets: seq<string>, lengths: seq<string>,
      kinds: seq<string>) returns (r: Option<seq<Mention>>)
    requires |ids| == |offsets| == |lengths| == |kinds|
    ensures r == ParseRows(ids, offsets, lengths, kinds)
  {
    var mentions: seq<Mention> := [];
    ghost var whole := ParseRows(ids, offsets, lengths, kinds);
    assert ids[0..] == ids && offsets[0..] == offsets && lengths[0..] == lengths && kinds[0..] == kinds;
    assert whole.Some? ==> [] + whole.value == whole.value;
    for i := 0 to |ids|
      invariant whole == Behind(mentions, ParseRows(ids[i..], offsets[i..], lengths[i..], kinds[i..]))
    {
      ParseRowsStep(mentions, ids, offsets, lengths, kinds, i);
      var id, offset, length := ParseInt(ids[i]), ParseInt(offsets[i]), ParseInt(lengths[i]);
      if id.None? || offset.None? || length.None? {
        return None;
      }
      mentions := mentions + [Mention(id.value, offset.value, length.value, kinds[i])];
    }
    assert mentions + [] == mentions;
    return Some(mentions);
  }

  function Behind(front: seq<Mention>, r: Option<seq<Mention>>): Option<seq<Mention>> {
    match r
    case Some(ms) => Some(front + ms)
    case None => None
  }

  lemma {:induction false} ParseRowsStep(front: seq<Mention>, ids: seq<string>, offsets: seq<string>,
      lengths: seq<string>, kinds: seq<string>, i: nat)
    requires |ids| == |offsets| == |lengths| == |kinds| && i < |ids|
    ensures var here := Behind(front, ParseRows(ids[i..], offsets[i..], lengths[i..], kinds[i..]));
            var rest := ParseRows(ids[i + 1..], offsets[i + 1..], lengths[i + 1..], kinds[i + 1..]);
            var id, offset, length := ParseInt(ids[i]), ParseInt(offsets[i]), ParseInt(lengths[i]);
            here == if id.Some? && offset.Some? && length.Some?
                    then Behind(front + [Mention(id.value, offset.value, length.value, kinds[i])], rest) else None
  {
    var rest := ParseRows(ids[i + 1..], offsets[i + 1..], lengths[i + 1..], kinds[i + 1..]);
    assert ids[i..][1..] == ids[i + 1..] && offsets[i..][1..] == offsets[i + 1..];
    assert lengths[i..][1..] == lengths[i + 1..] && kinds[i..][1..] == kinds[i + 1..];
    var id, offset, length := ParseInt(ids[i]), ParseInt(offsets[i]), ParseInt(lengths[i]);
    if rest.Some? && id.Some? && offset.Some? && length.Some? {
      var mention := Mention(id.value, offset.value, length.value, kinds[i]);
      assert front + ([mention] + rest.value) == front + [mention] + rest.value;
    }
  }

  ghost predicate SortedByOffset(ms: seq<Mention>) {
    forall i, j :: 0 <= i < j < |ms| ==> ms[i].offset <= ms[j].offset
  }

  /** sort.Sort is not stable: any ordering of the same mentions by offset may come out. */
  ghost predicate IsSortOf(sorted: seq<Mention>, ms: seq<Mention>) {
    SortedByOffset(sorted) && multiset(sorted) == multiset(ms)
  }

  ghost predicate CanBeSent(ms: seq<Mention>) {
    forall k :: 0 <= k < |ms| ==>
      IsInt64(ms[k].id) && IsInt64(ms[k].offset) && IsInt64(ms[k].length) && ',' !in ms[k].kind
  }

  lemma {:induction false} NatTextHasNoComma(n: nat)
    ensures ',' !in NatText(n)
  {
  }

  lemma {:induction false} IntTextHasNoComma(i: int)
    ensures ',' !in IntText(i)
  {
    NatTextHasNoComma(if i < 0 then -i else i);
  }

  lemma {:induction false} ColumnTail(ms: seq<Mention>, field: Mention -> string)
    requires ms != []
    ensures Column(ms, field)[0] == field(ms[0]) && Column(ms, field)[1..] == Column(ms[1..], field)
  {
  }

  lemma {:induction false} ParseRowsOfColumns(ms: seq<Mention>)
    requires CanBeSent(ms)
    ensures ParseRows(Column(ms, (m: Mention) => IntText(m.id)), Column(ms, (m: Mention) => IntText(m.offset)),
                      Column(ms, (m: Mention) => IntText(m.length)), Column(ms, (m: Mention) => m.kind)) == Some(ms)
    decreases |ms|
  {
    if ms != [] {
      ParseIntText(ms[0].id);
      ParseIntText(ms[0].offset);
      ParseIntText(ms[0].length);
      ParseRowsOfColumns(ms[1..]);
      ColumnTail(ms, (m: Mention) => IntText(m.id));
      ColumnTail(ms, (m: Mention) => IntText(m.offset));
      ColumnTail(ms, (m: Mention) => IntText(m.length));
      ColumnTail(ms, (m: Mention) => m.kind);
      assert [ms[0]] + ms[1..] == ms;
    }
  }

  lemma {:induction false} SplitOfColumn(ms: seq<Mention>, field: Mention -> string)
    requires ms != [] && forall k :: 0 <= k < |ms| ==> ',' !in field(ms[k])
    ensures Split(Join(Column(ms, field), ','), ',') == Column(ms, field)
  {
    SplitOfJoin(Column(ms, field), ',');
  }

  /** Parsing what ToData wrote gives back the same mentions, before sorting; no mentions give no data. */
  lemma {:induction false} ParseOfToData(ms: seq<Mention>)
    requires CanBeSent(ms)
    ensures ParseUnsorted(ToData(ms)) == if ms == [] then Absent else Parsed(ms)
  {
    if ms != [] {
      forall i: int { IntTextHasNoComma(i); }
      var ids := Column(ms, (m: Mention) => IntText(m.id));
      SplitOfColumn(ms, (m: Mention) => IntText(m.id));
      SplitOfColumn(ms, (m: Mention) => IntText(m.offset));
      SplitOfColumn(ms, (m: Mention) => IntText(m.length));
      SplitOfColumn(ms, (m: Mention) => m.kind);
      ParseRowsOfColumns(ms);
      assert Split("", ',') == [""] && ids[0] == IntText(ms[0].id) && |ids[0]| > 0;
      assert Split(Join(ids, ','), ',')[0] == ids[0];
    }
  }

  // ----- the text -----

  datatype Piece = Plain(units: seq<unit>) | Link(target: string, units: seq<unit>)

  datatype Converted = Pieces(pieces: seq<Piece>) | Panicked

  /** The link of a mention; none for other kinds and for people who cannot be looked up. */
  function LinkOf(lookup: int -> Option<string>, m: Mention): Option<string> {
    if m.kind == PERSON && lookup(m.id).Some? && lookup(m.id).value != "" then lookup(m.id) else None
  }

  /** The sum is an int64, so it can wrap. */
  function EndOf(text: seq<unit>, m: Mention): int {
    var end := WrapInt64(m.offset + m.length);
    if end > |text| then |text| else end
  }

  /** The pieces from index prevEnd on. */
  function Convert(text: seq<unit>, lookup: int -> Option<string>, ms: seq<Mention>, prevEnd: nat): Converted
    requires prevEnd <= |text|
    decreases |ms|
  {
    if ms == [] then Pieces([Plain(text[prevEnd..])])
    else if ms[0].offset < prevEnd || ms[0].offset >= |text| then Convert(text, lookup, ms[1..], prevEnd)
    else match LinkOf(lookup, ms[0])
      case None => Convert(text, lookup, ms[1..], prevEnd)
      case Some(link) =>
        var start, end := ms[0].offset, EndOf(text, ms[0]);
        if end < start then Panicked
        else match Convert(text, lookup, ms[1..], end)
          case Panicked => Panicked
          case Pieces(rest) => Pieces([Plain(text[prevEnd..start]), Link(link, text[start..end])] + rest)
  }

  method MetaToMatrixText(text: seq<unit>, lookup: int -> Option<string>, ms: seq<Mention>) returns (r: Converted)
    ensures r == Convert(text, lookup, ms, 0)
  {
    var prevEnd: nat := 0;
    var output: seq<Piece> := [];
    var k := 0;
    ghost var whole := Convert(text, lookup, ms, 0);
    assert ms[0..] == ms;
    PrependNothing(whole);
    while k < |ms|
      invariant 0 <= k <= |ms| && prevEnd <= |text|
      invariant whole == Prepend(output, Convert(text, lookup, ms[k..], prevEnd))
    {
      var mention := ms[k];
      assert ms[k..][1..] == ms[k + 1..];
      k := k + 1;
      if mention.offset < prevEnd {
        continue;
      } else if mention.offset >= |text| {
        continue;
      }
      var end := WrapInt64(mention.offset + mention.length);
      if end > |text| {
        end := |text|;
      }
      var mentionLink := LinkOf(lookup, mention);
      if mentionLink.None? {
        continue;
      }
      if end < mention.offset {
        return Panicked;
      }
      ghost var two := [Plain(text[prevEnd..mention.offset]), Link(mentionLink.value, text[mention.offset..end])];
      PrependTwo(output, two, Convert(text, lookup, ms[k..], end));
      output := output + [Plain(text[prevEnd..mention.offset])] + [Link(mentionLink.value, text[mention.offset..end])];
      prevEnd := end;
    }
    return Pieces(output + [Plain(text[prevEnd..])]);
  }

  function Prepend(front: seq<Piece>, r: Converted): Converted {
    if r.Pieces? then Pieces(front + r.pieces) else r
  }

  lemma {:induction false} PrependNothing(r: Converted)
    ensures Prepend([], r) == r
  {
    if r.Pieces? {
      assert [] + r.pieces == r.pieces;
    }
  }

  lemma {:induction false} PrependTwo(front: seq<Piece>, two: seq<Piece>, r: Converted)
    requires |two| == 2
    ensures Prepend(front, Prepend(two, r)) == Prepend(front + [two[0]] + [two[1]], r)
  {
    if r.Pieces? {
      assert front + (two + r.pieces) == front + [two[0]] + [two[1]] + r.pieces;
    }
  }

  function Units(pieces: seq<Piece>): seq<seq<unit>> {
    seq(|pieces|, k requires 0 <= k < |pieces| => pieces[k].units)
  }

  /** Whatever the mentions, the pieces are the text: nothing is lost, repeated or moved. */
  lemma {:induction false} PiecesAreTheText(text: seq<unit>, lookup: int -> Option<string>, ms: seq<Mention>, prevEnd: nat)
    requires prevEnd <= |text| && Convert(text, lookup, ms, prevEnd).Pieces?
    ensures Flatten(Units(Convert(text, lookup, ms, prevEnd).pieces)) == text[prevEnd..]
    decreases |ms|
  {
    var r := Convert(text, lookup, ms, prevEnd);
    if ms == [] {
      FlattenUnits([Plain(text[prevEnd..])]);
      assert Flatten(Units([])) == [];
    } else if ms[0].offset < prevEnd || ms[0].offset >= |text| || LinkOf(lookup, ms[0]).None? {
      PiecesAreTheText(text, lookup, ms[1..], prevEnd);
    } else {
      var start, end := ms[0].offset, EndOf(text, ms[0]);
      var rest := Convert(text, lookup, ms[1..], end).pieces;
      PiecesAreTheText(text, lookup, ms[1..], end);
      FlattenTwo(r.pieces[0], r.pieces[1], rest);
      ThreeCuts(text, prevEnd, start, end);
    }
  }

  lemma {:induction false} FlattenTwo(plain: Piece, link: Piece, rest: seq<Piece>)
    ensures Flatten(Units([plain, link] + rest)) == plain.units + (link.units + Flatten(Units(rest)))
  {
    var pieces := [plain, link] + rest;
    assert pieces[1..] == [link] + rest && pieces[1..][1..] == rest;
    FlattenUnits(pieces);
    FlattenUnits(pieces[1..]);
  }

  lemma {:induction false} ThreeCuts(text: seq<unit>, a: nat, b: nat, c: nat)
    requires a <= b <= c <= |text|
    ensures text[a..b] + (text[b..c] + text[c..]) == text[a..]
  {
  }

  lemma {:induction false} FlattenUnits(pieces: seq<Piece>)
    requires pieces != []
    ensures Flatten(Units(pieces)) == pieces[0].units + Flatten(Units(pieces[1..]))
  {
    assert Units(pieces)[1..] == Units(pieces[1..]);
  }

  // ----- when the loop panics -----

  /** The numbers of a mention are int64. */
  predicate IsMention(m: Mention) {
    IsInt64(m.offset) && IsInt64(m.length)
  }

  /** Whatever Parse reads, it reads numbers of that size. */
  lemma {:induction false} ParsedAreMentions(ids: seq<string>, offsets: seq<string>, lengths: seq<string>, kinds: seq<string>)
    requires |ids| == |offsets| == |lengths| == |kinds| && ParseRows(ids, offsets, lengths, kinds).Some?
    ensures forall m :: m in ParseRows(ids, offsets, lengths, kinds).value ==> IsMention(m)
    decreases |ids|
  {
    if ids != [] {
      ParsedAreMentions(ids[1..], offsets[1..], lengths[1..], kinds[1..]);
    }
  }

  /** The end of the mention's range is not before its start. */
  predicate EndsInOrder(m: Mention) {
    0 <= m.length && m.offset + m.length <= INT64_MAX
  }

  /** The loop comes to mention k, with no out-of-order mention linked before it, and links it. */
  predicate IsLinked(text: seq<unit>, lookup: int -> Option<string>, ms: seq<Mention>, prevEnd: nat, k: nat)
    requires prevEnd <= |text| && k < |ms| && forall i :: 0 <= i < |ms| ==> IsMention(ms[i])
    decreases k
  {
    var links := prevEnd <= ms[0].offset < |text| && LinkOf(lookup, ms[0]).Some?;
    if k == 0 then links
    else if !links then IsLinked(text, lookup, ms[1..], prevEnd, k - 1)
    else EndsInOrder(ms[0]) && IsLinked(text, lookup, ms[1..], EndOf(text, ms[0]), k - 1)
  }

  lemma {:induction false} EndBeforeStartExactly(text: seq<unit>, m: Mention)
    requires IsMention(m) && 0 <= m.offset < |text|
    ensures EndOf(text, m) < m.offset <==> !EndsInOrder(m)
  {
    var sum := m.offset + m.length;
    if sum > INT64_MAX {
      assert sum % 0x1_0000_0000_0000_0000 == sum;
    }
  }

  /** A slice bound is out of range exactly when the loop links a mention of negative length, or whose end wraps. */
  lemma {:induction false} PanicsExactly(text: seq<unit>, lookup: int -> Option<string>, ms: seq<Mention>, prevEnd: nat)
    requires prevEnd <= |text| && forall i :: 0 <= i < |ms| ==> IsMention(ms[i])
    ensures Convert(text, lookup, ms, prevEnd).Panicked? <==>
      exists k :: 0 <= k < |ms| && !EndsInOrder(ms[k]) && IsLinked(text, lookup, ms, prevEnd, k)
    decreases |ms|
  {
    if ms != [] {
      var rest := ms[1..];
      if prevEnd <= ms[0].offset < |text| && LinkOf(lookup, ms[0]).Some? {
        EndBeforeStartExactly(text, ms[0]);
        if EndsInOrder(ms[0]) {
          PanicsExactly(text, lookup, rest, EndOf(text, ms[0]));
          LaterMention(text, lookup, ms, prevEnd, EndOf(text, ms[0]));
        } else {
          assert IsLinked(text, lookup, ms, prevEnd, 0);
        }
      } else {
        PanicsExactly(text, lookup, rest, prevEnd);
        LaterMention(text, lookup, ms, prevEnd, prevEnd);
      }
    }
  }

  /** Mentions behind the first are met as in a list of their own, from the index the first one leaves. */
  lemma {:induction false} LaterMention(text: seq<unit>, lookup: int -> Option<string>, ms: seq<Mention>, prevEnd: nat, end: nat)
    requires prevEnd <= |text| && end <= |text| && ms != [] && forall i :: 0 <= i < |ms| ==> IsMention(ms[i])
    requires if prevEnd <= ms[0].offset < |text| && LinkOf(lookup, ms[0]).Some?
      then EndsInOrder(ms[0]) && end == EndOf(text, ms[0]) else end == prevEnd
    ensures (exists k :: 0 <= k < |ms| && !EndsInOrder(ms[k]) && IsLinked(text, lookup, ms, prevEnd, k)) <==>
      exists k :: 0 <= k < |ms[1..]| && !EndsInOrder(ms[1..][k]) && IsLinked(text, lookup, ms[1..], end, k)
  {
    var rest := ms[1..];
    forall k | 0 <= k < |rest|
      ensures rest[k] == ms[k + 1] && IsLinked(text, lookup, ms, prevEnd, k + 1) == IsLinked(text, lookup, rest, end, k)
    {
    }
    if k :| 0 <= k < |ms| && !EndsInOrder(ms[k]) && IsLinked(text, lookup, ms, prevEnd, k) {
      assert k > 0 && !EndsInOrder(rest[k - 1]) && IsLinked(text, lookup, rest, end, k - 1);
    }
    if k :| 0 <= k < |rest| && !EndsInOrder(rest[k]) && IsLinked(text, lookup, rest, end, k) {
      assert !EndsInOrder(ms[k + 1]) && IsLinked(text, lookup, ms, prevEnd, k + 1);
    }
  }

  /** The numbers that Parse accepts can bring this about without any negative one. */
  lemma {:induction false} WrappedEndPanics(text: seq<unit>, lookup: int -> Option<string>, id: int)
    requires |text| >= 2 && IsInt64(id) && LinkOf(lookup, Mention(id, 1, INT64_MAX, PERSON)).Some?
    ensures var ms := [Mention(id, 1, INT64_MAX, PERSON)];
            ParseUnsorted(ToData(ms)) == Parsed(ms) && Convert(text, lookup, ms, 0).Panicked?
  {
    var m := Mention(id, 1, INT64_MAX, PERSON);
    ParseOfToData([m]);
    EndBeforeStartExactly(text, m);
  }

  /** As strings the pieces make up the message exactly when no mention cuts through a surrogate pair. */
  lemma {:induction false} PiecesAreTheMessage(message: string, lookup: int -> Option<string>, ms: seq<Mention>)
    requires forall k :: 0 <= k < |ms| ==> IsMention(ms[k]) && EndsInOrder(ms[k])
    ensures var r := Convert(Encode(message), lookup, ms, 0);
            && r.Pieces? && Flatten(Units(r.pieces)) == Encode(message)
            && (DecodeEach(Units(r.pieces)) == message <==> CutPairs(Units(r.pieces)) == 0)
  {
    var text := Encode(message);
    PanicsExactly(text, lookup, ms, 0);
    PiecesAreTheText(text, lookup, ms, 0);
    assert text[0..] == text;
    DecodeInPieces(message, Units(Convert(text, lookup, ms, 0).pieces));
  }

  // ----- which mentions are linked -----

  /** A person who can be looked up, at a range of positive length inside the text. */
  predicate Linkable(text: seq<unit>, lookup: int -> Option<string>, m: Mention) {
    LinkOf(lookup, m).Some? && m.offset >= 0 && m.length > 0 && m.offset + m.length <= |text|
  }

  /** A mention that is passed over whatever comes before it. */
  predicate PassedOver(text: seq<unit>, lookup: int -> Option<string>, m: Mention) {
    LinkOf(lookup, m).None? || m.offset < 0 || m.offset >= |text|
  }

  ghost predicate Disjoint(a: Mention, b: Mention) {
    a.offset + a.length <= b.offset || b.offset + b.length <= a.offset
  }

  function Links(pieces: seq<Piece>): seq<Piece> {
    if pieces == [] then [] else (if pieces[0].Link? then [pieces[0]] else []) + Links(pieces[1..])
  }

  function ExpectedLinks(text: seq<unit>, lookup: int -> Option<string>, ms: seq<Mention>): seq<Piece> {
    if ms == [] then []
    else
      (if Linkable(text, lookup, ms[0]) then
         [Link(LinkOf(lookup, ms[0]).value, text[ms[0].offset..ms[0].offset + ms[0].length])] else [])
      + ExpectedLinks(text, lookup, ms[1..])
  }

  lemma {:induction false} LinksInOrder(text: seq<unit>, lookup: int -> Option<string>, ms: seq<Mention>, prevEnd: nat)
    requires prevEnd <= |text| <= INT64_MAX && SortedByOffset(ms)
    requires forall k :: 0 <= k < |ms| ==> Linkable(text, lookup, ms[k]) || PassedOver(text, lookup, ms[k])
    requires forall i, j :: 0 <= i < j < |ms| && Linkable(text, lookup, ms[i]) && Linkable(text, lookup, ms[j]) ==> Disjoint(ms[i], ms[j])
    requires forall k :: 0 <= k < |ms| && Linkable(text, lookup, ms[k]) ==> prevEnd <= ms[k].offset
    ensures var r := Convert(text, lookup, ms, prevEnd);
            r.Pieces? && Links(r.pieces) == ExpectedLinks(text, lookup, ms)
    decreases |ms|
  {
    if ms != [] {
      var m := ms[0];
      if Linkable(text, lookup, m) {
        var end: nat := m.offset + m.length;
        forall k | 1 <= k < |ms| && Linkable(text, lookup, ms[k]) ensures end <= ms[k].offset {
          assert Disjoint(ms[0], ms[k]) && ms[0].offset <= ms[k].offset;
        }
        LinksInOrder(text, lookup, ms[1..], end);
        var r := Convert(text, lookup, ms, prevEnd).pieces;
        assert r[1..][1..] == Convert(text, lookup, ms[1..], end).pieces;
      } else {
        LinksInOrder(text, lookup, ms[1..], prevEnd);
      }
    }
  }

  lemma {:induction false} OnceMeansDistinct(sorted: seq<Mention>, i: nat, j: nat)
    requires i < j < |sorted| && multiset(sorted)[sorted[i]] == 1
    ensures sorted[i] != sorted[j]
  {
    assert sorted == sorted[..j] + [sorted[j]] + sorted[j + 1..];
    assert sorted[i] in sorted[..j];
  }

  /**
   Since Parse sorts by offset: when no linkable mention is repeated, they are pairwise disjoint, and every other one
   is passed over, each linkable mention is linked, at its own range, and nothing else is. The length of a Go slice is
   an int64.
   */
  lemma {:induction false} DisjointMentionsAreAllLinked(text: seq<unit>, lookup: int -> Option<string>,
      ms: seq<Mention>, sorted: seq<Mention>)
    requires IsSortOf(sorted, ms) && |text| <= INT64_MAX
    requires forall m :: m in multiset(ms) ==> Linkable(text, lookup, m) || PassedOver(text, lookup, m)
    requires forall m :: m in multiset(ms) && Linkable(text, lookup, m) ==> multiset(ms)[m] == 1
    requires forall a, b | a in multiset(ms) && b in multiset(ms) && a != b && Linkable(text, lookup, a) && Linkable(text, lookup, b)
               :: Disjoint(a, b)
    ensures var r := Convert(text, lookup, sorted, 0);
            r.Pieces? && Links(r.pieces) == ExpectedLinks(text, lookup, sorted)
  {
    forall k | 0 <= k < |sorted| ensures sorted[k] in multiset(ms) {
      assert sorted[k] in multiset(sorted);
    }
    forall i, j | 0 <= i < j < |sorted| && Linkable(text, lookup, sorted[i]) && Linkable(text, lookup, sorted[j])
      ensures Disjoint(sorted[i], sorted[j])
    {
      assert sorted[i] in multiset(ms) && sorted[j] in multiset(ms);
      OnceMeansDistinct(sorted, i, j);
    }
    LinksInOrder(text, lookup, sorted, 0);
  }
}
