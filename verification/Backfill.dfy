/** How wrapBackfillEvents of pkg/connector/backfill.go orders, deduplicates and trims a batch of history. */
module Backfill {
  import opened Common

  datatype Message = Message(id: string, primary: int, secondary: int, timestampMs: int, text: string)

  function Reversed(s: seq<Message>): (r: seq<Message>)
    ensures |r| == |s| && forall k :: 0 <= k < |s| ==> r[k] == s[|s| - 1 - k]
  {
    seq(|s|, k requires 0 <= k < |s| => s[|s| - 1 - k])
  }

  predicate KeyAtMost(a: Message, b: Message) {
    a.primary < b.primary || (a.primary == b.primary && a.secondary <= b.secondary)
  }

  predicate SameKey(a: Message, b: Message) {
    a.primary == b.primary && a.secondary == b.secondary
  }

  ghost predicate Sorted(s: seq<Message>) {
    forall i, j :: 0 <= i <= j < |s| ==> KeyAtMost(s[i], s[j])
  }

  /** Any outcome of the sort; it is not stable, so messages with equal keys come in any order. */
  ghost predicate IsSortOf(sorted: seq<Message>, s: seq<Message>) {
    Sorted(sorted) && multiset(sorted) == multiset(s)
  }

  /** slices.CompactFunc with equal IDs: of each stretch of neighbours with one ID, the first. */
  function Compact(s: seq<Message>): (c: seq<Message>)
    ensures |c| <= |s|
  {
    if s == [] then []
    else if |s| >= 2 && s[|s| - 1].id == s[|s| - 2].id then Compact(s[..|s| - 1])
    else Compact(s[..|s| - 1]) + [s[|s| - 1]]
  }

  /** The side of the anchor that is asked for, without the anchor's own millisecond. */
  predicate OnSide(m: Message, anchor: Option<int>, forward: bool) {
    anchor.None? || (if forward then m.timestampMs > anchor.value else m.timestampMs < anchor.value)
  }

  function Keep(s: seq<Message>, anchor: Option<int>, forward: bool): seq<Message> {
    if s == [] then []
    else (if OnSide(s[0], anchor, forward) then [s[0]] else []) + Keep(s[1..], anchor, forward)
  }

  class UpsertMessages {
    var messages: seq<Message>

    constructor (messages: seq<Message>)
      ensures this.messages == messages
    {
      this.messages := messages;
    }

    /** What the sort makes of the reversed messages is given by the caller. */
    method WrapBackfillEvents(sorted: seq<Message>, anchor: Option<int>, forward: bool)
      requires IsSortOf(sorted, Reversed(messages))
      modifies this
      ensures IsSortOf(sorted, old(messages))
      ensures messages == Keep(Compact(sorted), anchor, forward)
    {
      ReversedIsPermutation(messages);
      messages := sorted;
      messages := Compact(messages);
      if anchor.Some? {
        messages := Keep(messages, anchor, forward);
      } else {
        KeepAll(messages, forward);
      }
    }
  }

  lemma {:induction false} ReversedIsPermutation(s: seq<Message>)
    ensures multiset(Reversed(s)) == multiset(s)
  {
    if s == [] {
      assert Reversed(s) == s;
    } else {
      var last := |s| - 1;
      ReversedIsPermutation(s[..last]);
      assert Reversed(s) == [s[last]] + Reversed(s[..last]);
      assert s == s[..last] + [s[last]];
    }
  }

  lemma {:induction false} KeepAll(s: seq<Message>, forward: bool)
    ensures Keep(s, None, forward) == s
  {
    if s != [] {
      KeepAll(s[1..], forward);
    }
  }

  // ----- order and side -----

  /** Compaction loses nothing at the end but repeats of an ID, and keeps the order. */
  lemma {:induction false} CompactIsSorted(s: seq<Message>)
    requires Sorted(s)
    ensures Sorted(Compact(s))
    ensures forall m :: m in Compact(s) ==> m in s
  {
    if s != [] {
      var front := s[..|s| - 1];
      CompactIsSorted(front);
      assert forall m :: m in front ==> m in s;
      forall m | m in front
        ensures KeyAtMost(m, s[|s| - 1])
      {
        var k :| 0 <= k < |front| && front[k] == m;
        assert s[k] == m;
      }
      SortedSnoc(Compact(front), s[|s| - 1]);
    }
  }

  lemma {:induction false} SortedSnoc(s: seq<Message>, last: Message)
    requires Sorted(s) && forall m :: m in s ==> KeyAtMost(m, last)
    ensures Sorted(s + [last])
  {
  }

  lemma {:induction false} KeepIsSorted(s: seq<Message>, anchor: Option<int>, forward: bool)
    requires Sorted(s)
    ensures Sorted(Keep(s, anchor, forward))
  {
    if s != [] {
      KeepIsSorted(s[1..], anchor, forward);
      KeepExactly(s[1..], anchor, forward);
      forall m | m in s[1..]
        ensures KeyAtMost(s[0], m)
      {
        var k :| 0 <= k < |s[1..]| && s[1..][k] == m;
        assert s[k + 1] == m;
      }
    }
  }

  lemma {:induction false} KeepExactly(s: seq<Message>, anchor: Option<int>, forward: bool)
    ensures forall m :: m in Keep(s, anchor, forward) <==> m in s && OnSide(m, anchor, forward)
  {
    if s != [] {
      KeepExactly(s[1..], anchor, forward);
      assert s == [s[0]] + s[1..];
    }
  }

  /** Whatever the sort does with equal keys, the result is sorted, strictly on its side, and holds only what was received. */
  lemma {:induction false} SortedAndOnSide(received: seq<Message>, sorted: seq<Message>, anchor: Option<int>, forward: bool)
    requires IsSortOf(sorted, received)
    ensures var kept := Keep(Compact(sorted), anchor, forward);
      && Sorted(kept)
      && forall m :: m in kept ==> m in received && OnSide(m, anchor, forward)
  {
    CompactIsSorted(sorted);
    KeepIsSorted(Compact(sorted), anchor, forward);
    KeepExactly(Compact(sorted), anchor, forward);
    SameElements(sorted, received);
  }

  lemma {:induction false} SameElements(a: seq<Message>, b: seq<Message>)
    requires multiset(a) == multiset(b)
    ensures forall m :: m in a <==> m in b
  {
    forall m
      ensures m in a <==> m in b
    {
      assert m in a <==> m in multiset(a);
      assert m in b <==> m in multiset(b);
    }
  }

  // ----- distinct IDs -----

  ghost predicate DistinctIds(s: seq<Message>) {
    forall i, j :: 0 <= i < j < |s| ==> s[i].id != s[j].id
  }

  /** No message of another ID comes between two of the same ID. */
  ghost predicate NothingBetween(s: seq<Message>) {
    forall i, j, k :: 0 <= i < j < k < |s| && s[i].id == s[k].id ==> s[j].id == s[k].id
  }

  ghost predicate HasId(s: seq<Message>, id: string) {
    exists k :: 0 <= k < |s| && s[k].id == id
  }

  /** Every ID is still there, and the last one is last. */
  lemma {:induction false} CompactCovers(s: seq<Message>)
    ensures forall k :: 0 <= k < |s| ==> HasId(Compact(s), s[k].id)
    ensures s != [] ==> Compact(s) != [] && Compact(s)[|Compact(s)| - 1].id == s[|s| - 1].id
  {
    if s != [] {
      var front := s[..|s| - 1];
      CompactCovers(front);
      forall k | 0 <= k < |s|
        ensures HasId(Compact(s), s[k].id)
      {
        if k < |front| {
          assert front[k] == s[k];
          var p :| 0 <= p < |Compact(front)| && Compact(front)[p].id == s[k].id;
          assert Compact(s)[p].id == s[k].id;
        } else {
          assert Compact(s)[|Compact(s)| - 1].id == s[k].id;
        }
      }
    }
  }

  lemma {:induction false} CompactOfPrefix(s: seq<Message>, n: nat)
    requires n <= |s|
    ensures Compact(s[..n]) <= Compact(s)
    decreases |s|
  {
    if n == |s| {
      assert s[..n] == s;
    } else {
      var front := s[..|s| - 1];
      CompactOfPrefix(front, n);
      assert front[..n] == s[..n];
    }
  }

  lemma {:induction false} CompactFrom(s: seq<Message>, p: nat)
    requires p < |Compact(s)|
    ensures Compact(s)[p] in s
  {
    var front := s[..|s| - 1];
    if p < |Compact(front)| {
      CompactFrom(front, p);
    }
  }

  lemma {:induction false} DistinctWhenNothingBetween(s: seq<Message>)
    requires NothingBetween(s)
    ensures DistinctIds(Compact(s))
  {
    if s != [] {
      var front, last := s[..|s| - 1], s[|s| - 1];
      DistinctWhenNothingBetween(front);
      if !(|s| >= 2 && last.id == s[|s| - 2].id) {
        forall p | 0 <= p < |Compact(front)|
          ensures Compact(front)[p].id != last.id
        {
          NewIdAtTheEnd(s, front, p);
        }
        DistinctSnoc(Compact(front), last);
      }
    }
  }

  lemma {:induction false} NewIdAtTheEnd(s: seq<Message>, front: seq<Message>, p: nat)
    requires NothingBetween(s) && s != [] && front == s[..|s| - 1] && p < |Compact(front)|
    requires |s| >= 2 ==> s[|s| - 1].id != s[|s| - 2].id
    ensures Compact(front)[p].id != s[|s| - 1].id
  {
    CompactFrom(front, p);
    var i :| 0 <= i < |front| && front[i] == Compact(front)[p];
    assert s[i] == front[i];
  }

  lemma {:induction false} DistinctSnoc(s: seq<Message>, last: Message)
    requires DistinctIds(s) && forall p :: 0 <= p < |s| ==> s[p].id != last.id
    ensures DistinctIds(s + [last])
  {
  }

  lemma {:induction false} CompactLast(s: seq<Message>)
    requires s != []
    ensures Compact(s) != [] && Compact(s)[|Compact(s)| - 1].id == s[|s| - 1].id
  {
    CompactCovers(s);
  }

  /** Up to message j, of another ID than message i, compaction has kept an i before its last. */
  lemma {:induction false} KeptBefore(s: seq<Message>, i: nat, j: nat) returns (p: nat)
    requires i < j < |s| && s[i].id != s[j].id
    ensures p < |Compact(s[..j + 1])| - 1 && Compact(s[..j + 1])[p].id == s[i].id
  {
    var upTo := s[..j + 1];
    CompactCovers(upTo);
    assert upTo[i] == s[i] && upTo[|upTo| - 1] == s[j];
    p :| 0 <= p < |Compact(upTo)| && Compact(upTo)[p].id == s[i].id;
  }

  lemma {:induction false} RepeatedWhenBetween(s: seq<Message>, i: nat, j: nat, k: nat)
    requires i < j < k < |s| && s[i].id == s[k].id != s[j].id
    ensures !DistinctIds(Compact(s))
  {
    var p := KeptBefore(s, i, j);
    var upToJ, upToK := s[..j + 1], s[..k + 1];
    LastOfPrefix(s, k);
    CompactOfPrefixes(s, j + 1, k + 1);
    SamePrefix(Compact(upToJ), Compact(upToK), Compact(s), p);
  }

  lemma {:induction false} LastOfPrefix(s: seq<Message>, k: nat)
    requires k < |s|
    ensures var c := Compact(s[..k + 1]); c != [] && c[|c| - 1].id == s[k].id
  {
    CompactLast(s[..k + 1]);
  }

  lemma {:induction false} CompactOfPrefixes(s: seq<Message>, m: nat, n: nat)
    requires m <= n <= |s|
    ensures Compact(s[..m]) <= Compact(s[..n]) <= Compact(s)
  {
    CompactOfPrefix(s, n);
    CompactOfPrefix(s[..n], m);
    assert s[..n][..m] == s[..m];
  }

  lemma {:induction false} SamePrefix(a: seq<Message>, b: seq<Message>, c: seq<Message>, p: nat)
    requires a <= b <= c && p < |a| - 1 && b[|b| - 1].id == a[p].id
    ensures !DistinctIds(c)
  {
    assert c[p] == a[p] && c[|b| - 1] == b[|b| - 1];
  }

  /** Compaction leaves pairwise distinct IDs exactly when, in sorted order, nothing separates messages of one ID. */
  lemma {:induction false} DistinctExactly(s: seq<Message>)
    ensures DistinctIds(Compact(s)) <==> NothingBetween(s)
  {
    if NothingBetween(s) {
      DistinctWhenNothingBetween(s);
    } else {
      var i, j, k :| 0 <= i < j < k < |s| && s[i].id == s[k].id && s[j].id != s[k].id;
      RepeatedWhenBetween(s, i, j, k);
    }
  }

  ghost predicate IdsMatchKeys(s: seq<Message>) {
    forall a, b :: a in s && b in s ==> (a.id == b.id <==> SameKey(a, b))
  }

  /** When equal IDs and equal keys coincide, every sort brings the messages of an ID together. */
  lemma {:induction false} DistinctWhenIdsMatchKeys(received: seq<Message>, sorted: seq<Message>,
      anchor: Option<int>, forward: bool)
    requires IsSortOf(sorted, received) && IdsMatchKeys(received)
    ensures NothingBetween(sorted) && DistinctIds(Keep(Compact(sorted), anchor, forward))
  {
    SameElements(sorted, received);
    forall i, j, k | 0 <= i < j < k < |sorted| && sorted[i].id == sorted[k].id
      ensures sorted[j].id == sorted[k].id
    {
      assert sorted[i] in received && sorted[j] in received && sorted[k] in received;
      assert SameKey(sorted[i], sorted[k]) && KeyAtMost(sorted[i], sorted[j]) && KeyAtMost(sorted[j], sorted[k]);
    }
    DistinctExactly(sorted);
    KeepStaysDistinct(Compact(sorted), anchor, forward);
  }

  lemma {:induction false} KeepStaysDistinct(s: seq<Message>, anchor: Option<int>, forward: bool)
    requires DistinctIds(s)
    ensures DistinctIds(Keep(s, anchor, forward))
  {
    if s != [] {
      KeepStaysDistinct(s[1..], anchor, forward);
      KeepExactly(s[1..], anchor, forward);
      forall m | m in s[1..]
        ensures m.id != s[0].id
      {
        var k :| 0 <= k < |s[1..]| && s[1..][k] == m;
        assert s[k + 1] == m;
      }
    }
  }

  /** Three messages with equal keys, two of them with one ID, can be sorted so that both stay. */
  lemma {:induction false} TiesCanRepeat() returns (received: seq<Message>)
    ensures IsSortOf(received, received) && !DistinctIds(Compact(received)) && !IdsMatchKeys(received)
  {
    var a, b := Message("a", 1, 1, 5, ""), Message("b", 1, 1, 5, "");
    received := [a, b, a];
    RepeatedWhenBetween(received, 0, 1, 2);
  }

  // ----- one message for every ID -----

  /** Every ID received on the side that is asked for is still there. */
  ghost predicate EveryIdKept(sorted: seq<Message>, anchor: Option<int>, forward: bool) {
    forall k :: 0 <= k < |sorted| && OnSide(sorted[k], anchor, forward) ==> HasId(Keep(Compact(sorted), anchor, forward), sorted[k].id)
  }

  ghost predicate SameIdSameTime(s: seq<Message>) {
    forall i, j :: 0 <= i < |s| && 0 <= j < |s| && s[i].id == s[j].id ==> s[i].timestampMs == s[j].timestampMs
  }

  /** Compaction has kept, for each message, one of its ID that is not older, and one that is not newer. */
  ghost predicate Bracketed(sorted: seq<Message>) {
    forall k :: 0 <= k < |sorted| ==> HasLater(Compact(sorted), sorted[k]) && HasEarlier(Compact(sorted), sorted[k])
  }

  ghost predicate HasLater(s: seq<Message>, m: Message) {
    exists p :: 0 <= p < |s| && s[p].id == m.id && s[p].timestampMs >= m.timestampMs
  }

  ghost predicate HasEarlier(s: seq<Message>, m: Message) {
    exists p :: 0 <= p < |s| && s[p].id == m.id && s[p].timestampMs <= m.timestampMs
  }

  lemma {:induction false} KeptWhenBracketed(sorted: seq<Message>, anchor: Option<int>, forward: bool)
    requires Bracketed(sorted)
    ensures EveryIdKept(sorted, anchor, forward)
  {
    var compact := Compact(sorted);
    KeepExactly(compact, anchor, forward);
    forall k | 0 <= k < |sorted| && OnSide(sorted[k], anchor, forward)
      ensures HasId(Keep(compact, anchor, forward), sorted[k].id)
    {
      assert HasLater(compact, sorted[k]) && HasEarlier(compact, sorted[k]);
      var p :| 0 <= p < |compact| && compact[p].id == sorted[k].id &&
        (if forward then compact[p].timestampMs >= sorted[k].timestampMs else compact[p].timestampMs <= sorted[k].timestampMs);
      assert compact[p] in Keep(compact, anchor, forward);
    }
  }

  /** The anchor just next to a message that is newer, or older, than all that is kept of its ID. */
  lemma {:induction false} LostWhenNotBracketed(sorted: seq<Message>, k: nat, forward: bool)
    requires k < |sorted|
    requires if forward then !HasLater(Compact(sorted), sorted[k]) else !HasEarlier(Compact(sorted), sorted[k])
    ensures !EveryIdKept(sorted, Some(sorted[k].timestampMs + if forward then -1 else 1), forward)
  {
    var compact, anchor := Compact(sorted), Some(sorted[k].timestampMs + if forward then -1 else 1);
    var kept := Keep(compact, anchor, forward);
    KeepExactly(compact, anchor, forward);
    forall q | 0 <= q < |kept|
      ensures kept[q].id != sorted[k].id
    {
      assert kept[q] in compact && OnSide(kept[q], anchor, forward);
      var i :| 0 <= i < |compact| && compact[i] == kept[q];
    }
  }

  /**
   Every ID survives for every anchor and direction exactly when each message is bracketed by what compaction has kept of
   its ID: a duplicate is dropped before the timestamps are compared.
   */
  lemma {:induction false} EveryIdKeptExactly(sorted: seq<Message>)
    ensures (forall anchor, forward :: EveryIdKept(sorted, anchor, forward)) <==> Bracketed(sorted)
  {
    if Bracketed(sorted) {
      forall anchor, forward
        ensures EveryIdKept(sorted, anchor, forward)
      {
        KeptWhenBracketed(sorted, anchor, forward);
      }
    } else {
      var k :| 0 <= k < |sorted| && !(HasLater(Compact(sorted), sorted[k]) && HasEarlier(Compact(sorted), sorted[k]));
      LostWhenNotBracketed(sorted, k, !HasLater(Compact(sorted), sorted[k]));
    }
  }

  /** When nothing separates messages of one ID, that comes to equal timestamps for equal IDs. */
  lemma {:induction false} BracketedExactly(sorted: seq<Message>)
    requires NothingBetween(sorted)
    ensures Bracketed(sorted) <==> SameIdSameTime(sorted)
  {
    if SameIdSameTime(sorted) {
      BracketedWhenSameTime(sorted);
    } else {
      var i, j :| 0 <= i < |sorted| && 0 <= j < |sorted| && sorted[i].id == sorted[j].id &&
        sorted[i].timestampMs < sorted[j].timestampMs;
      DistinctExactly(sorted);
      CompactCovers(sorted);
      OneCannotBracket(Compact(sorted), sorted[i], sorted[j]);
    }
  }

  lemma {:induction false} OneCannotBracket(s: seq<Message>, early: Message, late: Message)
    requires DistinctIds(s) && early.id == late.id && early.timestampMs < late.timestampMs
    ensures !HasEarlier(s, early) || !HasLater(s, late)
  {
  }

  lemma {:induction false} BracketedWhenSameTime(sorted: seq<Message>)
    requires SameIdSameTime(sorted)
    ensures Bracketed(sorted)
  {
    CompactCovers(sorted);
    forall k | 0 <= k < |sorted|
      ensures HasLater(Compact(sorted), sorted[k]) && HasEarlier(Compact(sorted), sorted[k])
    {
      var p :| 0 <= p < |Compact(sorted)| && Compact(sorted)[p].id == sorted[k].id;
      CompactFrom(sorted, p);
      var i :| 0 <= i < |sorted| && sorted[i] == Compact(sorted)[p];
    }
  }
}
