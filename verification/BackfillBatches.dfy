/** What a batch of history has to look like for every outcome of the unstable sort to be deduplicated well. */
module BackfillBatches {
  import opened Common
  import opened Backfill

  // ----- messages of one ID and what stands between them -----

  /** Two messages of the batch, at different places in it, have this ID between them; the messages may be equal. */
  ghost predicate AreTwo(received: seq<Message>, a: Message, c: Message) {
    a in received && c in received && a.id == c.id && (a == c ==> multiset(received)[a] >= 2)
  }

  ghost predicate IsBetween(received: seq<Message>, a: Message, b: Message, c: Message) {
    AreTwo(received, a, c) && b in received && b.id != a.id && KeyAtMost(a, b) && KeyAtMost(b, c)
  }

  /** No message of another ID has a key between, ties included, those of two messages with one ID. */
  ghost predicate NoneBetween(received: seq<Message>) {
    forall a, b, c :: !IsBetween(received, a, b, c)
  }

  lemma {:induction false} TwoPlaces(s: seq<Message>, i: nat, k: nat)
    requires i < k < |s| && s[i] == s[k]
    ensures multiset(s)[s[i]] >= 2
  {
    assert s == s[..k] + [s[k]] + s[k + 1..];
    assert s[i] in s[..k];
  }

  lemma {:induction false} SortedApart(received: seq<Message>, sorted: seq<Message>)
    requires IsSortOf(sorted, received) && NoneBetween(received)
    ensures NothingBetween(sorted)
  {
    SameElements(sorted, received);
    forall i, j, k | 0 <= i < j < k < |sorted| && sorted[i].id == sorted[k].id
      ensures sorted[j].id == sorted[k].id
    {
      if sorted[i] == sorted[k] {
        TwoPlaces(sorted, i, k);
      }
      assert sorted[i] in received && sorted[j] in received && sorted[k] in received;
      assert AreTwo(received, sorted[i], sorted[k]);
      assert !IsBetween(received, sorted[i], sorted[j], sorted[k]);
    }
  }

  // ----- a sort that puts three given messages in order -----

  /** The first place from k on with a key that is not smaller. */
  function PlaceFrom(m: Message, s: seq<Message>, k: nat): (p: nat)
    requires k <= |s|
    ensures k <= p <= |s| && (forall i :: k <= i < p ==> !KeyAtMost(m, s[i])) && (p < |s| ==> KeyAtMost(m, s[p]))
    decreases |s| - k
  {
    if k == |s| || KeyAtMost(m, s[k]) then k else PlaceFrom(m, s, k + 1)
  }

  /** Puts the message in front of all whose keys are not smaller. */
  function Insert(m: Message, s: seq<Message>): (r: seq<Message>)
    ensures |r| == |s| + 1
  {
    s[..PlaceFrom(m, s, 0)] + [m] + s[PlaceFrom(m, s, 0)..]
  }

  lemma {:induction false} InsertSorts(m: Message, s: seq<Message>)
    requires Sorted(s)
    ensures Sorted(Insert(m, s)) && multiset(Insert(m, s)) == multiset(s) + multiset{m}
  {
    SortedWith(m, s, PlaceFrom(m, s, 0));
    CountedWith(m, s, PlaceFrom(m, s, 0));
  }

  lemma {:induction false} SortedWith(m: Message, s: seq<Message>, p: nat)
    requires Sorted(s) && p <= |s| && (forall k :: 0 <= k < p ==> KeyAtMost(s[k], m)) && (p < |s| ==> KeyAtMost(m, s[p]))
    ensures Sorted(s[..p] + [m] + s[p..])
  {
    var t := s[..p] + [m] + s[p..];
    forall i, j | 0 <= i < j < |t|
      ensures KeyAtMost(t[i], t[j])
    {
      if i == p {
        assert t[j] == s[j - 1] && KeyAtMost(s[p], s[j - 1]);
      }
    }
  }

  lemma {:induction false} CountedWith(m: Message, s: seq<Message>, p: nat)
    requires p <= |s|
    ensures multiset(s[..p] + [m] + s[p..]) == multiset(s) + multiset{m}
  {
    assert s == s[..p] + s[p..];
  }

  function SortOf(s: seq<Message>): seq<Message> {
    if s == [] then [] else Insert(s[0], SortOf(s[1..]))
  }

  lemma {:induction false} SortOfSorts(s: seq<Message>)
    ensures IsSortOf(SortOf(s), s)
  {
    if s != [] {
      SortOfSorts(s[1..]);
      InsertSorts(s[0], SortOf(s[1..]));
      assert s == [s[0]] + s[1..];
    }
  }

  lemma {:induction false} Shifted(s: seq<Message>, p: nat, m: Message, t: seq<Message>)
    requires p <= |s| && t == s[..p] + [m] + s[p..]
    ensures |t| == |s| + 1 && t[p] == m && forall i :: p <= i < |s| ==> t[i + 1] == s[i]
  {
  }

  lemma {:induction false} InsertInto(m: Message, s: seq<Message>) returns (t: seq<Message>, p: nat)
    requires Sorted(s)
    ensures Sorted(t) && multiset(t) == multiset(s) + multiset{m} && p < |t| && t[p] == m
    ensures |t| == |s| + 1 && p <= |s| && forall i :: p <= i < |s| ==> t[i + 1] == s[i]
    ensures forall k :: 0 <= k < p ==> !KeyAtMost(m, s[k])
  {
    t, p := Insert(m, s), PlaceFrom(m, s, 0);
    InsertSorts(m, s);
    Shifted(s, p, m, t);
  }

  lemma {:induction false} Without(s: seq<Message>, m: Message) returns (rest: seq<Message>)
    requires m in s
    ensures multiset(s) == multiset(rest) + multiset{m}
  {
    var k :| 0 <= k < |s| && s[k] == m;
    rest := s[..k] + s[k + 1..];
    assert s == s[..k] + [s[k]] + s[k + 1..];
  }

  /** Three messages with keys in order can be sorted so that they come in this order. */
  lemma {:induction false} SortInThisOrder(received: seq<Message>, a: Message, b: Message, c: Message)
    returns (sorted: seq<Message>, i: nat, j: nat, k: nat)
    requires IsBetween(received, a, b, c)
    ensures IsSortOf(sorted, received) && i < j < k < |sorted| && sorted[i] == a && sorted[j] == b && sorted[k] == c
  {
    var rest := WithoutThree(received, a, b, c);
    SortOfSorts(rest);
    var two, pb, pc := InsertBoth(b, c, SortOf(rest));
    sorted, i := InsertInto(a, two);
    assert i <= pb;
    j, k := pb + 1, pc + 1;
  }

  lemma {:induction false} InsertBoth(b: Message, c: Message, s: seq<Message>) returns (t: seq<Message>, i: nat, j: nat)
    requires Sorted(s) && KeyAtMost(b, c)
    ensures Sorted(t) && multiset(t) == multiset(s) + multiset{c} + multiset{b}
    ensures i < j < |t| && t[i] == b && t[j] == c
  {
    var one, pc := InsertInto(c, s);
    t, i := InsertInto(b, one);
    assert i <= pc;
    j := pc + 1;
  }

  lemma {:induction false} WithoutThree(received: seq<Message>, a: Message, b: Message, c: Message) returns (rest: seq<Message>)
    requires IsBetween(received, a, b, c)
    ensures multiset(received) == multiset(rest) + multiset{c} + multiset{b} + multiset{a}
  {
    var noA := Without(received, a);
    assert b in multiset(received) && b in multiset(noA);
    var noAB := Without(noA, b);
    assert c in multiset(received) && c in multiset(noA) && c in multiset(noAB);
    rest := Without(noAB, c);
  }

  // ----- the batch decides -----

  /** Every sort brings the messages of each ID together exactly when no message of another ID has a key between theirs. */
  lemma {:induction false} TogetherExactly(received: seq<Message>)
    ensures (forall sorted :: IsSortOf(sorted, received) ==> NothingBetween(sorted)) <==> NoneBetween(received)
  {
    if NoneBetween(received) {
      forall sorted | IsSortOf(sorted, received)
        ensures NothingBetween(sorted)
      {
        SortedApart(received, sorted);
      }
    } else {
      var a, b, c :| IsBetween(received, a, b, c);
      var sorted, i, j, k := SortInThisOrder(received, a, b, c);
      assert !NothingBetween(sorted);
    }
  }

  /** Every sort leaves distinct IDs exactly then. */
  lemma {:induction false} AlwaysDistinctExactly(received: seq<Message>)
    ensures (forall sorted :: IsSortOf(sorted, received) ==> DistinctIds(Compact(sorted))) <==> NoneBetween(received)
  {
    TogetherExactly(received);
    forall sorted | IsSortOf(sorted, received)
      ensures DistinctIds(Compact(sorted)) <==> NothingBetween(sorted)
    {
      DistinctExactly(sorted);
    }
  }

  ghost predicate AlwaysKept(received: seq<Message>) {
    forall sorted, anchor, forward :: IsSortOf(sorted, received) ==> EveryIdKept(sorted, anchor, forward)
  }

  lemma {:induction false} SameTimesSorted(received: seq<Message>, sorted: seq<Message>)
    requires IsSortOf(sorted, received)
    ensures SameIdSameTime(sorted) <==> SameIdSameTime(received)
  {
    SameElements(sorted, received);
    SameTimesOf(received, sorted);
    SameTimesOf(sorted, received);
  }

  lemma {:induction false} SameTimesOf(s: seq<Message>, t: seq<Message>)
    requires forall m :: m in t ==> m in s
    ensures SameIdSameTime(s) ==> SameIdSameTime(t)
  {
    forall i, j | 0 <= i < |t| && 0 <= j < |t| && t[i].id == t[j].id && SameIdSameTime(s)
      ensures t[i].timestampMs == t[j].timestampMs
    {
      assert t[i] in s && t[j] in s;
    }
  }

  /**
   On such a batch every ID received on the side that is asked for survives, for every sort, anchor and direction, exactly
   when equal IDs have equal timestamps; and equal timestamps are enough on any batch.
   */
  lemma {:induction false} AlwaysKeptExactly(received: seq<Message>)
    ensures SameIdSameTime(received) ==> AlwaysKept(received)
    ensures NoneBetween(received) ==> (AlwaysKept(received) <==> SameIdSameTime(received))
  {
    if SameIdSameTime(received) {
      forall sorted, anchor, forward | IsSortOf(sorted, received)
        ensures EveryIdKept(sorted, anchor, forward)
      {
        SameTimesSorted(received, sorted);
        BracketedWhenSameTime(sorted);
        KeptWhenBracketed(sorted, anchor, forward);
      }
    } else if NoneBetween(received) {
      var sorted := SortOf(received);
      SortOfSorts(received);
      SortedApart(received, sorted);
      SameTimesSorted(received, sorted);
      EveryIdKeptExactly(sorted);
      BracketedExactly(sorted);
    }
  }
}
