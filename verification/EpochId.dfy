/** The epoch IDs of pkg/messagix/methods/methods.go: a millisecond clock, a counter and a constant, packed by shifts and ors. */
module EpochId {
  import opened Common

  const WORD := 0x1_0000_0000_0000_0000

  // ----- Go's shift and or, on the bits of unsigned words -----

  function Shl(a: nat, k: nat): nat {
    if k == 0 then a else 2 * Shl(a, k - 1)
  }

  function Or(a: nat, b: nat): nat
    decreases a + b
  {
    if a == 0 && b == 0 then 0
    else (if a % 2 == 1 || b % 2 == 1 then 1 else 0) + 2 * Or(a / 2, b / 2)
  }

  lemma {:induction false} OrZero(a: nat)
    ensures Or(a, 0) == a && Or(0, a) == a
  {
    if a != 0 {
      OrZero(a / 2);
    }
  }

  /** Or adds when the right operand fits below the lowest bit the left one can have. */
  lemma {:induction false} OrDisjoint(a: nat, k: nat, b: nat)
    requires b < Shl(1, k)
    ensures Or(Shl(a, k), b) == Shl(a, k) + b
  {
    if k == 0 {
      OrZero(a);
    } else {
      var high, half := Shl(a, k - 1), Shl(1, k - 1);
      assert b / 2 < half;
      OrDisjoint(a, k - 1, b / 2);
      OrStep(high, b);
    }
  }

  lemma {:induction false} OrStep(high: nat, b: nat)
    requires Or(high, b / 2) == high + b / 2
    ensures Or(2 * high, b) == 2 * high + b
  {
    assert 2 * high / 2 == high && 2 * high % 2 == 0 && b == 2 * (b / 2) + b % 2;
  }

  lemma {:induction false} OrBelow(a: nat, b: nat, k: nat)
    requires a < Shl(1, k) && b < Shl(1, k)
    ensures Or(a, b) < Shl(1, k)
  {
    if k > 0 && !(a == 0 && b == 0) {
      OrBelow(a / 2, b / 2, k - 1);
    }
  }

  lemma {:induction false} ShiftsInDecimal(a: nat)
    ensures Shl(a, 10) == 1024 * a && Shl(a, 12) == 4096 * a && Shl(a, 22) == 0x40_0000 * a
  {
    Thrice(a, 0);
    Thrice(a, 3);
    Thrice(a, 6);
    assert Shl(a, 10) == 2 * Shl(a, 9);
    assert Shl(a, 12) == 4 * Shl(a, 10);
    Thrice(a, 12);
    Thrice(a, 15);
    Thrice(a, 18);
    assert Shl(a, 22) == 2 * Shl(a, 21);
  }

  lemma {:induction false} Thrice(a: nat, k: nat)
    ensures Shl(a, k + 3) == 8 * Shl(a, k)
  {
    assert Shl(a, k + 3) == 2 * Shl(a, k + 2);
  }

  lemma {:induction false} WordBits()
    ensures Shl(1, 64) == WORD
  {
    ShiftsInDecimal(1);
    Twice22(1);
  }

  lemma {:induction false} Twice22(a: nat)
    requires Shl(a, 22) == 0x40_0000 * a
    ensures Shl(a, 64) == WORD * a
  {
    Thrice(a, 22);
    Thrice(a, 25);
    Thrice(a, 28);
    Thrice(a, 31);
    Thrice(a, 34);
    Thrice(a, 37);
    Thrice(a, 40);
    Thrice(a, 43);
    Thrice(a, 46);
    Thrice(a, 49);
    Thrice(a, 52);
    Thrice(a, 55);
    Thrice(a, 58);
    Thrice(a, 61);
  }

  // ----- the generator -----

  /** The two package variables. */
  datatype EpochState = EpochState(last: int, counter: int)

  predicate IsState(s: EpochState) {
    IsInt64(s.last) && IsInt64(s.counter)
  }

  /** Both variables start at zero. */
  const START := EpochState(0, 0)

  /** The time and the count, shifted, and a tag, combined as 64-bit words. */
  function Pack(time: nat, count: nat, tag: nat): (word: nat)
    requires tag < WORD
    ensures word < WORD
  {
    WordBits();
    OrBelow(Shl(time, 22) % WORD, Shl(count, 12) % WORD, 64);
    OrBelow(Or(Shl(time, 22) % WORD, Shl(count, 12) % WORD), tag, 64);
    Or(Or(Shl(time, 22) % WORD, Shl(count, 12) % WORD), tag)
  }

  const TAG := 42

  function IdOf(s: EpochState): (id: int)
    requires IsState(s)
    ensures IsInt64(id)
  {
    FromUint64(Pack(ToUint64(s.last), ToUint64(s.counter), TAG))
  }

  function Next(s: EpochState, now: int): (n: EpochState)
    requires IsState(s) && IsInt64(now)
    ensures IsState(n)
  {
    if now == s.last then EpochState(s.last, WrapInt64(s.counter + 1)) else EpochState(now, 0)
  }

  class EpochGenerator {
    var lastTimestamp: int
    var counter: int

    ghost predicate Valid()
      reads this
    {
      IsState(State())
    }

    ghost function State(): EpochState
      reads this
    {
      EpochState(lastTimestamp, counter)
    }

    constructor ()
      ensures Valid() && State() == START
    {
      lastTimestamp, counter := 0, 0;
    }

    /** The clock reading is a parameter. */
    method GenerateEpochID(now: int) returns (id: int)
      requires Valid() && IsInt64(now)
      modifies this
      ensures Valid()
      ensures State() == Next(old(State()), now) && id == IdOf(State())
    {
      var timestamp := now;
      if timestamp == lastTimestamp {
        counter := WrapInt64(counter + 1);
      } else {
        lastTimestamp := timestamp;
        counter := 0;
      }
      id := IdOf(EpochState(timestamp, counter));
    }
  }

  /** The IDs of a run of calls. */
  function Ids(s: EpochState, times: seq<int>): (ids: seq<int>)
    requires IsState(s) && forall k :: 0 <= k < |times| ==> IsInt64(times[k])
    ensures |ids| == |times|
    decreases |times|
  {
    if times == [] then [] else [IdOf(Next(s, times[0]))] + Ids(Next(s, times[0]), times[1..])
  }

  // ----- what the IDs are -----

  /** Or of three fields of any width, 10 and 12 bits. */
  lemma {:induction false} ThreeFields(high: nat, middle: nat, time: nat, count: nat, tag: nat)
    requires high == 0x40_0000 * time && middle == 4096 * count && count < 1024 && tag < 4096
    ensures Or(Or(high, middle), tag) == high + middle + tag
  {
    ShiftsInDecimal(time);
    ShiftsInDecimal(1);
    OrDisjoint(time, 22, middle);
    var both := 1024 * time + count;
    ShiftsInDecimal(both);
    OrDisjoint(both, 12, tag);
  }

  /** Three fields of 41, 10 and 12 bits do not overlap. */
  lemma {:induction false} PackInDecimal(time: nat, count: nat, tag: nat)
    requires time < 0x200_0000_0000 && count < 1024 && tag < 4096
    ensures Pack(time, count, tag) == 0x40_0000 * time + 4096 * count + tag
  {
    ShiftsInDecimal(time);
    ShiftsInDecimal(count);
    var high, middle := Shl(time, 22) % WORD, Shl(count, 12) % WORD;
    ThreeFields(high, middle, time, count, tag);
  }

  lemma {:induction false} IdInDecimal(s: EpochState)
    requires 0 <= s.last < 0x200_0000_0000 && 0 <= s.counter < 1024
    ensures IdOf(s) == 0x40_0000 * s.last + 4096 * s.counter + 42
  {
    PackInDecimal(s.last, s.counter, TAG);
  }

  /** The clock and the counter can be read back from an ID exactly when the counter is below 1024. */
  lemma {:induction false} FieldsAreReadBackExactly(s: EpochState)
    requires IsState(s) && 0 <= s.last < 0x200_0000_0000
    ensures (IdOf(s) >= 0 && IdOf(s) / 0x40_0000 == s.last && IdOf(s) / 4096 % 1024 == s.counter) <==> 0 <= s.counter < 1024
  {
    if 0 <= s.counter < 1024 {
      IdInDecimal(s);
      Divide(s.last, s.counter, IdOf(s));
    }
  }

  lemma {:induction false} Divide(time: nat, count: nat, id: nat)
    requires count < 1024 && id == 0x40_0000 * time + 4096 * count + 42
    ensures id / 0x40_0000 == time && id / 4096 % 1024 == count
  {
    assert id / 4096 == 1024 * time + count;
  }

  ghost predicate Increasing(ids: seq<int>) {
    forall i, j :: 0 <= i < j < |ids| ==> ids[i] < ids[j]
  }

  ghost predicate ClockRuns(times: seq<int>) {
    && (forall k :: 0 <= k < |times| ==> 0 <= times[k] < 0x200_0000_0000)
    && forall i, j :: 0 <= i <= j < |times| ==> times[i] <= times[j]
  }

  /** At most n calls read the same millisecond. */
  ghost predicate AtMost(n: nat, times: seq<int>) {
    forall i, j :: 0 <= i && i + n <= j < |times| ==> times[i] < times[j]
  }

  /** The counter still has room for the calls that read the current millisecond again. */
  ghost predicate RoomLeft(s: EpochState, times: seq<int>) {
    0 <= s.counter < 1024 && (1023 - s.counter < |times| ==> s.last < times[1023 - s.counter])
  }

  lemma {:induction false} IncreasingFrom(s: EpochState, times: seq<int>)
    requires ClockRuns(times) && AtMost(1024, times) && 0 <= s.last < 0x200_0000_0000
    requires RoomLeft(s, times) && (times != [] ==> s.last <= times[0])
    ensures Increasing([IdOf(s)] + Ids(s, times))
    decreases |times|
  {
    if times != [] {
      var n, rest := Next(s, times[0]), times[1..];
      IncreasingFrom(n, rest);
      IdInDecimal(s);
      IdInDecimal(n);
      assert IdOf(s) < IdOf(n);
      Prepend(IdOf(s), [IdOf(n)] + Ids(n, rest));
    }
  }

  lemma {:induction false} Prepend(x: int, ids: seq<int>)
    requires Increasing(ids) && ids != [] && x < ids[0]
    ensures Increasing([x] + ids)
  {
  }

  /**
   With a clock that never steps back, at most 1024 calls in a millisecond (1023 at time zero, where the counter starts),
   every ID is positive and greater than all before it.
   */
  lemma {:induction false} EpochIdsIncrease(times: seq<int>)
    requires ClockRuns(times) && AtMost(1024, times) && (1023 < |times| ==> 0 < times[1023])
    ensures Increasing(Ids(START, times))
    ensures forall k :: 0 <= k < |times| ==> Ids(START, times)[k] > 0
  {
    IncreasingFrom(START, times);
    IdInDecimal(START);
    Behind(IdOf(START), Ids(START, times));
  }

  lemma {:induction false} Behind(x: int, ids: seq<int>)
    requires Increasing([x] + ids)
    ensures Increasing(ids) && forall k :: 0 <= k < |ids| ==> x < ids[k]
  {
    var all := [x] + ids;
    forall k | 0 <= k < |ids|
      ensures x < ids[k]
    {
      assert all[0] < all[k + 1];
    }
    forall i, j | 0 <= i < j < |ids|
      ensures ids[i] < ids[j]
    {
      assert all[i + 1] < all[j + 1];
    }
  }

  // ----- the bound of 1024 is needed -----

  /** The 1025th call of a millisecond gets the first ID of that millisecond, if it is odd, or of the next one. */
  lemma {:induction false} CounterOverflows(time: nat)
    requires time < 0x1FF_FFFF_FFFF
    ensures IdOf(EpochState(time, 1024)) == IdOf(EpochState(if time % 2 == 1 then time else time + 1, 0))
  {
    var owner := if time % 2 == 1 then time else time + 1;
    PackHigh(time, 1024, TAG);
    PackHigh(owner, 0, TAG);
    FullCounter(time, 0x40_0000 * time, 0x40_0000);
    OrZero(0x40_0000 * owner);
  }

  lemma {:induction false} PackHigh(time: nat, count: nat, tag: nat)
    requires count <= 1024 && time < 0x200_0000_0000 && tag < WORD
    ensures Pack(time, count, tag) == Or(Or(0x40_0000 * time, 4096 * count), tag)
  {
    ShiftsInDecimal(time);
    ShiftsInDecimal(count);
    var high, middle := Shl(time, 22) % WORD, Shl(count, 12) % WORD;
    assert high == 0x40_0000 * time && middle == 4096 * count;
  }

  lemma {:induction false} FullCounter(time: nat, high: nat, middle: nat)
    requires high == 0x40_0000 * time && middle == 0x40_0000
    ensures Or(high, middle) == 0x40_0000 * if time % 2 == 1 then time else time + 1
  {
    var one := 1;
    OrOne(time);
    OrShifted(time, one, 22);
    ShiftsInDecimal(time);
    ShiftsInDecimal(one);
    ShiftsInDecimal(Or(time, one));
  }

  lemma {:induction false} OrOne(a: nat)
    ensures Or(a, 1) == if a % 2 == 1 then a else a + 1
  {
    OrZero(a / 2);
  }

  lemma {:induction false} OrShifted(a: nat, b: nat, k: nat)
    ensures Or(Shl(a, k), Shl(b, k)) == Shl(Or(a, b), k)
  {
    if k > 0 {
      OrShifted(a, b, k - 1);
    }
  }

  lemma {:induction false} SameMillisecond(time: nat, counter: nat, calls: nat, k: nat, after: seq<int>)
    requires 0 < time < 0x1FF_FFFF_FFFF && counter + calls < 0x1_0000 && k < calls
    requires forall i :: 0 <= i < |after| ==> IsInt64(after[i])
    ensures Ids(EpochState(time, counter), seq(calls, _ => time) + after)[k] == IdOf(EpochState(time, counter + k + 1))
    decreases k
  {
    var times: seq<int> := seq(calls, _ => time) + after;
    assert times[1..] == seq(calls - 1, _ => time) + after;
    if k > 0 {
      SameMillisecond(time, counter + 1, calls - 1, k - 1, after);
    }
  }

  lemma {:induction false} AfterMillisecond(time: nat, counter: nat, calls: nat)
    requires 0 < time < 0x1FF_FFFF_FFFF && counter + calls < 0x1_0000
    ensures Ids(EpochState(time, counter), seq(calls, _ => time) + [time + 1])[calls] == IdOf(EpochState(time + 1, 0))
    decreases calls
  {
    var times: seq<int> := seq(calls, _ => time) + [time + 1];
    if calls > 0 {
      assert times[1..] == seq(calls - 1, _ => time) + [time + 1];
      AfterMillisecond(time, counter + 1, calls - 1);
    } else {
      assert times[0] == time + 1;
    }
  }

  /** The IDs of the first and the last of n calls in a millisecond, and of one in the next. */
  lemma {:induction false} ThreeIds(time: nat, n: nat)
    requires 0 < time < 0x1FF_FFFF_FFFF && 1 < n < 0x1_0000
    ensures var ids := Ids(START, seq(n, _ => time) + [time + 1]);
      && ids[0] == IdOf(EpochState(time, 0)) && ids[n - 1] == IdOf(EpochState(time, n - 1))
      && ids[n] == IdOf(EpochState(time + 1, 0))
  {
    var times: seq<int> := seq(n, _ => time) + [time + 1];
    assert times[0] == time && times[1..] == seq(n - 1, _ => time) + [time + 1];
    SameMillisecond(time, 0, n - 1, n - 2, [time + 1]);
    AfterMillisecond(time, 0, n - 1);
    assert Next(START, time) == EpochState(time, 0);
  }

  /** For every millisecond, 1025 calls in it and one in the next do not get distinct IDs. */
  lemma {:induction false} OneCallTooMany(time: nat)
    requires 0 < time < 0x1FF_FFFF_FFFF
    ensures var ids := Ids(START, seq(1025, _ => time) + [time + 1]);
      ids[1024] == ids[if time % 2 == 1 then 0 else 1025]
  {
    ThreeIds(time, 1025);
    CounterOverflows(time);
  }

  /** With at most n calls in a millisecond, none of them at time zero, IDs always increase. */
  ghost predicate AlwaysIncreasing(n: nat) {
    forall times :: ClockRuns(times) && AtMost(n, times) && (times != [] ==> times[0] > 0) ==> Increasing(Ids(START, times))
  }

  lemma {:induction false} FewerCalls(n: nat, times: seq<int>)
    requires AtMost(n, times) && n <= 1024
    ensures AtMost(1024, times)
  {
  }

  lemma {:induction false} OneCallTooManyIsAllowed(n: nat)
    requires n > 1024
    ensures var times: seq<int> := seq(1025, _ => 1) + [2]; ClockRuns(times) && AtMost(n, times)
  {
  }

  /** The generator's IDs increase in every such run exactly when that many calls fit the ten bits of the counter. */
  lemma {:induction false} IdsIncreaseExactly(n: nat)
    ensures AlwaysIncreasing(n) <==> n <= 1024
  {
    if n <= 1024 {
      forall times | ClockRuns(times) && AtMost(n, times) && (times != [] ==> times[0] > 0)
        ensures Increasing(Ids(START, times))
      {
        FewerCalls(n, times);
        EpochIdsIncrease(times);
      }
    } else {
      var times: seq<int> := seq(1025, _ => 1) + [2];
      OneCallTooManyIsAllowed(n);
      OneCallTooMany(1);
      assert !(Ids(START, times)[0] < Ids(START, times)[1024]);
      assert times[0] > 0;
    }
  }
}
