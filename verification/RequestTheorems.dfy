/** What every interleaving of requests, packets, timeouts and cancellation keeps. */
module RequestTheorems {
  import opened Common
  import opened ResponseHandlers
  import opened Requests

  // ----- packet IDs -----

  function IdAfter(sent: nat, n: nat): (id: nat)
    requires sent <= MAX_ID
    ensures id <= MAX_ID
  {
    if n == 0 then sent else NextId(IdAfter(sent, n - 1))
  }

  lemma {:induction false} IdFormula(sent: nat, n: nat)
    requires sent <= MAX_ID && n > 0
    ensures IdAfter(sent, n) == (sent + n - 1) % MAX_ID + 1
  {
    if n > 1 {
      IdFormula(sent, n - 1);
      OneMore(sent + n - 2);
    }
  }

  lemma {:induction false} OneMore(m: nat)
    ensures (m + 1) % MAX_ID + 1 == NextId(m % MAX_ID + 1)
  {
    var low := m % MAX_ID;
    assert m == MAX_ID * (m / MAX_ID) + low;
    if low + 1 < MAX_ID {
      assert (m + 1) % MAX_ID == low + 1;
    } else {
      assert m + 1 == MAX_ID * (m / MAX_ID + 1);
    }
  }

  /** IDs are never 0, and any 65535 consecutive ones are distinct. */
  lemma {:induction false} IdsAreDistinct(sent: nat, i: nat, j: nat)
    requires sent <= MAX_ID && 0 < i < j < i + MAX_ID
    ensures IdAfter(sent, i) != IdAfter(sent, j) && IdAfter(sent, i) != 0
  {
    IdFormula(sent, i);
    IdFormula(sent, j);
    RemaindersDiffer(sent + i - 1, sent + j - 1);
  }

  lemma {:induction false} RemaindersDiffer(a: nat, b: nat)
    requires a < b < a + MAX_ID
    ensures a % MAX_ID != b % MAX_ID
  {
    var q, q' := a / MAX_ID, b / MAX_ID;
    assert a == MAX_ID * q + a % MAX_ID && b == MAX_ID * q' + b % MAX_ID;
    if q == q' {
    } else if q < q' {
      assert MAX_ID * q' >= MAX_ID * q + MAX_ID;
    } else {
      assert MAX_ID * q >= MAX_ID * q' + MAX_ID;
    }
  }

  /** The bound is exact: the next one repeats. */
  lemma {:induction false} IdsRepeat(sent: nat, i: nat)
    requires sent <= MAX_ID && i > 0
    ensures IdAfter(sent, i + MAX_ID) == IdAfter(sent, i)
  {
    IdFormula(sent, i);
    IdFormula(sent, i + MAX_ID);
    FullRound(sent + i - 1);
  }

  lemma {:induction false} FullRound(a: nat)
    ensures (a + MAX_ID) % MAX_ID == a % MAX_ID
  {
  }

  // ----- safety of every run -----

  ghost function Own(th: Thread, t: ChannelType): Option<nat> {
    match t
    case PacketChannel => th.packetChannel
    case RequestChannel => th.requestChannel
  }

  /** Every entry was made by a thread with that ID. */
  ghost predicate Owned(s: System) {
    forall t, id :: id in s.registry.Entries(t) ==> OwnedBySome(s, t, id, s.registry.Entries(t)[id])
  }

  ghost predicate OwnedBySome(s: System, t: ChannelType, id: nat, c: nat) {
    exists x :: x in s.threads && s.threads[x].id == id && Own(s.threads[x], t) == Some(c)
  }

  /** Threads keep their IDs and the channels they have made. */
  lemma {:induction false} StepKeepsThreads(s: System, a: Action, x: nat, t: ChannelType)
    requires Inv(s) && Step(s, a).Some? && x in s.threads
    ensures var s' := Step(s, a).value;
            && x in s'.threads && s'.threads[x].id == s.threads[x].id
            && (Own(s.threads[x], t).Some? ==> Own(s'.threads[x], t) == Own(s.threads[x], t))
  {
    assert ThreadOk(s.registry, s.threads[x]);
  }

  /** An entry that was not there before belongs to the thread that took the step. */
  lemma {:induction false} NewEntryIsOwned(r: Registry, th: Thread, t: ChannelType, id: nat)
    requires ThreadStep(r, th).Some? && id in ThreadStep(r, th).value.0.Entries(t)
    requires id !in r.Entries(t) || r.Entries(t)[id] != ThreadStep(r, th).value.0.Entries(t)[id]
    ensures var (r', th') := ThreadStep(r, th).value; th'.id == id && Own(th', t) == Some(r'.Entries(t)[id])
  {
  }

  lemma {:induction false} StepKeepsOwned(s: System, a: Action)
    requires Inv(s) && Owned(s) && Step(s, a).Some?
    ensures Owned(Step(s, a).value)
  {
    if a.Cancel? {
      CancelKeepsOwned(s);
    } else {
      OtherStepKeepsOwned(s, a);
    }
  }

  /** Nothing is registered after a cancellation. */
  lemma {:induction false} CancelKeepsOwned(s: System)
    requires Inv(s) && Step(s, Cancel).Some?
    ensures Owned(Step(s, Cancel).value)
  {
    CancelKeeps(s.registry);
  }

  lemma {:induction false} OtherStepKeepsOwned(s: System, a: Action)
    requires Inv(s) && Owned(s) && !a.Cancel? && Step(s, a).Some?
    ensures Owned(Step(s, a).value)
  {
    var s' := Step(s, a).value;
    forall t, id | id in s'.registry.Entries(t)
      ensures OwnedBySome(s', t, id, s'.registry.Entries(t)[id])
    {
      EntryIsOwned(s, a, t, id);
    }
  }

  lemma {:induction false} EntryIsOwned(s: System, a: Action, t: ChannelType, id: nat)
    requires Inv(s) && Owned(s) && !a.Cancel? && Step(s, a).Some? && id in Step(s, a).value.registry.Entries(t)
    ensures var s' := Step(s, a).value; OwnedBySome(s', t, id, s'.registry.Entries(t)[id])
  {
    var s' := Step(s, a).value;
    var c := s'.registry.Entries(t)[id];
    if a.Advance? && !(id in s.registry.Entries(t) && s.registry.Entries(t)[id] == c) {
      NewEntryIsOwned(s.registry, s.threads[a.thread], t, id);
      assert s'.threads[a.thread].id == id && Own(s'.threads[a.thread], t) == Some(c);
    } else {
      if !a.Advance? {
        OthersDoNotRegister(s, a, t);
      }
      assert OwnedBySome(s, t, id, c);
      var x :| x in s.threads && s.threads[x].id == id && Own(s.threads[x], t) == Some(c);
      StepKeepsThreads(s, a, x, t);
      assert s'.threads[x].id == id && Own(s'.threads[x], t) == Some(c);
    }
  }

  lemma {:induction false} OthersDoNotRegister(s: System, a: Action, t: ChannelType)
    requires Inv(s) && Step(s, a).Some? && !a.Cancel? && !a.Advance?
    ensures Step(s, a).value.registry.Entries(t) == s.registry.Entries(t)
  {
    if !a.ReaderStep? {
      assert Step(s, a).value.registry == s.registry;
    }
  }

  lemma {:induction false} RunKeepsOwned(s: System, actions: seq<Action>)
    requires Inv(s) && Owned(s) && RunFrom(s, actions).Some?
    ensures Inv(RunFrom(s, actions).value) && Owned(RunFrom(s, actions).value)
    decreases |actions|
  {
    if actions != [] {
      StepKeepsInv(s, actions[0]);
      StepKeepsOwned(s, actions[0]);
      RunKeepsOwned(Step(s, actions[0]).value, actions[1..]);
    }
  }

  /**
   In every run: registered channels are open, no channel is closed twice, ID 0 is never registered, and a response
   reaches a request only when its low 16 bits are the request's ID.
   */
  lemma {:induction false} EveryRunIsSafe(actions: seq<Action>)
    requires RunFrom(Initial(), actions).Some?
    ensures var s := RunFrom(Initial(), actions).value;
            && (forall t, id :: id in s.registry.Entries(t) ==>
                  id != 0 && s.registry.Entries(t)[id] < |s.registry.channels|
                  && s.registry.channels[s.registry.Entries(t)[id]].closes == 0)
            && (forall c :: 0 <= c < |s.registry.channels| ==> s.registry.channels[c].closes <= 1)
            && (forall x :: x in s.threads && s.threads[x].pc.Finished? && s.threads[x].pc.result.Got? ==>
                  var m := s.threads[x].pc.result.message;
                  m.for' == RequestChannel && Uint16(m.id) == s.threads[x].id)
  {
    RunKeepsInv(Initial(), actions);
    var s := RunFrom(Initial(), actions).value;
    forall t, id | id in s.registry.Entries(t)
      ensures GoodEntry(s.registry.channels, t, id, s.registry.Entries(t)[id])
    {
    }
    forall c | 0 <= c < |s.registry.channels| ensures GoodChannel(s.registry.channels[c]) {
    }
    forall x | x in s.threads ensures ThreadOk(s.registry, s.threads[x]) {
    }
  }

  /**
   A makeLSRequest that waits for its response leaves nothing behind: once it has returned, with a response or with
   an error, any entry for its ID is a channel that another thread with that ID has made.
   */
  lemma {:induction false} FinishedRequestsLeaveNoEntry(actions: seq<Action>, x: nat, t: ChannelType)
    requires RunFrom(Initial(), actions).Some?
    requires var s := RunFrom(Initial(), actions).value;
             x in s.threads && s.threads[x].kind == LSRequest(true) && s.threads[x].pc.Finished?
    ensures var s := RunFrom(Initial(), actions).value;
            s.threads[x].id in s.registry.Entries(t) ==> OwnedByAnother(s, x, t)
  {
    RunKeepsOwned(Initial(), actions);
    var s := RunFrom(Initial(), actions).value;
    var th := s.threads[x];
    assert ThreadOk(s.registry, th);
    if th.id in s.registry.Entries(t) {
      assert Released(s.registry, t, th.id, Own(th, t));
      AnotherOwner(s, x, t);
    }
  }

  ghost predicate OwnedByAnother(s: System, x: nat, t: ChannelType)
    requires x in s.threads && s.threads[x].id in s.registry.Entries(t)
  {
    exists y :: y in s.threads && y != x && s.threads[y].id == s.threads[x].id &&
      Own(s.threads[y], t) == Some(s.registry.Entries(t)[s.threads[x].id])
  }

  /** An entry for a thread's ID that is not the thread's own is another's. */
  lemma {:induction false} AnotherOwner(s: System, x: nat, t: ChannelType)
    requires Owned(s) && x in s.threads && s.threads[x].id in s.registry.Entries(t)
    requires Own(s.threads[x], t) != Some(s.registry.Entries(t)[s.threads[x].id])
    ensures OwnedByAnother(s, x, t)
  {
    var id := s.threads[x].id;
    assert OwnedBySome(s, t, id, s.registry.Entries(t)[id]);
  }

  // ----- IDs in a run -----

  function StartsOne(a: Action): nat {
    if a.Start? then 1 else 0
  }

  function Starts(actions: seq<Action>): nat {
    if actions == [] then 0 else StartsOne(actions[0]) + Starts(actions[1..])
  }

  function Before(ids: seq<nat>, k: nat): nat
    requires k <= |ids|
  {
    if k == 0 then 0 else ids[k - 1]
  }

  predicate IsNext(ids: seq<nat>, k: nat)
    requires k < |ids|
  {
    Before(ids, k) <= MAX_ID && ids[k] == NextId(Before(ids, k))
  }

  /** Each ID is the next one after the one before it, starting from 0. */
  ghost predicate AreConsecutive(ids: seq<nat>) {
    forall k :: 0 <= k < |ids| ==> IsNext(ids, k)
  }

  /** The IDs given out so far, and for each thread which of them it got. */
  ghost predicate Numbered(s: System, ids: seq<nat>, number: map<nat, nat>) {
    && AreConsecutive(ids) && s.sent == Before(ids, |ids|) && number.Keys == s.threads.Keys
    && (forall x :: x in number ==> number[x] < |ids| && s.threads[x].id == ids[number[x]])
    && forall x, y :: x in number && y in number && number[x] == number[y] ==> x == y
  }

  lemma {:induction false} StartIsNumbered(s: System, x: nat, kind: Kind, ids: seq<nat>, number: map<nat, nat>)
    requires s.sent <= MAX_ID && Numbered(s, ids, number) && Step(s, Start(x, kind)).Some?
    ensures Numbered(Step(s, Start(x, kind)).value, ids + [NextId(s.sent)], number[x := |ids|])
  {
    var longer := ids + [NextId(s.sent)];
    forall k | 0 <= k < |longer|
      ensures IsNext(longer, k)
    {
      assert k < |ids| ==> IsNext(ids, k);
    }
  }

  lemma {:induction false} StepIsNumbered(s: System, a: Action, ids: seq<nat>, number: map<nat, nat>)
    requires Inv(s) && Numbered(s, ids, number) && !a.Start? && Step(s, a).Some?
    ensures Numbered(Step(s, a).value, ids, number)
  {
    var s' := Step(s, a).value;
    assert s'.sent == s.sent && s'.threads.Keys == s.threads.Keys;
    forall x | x in s.threads
      ensures s'.threads[x].id == s.threads[x].id
    {
      StepKeepsThreads(s, a, x, PacketChannel);
    }
  }

  lemma {:induction false} RunGoesOn(s: System, actions: seq<Action>)
    requires Inv(s) && actions != [] && RunFrom(s, actions).Some?
    ensures Step(s, actions[0]).Some? && Inv(Step(s, actions[0]).value)
    ensures RunFrom(s, actions) == RunFrom(Step(s, actions[0]).value, actions[1..])
    ensures Starts(actions) == StartsOne(actions[0]) + Starts(actions[1..])
  {
    StepKeepsInv(s, actions[0]);
  }

  lemma {:induction false} RunIsNumbered(s: System, actions: seq<Action>, ids: seq<nat>, number: map<nat, nat>)
    returns (ids': seq<nat>, number': map<nat, nat>)
    requires Inv(s) && Numbered(s, ids, number) && RunFrom(s, actions).Some?
    ensures Numbered(RunFrom(s, actions).value, ids', number') && |ids'| == |ids| + Starts(actions)
    decreases |actions|
  {
    if actions == [] {
      ids', number' := ids, number;
    } else {
      RunGoesOn(s, actions);
      var a, next := actions[0], Step(s, actions[0]).value;
      if a.Start? {
        StartIsNumbered(s, a.thread, a.kind, ids, number);
        ids', number' := RunIsNumbered(next, actions[1..], ids + [NextId(s.sent)], number[a.thread := |ids|]);
      } else {
        StepIsNumbered(s, a, ids, number);
        ids', number' := RunIsNumbered(next, actions[1..], ids, number);
      }
    }
  }

  lemma {:induction false} ConsecutiveIds(ids: seq<nat>, k: nat)
    requires AreConsecutive(ids) && k < |ids|
    ensures ids[k] == IdAfter(0, k + 1)
  {
    assert IsNext(ids, k);
    if k > 0 {
      ConsecutiveIds(ids, k - 1);
    } else {
      assert IdAfter(0, 0) == 0;
    }
  }

  /** In any run that starts at most 65535 requests, no two of them have the same ID. */
  lemma {:induction false} RequestsHaveDistinctIds(actions: seq<Action>, x: nat, y: nat)
    requires RunFrom(Initial(), actions).Some? && Starts(actions) <= MAX_ID
    requires var s := RunFrom(Initial(), actions).value; x in s.threads && y in s.threads && x != y
    ensures var s := RunFrom(Initial(), actions).value; s.threads[x].id != s.threads[y].id
  {
    var ids, number := RunIsNumbered(Initial(), actions, [], map[]);
    if number[x] < number[y] {
      ConsecutiveAreDistinct(ids, number[x], number[y]);
    } else {
      ConsecutiveAreDistinct(ids, number[y], number[x]);
    }
  }

  lemma {:induction false} ConsecutiveAreDistinct(ids: seq<nat>, i: nat, j: nat)
    requires AreConsecutive(ids) && i < j < |ids| <= MAX_ID
    ensures ids[i] != ids[j]
  {
    ConsecutiveIds(ids, i);
    ConsecutiveIds(ids, j);
    IdsAreDistinct(0, i + 1, j + 1);
  }

  /** So in such a run a request that waited for its response and has returned leaves no entry at all. */
  lemma {:induction false} FinishedRequestsLeaveNothing(actions: seq<Action>, x: nat, t: ChannelType)
    requires RunFrom(Initial(), actions).Some? && Starts(actions) <= MAX_ID
    requires var s := RunFrom(Initial(), actions).value;
             x in s.threads && s.threads[x].kind == LSRequest(true) && s.threads[x].pc.Finished?
    ensures var s := RunFrom(Initial(), actions).value; s.threads[x].id !in s.registry.Entries(t)
  {
    var s := RunFrom(Initial(), actions).value;
    FinishedRequestsLeaveNoEntry(actions, x, t);
    forall y | y in s.threads && y != x
      ensures s.threads[y].id != s.threads[x].id
    {
      RequestsHaveDistinctIds(actions, x, y);
    }
  }

  /** The server's request IDs are 64-bit numbers: one reaches its own request, and only that, while it fits 16 bits. */
  lemma {:induction false} ResponseIdsMatchExactly(m: Message, id: nat)
    requires 1 <= id <= MAX_ID && Uint16(m.id) == id
    ensures m.id == id <==> 0 <= m.id <= MAX_ID
  {
  }

  /** A packet whose ID is 0 in its low 16 bits changes nothing: it never meets a request. */
  lemma {:induction false} IdZeroMatchesNothing(s: System, m: Message)
    requires Inv(s) && !s.panicked && s.reader.Idle? && Uint16(m.id) == 0
    ensures Step(s, Receive(m)) == Some(s)
  {
    forall id | id in s.registry.Entries(m.for')
      ensures id >= 1
    {
      EntryMadeFor(s.registry, m.for', id);
    }
  }

  // ----- a response that comes before the acknowledgement -----

  /** The packet channel that the thread has yet to look up is registered, and the one it waits on is open. */
  ghost predicate PacketReady(r: Registry, th: Thread) {
    && (th.pc.Registered? || th.pc.Sent? ==> th.id in r.packets)
    && (th.pc.AwaitAck? ==> th.pc.channel < |r.channels| && r.channels[th.pc.channel].closes == 0)
  }

  /** The response is in the thread's hands, or in the channel it waits on or will look up. */
  ghost predicate Kept(s: System, x: nat, m: Message) {
    x in s.threads && s.threads[x].kind == LSRequest(true) && PacketReady(s.registry, s.threads[x]) &&
    match s.threads[x].pc
    case Answered(m') => m' == m
    case Finished(result) => result == Got(m)
    case AwaitResponse(c) => c < |s.registry.channels| && s.registry.channels[c].buffer == [m]
    case Allocated => false
    case AddedPacket => false
    case DropPacket => false
    case DropRequest => false
    case _ => InMailbox(s.registry, s.threads[x].id, [m])
  }

  ghost predicate InMailbox(r: Registry, id: nat, messages: seq<Message>) {
    id in r.requests && r.requests[id] < |r.channels| && r.channels[r.requests[id]].buffer == messages
  }

  /** Not a cancellation, not a step of another thread with the same ID, and not a failure or timeout of the thread itself. */
  ghost predicate Undisturbed(s: System, a: Action, x: nat)
    requires x in s.threads
  {
    && !a.Cancel?
    && (a.Fail? || a.SendFails? || a.GiveUp? ==> a.thread != x)
    && (a.Advance? && a.thread in s.threads && a.thread != x ==> s.threads[a.thread].id != s.threads[x].id)
  }

  lemma {:induction false} OtherThreadKeepsMail(r: Registry, th: Thread, id: nat, c: nat)
    requires Valid(r) && ThreadOk(r, th) && th.id != id && ThreadStep(r, th).Some?
    requires MadeFor(r, c, RequestChannel, id)
    ensures var r' := ThreadStep(r, th).value.0;
            && c < |r'.channels| && r'.channels[c].buffer == r.channels[c].buffer
            && (id in r.requests && r.requests[id] == c ==> id in r'.requests && r'.requests[id] == c)
  {
    DeletesOwnOnly(r, th);
  }

  /** Nor does it unregister or close another thread's packet channel. */
  lemma {:induction false} OtherThreadKeepsPacket(r: Registry, th: Thread, id: nat, c: nat)
    requires Valid(r) && ThreadOk(r, th) && th.id != id && ThreadStep(r, th).Some?
    requires MadeFor(r, c, PacketChannel, id)
    ensures var r' := ThreadStep(r, th).value.0;
            && c < |r'.channels| && r'.channels[c].closes == r.channels[c].closes
            && (id in r.packets ==> id in r'.packets)
  {
    DeletesOwnOnly(r, th);
  }

  lemma {:induction false} DeletesOwnOnly(r: Registry, th: Thread)
    requires Valid(r) && ThreadOk(r, th)
    ensures r.Entries(RequestChannel) == r.requests && r.Entries(PacketChannel) == r.packets
    ensures th.id in r.requests ==> MadeFor(r, r.requests[th.id], RequestChannel, th.id)
    ensures th.id in r.packets ==> MadeFor(r, r.packets[th.id], PacketChannel, th.id)
  {
    if th.id in r.requests {
      EntryMadeFor(r, RequestChannel, th.id);
    }
    if th.id in r.packets {
      EntryMadeFor(r, PacketChannel, th.id);
    }
  }

  lemma {:induction false} OwnStepKeepsMail(s: System, x: nat, m: Message)
    requires Inv(s) && Kept(s, x, m) && Step(s, Advance(x)).Some?
    ensures Kept(Step(s, Advance(x)).value, x, m)
  {
    assert ThreadOk(s.registry, s.threads[x]);
    if s.threads[x].id in s.registry.packets {
      EntryMadeFor(s.registry, PacketChannel, s.threads[x].id);
    }
    DeletesOwnOnly(s.registry, s.threads[x]);
  }

  /** Until the thread returns it, nothing takes the response away. */
  lemma {:induction false} StepKeepsResponse(s: System, a: Action, x: nat, m: Message)
    requires Inv(s) && Kept(s, x, m) && Step(s, a).Some? && Undisturbed(s, a, x)
    ensures Kept(Step(s, a).value, x, m)
  {
    assert ThreadOk(s.registry, s.threads[x]);
    if a == Advance(x) {
      OwnStepKeepsMail(s, x, m);
    } else if a.Advance? {
      OtherStepKeepsMail(s, a.thread, x, m);
      OtherStepKeepsPacket(s, a.thread, x);
    } else if a.ReaderStep? {
      ReaderKeepsMail(s, x, m);
    }
  }

  /** The read loop puts a message only into an empty channel. */
  lemma {:induction false} ReaderKeepsMail(s: System, x: nat, m: Message)
    requires Inv(s) && Kept(s, x, m) && Step(s, ReaderStep).Some?
    ensures Kept(Step(s, ReaderStep).value, x, m)
  {
  }

  lemma {:induction false} OtherStepKeepsMail(s: System, other: nat, x: nat, m: Message)
    requires Inv(s) && Kept(s, x, m) && Step(s, Advance(other)).Some? && other != x && s.threads[other].id != s.threads[x].id
    ensures var s' := Step(s, Advance(other)).value;
      PacketReady(s'.registry, s'.threads[x]) ==> Kept(s', x, m)
  {
    var th := s.threads[x];
    assert ThreadOk(s.registry, th);
    if th.id in s.registry.requests {
      EntryMadeFor(s.registry, RequestChannel, th.id);
    }
    if th.pc.AwaitResponse? {
      OtherThreadKeepsMail(s.registry, s.threads[other], th.id, th.pc.channel);
    } else if th.id in s.registry.requests {
      OtherThreadKeepsMail(s.registry, s.threads[other], th.id, s.registry.requests[th.id]);
    }
  }

  lemma {:induction false} OtherStepKeepsPacket(s: System, other: nat, x: nat)
    requires Inv(s) && x in s.threads && PacketReady(s.registry, s.threads[x])
    requires Step(s, Advance(other)).Some? && other != x && s.threads[other].id != s.threads[x].id
    ensures var s' := Step(s, Advance(other)).value; PacketReady(s'.registry, s'.threads[x])
  {
    var th := s.threads[x];
    assert ThreadOk(s.registry, th);
    if th.id in s.registry.packets {
      EntryMadeFor(s.registry, PacketChannel, th.id);
      OtherThreadKeepsPacket(s.registry, s.threads[other], th.id, s.registry.packets[th.id]);
    }
    if th.pc.AwaitAck? {
      OtherThreadKeepsPacket(s.registry, s.threads[other], th.id, th.pc.channel);
    }
  }

  /** The request has been sent or is about to be, and its response channel is registered and still empty. */
  ghost predicate AwaitsResponse(s: System, x: nat, m: Message) {
    && x in s.threads && s.threads[x].kind == LSRequest(true) && PacketReady(s.registry, s.threads[x])
    && m.for' == RequestChannel && Uint16(m.id) == s.threads[x].id
    && InMailbox(s.registry, s.threads[x].id, [])
    && match s.threads[x].pc
       case AwaitResponse(c) => c == s.registry.requests[s.threads[x].id]
       case pc => pc.Registered? || pc.Sent? || pc.AwaitAck? || pc.Acked? || pc.AckedClean?
  }

  /** The response that the read loop holds for the request gets into its channel. */
  lemma {:induction false} ArrivalIsKept(s: System, x: nat, m: Message)
    requires Inv(s) && !s.panicked && AwaitsResponse(s, x, m)
    requires s.reader == Holding(s.registry.requests[s.threads[x].id], m)
    ensures Step(s, ReaderStep).Some? && Kept(Step(s, ReaderStep).value, x, m)
  {
    assert s.registry.Entries(RequestChannel) == s.registry.requests;
    EntryMadeFor(s.registry, RequestChannel, s.threads[x].id);
    assert ThreadOk(s.registry, s.threads[x]);
  }

  /** From the packet that brings the response to the channel, whether or not the acknowledgement has come. */
  lemma {:induction false} ResponseArrives(s: System, x: nat, m: Message) returns (s': System)
    requires Inv(s) && !s.panicked && s.reader.Idle? && AwaitsResponse(s, x, m)
    ensures RunFrom(s, [Receive(m), ReaderStep, ReaderStep]) == Some(s') && Inv(s') && Kept(s', x, m) && s'.sent <= MAX_ID
  {
    assert s.registry.Entries(RequestChannel) == s.registry.requests;
    var s1 := Step(s, Receive(m)).value;
    StepKeepsInv(s, Receive(m));
    var s2 := Step(s1, ReaderStep).value;
    StepKeepsInv(s1, ReaderStep);
    ArrivalIsKept(s2, x, m);
    s' := Step(s2, ReaderStep).value;
    StepKeepsInv(s2, ReaderStep);
    RunOneStep(s2, ReaderStep, s', [], s');
    RunOneStep(s1, ReaderStep, s2, [ReaderStep], s');
    RunOneStep(s, Receive(m), s1, [ReaderStep] + [ReaderStep], s');
    assert [Receive(m)] + ([ReaderStep] + [ReaderStep]) == [Receive(m), ReaderStep, ReaderStep];
  }

  /** A response that has arrived is still there after any run, until the request has returned it. */
  lemma {:induction false} KeptOverRun(s: System, actions: seq<Action>, x: nat, m: Message)
    requires Inv(s) && Kept(s, x, m) && RunFrom(s, actions).Some? && UndisturbedRun(s, actions, x)
    ensures Kept(RunFrom(s, actions).value, x, m)
    decreases |actions|
  {
    if actions != [] {
      StepKeepsInv(s, actions[0]);
      StepKeepsResponse(s, actions[0], x, m);
      KeptOverRun(Step(s, actions[0]).value, actions[1..], x, m);
    }
  }

  /**
   A response whose packet comes before the acknowledgement is delivered, and is still there whenever the request comes
   to wait for it.
   */
  lemma {:induction false} EarlyResponseIsKept(s: System, actions: seq<Action>, x: nat, m: Message)
    requires Inv(s) && !s.panicked && s.reader.Idle? && AwaitsResponse(s, x, m)
    requires var arrived := RunFrom(s, [Receive(m), ReaderStep, ReaderStep]);
      arrived.Some? ==> arrived.value.sent <= MAX_ID && RunFrom(arrived.value, actions).Some? && UndisturbedRun(arrived.value, actions, x)
    ensures var run := RunFrom(s, [Receive(m), ReaderStep, ReaderStep] + actions);
      run.Some? && Kept(run.value, x, m)
  {
    var s' := ResponseArrives(s, x, m);
    KeptOverRun(s', actions, x, m);
    RunInTwo(s, [Receive(m), ReaderStep, ReaderStep], actions);
  }

  ghost predicate UndisturbedRun(s: System, actions: seq<Action>, x: nat)
    decreases |actions|
  {
    actions == [] ||
    (x in s.threads && s.sent <= MAX_ID && Undisturbed(s, actions[0], x) &&
     (Step(s, actions[0]).Some? ==> UndisturbedRun(Step(s, actions[0]).value, actions[1..], x)))
  }

  /** Two steps after the acknowledgement the thread waits for its response. */
  lemma {:induction false} AckedWaits(s: System, x: nat, m: Message) returns (s2: System)
    requires Inv(s) && !s.panicked && Kept(s, x, m) && s.threads[x].pc.Acked?
    ensures Step(s, Advance(x)).Some? && Step(s, Advance(x)).value.sent <= MAX_ID
    ensures Step(Step(s, Advance(x)).value, Advance(x)) == Some(s2)
    ensures Inv(s2) && !s2.panicked && Kept(s2, x, m) && s2.threads[x].pc.AwaitResponse?
  {
    var a := Advance(x);
    assert ThreadOk(s.registry, s.threads[x]);
    var s1 := Step(s, a).value;
    StepKeepsInv(s, a);
    StepKeepsResponse(s, a, x, m);
    assert s1.threads[x].pc == AckedClean;
    assert ThreadOk(s1.registry, s1.threads[x]);
    s2 := Step(s1, a).value;
    StepKeepsInv(s1, a);
    StepKeepsResponse(s1, a, x, m);
  }

  /** Two more, and it has returned it. */
  lemma {:induction false} WaitingReturns(s: System, x: nat, m: Message) returns (s2: System)
    requires Inv(s) && !s.panicked && Kept(s, x, m) && s.threads[x].pc.AwaitResponse?
    ensures Step(s, Advance(x)).Some? && Step(s, Advance(x)).value.sent <= MAX_ID
    ensures Step(Step(s, Advance(x)).value, Advance(x)) == Some(s2)
    ensures s2.sent <= MAX_ID && x in s2.threads && s2.threads[x].pc == Finished(Got(m))
  {
    var s1 := Step(s, Advance(x)).value;
    assert s1.threads[x].pc == Answered(m);
    s2 := Step(s1, Advance(x)).value;
  }

  /** And from the acknowledgement on it is returned in four steps of its own, whatever has happened before. */
  lemma {:induction false} KeptResponseIsReturned(s: System, x: nat, m: Message)
    requires Inv(s) && !s.panicked && Kept(s, x, m) && s.threads[x].pc.Acked?
    ensures var run := RunFrom(s, [Advance(x), Advance(x)] + [Advance(x), Advance(x)]);
            run.Some? && x in run.value.threads && run.value.threads[x].pc == Finished(Got(m))
  {
    var a := Advance(x);
    var s2 := AckedWaits(s, x, m);
    var s4 := WaitingReturns(s2, x, m);
    RunTwoSteps(s, a, a, s2);
    RunTwoSteps(s2, a, a, s4);
    RunInTwo(s, [a, a], [a, a]);
  }

  lemma {:induction false} RunTwoSteps(s: System, a: Action, b: Action, end: System)
    requires s.sent <= MAX_ID && Step(s, a).Some? && Step(s, a).value.sent <= MAX_ID
    requires Step(Step(s, a).value, b) == Some(end) && end.sent <= MAX_ID
    ensures RunFrom(s, [a, b]) == Some(end)
  {
    var s' := Step(s, a).value;
    RunOneStep(s', b, end, [], end);
    RunOneStep(s, a, s', [b], end);
    assert [a] + [b] == [a, b];
  }

  // ----- sending to a closed channel -----

  ghost predicate HeldIsOpen(s: System) {
    !s.panicked &&
    (s.reader.Holding? ==> s.reader.channel < |s.registry.channels| && s.registry.channels[s.reader.channel].closes == 0)
  }

  ghost predicate HeldIsClosed(s: System) {
    && !s.panicked && s.reader.Holding?
    && s.reader.channel < |s.registry.channels| && s.registry.channels[s.reader.channel].closes > 0
  }

  /** The step closes the channel that the read loop has looked up and not yet sent to. */
  ghost predicate ClosesHeld(s: System, a: Action)
    requires s.sent <= MAX_ID
  {
    HeldIsOpen(s) && s.reader.Holding? && Step(s, a).Some? && HeldIsClosed(Step(s, a).value)
  }

  lemma {:induction false} StepKeepsHeldOpen(s: System, a: Action)
    requires Inv(s) && HeldIsOpen(s) && Step(s, a).Some? && !ClosesHeld(s, a)
    ensures HeldIsOpen(Step(s, a).value)
  {
    StepKeepsInv(s, a);
    var s' := Step(s, a).value;
    if a.Receive? && Uint16(a.message.id) in s.registry.Entries(PacketChannel) {
      EntryMadeFor(s.registry, PacketChannel, Uint16(a.message.id));
    }
    if s.reader.Checked? && Uint16(s.reader.message.id) in s.registry.Entries(RequestChannel) {
      EntryMadeFor(s.registry, RequestChannel, Uint16(s.reader.message.id));
    }
    if a.Advance? {
      ThreadStepKeeps(s.registry, s.threads[a.thread]);
    }
  }

  /** Once it is closed, nothing but the send is left for the read loop to do, whatever the requests do. */
  lemma {:induction false} ClosedUntilSent(s: System, a: Action)
    requires Inv(s) && HeldIsClosed(s) && Step(s, a).Some?
    ensures var s' := Step(s, a).value; if a.ReaderStep? then s'.panicked else HeldIsClosed(s') && s'.reader == s.reader
  {
    if a.Advance? {
      ThreadStepKeeps(s.registry, s.threads[a.thread]);
    }
  }

  lemma {:induction false} ClosedPanicsExactly(s: System, actions: seq<Action>)
    requires Inv(s) && HeldIsClosed(s) && RunFrom(s, actions).Some?
    ensures RunFrom(s, actions).value.panicked <==> ReaderStep in actions
    decreases |actions|
  {
    if actions != [] {
      var a, s' := actions[0], Step(s, actions[0]).value;
      assert actions == [a] + actions[1..];
      ClosedUntilSent(s, a);
      StepKeepsInv(s, a);
      if a.ReaderStep? {
        assert actions[1..] != [] ==> Step(s', actions[1..][0]).None?;
      } else {
        ClosedPanicsExactly(s', actions[1..]);
      }
    }
  }

  /** Some step closes the channel that the read loop holds at that time, and the read loop comes to its send later. */
  ghost predicate SendsAfterClosing(s: System, actions: seq<Action>)
    decreases |actions|
  {
    && actions != [] && s.sent <= MAX_ID && Step(s, actions[0]).Some?
    && if ClosesHeld(s, actions[0]) then ReaderStep in actions[1..] else SendsAfterClosing(Step(s, actions[0]).value, actions[1..])
  }

  /**
   In any run the read loop sends on a closed channel exactly when that channel was closed between its lookup and its
   send, however many steps lie between.
   */
  lemma {:induction false} RunPanicsExactly(s: System, actions: seq<Action>)
    requires Inv(s) && HeldIsOpen(s) && RunFrom(s, actions).Some?
    ensures RunFrom(s, actions).value.panicked <==> SendsAfterClosing(s, actions)
    decreases |actions|
  {
    if actions != [] {
      var s' := Step(s, actions[0]).value;
      StepKeepsInv(s, actions[0]);
      if ClosesHeld(s, actions[0]) {
        ClosedPanicsExactly(s', actions[1..]);
      } else {
        StepKeepsHeldOpen(s, actions[0]);
        RunPanicsExactly(s', actions[1..]);
      }
    }
  }

  /** It can happen: an acknowledgement is looked up, the request times out, and then it is sent. */
  lemma {:induction false} AcknowledgementRacesTimeout()
    ensures exists actions :: RunFrom(Initial(), actions).Some? && RunFrom(Initial(), actions).value.panicked
  {
    var first, s := WaitsForAcknowledgement();
    var ack := Message(PacketChannel, 1, 0);
    var s1 := Step(s, Receive(ack)).value;
    var s2 := Step(s1, GiveUp(0)).value;
    var s3 := Step(s2, Advance(0)).value;
    var s4 := Step(s3, ReaderStep).value;
    assert s4.panicked;
    RunOneStep(s3, ReaderStep, s4, [], s4);
    RunOneStep(s2, Advance(0), s3, [ReaderStep], s4);
    RunOneStep(s1, GiveUp(0), s2, [Advance(0)] + [ReaderStep], s4);
    var last := [GiveUp(0)] + ([Advance(0)] + [ReaderStep]);
    RunOneStep(s, Receive(ack), s1, last, s4);
    RunInTwo(Initial(), first, [Receive(ack)] + last);
  }

  /** The first request, sent and waiting. */
  lemma {:induction false} WaitsForAcknowledgement() returns (actions: seq<Action>, s: System)
    ensures RunFrom(Initial(), actions) == Some(s) && s.reader.Idle? && !s.panicked && s.sent <= MAX_ID
    ensures 0 in s.threads && s.threads[0].pc == AwaitAck(0) && s.threads[0].id == 1 && s.registry.packets == map[1 := 0]
    ensures |s.registry.channels| > 0 && s.registry.channels[0] == Channel(PacketChannel, 1, 0, [])
  {
    var request, a := LSRequest(true), Advance(0);
    var s1 := Step(Initial(), Start(0, request)).value;
    var s2 := Step(s1, a).value;
    var s3 := Step(s2, a).value;
    var s4 := Step(s3, a).value;
    s := Step(s4, a).value;
    RunOneStep(s4, a, s, [], s);
    RunOneStep(s3, a, s4, [a], s);
    RunOneStep(s2, a, s3, [a] + [a], s);
    RunOneStep(s1, a, s2, [a] + ([a] + [a]), s);
    var rest := [a] + ([a] + ([a] + [a]));
    RunOneStep(Initial(), Start(0, request), s1, rest, s);
    actions := [Start(0, request)] + rest;
  }

  lemma {:induction false} RunOneStep(s: System, a: Action, s': System, rest: seq<Action>, end: System)
    requires s.sent <= MAX_ID && Step(s, a) == Some(s') && s'.sent <= MAX_ID
    requires if rest == [] then s' == end else RunFrom(s', rest) == Some(end)
    ensures RunFrom(s, [a] + rest) == Some(end)
    ensures rest == [] ==> [a] + rest == [a]
  {
    assert ([a] + rest)[1..] == rest;
  }

  lemma {:induction false} RunHead(s: System, a: Action, rest: seq<Action>)
    requires s.sent <= MAX_ID
    ensures RunFrom(s, [a] + rest) ==
      match Step(s, a) case None => None case Some(s') => if s'.sent <= MAX_ID then RunFrom(s', rest) else None
  {
    assert ([a] + rest)[1..] == rest;
  }

  lemma {:induction false} RunInTwo(s: System, first: seq<Action>, second: seq<Action>)
    requires s.sent <= MAX_ID && RunFrom(s, first).Some? && RunFrom(s, first).value.sent <= MAX_ID
    ensures RunFrom(s, first + second) == RunFrom(RunFrom(s, first).value, second)
    decreases |first|
  {
    if first == [] {
      assert first + second == second;
    } else {
      var a, rest := first[0], first[1..];
      assert first == [a] + rest && first + second == [a] + (rest + second);
      RunHead(s, a, rest);
      RunHead(s, a, rest + second);
      RunInTwo(Step(s, a).value, rest, second);
    }
  }
}
