/**
 Request correlation on the MQTT socket, as a state machine: any number of requests and subscriptions, each going
 through makeLSRequest, sendPublishPacket or sendSubscribePacket (pkg/messagix/socket.go, payload.go) one atomic
 step at a time; the read loop, which looks a channel up and sends to it in separate steps (events.go); and
 CancelAllRequests when the connection ends. Every interleaving of these steps is a run.
 */
module Requests {
  import opened Common
  import opened ResponseHandlers

  // ----- packet IDs -----

  /** SafePacketID: a 16-bit counter that skips zero. */
  function NextId(sent: nat): (id: nat)
    requires sent <= MAX_ID
    ensures 1 <= id <= MAX_ID
  {
    var n := Uint16(sent + 1);
    if n == 0 then 1 else n
  }

  class PacketCounter {
    var packetsSent: nat

    constructor ()
      ensures packetsSent == 0
    {
      packetsSent := 0;
    }

    method SafePacketID() returns (id: nat)
      requires packetsSent <= MAX_ID
      modifies this
      ensures id == packetsSent == NextId(old(packetsSent))
    {
      packetsSent := Uint16(packetsSent + 1);
      if packetsSent == 0 {
        packetsSent := 1;
      }
      return packetsSent;
    }
  }

  // ----- threads -----

  datatype Kind = LSRequest(waits: bool) | Subscribe(waits: bool)

  datatype Result = Failed | NoResponse | Got(message: Message)

  /** How far a request has come; the comments name the call each step makes next. */
  datatype Pc =
    | Allocated                       // addPacketChannel
    | AddedPacket                     // addRequestChannel
    | Registered                      // sendData
    | Sent                            // getChannel for the acknowledgement
    | AwaitAck(channel: nat)          // select
    | Acked                           // deleteDetails of the packet channel
    | AckedClean                      // getChannel for the response
    | AwaitResponse(channel: nat)     // select
    | Answered(message: Message)      // deleteDetails of the request channel
    | DropPacket                      // deleteDetails of the packet channel, after a failure
    | DropRequest                     // deleteDetails of the request channel, after a failure
    | Finished(result: Result)

  /** The channels a thread has made are recorded with it. */
  datatype Thread = Thread(kind: Kind, id: nat, pc: Pc, packetChannel: Option<nat>, requestChannel: Option<nat>)

  /** The read loop between two of its steps. */
  datatype Reader = Idle | Checked(message: Message) | Holding(channel: nat, message: Message)

  /** `panicked`: a message was sent on a closed channel, which ends the Go program. */
  datatype System = System(registry: Registry, sent: nat, threads: map<nat, Thread>, reader: Reader, panicked: bool)

  datatype Action =
    | Start(thread: nat, kind: Kind)
    | Advance(thread: nat)             // the next step of a thread that has no choice
    | Fail(thread: nat)                // encoding fails
    | SendFails(thread: nat)
    | GiveUp(thread: nat)              // the context ends or the timeout fires
    | Receive(message: Message)        // the read loop gets a packet
    | ReaderStep
    | Cancel

  function Lookup(r: Registry, t: ChannelType, id: nat): Option<nat> {
    if id in r.Entries(t) then Some(r.Entries(t)[id]) else None
  }

  /** After the packet channel is dealt with: only an LS request has a request channel to drop. */
  function AfterPacketFailure(kind: Kind): Pc {
    if kind.LSRequest? then DropRequest else Finished(Failed)
  }

  /** The next step of a thread; None when it has to wait. */
  function ThreadStep(r: Registry, th: Thread): Option<(Registry, Thread)> {
    match th.pc
    case Allocated =>
      Some((Add(r, PacketChannel, th.id), th.(pc := AddedPacket, packetChannel := Some(|r.channels|))))
    case AddedPacket =>
      if th.kind.LSRequest? then
        Some((Add(r, RequestChannel, th.id), th.(pc := Registered, requestChannel := Some(|r.channels|))))
      else Some((r, th.(pc := Registered)))
    case Registered => Some((r, th.(pc := Sent)))
    case Sent =>
      if th.kind.Subscribe? && !th.kind.waits then Some((r, th.(pc := Finished(NoResponse))))
      else (match Lookup(r, PacketChannel, th.id)
            case Some(c) => Some((r, th.(pc := AwaitAck(c))))
            case None => Some((r, th.(pc := AfterPacketFailure(th.kind)))))
    case AwaitAck(c) =>
      if c >= |r.channels| then None
      else if r.channels[c].buffer != [] then
        Some((r.(channels := r.channels[c := r.channels[c].(buffer := r.channels[c].buffer[1..])]), th.(pc := Acked)))
      else if r.channels[c].closes > 0 then Some((r, th.(pc := AfterPacketFailure(th.kind))))
      else None
    case Acked =>
      Some((Delete(r, PacketChannel, th.id),
            th.(pc := if th.kind.LSRequest? && th.kind.waits then AckedClean else Finished(NoResponse))))
    case AckedClean =>
      (match Lookup(r, RequestChannel, th.id)
       case Some(c) => Some((r, th.(pc := AwaitResponse(c))))
       case None => Some((r, th.(pc := Finished(Failed)))))
    case AwaitResponse(c) =>
      if c >= |r.channels| then None
      else if r.channels[c].buffer != [] then
        Some((r.(channels := r.channels[c := r.channels[c].(buffer := r.channels[c].buffer[1..])]),
              th.(pc := Answered(r.channels[c].buffer[0]))))
      else if r.channels[c].closes > 0 then Some((r, th.(pc := Finished(Failed))))
      else None
    case Answered(m) => Some((Delete(r, RequestChannel, th.id), th.(pc := Finished(Got(m)))))
    case DropPacket => Some((Delete(r, PacketChannel, th.id), th.(pc := AfterPacketFailure(th.kind))))
    case DropRequest => Some((Delete(r, RequestChannel, th.id), th.(pc := Finished(Failed))))
    case Finished(_) => None
  }

  function ReaderStep'(s: System): Option<System> {
    match s.reader
    case Idle => None
    case Checked(m) =>
      (match Lookup(s.registry, RequestChannel, Uint16(m.id))
       case Some(c) => Some(s.(reader := Holding(c, m)))
       case None => Some(s.(reader := Idle)))
    case Holding(c, m) =>
      if c >= |s.registry.channels| then None
      else if s.registry.channels[c].closes > 0 then Some(s.(panicked := true))
      else if s.registry.channels[c].buffer != [] then None
      else
        var channel := s.registry.channels[c].(buffer := [m]);
        Some(s.(registry := s.registry.(channels := s.registry.channels[c := channel]), reader := Idle))
  }

  /** One atomic step; None when it is not enabled. */
  function Step(s: System, a: Action): Option<System>
    requires s.sent <= MAX_ID
  {
    if s.panicked then None
    else match a
      case Start(t, kind) =>
        if t in s.threads then None
        else
          var id := NextId(s.sent);
          Some(s.(sent := id, threads := s.threads[t := Thread(kind, id, Allocated, None, None)]))
      case Advance(t) =>
        if t !in s.threads then None
        else (match ThreadStep(s.registry, s.threads[t])
              case None => None
              case Some((r, th)) => Some(s.(registry := r, threads := s.threads[t := th])))
      case Fail(t) =>
        if t !in s.threads then None
        else if s.threads[t].pc.Allocated? && s.threads[t].kind.LSRequest? then
          Some(s.(threads := s.threads[t := s.threads[t].(pc := Finished(Failed))]))
        else if s.threads[t].pc.Registered? then
          Some(s.(threads := s.threads[t := s.threads[t].(pc := DropPacket)]))
        else None
      case SendFails(t) =>
        if t !in s.threads || !s.threads[t].pc.Registered? then None
        else
          // A subscription that cannot be sent leaves its packet channel registered.
          var pc := if s.threads[t].kind.LSRequest? then DropPacket else Finished(Failed);
          Some(s.(threads := s.threads[t := s.threads[t].(pc := pc)]))
      case GiveUp(t) =>
        if t !in s.threads then None
        else if s.threads[t].pc.AwaitAck? then Some(s.(threads := s.threads[t := s.threads[t].(pc := DropPacket)]))
        else if s.threads[t].pc.AwaitResponse? then Some(s.(threads := s.threads[t := s.threads[t].(pc := DropRequest)]))
        else None
      case Receive(m) =>
        if !s.reader.Idle? then None
        else if m.for'.PacketChannel? then
          // An acknowledgement's ID is a uint16 on the wire.
          (match Lookup(s.registry, PacketChannel, Uint16(m.id))
           case Some(c) => Some(s.(reader := Holding(c, m)))
           case None => Some(s))
        else if Lookup(s.registry, RequestChannel, Uint16(m.id)).Some? then Some(s.(reader := Checked(m)))
        else Some(s)
      case ReaderStep => ReaderStep'(s)
      case Cancel => if s.reader.Idle? then Some(s.(registry := CancelAll(s.registry))) else None
  }

  function Initial(): System {
    System(Registry([], map[], map[]), 0, map[], Idle, false)
  }

  /** Runs actions one after another; None when one of them is not enabled. */
  function RunFrom(s: System, actions: seq<Action>): Option<System>
    requires s.sent <= MAX_ID
    decreases |actions|
  {
    if actions == [] then Some(s)
    else match Step(s, actions[0])
      case None => None
      case Some(s') => if s'.sent <= MAX_ID then RunFrom(s', actions[1..]) else None
  }

  // ----- the invariant -----

  ghost predicate MadeFor(r: Registry, c: nat, t: ChannelType, id: nat) {
    c < |r.channels| && r.channels[c].for' == t && r.channels[c].id == id
  }

  /** The thread's own channel is not, and so never again, what its ID is registered to. */
  ghost predicate Released(r: Registry, t: ChannelType, id: nat, own: Option<nat>) {
    own.Some? ==> id !in r.Entries(t) || r.Entries(t)[id] != own.value
  }

  ghost predicate PacketDone(pc: Pc) {
    pc.AckedClean? || pc.AwaitResponse? || pc.Answered? || pc.DropRequest? || pc.Finished?
  }

  ghost predicate ThreadOk(r: Registry, th: Thread) {
    && 1 <= th.id <= MAX_ID
    && (th.pc.Allocated? ==> th.packetChannel.None?)
    && (th.pc.Allocated? || th.pc.AddedPacket? ==> th.requestChannel.None?)
    && (th.packetChannel.Some? ==> MadeFor(r, th.packetChannel.value, PacketChannel, th.id))
    && (th.requestChannel.Some? ==> MadeFor(r, th.requestChannel.value, RequestChannel, th.id))
    && (th.pc.AwaitAck? ==>
          && MadeFor(r, th.pc.channel, PacketChannel, th.id)
          && (th.packetChannel == Some(th.pc.channel) || Released(r, PacketChannel, th.id, th.packetChannel)))
    && (th.pc.AwaitResponse? ==>
          && MadeFor(r, th.pc.channel, RequestChannel, th.id)
          && (th.requestChannel == Some(th.pc.channel) || Released(r, RequestChannel, th.id, th.requestChannel)))
    && (th.pc.Answered? ==> th.pc.message.for' == RequestChannel && Uint16(th.pc.message.id) == th.id)
    && (th.pc.Finished? && th.pc.result.Got? ==>
          th.pc.result.message.for' == RequestChannel && Uint16(th.pc.result.message.id) == th.id)
    && (th.kind.LSRequest? && PacketDone(th.pc) ==> Released(r, PacketChannel, th.id, th.packetChannel))
    && (th.kind.LSRequest? && th.pc.Finished? && (th.kind.waits || th.pc.result.Failed?) ==>
          Released(r, RequestChannel, th.id, th.requestChannel))
  }

  ghost predicate ReaderOk(r: Registry, reader: Reader) {
    match reader
    case Idle => true
    case Checked(m) => m.for' == RequestChannel
    case Holding(c, m) => c < |r.channels| && Belongs(m, r.channels[c])
  }

  ghost predicate Inv(s: System) {
    && Valid(s.registry) && s.sent <= MAX_ID
    && (forall t :: t in s.threads ==> ThreadOk(s.registry, s.threads[t]))
    && ReaderOk(s.registry, s.reader)
  }

  lemma {:induction false} ThreadStays(r: Registry, r': Registry, th: Thread)
    requires ThreadOk(r, th) && Evolves(r, r')
    ensures ThreadOk(r', th)
  {
  }

  lemma {:induction false} OthersStay(s: System, r': Registry)
    requires Inv(s) && Evolves(s.registry, r')
    ensures forall t :: t in s.threads ==> ThreadOk(r', s.threads[t])
    ensures ReaderOk(r', s.reader)
  {
    forall t | t in s.threads ensures ThreadOk(r', s.threads[t]) {
      ThreadStays(s.registry, r', s.threads[t]);
    }
  }

  /** Taking the message out of a channel, or putting one in. */
  lemma {:induction false} BufferKeeps(r: Registry, c: nat, buffer: seq<Message>)
    requires Valid(r) && c < |r.channels| && GoodChannel(r.channels[c].(buffer := buffer))
    ensures var r' := r.(channels := r.channels[c := r.channels[c].(buffer := buffer)]);
            Valid(r') && Evolves(r, r')
  {
    var r' := r.(channels := r.channels[c := r.channels[c].(buffer := buffer)]);
    forall t, id | id in r'.Entries(t) ensures GoodEntry(r'.channels, t, id, r'.Entries(t)[id]) {
      assert id in r.Entries(t) && GoodEntry(r.channels, t, id, r.Entries(t)[id]);
    }
    forall k | 0 <= k < |r.channels| ensures GoodChannel(r'.channels[k]) {
      assert GoodChannel(r.channels[k]);
    }
  }

  lemma {:induction false} EntryMadeFor(r: Registry, t: ChannelType, id: nat)
    requires Valid(r) && id in r.Entries(t)
    ensures 1 <= id <= MAX_ID && MadeFor(r, r.Entries(t)[id], t, id) && r.channels[r.Entries(t)[id]].closes == 0
  {
    assert GoodEntry(r.channels, t, id, r.Entries(t)[id]);
  }

  /** A channel that has been closed is no longer registered. */
  lemma {:induction false} ClosedIsReleased(r: Registry, t: ChannelType, id: nat, c: nat)
    requires Valid(r) && c < |r.channels| && r.channels[c].closes > 0
    ensures Released(r, t, id, Some(c))
  {
    if id in r.Entries(t) {
      EntryMadeFor(r, t, id);
    }
  }

  /** What the two select statements do when something is there to receive. */
  lemma {:induction false} ReceiveKeeps(r: Registry, th: Thread)
    requires Valid(r) && ThreadOk(r, th) && (th.pc.AwaitAck? || th.pc.AwaitResponse?) && ThreadStep(r, th).Some?
    ensures var (r', th') := ThreadStep(r, th).value; Valid(r') && Evolves(r, r') && ThreadOk(r', th')
  {
    var c := th.pc.channel;
    var (r', th') := ThreadStep(r, th).value;
    if r.channels[c].buffer != [] {
      assert GoodChannel(r.channels[c]);
      BufferKeeps(r, c, r.channels[c].buffer[1..]);
      ThreadStays(r, r', th);
    } else {
      ClosedIsReleased(r, PacketChannel, th.id, c);
      ClosedIsReleased(r, RequestChannel, th.id, c);
    }
  }

  lemma {:induction false} DeletingKeeps(r: Registry, th: Thread)
    requires Valid(r) && ThreadOk(r, th)
    requires th.pc.Acked? || th.pc.Answered? || th.pc.DropPacket? || th.pc.DropRequest?
    ensures var (r', th') := ThreadStep(r, th).value; Valid(r') && Evolves(r, r') && ThreadOk(r', th')
  {
    var t := if th.pc.Acked? || th.pc.DropPacket? then PacketChannel else RequestChannel;
    DeleteKeeps(r, t, th.id);
    ThreadStays(r, Delete(r, t, th.id), th);
  }

  lemma {:induction false} ThreadStepKeeps(r: Registry, th: Thread)
    requires Valid(r) && ThreadOk(r, th) && ThreadStep(r, th).Some?
    ensures var (r', th') := ThreadStep(r, th).value; Valid(r') && Evolves(r, r') && ThreadOk(r', th')
  {
    match th.pc {
      case AwaitAck(_) => ReceiveKeeps(r, th);
      case AwaitResponse(_) => ReceiveKeeps(r, th);
      case Acked => DeletingKeeps(r, th);
      case Answered(_) => DeletingKeeps(r, th);
      case DropPacket => DeletingKeeps(r, th);
      case DropRequest => DeletingKeeps(r, th);
      case Allocated => AddKeeps(r, PacketChannel, th.id);
      case AddedPacket => AddKeeps(r, RequestChannel, th.id);
      case _ => LookingUpKeeps(r, th);
    }
  }

  lemma {:induction false} LookingUpKeeps(r: Registry, th: Thread)
    requires Valid(r) && ThreadOk(r, th) && (th.pc.Registered? || th.pc.Sent? || th.pc.AckedClean?)
    ensures var (r', th') := ThreadStep(r, th).value; Valid(r') && Evolves(r, r') && ThreadOk(r', th')
  {
    match th.pc {
      case Registered =>
      case Sent =>
        if th.id in r.Entries(PacketChannel) {
          EntryMadeFor(r, PacketChannel, th.id);
        }
      case AckedClean =>
        if th.id in r.Entries(RequestChannel) {
          EntryMadeFor(r, RequestChannel, th.id);
        }
    }
  }

  lemma {:induction false} ReaderStepKeeps(s: System)
    requires Inv(s) && !s.panicked && ReaderStep'(s).Some?
    ensures Inv(ReaderStep'(s).value)
  {
    match s.reader {
      case Checked(m) =>
        if Uint16(m.id) in s.registry.Entries(RequestChannel) {
          EntryMadeFor(s.registry, RequestChannel, Uint16(m.id));
        }
      case Holding(c, m) =>
        if s.registry.channels[c].closes == 0 {
          assert GoodChannel(s.registry.channels[c]);
          BufferKeeps(s.registry, c, [m]);
          OthersStay(s, ReaderStep'(s).value.registry);
        }
    }
  }

  /** Every step of every thread, of the read loop and of cancellation keeps the invariant. */
  lemma {:induction false} StepKeepsInv(s: System, a: Action)
    requires Inv(s) && Step(s, a).Some?
    ensures Inv(Step(s, a).value)
  {
    var s' := Step(s, a).value;
    match a {
      case Start(t, kind) =>
      case Advance(t) =>
        ThreadStepKeeps(s.registry, s.threads[t]);
        OthersStay(s, s'.registry);
      case Fail(t) =>
        assert ThreadOk(s.registry, s.threads[t]);
      case SendFails(t) =>
        assert ThreadOk(s.registry, s.threads[t]);
      case GiveUp(t) =>
        assert ThreadOk(s.registry, s.threads[t]);
      case Receive(m) =>
        if Uint16(m.id) in s.registry.Entries(PacketChannel) {
          EntryMadeFor(s.registry, PacketChannel, Uint16(m.id));
        }
      case ReaderStep => ReaderStepKeeps(s);
      case Cancel =>
        CancelKeeps(s.registry);
        OthersStay(s, s'.registry);
    }
  }

  lemma {:induction false} RunKeepsInv(s: System, actions: seq<Action>)
    requires Inv(s) && RunFrom(s, actions).Some?
    ensures Inv(RunFrom(s, actions).value)
    decreases |actions|
  {
    if actions != [] {
      StepKeepsInv(s, actions[0]);
      RunKeepsInv(Step(s, actions[0]).value, actions[1..]);
    }
  }
}
