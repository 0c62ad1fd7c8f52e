/**
 The channel registry of pkg/messagix/responsehandler.go: two maps from packet IDs to channels, changed under a lock.
 Channels are Go channels of capacity one; their identities are indices of a list that only grows.
 */
module ResponseHandlers {
  import opened Common

  const MAX_ID := 0xFFFF

  datatype ChannelType = RequestChannel | PacketChannel

  /** An acknowledgement or a response from the server. Its ID is the number it carries, of any size. */
  datatype Message = Message(for': ChannelType, id: int, body: nat)

  /** The type and ID a channel was made for, how often it has been closed, and what is waiting in it. */
  datatype Channel = Channel(for': ChannelType, id: nat, closes: nat, buffer: seq<Message>)

  datatype Registry = Registry(channels: seq<Channel>, requests: map<nat, nat>, packets: map<nat, nat>)
  {
    function Entries(t: ChannelType): map<nat, nat> {
      match t
      case RequestChannel => requests
      case PacketChannel => packets
    }

    function WithEntries(t: ChannelType, entries: map<nat, nat>): Registry {
      match t
      case RequestChannel => this.(requests := entries)
      case PacketChannel => this.(packets := entries)
    }
  }

  /** The low 16 bits, Go's uint16 conversion. */
  function Uint16(i: int): nat {
    i % 0x10000
  }

  function Add(r: Registry, t: ChannelType, id: nat): Registry {
    r.(channels := r.channels + [Channel(t, id, 0, [])]).WithEntries(t, r.Entries(t)[id := |r.channels|])
  }

  function Close(channels: seq<Channel>, c: nat): seq<Channel> {
    if c < |channels| then channels[c := channels[c].(closes := channels[c].closes + 1)] else channels
  }

  /** Closes and removes the channel registered for the ID, if there is one. */
  function Delete(r: Registry, t: ChannelType, id: nat): Registry {
    if id in r.Entries(t) then
      r.(channels := Close(r.channels, r.Entries(t)[id])).WithEntries(t, r.Entries(t) - {id})
    else r
  }

  function CancelAll(r: Registry): Registry {
    Registry(CloseEach(CloseEach(r.channels, r.requests.Values), r.packets.Values), map[], map[])
  }

  function CloseEach(channels: seq<Channel>, which: set<nat>): (closed: seq<Channel>)
    ensures |closed| == |channels|
    ensures forall c :: 0 <= c < |closed| ==>
              closed[c] == if c in which then channels[c].(closes := channels[c].closes + 1) else channels[c]
  {
    seq(|channels|, c requires 0 <= c < |channels| => if c in which then channels[c].(closes := channels[c].closes + 1) else channels[c])
  }

  lemma {:induction false} CloseOneMore(channels: seq<Channel>, closed: set<nat>, c: nat)
    requires c < |channels| && c !in closed
    ensures Close(CloseEach(channels, closed), c) == CloseEach(channels, closed + {c})
  {
  }

  /**
   Every registered channel is open, and registered under the ID and the type it was made for; ID 0 is never
   registered; no channel has been closed twice; and a channel holds at most one message, of its own type and with
   its own ID in the low 16 bits.
   */
  ghost predicate Valid(r: Registry) {
    && (forall t, id :: id in r.Entries(t) ==> GoodEntry(r.channels, t, id, r.Entries(t)[id]))
    && (forall c :: 0 <= c < |r.channels| ==> GoodChannel(r.channels[c]))
  }

  ghost predicate GoodEntry(channels: seq<Channel>, t: ChannelType, id: nat, c: nat) {
    1 <= id <= MAX_ID && c < |channels| && channels[c].closes == 0 && channels[c].for' == t && channels[c].id == id
  }

  ghost predicate GoodChannel(c: Channel) {
    c.closes <= 1 && |c.buffer| <= 1 && forall k :: 0 <= k < |c.buffer| ==> Belongs(c.buffer[k], c)
  }

  ghost predicate Belongs(m: Message, c: Channel) {
    m.for' == c.for' && Uint16(m.id) == c.id
  }

  /** From one moment to a later one: channels stay what they are, closing is final, and new entries are new channels. */
  ghost predicate Evolves(r: Registry, r': Registry) {
    && |r.channels| <= |r'.channels|
    && (forall c :: 0 <= c < |r.channels| ==>
          && r'.channels[c].for' == r.channels[c].for' && r'.channels[c].id == r.channels[c].id
          && r.channels[c].closes <= r'.channels[c].closes)
    && (forall t, id :: id in r'.Entries(t) && r'.Entries(t)[id] < |r.channels| ==>
          id in r.Entries(t) && r.Entries(t)[id] == r'.Entries(t)[id])
  }

  lemma {:induction false} AddKeeps(r: Registry, t: ChannelType, id: nat)
    requires Valid(r) && 1 <= id <= MAX_ID
    ensures Valid(Add(r, t, id)) && Evolves(r, Add(r, t, id))
  {
    var r' := Add(r, t, id);
    forall t', id' | id' in r'.Entries(t')
      ensures GoodEntry(r'.channels, t', id', r'.Entries(t')[id'])
      ensures r'.Entries(t')[id'] < |r.channels| ==>
                id' in r.Entries(t') && r.Entries(t')[id'] == r'.Entries(t')[id']
    {
      if t' != t || id' != id {
        assert id' in r.Entries(t') && GoodEntry(r.channels, t', id', r.Entries(t')[id']);
      }
    }
  }

  lemma {:induction false} DeleteKeeps(r: Registry, t: ChannelType, id: nat)
    requires Valid(r)
    ensures Valid(Delete(r, t, id)) && Evolves(r, Delete(r, t, id))
    ensures id !in Delete(r, t, id).Entries(t)
  {
    var r' := Delete(r, t, id);
    if id in r.Entries(t) {
      var gone := r.Entries(t)[id];
      assert GoodEntry(r.channels, t, id, gone);
      forall t', id' | id' in r'.Entries(t')
        ensures id' in r.Entries(t') && r.Entries(t')[id'] == r'.Entries(t')[id']
        ensures GoodEntry(r'.channels, t', id', r'.Entries(t')[id'])
      {
        assert id' in r.Entries(t') && GoodEntry(r.channels, t', id', r.Entries(t')[id']);
      }
      forall c | 0 <= c < |r.channels| ensures GoodChannel(r'.channels[c]) {
        assert GoodChannel(r.channels[c]);
      }
    }
  }

  lemma {:induction false} CancelKeeps(r: Registry)
    requires Valid(r)
    ensures Valid(CancelAll(r)) && Evolves(r, CancelAll(r))
    ensures forall t, id :: id !in CancelAll(r).Entries(t)
  {
    var r' := CancelAll(r);
    forall t: ChannelType ensures r'.Entries(t) == map[] {
    }
    assert r.Entries(RequestChannel) == r.requests && r.Entries(PacketChannel) == r.packets;
    PacketsAreNotRequests(r);
    forall c | 0 <= c < |r.channels| ensures GoodChannel(r'.channels[c]) {
      assert GoodChannel(r.channels[c]);
      if c in r.requests.Values {
        var id :| id in r.requests && r.requests[id] == c;
        assert GoodEntry(r.channels, RequestChannel, id, c);
      } else if c in r.packets.Values {
        var id :| id in r.packets && r.packets[id] == c;
        assert GoodEntry(r.channels, PacketChannel, id, c);
      }
    }
  }

  /** Every entry names a channel of its own. */
  lemma {:induction false} EntriesDiffer(r: Registry, t: ChannelType, id: nat, t': ChannelType, id': nat)
    requires Valid(r) && id in r.Entries(t) && id' in r.Entries(t')
    requires r.Entries(t)[id] == r.Entries(t')[id']
    ensures t == t' && id == id'
  {
    assert GoodEntry(r.channels, t, id, r.Entries(t)[id]);
    assert GoodEntry(r.channels, t', id', r.Entries(t')[id']);
  }

  lemma {:induction false} PacketsAreNotRequests(r: Registry)
    requires Valid(r)
    ensures forall id :: id in r.packets ==> r.packets[id] !in r.requests.Values
  {
    forall id | id in r.packets ensures r.packets[id] !in r.requests.Values {
      if r.packets[id] in r.requests.Values {
        var other :| other in r.requests && r.requests[other] == r.packets[id];
        EntriesDiffer(r, RequestChannel, other, PacketChannel, id);
      }
    }
  }

  lemma {:induction false} EntriesAreOpen(r: Registry, t: ChannelType)
    requires Valid(r)
    ensures forall id :: id in r.Entries(t) ==> r.Entries(t)[id] < |r.channels| && r.channels[r.Entries(t)[id]].closes == 0
    ensures forall id, id' :: id in r.Entries(t) && id' in r.Entries(t) && r.Entries(t)[id] == r.Entries(t)[id'] ==> id == id'
  {
    forall id | id in r.Entries(t) ensures GoodEntry(r.channels, t, id, r.Entries(t)[id]) {
    }
  }

  class ResponseHandler {
    var channels: seq<Channel>
    var requestChannels: map<nat, nat>
    var packetChannels: map<nat, nat>

    constructor ()
      ensures State() == Registry([], map[], map[]) && Valid(State())
    {
      channels, requestChannels, packetChannels := [], map[], map[];
    }

    ghost function State(): Registry
      reads this
    {
      Registry(channels, requestChannels, packetChannels)
    }

    method AddChannel(t: ChannelType, id: nat)
      requires Valid(State()) && 1 <= id <= MAX_ID
      modifies this
      ensures State() == Add(old(State()), t, id) && Valid(State())
    {
      AddKeeps(State(), t, id);
      channels := channels + [Channel(t, id, 0, [])];
      match t {
        case RequestChannel => requestChannels := requestChannels[id := |channels| - 1];
        case PacketChannel => packetChannels := packetChannels[id := |channels| - 1];
      }
    }

    /** Closing a closed channel panics in Go; the precondition rules it out at every call below. */
    method CloseChannel(c: nat)
      requires c < |channels| && channels[c].closes == 0
      modifies this`channels
      ensures channels == Close(old(channels), c)
    {
      channels := channels[c := channels[c].(closes := channels[c].closes + 1)];
    }

    method DeleteDetails(id: nat, t: ChannelType)
      requires Valid(State())
      modifies this
      ensures State() == Delete(old(State()), t, id) && Valid(State())
    {
      DeleteKeeps(State(), t, id);
      match t {
        case RequestChannel =>
          assert id in requestChannels ==> id in State().Entries(t);
          if id in requestChannels {
            CloseChannel(requestChannels[id]);
            requestChannels := requestChannels - {id};
          }
        case PacketChannel =>
          assert id in packetChannels ==> id in State().Entries(t);
          if id in packetChannels {
            CloseChannel(packetChannels[id]);
            packetChannels := packetChannels - {id};
          }
      }
    }

    method GetChannel(id: nat, t: ChannelType) returns (c: Option<nat>)
      ensures c == if id in State().Entries(t) then Some(State().Entries(t)[id]) else None
    {
      match t {
        case RequestChannel => c := if id in requestChannels then Some(requestChannels[id]) else None;
        case PacketChannel => c := if id in packetChannels then Some(packetChannels[id]) else None;
      }
    }

    method CancelAllRequests()
      requires Valid(State())
      modifies this
      ensures State() == CancelAll(old(State())) && Valid(State())
    {
      ghost var before := State();
      CancelKeeps(before);
      EntriesAreOpen(before, RequestChannel);
      EntriesAreOpen(before, PacketChannel);
      assert before.Entries(RequestChannel) == requestChannels && before.Entries(PacketChannel) == packetChannels;
      CloseAll(requestChannels);
      PacketsAreNotRequests(before);
      CloseAll(packetChannels);
      requestChannels, packetChannels := map[], map[];
      assert channels == CancelAll(before).channels;
    }

    /** One range loop of CancelAllRequests. */
    method CloseAll(entries: map<nat, nat>)
      requires forall id :: id in entries ==> entries[id] < |channels| && channels[entries[id]].closes == 0
      requires forall id, id' :: id in entries && id' in entries && entries[id] == entries[id'] ==> id == id'
      modifies this`channels
      ensures channels == CloseEach(old(channels), entries.Values)
    {
      var todo := entries.Keys;
      ghost var before, closed: set<nat> := channels, {};
      assert CloseEach(before, {}) == before;
      while todo != {}
        invariant todo <= entries.Keys && closed <= entries.Values
        invariant forall id :: id in entries ==> (entries[id] in closed <==> id !in todo)
        invariant channels == CloseEach(before, closed)
        decreases |todo|
      {
        var id :| id in todo;
        CloseOneMore(before, closed, entries[id]);
        CloseChannel(entries[id]);
        todo, closed := todo - {id}, closed + {entries[id]};
      }
      assert closed == entries.Values;
    }
  }
}
