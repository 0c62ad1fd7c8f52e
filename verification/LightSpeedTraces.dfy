/**
 Which stored procedures a LightSpeed program calls, told apart from the rows it emits: an event for each call that is
 entered, each that is completed, with the arguments it decoded, and each that is skipped because it is not known.
 */
module LightSpeedTraces {
  import opened Common
  import opened LightSpeedRow
  import opened LightSpeed

  datatype Event = Entered(name: string) | Completed(name: string, args: seq<Value>) | Skipped(name: string)

  function Trace(env: Env, core: Core, data: Json): seq<Event>
    decreases data, 1
  {
    if data.JArr? then StepTrace(env, core, data.items) else []
  }

  function StepTrace(env: Env, core: Core, s: seq<Json>): seq<Event>
    decreases s, 3
  {
    if s == [] || !s[0].JNum? then []
    else
      var d := s[1..];
      var kind := KindOf(Trunc(s[0].n));
      match kind
      case Block => BlockTrace(env, core, d)
      case StoreArray =>
        if |d| < 2 || !d[0].JNum? || !d[1].JNum? then []
        else StepTrace(env, core.(refs := core.refs[Trunc(d[0].n) := I64(Trunc(d[1].n))]), s[2..])
      case Store => if |d| < 2 then [] else Trace(env, core, d[1])
      case CallStoredProcedure => if d == [] || !d[0].JStr? then [] else CallTrace(env, core, d[0].s, d[1..])
      case IfStep => IfTrace(env, core, d)
      case _ => OperandTrace(env, core, d, OperandsOf(kind))
  }

  function BlockTrace(env: Env, core: Core, d: seq<Json>): seq<Event>
    decreases d, 2
  {
    if d == [] then []
    else if !d[0].JArr? then BlockTrace(env, core, d[1..])
    else
      var r := Decode(env, core, d[0]);
      Trace(env, core, d[0]) + if r.outcome.Done? then BlockTrace(env, r.core, d[1..]) else []
  }

  /** The condition, and then the branch that it selects. */
  function IfTrace(env: Env, core: Core, d: seq<Json>): seq<Event>
    decreases d, 2
  {
    var r := DecodeOperands(env, core, d, [I64Operand]);
    var branch :=
      if !r.outcome.Done? || r.outcome.value.None? then 0
      else if r.outcome.value.value[0].n > 0 then 1
      else if |d| >= 3 && !d[2].JNull? then 2
      else 0;
    OperandTrace(env, core, d, [I64Operand]) + if 0 < branch < |d| then Trace(env, r.core, d[branch]) else []
  }

  function OperandTrace(env: Env, core: Core, d: seq<Json>, kinds: seq<OperandKind>): seq<Event>
    decreases d, 1
  {
    if kinds == [] || d == [] then []
    else
      var r := Decode(env, core, d[0]);
      Trace(env, core, d[0]) +
      if r.outcome.Done? && Fits(r.outcome.value, kinds[0]) then OperandTrace(env, r.core, d[1..], kinds[1..]) else []
  }

  function ArgTrace(env: Env, core: Core, d: seq<Json>): seq<Event>
    decreases d, 1
  {
    if d == [] then []
    else
      var r := Decode(env, core, d[0]);
      Trace(env, core, d[0]) + if r.outcome.Done? then ArgTrace(env, r.core, d[1..]) else []
  }

  function CallTrace(env: Env, core: Core, name: string, data: seq<Json>): seq<Event>
    decreases data, 2
  {
    match ColumnOf(env, name)
    case None => [Skipped(name)]
    case Some(column) =>
      var args := DecodeArgs(env, core, data).outcome;
      [Entered(name)] + ArgTrace(env, core, data) +
      if args.Done? && RowOf(env.schemas[column], args.value).Some? then [Completed(name, args.value)] else []
  }

  // ----- the rows are the completed calls -----

  /** The row that a completed call of a known procedure builds from the arguments it decoded. */
  function RowsOfCall(env: Env, e: Event): Emitted {
    if !e.Completed? || ColumnOf(env, e.name).None? then []
    else match RowOf(env.schemas[ColumnOf(env, e.name).value], e.args)
      case None => []
      case Some(row) => [(ColumnOf(env, e.name).value, row)]
  }

  function RowsOfCalls(env: Env, events: seq<Event>): Emitted {
    if events == [] then [] else RowsOfCall(env, events[0]) + RowsOfCalls(env, events[1..])
  }

  lemma {:induction false} Joined(a: Emitted, b: Emitted, c: Emitted)
    ensures [] + b == b && a + (b + c) == a + b + c
  {
  }

  lemma {:induction false} RowsInOrder(env: Env, a: seq<Event>, b: seq<Event>)
    ensures RowsOfCalls(env, a + b) == RowsOfCalls(env, a) + RowsOfCalls(env, b)
    decreases |a|
  {
    if a == [] {
      assert a + b == b;
      Joined([], RowsOfCalls(env, b), []);
    } else {
      RowsInOrder(env, a[1..], b);
      assert (a + b)[1..] == a[1..] + b;
      Joined(RowsOfCall(env, a[0]), RowsOfCalls(env, a[1..]), RowsOfCalls(env, b));
    }
  }

  /** The rows a program emits are exactly its completed calls, in the order of their completion. */
  lemma {:induction false} RowsAreCompletedCalls(env: Env, core: Core, data: Json)
    ensures Decode(env, core, data).rows == RowsOfCalls(env, Trace(env, core, data))
    decreases data, 1
  {
    if data.JArr? {
      StepRowsAreCalls(env, core, data.items);
    }
  }

  lemma {:induction false} StepRowsAreCalls(env: Env, core: Core, s: seq<Json>)
    ensures DecodeStep(env, core, s).rows == RowsOfCalls(env, StepTrace(env, core, s))
    decreases s, 3
  {
    if s != [] && s[0].JNum? {
      match KindOf(Trunc(s[0].n)) {
        case Block => BlockRowsAreCalls(env, core, s[1..]);
        case StoreArray => StoreArrayRowsAreCalls(env, core, s);
        case Store => StoreRowsAreCalls(env, core, s);
        case CallStoredProcedure => CallStepRowsAreCalls(env, core, s);
        case IfStep => IfRowsAreCalls(env, core, s[1..]);
        case kind => OperandStepRowsAreCalls(env, core, s);
      }
    }
  }

  lemma {:induction false} StoreArrayRowsAreCalls(env: Env, core: Core, s: seq<Json>)
    requires s != [] && s[0].JNum? && KindOf(Trunc(s[0].n)).StoreArray?
    ensures DecodeStep(env, core, s).rows == RowsOfCalls(env, StepTrace(env, core, s))
    decreases s, 2
  {
    var d := s[1..];
    if |d| >= 2 && d[0].JNum? && d[1].JNum? {
      StepRowsAreCalls(env, core.(refs := core.refs[Trunc(d[0].n) := I64(Trunc(d[1].n))]), s[2..]);
    }
  }

  lemma {:induction false} StoreRowsAreCalls(env: Env, core: Core, s: seq<Json>)
    requires s != [] && s[0].JNum? && KindOf(Trunc(s[0].n)).Store?
    ensures DecodeStep(env, core, s).rows == RowsOfCalls(env, StepTrace(env, core, s))
    decreases s, 2
  {
    if |s| >= 3 {
      assert s[1..][1] == s[2];
      RowsAreCompletedCalls(env, core, s[2]);
    }
  }

  lemma {:induction false} CallStepRowsAreCalls(env: Env, core: Core, s: seq<Json>)
    requires s != [] && s[0].JNum? && KindOf(Trunc(s[0].n)).CallStoredProcedure?
    ensures DecodeStep(env, core, s).rows == RowsOfCalls(env, StepTrace(env, core, s))
    decreases s, 2
  {
    var d := s[1..];
    if d != [] && d[0].JStr? {
      CallRowsAreCalls(env, core, d[0].s, d[1..]);
    }
  }

  lemma {:induction false} OperandStepRowsAreCalls(env: Env, core: Core, s: seq<Json>)
    requires s != [] && s[0].JNum?
    requires var kind := KindOf(Trunc(s[0].n));
      !kind.Block? && !kind.StoreArray? && !kind.Store? && !kind.CallStoredProcedure? && !kind.IfStep?
    ensures DecodeStep(env, core, s).rows == RowsOfCalls(env, StepTrace(env, core, s))
    decreases s, 2
  {
    OperandRowsAreCalls(env, core, s[1..], OperandsOf(KindOf(Trunc(s[0].n))));
  }

  lemma {:induction false} BlockRowsAreCalls(env: Env, core: Core, d: seq<Json>)
    ensures DecodeBlock(env, core, d).rows == RowsOfCalls(env, BlockTrace(env, core, d))
    decreases d, 2
  {
    if d != [] {
      if d[0].JArr? {
        var r := Decode(env, core, d[0]);
        RowsAreCompletedCalls(env, core, d[0]);
        BlockRowsAreCalls(env, r.core, d[1..]);
        RowsInOrder(env, Trace(env, core, d[0]), if r.outcome.Done? then BlockTrace(env, r.core, d[1..]) else []);
      } else {
        BlockRowsAreCalls(env, core, d[1..]);
      }
    }
  }

  lemma {:induction false} IfRowsAreCalls(env: Env, core: Core, d: seq<Json>)
    ensures DecodeIf(env, core, d).rows == RowsOfCalls(env, IfTrace(env, core, d))
    decreases d, 2
  {
    OperandRowsAreCalls(env, core, d, [I64Operand]);
    var condition, after := OperandTrace(env, core, d, [I64Operand]), DecodeOperands(env, core, d, [I64Operand]).core;
    if |d| >= 2 {
      RowsAreCompletedCalls(env, after, d[1]);
      RowsInOrder(env, condition, Trace(env, after, d[1]));
    }
    if |d| >= 3 {
      RowsAreCompletedCalls(env, after, d[2]);
      RowsInOrder(env, condition, Trace(env, after, d[2]));
    }
    RowsInOrder(env, condition, []);
  }

  lemma {:induction false} OperandRowsAreCalls(env: Env, core: Core, d: seq<Json>, kinds: seq<OperandKind>)
    ensures DecodeOperands(env, core, d, kinds).rows == RowsOfCalls(env, OperandTrace(env, core, d, kinds))
    decreases d, 1
  {
    if kinds != [] && d != [] {
      var r := Decode(env, core, d[0]);
      RowsAreCompletedCalls(env, core, d[0]);
      OperandRowsAreCalls(env, r.core, d[1..], kinds[1..]);
      RowsInOrder(env, Trace(env, core, d[0]), OperandTrace(env, r.core, d[1..], kinds[1..]));
      RowsInOrder(env, Trace(env, core, d[0]), []);
    }
  }

  lemma {:induction false} ArgRowsAreCalls(env: Env, core: Core, d: seq<Json>)
    ensures DecodeArgs(env, core, d).rows == RowsOfCalls(env, ArgTrace(env, core, d))
    decreases d, 1
  {
    if d != [] {
      var r := Decode(env, core, d[0]);
      RowsAreCompletedCalls(env, core, d[0]);
      ArgRowsAreCalls(env, r.core, d[1..]);
      RowsInOrder(env, Trace(env, core, d[0]), ArgTrace(env, r.core, d[1..]));
      RowsInOrder(env, Trace(env, core, d[0]), []);
    }
  }

  lemma {:induction false} OneCall(env: Env, e: Event)
    ensures RowsOfCalls(env, [e]) == RowsOfCall(env, e)
  {
    assert RowsOfCalls(env, []) == [] && [e][1..] == [];
  }

  /** Entering a call emits nothing. */
  lemma {:induction false} EnteringEmitsNothing(env: Env, name: string, inside: seq<Event>, end: seq<Event>)
    ensures RowsOfCalls(env, [Entered(name)] + inside + end) == RowsOfCalls(env, inside) + RowsOfCalls(env, end)
  {
    RowsInOrder(env, [Entered(name)] + inside, end);
    RowsInOrder(env, [Entered(name)], inside);
    OneCall(env, Entered(name));
    Joined([], RowsOfCalls(env, inside), []);
  }

  lemma {:induction false} CallRowsAreCalls(env: Env, core: Core, name: string, data: seq<Json>)
    ensures DecodeCall(env, core, name, data).rows == RowsOfCalls(env, CallTrace(env, core, name, data))
    decreases data, 2
  {
    if ColumnOf(env, name).Some? {
      ArgRowsAreCalls(env, core, data);
      var args, inside := DecodeArgs(env, core, data).outcome, ArgTrace(env, core, data);
      EnteringEmitsNothing(env, name, inside, []);
      if args.Done? {
        EnteringEmitsNothing(env, name, inside, [Completed(name, args.value)]);
        OneCall(env, Completed(name, args.value));
      }
    }
  }

  // ----- calls nest -----

  /** The calls still open after the events, innermost last; None when a completed call is not the innermost open one. */
  function Open(calls: seq<string>, events: seq<Event>): Option<seq<string>>
    decreases |events|
  {
    if events == [] then Some(calls)
    else match events[0]
      case Entered(name) => Open(calls + [name], events[1..])
      case Completed(name, _) =>
        if calls != [] && calls[|calls| - 1] == name then Open(calls[..|calls| - 1], events[1..]) else None
      case Skipped(_) => Open(calls, events[1..])
  }

  lemma {:induction false} OpenInOrder(calls: seq<string>, a: seq<Event>, b: seq<Event>)
    ensures Open(calls, a + b) == match Open(calls, a) case None => None case Some(open) => Open(open, b)
    decreases |a|
  {
    if a == [] {
      assert a + b == b;
    } else {
      assert (a + b)[1..] == a[1..] + b;
      match a[0] {
        case Entered(name) => OpenInOrder(calls + [name], a[1..], b);
        case Completed(name, _) =>
          if calls != [] && calls[|calls| - 1] == name {
            OpenInOrder(calls[..|calls| - 1], a[1..], b);
          }
        case Skipped(_) => OpenInOrder(calls, a[1..], b);
      }
    }
  }

  /** Only known procedures are entered, and only unknown ones skipped. */
  ghost predicate AreKnown(env: Env, events: seq<Event>) {
    forall e :: e in events ==> (e.Skipped? <==> ColumnOf(env, e.name).None?)
  }

  /** A part of a program that ends leaves the open calls as they were; one that crashes may leave some more. */
  ghost predicate Nests(env: Env, calls: seq<string>, events: seq<Event>, ended: bool) {
    var open := Open(calls, events);
    && open.Some? && (if ended then open.value == calls else calls <= open.value)
    && AreKnown(env, events)
  }

  lemma {:induction false} NestsInOrder(env: Env, calls: seq<string>, a: seq<Event>, b: seq<Event>, ended: bool)
    requires Nests(env, calls, a, true) && Nests(env, calls, b, ended)
    ensures Nests(env, calls, a + b, ended)
  {
    OpenInOrder(calls, a, b);
  }

  /** Each call is completed after all calls inside it and before any call behind it is entered, and only known ones are. */
  lemma {:induction false} CallsNest(env: Env, core: Core, data: Json, calls: seq<string>)
    ensures Nests(env, calls, Trace(env, core, data), Decode(env, core, data).outcome.Done?)
    decreases data, 1
  {
    if data.JArr? {
      StepCallsNest(env, core, data.items, calls);
    }
  }

  lemma {:induction false} StepCallsNest(env: Env, core: Core, s: seq<Json>, calls: seq<string>)
    ensures Nests(env, calls, StepTrace(env, core, s), DecodeStep(env, core, s).outcome.Done?)
    decreases s, 3
  {
    if s != [] && s[0].JNum? {
      var d := s[1..];
      match KindOf(Trunc(s[0].n)) {
        case Block => BlockCallsNest(env, core, d, calls);
        case StoreArray =>
          if |d| >= 2 && d[0].JNum? && d[1].JNum? {
            StepCallsNest(env, core.(refs := core.refs[Trunc(d[0].n) := I64(Trunc(d[1].n))]), s[2..], calls);
          }
        case Store =>
          if |d| >= 2 {
            CallsNest(env, core, d[1], calls);
          }
        case CallStoredProcedure =>
          if d != [] && d[0].JStr? {
            CallNests(env, core, d[0].s, d[1..], calls);
          }
        case IfStep => IfCallsNest(env, core, d, calls);
        case kind => OperandCallsNest(env, core, d, OperandsOf(kind), calls);
      }
    }
  }

  lemma {:induction false} BlockCallsNest(env: Env, core: Core, d: seq<Json>, calls: seq<string>)
    ensures Nests(env, calls, BlockTrace(env, core, d), DecodeBlock(env, core, d).outcome.Done?)
    decreases d, 2
  {
    if d != [] {
      if d[0].JArr? {
        var r := Decode(env, core, d[0]);
        CallsNest(env, core, d[0], calls);
        if r.outcome.Done? {
          BlockCallsNest(env, r.core, d[1..], calls);
          NestsInOrder(env, calls, Trace(env, core, d[0]), BlockTrace(env, r.core, d[1..]), DecodeBlock(env, core, d).outcome.Done?);
        } else {
          assert Trace(env, core, d[0]) + [] == Trace(env, core, d[0]);
        }
      } else {
        BlockCallsNest(env, core, d[1..], calls);
      }
    }
  }

  lemma {:induction false} IfCallsNest(env: Env, core: Core, d: seq<Json>, calls: seq<string>)
    ensures Nests(env, calls, IfTrace(env, core, d), DecodeIf(env, core, d).outcome.Done?)
    decreases d, 2
  {
    var r, condition := DecodeOperands(env, core, d, [I64Operand]), OperandTrace(env, core, d, [I64Operand]);
    OperandCallsNest(env, core, d, [I64Operand], calls);
    assert condition + [] == condition;
    if r.outcome.Done? {
      if |d| >= 2 {
        CallsNest(env, r.core, d[1], calls);
        NestsInOrder(env, calls, condition, Trace(env, r.core, d[1]), Decode(env, r.core, d[1]).outcome.Done?);
      }
      if |d| >= 3 {
        CallsNest(env, r.core, d[2], calls);
        NestsInOrder(env, calls, condition, Trace(env, r.core, d[2]), Decode(env, r.core, d[2]).outcome.Done?);
      }
    }
  }

  lemma {:induction false} OperandCallsNest(env: Env, core: Core, d: seq<Json>, kinds: seq<OperandKind>, calls: seq<string>)
    ensures Nests(env, calls, OperandTrace(env, core, d, kinds), DecodeOperands(env, core, d, kinds).outcome.Done?)
    decreases d, 1
  {
    if kinds != [] && d != [] {
      var r := Decode(env, core, d[0]);
      CallsNest(env, core, d[0], calls);
      assert Trace(env, core, d[0]) + [] == Trace(env, core, d[0]);
      if r.outcome.Done? && Fits(r.outcome.value, kinds[0]) {
        OperandCallsNest(env, r.core, d[1..], kinds[1..], calls);
        NestsInOrder(env, calls, Trace(env, core, d[0]), OperandTrace(env, r.core, d[1..], kinds[1..]),
                     DecodeOperands(env, core, d, kinds).outcome.Done?);
      }
    }
  }

  lemma {:induction false} ArgCallsNest(env: Env, core: Core, d: seq<Json>, calls: seq<string>)
    ensures Nests(env, calls, ArgTrace(env, core, d), DecodeArgs(env, core, d).outcome.Done?)
    decreases d, 1
  {
    if d != [] {
      var r := Decode(env, core, d[0]);
      CallsNest(env, core, d[0], calls);
      assert Trace(env, core, d[0]) + [] == Trace(env, core, d[0]);
      if r.outcome.Done? {
        ArgCallsNest(env, r.core, d[1..], calls);
        NestsInOrder(env, calls, Trace(env, core, d[0]), ArgTrace(env, r.core, d[1..]), DecodeArgs(env, core, d).outcome.Done?);
      }
    }
  }

  lemma {:induction false} CallNests(env: Env, core: Core, name: string, data: seq<Json>, calls: seq<string>)
    ensures Nests(env, calls, CallTrace(env, core, name, data), DecodeCall(env, core, name, data).outcome.Done?)
    decreases data, 2
  {
    if ColumnOf(env, name).Some? {
      var inner, inside := calls + [name], ArgTrace(env, core, data);
      ArgCallsNest(env, core, data, inner);
      OpenInOrder(calls, [Entered(name)], inside);
      assert Open(calls, [Entered(name)]) == Some(inner);
      var end := CallTrace(env, core, name, data)[|inside| + 1..];
      assert CallTrace(env, core, name, data) == [Entered(name)] + inside + end;
      OpenInOrder(calls, [Entered(name)] + inside, end);
      assert inner[..|calls|] == calls;
    }
  }

  // ----- nothing runs inside a skipped procedure -----

  /** The program without the arguments of calls of unknown procedures, wherever in it they are. */
  function Pruned(env: Env, data: Json): (p: Json)
    ensures p.JArr? <==> data.JArr?
    ensures !data.JArr? ==> p == data
    decreases data, 1
  {
    if data.JArr? then JArr(PrunedStep(env, data.items)) else data
  }

  function PrunedStep(env: Env, s: seq<Json>): (p: seq<Json>)
    ensures s == [] ==> p == []
    ensures s != [] ==> p != [] && p[0] == s[0]
    decreases s, 3
  {
    if s == [] || !s[0].JNum? then s
    else match KindOf(Trunc(s[0].n))
      case CallStoredProcedure =>
        if |s| >= 2 && s[1].JStr? && ColumnOf(env, s[1].s).None? then s[..2]
        else [s[0]] + PrunedAll(env, s[1..])
      case StoreArray => if |s| >= 3 then s[..2] + PrunedStep(env, s[2..]) else s
      case _ => [s[0]] + PrunedAll(env, s[1..])
  }

  function PrunedAll(env: Env, d: seq<Json>): (p: seq<Json>)
    ensures |p| == |d| && forall k :: 0 <= k < |d| ==> p[k] == Pruned(env, d[k])
    decreases d, 2
  {
    if d == [] then [] else [Pruned(env, d[0])] + PrunedAll(env, d[1..])
  }

  /** Such a program does the same: nothing in the arguments of a skipped procedure is ever executed. */
  lemma {:induction false} SkippedArgumentsDoNotMatter(env: Env, core: Core, data: Json)
    ensures Decode(env, core, Pruned(env, data)) == Decode(env, core, data)
    decreases data, 1
  {
    if data.JArr? {
      PrunedStepIsSame(env, core, data.items);
    }
  }

  lemma {:induction false} PrunedStepIsSame(env: Env, core: Core, s: seq<Json>)
    ensures DecodeStep(env, core, PrunedStep(env, s)) == DecodeStep(env, core, s)
    decreases s, 3
  {
    if s != [] && s[0].JNum? {
      var kind, p := KindOf(Trunc(s[0].n)), PrunedStep(env, s);
      if kind.StoreArray? {
        PrunedStoreIsSame(env, core, s);
      } else if kind.CallStoredProcedure? {
        PrunedCallIsSame(env, core, s);
      } else {
        var d := s[1..];
        assert p[1..] == PrunedAll(env, d);
        if kind.Block? {
          PrunedBlockIsSame(env, core, d);
        } else if kind.IfStep? {
          PrunedIfIsSame(env, core, d);
        } else if kind.Store? {
          if |d| >= 2 {
            SkippedArgumentsDoNotMatter(env, core, d[1]);
          }
        } else {
          PrunedOperandsAreSame(env, core, d, OperandsOf(kind));
        }
      }
    }
  }

  lemma {:induction false} PrunedStoreIsSame(env: Env, core: Core, s: seq<Json>)
    requires s != [] && s[0].JNum? && KindOf(Trunc(s[0].n)).StoreArray?
    ensures DecodeStep(env, core, PrunedStep(env, s)) == DecodeStep(env, core, s)
    decreases s, 2
  {
    if |s| >= 3 {
      var p := PrunedStep(env, s);
      assert p[2..] == PrunedStep(env, s[2..]) && p[1..][0] == s[1..][0] && p[1..][1] == s[1..][1];
      if s[1].JNum? && s[2].JNum? {
        PrunedStepIsSame(env, core.(refs := core.refs[Trunc(s[1].n) := I64(Trunc(s[2].n))]), s[2..]);
      }
    }
  }

  lemma {:induction false} PrunedCallIsSame(env: Env, core: Core, s: seq<Json>)
    requires s != [] && s[0].JNum? && KindOf(Trunc(s[0].n)).CallStoredProcedure?
    ensures DecodeStep(env, core, PrunedStep(env, s)) == DecodeStep(env, core, s)
    decreases s, 2
  {
    var p := PrunedStep(env, s);
    if |s| >= 2 && s[1].JStr? {
      if ColumnOf(env, s[1].s).None? {
        assert p[1..][0] == s[1] && s[1..][0] == s[1];
      } else {
        assert p[1..] == PrunedAll(env, s[1..]);
        assert p[1..][1..] == PrunedAll(env, s[1..][1..]);
        PrunedArgsAreSame(env, core, s[1..][1..]);
      }
    } else {
      assert p[1..] == PrunedAll(env, s[1..]);
    }
  }

  lemma {:induction false} PrunedBlockIsSame(env: Env, core: Core, d: seq<Json>)
    ensures DecodeBlock(env, core, PrunedAll(env, d)) == DecodeBlock(env, core, d)
    decreases d, 2
  {
    if d != [] {
      assert PrunedAll(env, d)[1..] == PrunedAll(env, d[1..]);
      SkippedArgumentsDoNotMatter(env, core, d[0]);
      PrunedBlockIsSame(env, core, d[1..]);
      PrunedBlockIsSame(env, Decode(env, core, d[0]).core, d[1..]);
    }
  }

  lemma {:induction false} PrunedIfIsSame(env: Env, core: Core, d: seq<Json>)
    ensures DecodeIf(env, core, PrunedAll(env, d)) == DecodeIf(env, core, d)
    decreases d, 2
  {
    PrunedOperandsAreSame(env, core, d, [I64Operand]);
    var after := DecodeOperands(env, core, d, [I64Operand]).core;
    if |d| >= 2 {
      SkippedArgumentsDoNotMatter(env, after, d[1]);
    }
    if |d| >= 3 {
      SkippedArgumentsDoNotMatter(env, after, d[2]);
    }
  }

  lemma {:induction false} PrunedOperandsAreSame(env: Env, core: Core, d: seq<Json>, kinds: seq<OperandKind>)
    ensures DecodeOperands(env, core, PrunedAll(env, d), kinds) == DecodeOperands(env, core, d, kinds)
    decreases d, 1
  {
    if kinds != [] && d != [] {
      assert PrunedAll(env, d)[1..] == PrunedAll(env, d[1..]);
      SkippedArgumentsDoNotMatter(env, core, d[0]);
      PrunedOperandsAreSame(env, Decode(env, core, d[0]).core, d[1..], kinds[1..]);
    }
  }

  lemma {:induction false} PrunedArgsAreSame(env: Env, core: Core, d: seq<Json>)
    ensures DecodeArgs(env, core, PrunedAll(env, d)) == DecodeArgs(env, core, d)
    decreases d, 1
  {
    if d != [] {
      assert PrunedAll(env, d)[1..] == PrunedAll(env, d[1..]);
      SkippedArgumentsDoNotMatter(env, core, d[0]);
      PrunedArgsAreSame(env, Decode(env, core, d[0]).core, d[1..]);
    }
  }
}
