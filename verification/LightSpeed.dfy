/**
 The LightSpeed decoder of pkg/messagix/lightspeed/decode.go: a tree-walking interpreter for step programs sent by
 the server, whose CALL_STORED_PROCEDURE steps append typed rows to a table.

 The functions say what a step computes without mentioning the table at all: they return the rows it emits. The
 class runs the same steps on mutable state and appends each row as it goes; its contract ties the two together.
 */
module LightSpeed {
  import opened Common
  import opened Decimal
  import opened LightSpeedRow

  /** Decoded JSON. An object is a Go map, so it is a reference from the start. */
  datatype Json = JNull | JBool(b: bool) | JNum(n: real) | JStr(s: string) | JArr(items: seq<Json>) | JObj(id: nat)

  datatype StepKind =
    | Block | Load | Store | StoreArray | CallStoredProcedure | Undefined | I64FromString | IfStep | NotStep
    | CurrentTime | CallNativeOperation | MapCreate | MapSet | ArrayCreate | ArrayAppend | ArrayGetSize
    | LoggerLog | I64Add | I64Equal | ToBlob | UnknownStep

  function KindOf(n: int): StepKind {
    match n
    case 1 => Block
    case 2 => Load
    case 3 => Store
    case 4 => StoreArray
    case 5 => CallStoredProcedure
    case 7 => CallNativeOperation
    case 9 => Undefined
    case 16 => ToBlob
    case 19 => I64FromString
    case 23 => IfStep
    case 26 => NotStep
    case 30 => I64Equal
    case 49 => LoggerLog
    case 50 => ArrayCreate
    case 51 => ArrayAppend
    case 52 => ArrayGetSize
    case 53 => MapCreate
    case 55 => MapSet
    case 60 => CurrentTime
    case 69 => I64Add
    case _ => UnknownStep
  }

  /** What steps read and write besides the table: statement references, maps, and the clock's readings so far. */
  datatype Core = Core(refs: map<int, Value>, maps: map<nat, map<string, Value>>, next: nat, ticks: nat)

  /** Dependencies and row schemas, and the primitives that are not modelled further. */
  datatype Env = Env(
    deps: map<string, string>,
    schemas: map<string, Schema>,
    clock: nat -> int,
    show: Value -> string,
    blob: string -> Option<seq<byte>>
  )

  /** A step either yields a value or ends the program: a Go panic or os.Exit. */
  datatype Outcome<+T> = Done(value: T) | Crashed

  type Emitted = seq<(string, Row)>

  datatype Run<+T> = Run(outcome: Outcome<T>, core: Core, rows: Emitted)

  /** Go's conversion of a float to an integer: towards zero. */
  function Trunc(r: real): int {
    if r >= 0.0 then r.Floor else -((-r).Floor)
  }

  datatype OperandKind = AnyOperand | I64Operand | ArrOperand | MapOperand

  predicate Fits(v: Value, kind: OperandKind) {
    match kind
    case AnyOperand => true
    case I64Operand => v.I64?
    case ArrOperand => v.Arr?
    case MapOperand => v.MapRef?
  }

  predicate AllFit(vs: seq<Value>, kinds: seq<OperandKind>) {
    |vs| == |kinds| && forall k | 0 <= k < |vs| :: Fits(vs[k], kinds[k])
  }

  /** The operands a strict step decodes in order; on one of the wrong type it gives up and yields nil. */
  function OperandsOf(kind: StepKind): seq<OperandKind> {
    match kind
    case IfStep => [I64Operand]
    case NotStep => [I64Operand]
    case MapSet => [MapOperand, AnyOperand, AnyOperand]
    case ArrayAppend => [ArrOperand, AnyOperand]
    case ArrayGetSize => [ArrOperand]
    case I64Add => [I64Operand, I64Operand]
    case I64Equal => [I64Operand, I64Operand]
    case _ => []
  }

  function Decode(env: Env, core: Core, data: Json): Run<Value>
    decreases data, 1
  {
    match data
    case JArr(items) => DecodeStep(env, core, items)
    case JNull => Run(Done(Nil), core, [])
    case JBool(b) => Run(Done(Bool(b)), core, [])
    case JNum(n) => Run(Done(Float(n)), core, [])
    case JStr(s) => Run(Done(Str(s)), core, [])
    case JObj(id) => Run(Done(MapRef(id)), core, [])
  }

  function DecodeStep(env: Env, core: Core, s: seq<Json>): Run<Value>
    decreases s, 3
  {
    if s == [] || !s[0].JNum? then Run(Crashed, core, [])
    else
      var d := s[1..];
      var kind := KindOf(Trunc(s[0].n));
      match kind
      case Block => DecodeBlock(env, core, d)
      case StoreArray =>
        if |d| < 2 || !d[0].JNum? || !d[1].JNum? then Run(Crashed, core, [])
        else Quietly(DecodeStep(env, core.(refs := core.refs[Trunc(d[0].n) := I64(Trunc(d[1].n))]), s[2..]))
      case Store =>
        if |d| < 2 then Run(Crashed, core, [])
        else
          var r := Decode(env, core, d[1]);
          if !r.outcome.Done? then r
          else if !d[0].JNum? then r.(outcome := Crashed)
          else Run(Done(Nil), r.core.(refs := r.core.refs[Trunc(d[0].n) := r.outcome.value]), r.rows)
      case CallStoredProcedure =>
        if d == [] then Run(Crashed, core, [])
        else if !d[0].JStr? then Run(Done(Nil), core, [])
        else DecodeCall(env, core, d[0].s, d[1..])
      case IfStep => DecodeIf(env, core, d)
      case _ =>
        if OperandsOf(kind) == [] then Immediate(env, core, kind, d)
        else
          var r := DecodeOperands(env, core, d, OperandsOf(kind));
          if !r.outcome.Done? then Run(Crashed, r.core, r.rows)
          else if r.outcome.value.None? then Run(Done(Nil), r.core, r.rows)
          else
            var (outcome, core') := Strict(env, r.core, kind, r.outcome.value.value);
            Run(outcome, core', r.rows)
  }

  /** The value of a nested step that the source throws away. */
  function Quietly(r: Run<Value>): Run<Value> {
    if r.outcome.Done? then r.(outcome := Done(Nil)) else r
  }

  function DecodeBlock(env: Env, core: Core, d: seq<Json>): Run<Value>
    decreases d, 2
  {
    if d == [] then Run(Done(Nil), core, [])
    else if !d[0].JArr? then DecodeBlock(env, core, d[1..])
    else
      var r := Decode(env, core, d[0]);
      if !r.outcome.Done? then r else After(r.rows, DecodeBlock(env, r.core, d[1..]))
  }

  function After<T>(rows: Emitted, r: Run<T>): Run<T> {
    r.(rows := rows + r.rows)
  }

  function DecodeIf(env: Env, core: Core, d: seq<Json>): Run<Value>
    decreases d, 2
  {
    var r := DecodeOperands(env, core, d, [I64Operand]);
    if !r.outcome.Done? then Run(Crashed, r.core, r.rows)
    else if r.outcome.value.None? then Run(Done(Nil), r.core, r.rows)
    else if r.outcome.value.value[0].n > 0 then
      if |d| < 2 then Run(Crashed, r.core, r.rows)
      else After(r.rows, Quietly(Decode(env, r.core, d[1])))
    else if |d| >= 3 && !d[2].JNull? then After(r.rows, Quietly(Decode(env, r.core, d[2])))
    else Run(Done(Nil), r.core, r.rows)
  }

  /** None when an operand has the wrong type; operands behind it are then not decoded. */
  function DecodeOperands(env: Env, core: Core, d: seq<Json>, kinds: seq<OperandKind>): (r: Run<Option<seq<Value>>>)
    ensures r.outcome.Done? && r.outcome.value.Some? ==> AllFit(r.outcome.value.value, kinds)
    decreases d, 1
  {
    if kinds == [] then Run(Done(Some([])), core, [])
    else if d == [] then Run(Crashed, core, [])
    else
      var r := Decode(env, core, d[0]);
      if !r.outcome.Done? then Run(Crashed, r.core, r.rows)
      else if !Fits(r.outcome.value, kinds[0]) then Run(Done(None), r.core, r.rows)
      else
        var rest := After(r.rows, DecodeOperands(env, r.core, d[1..], kinds[1..]));
        if rest.outcome.Done? && rest.outcome.value.Some? then
          rest.(outcome := Done(Some([r.outcome.value] + rest.outcome.value.value)))
        else rest
  }

  function DecodeArgs(env: Env, core: Core, d: seq<Json>): (r: Run<seq<Value>>)
    ensures r.outcome.Done? ==> |r.outcome.value| == |d|
    decreases d, 1
  {
    if d == [] then Run(Done([]), core, [])
    else
      var r := Decode(env, core, d[0]);
      if !r.outcome.Done? then Run(Crashed, r.core, r.rows)
      else
        var rest := After(r.rows, DecodeArgs(env, r.core, d[1..]));
        if rest.outcome.Done? then rest.(outcome := Done([r.outcome.value] + rest.outcome.value)) else rest
  }

  /** The column a stored procedure writes to, when it is known. */
  function ColumnOf(env: Env, name: string): Option<string> {
    if name in env.deps && env.deps[name] in env.schemas then Some(env.deps[name]) else None
  }

  function DecodeCall(env: Env, core: Core, name: string, data: seq<Json>): Run<Value>
    decreases data, 2
  {
    match ColumnOf(env, name)
    case None => Run(Done(Nil), core, [])
    case Some(column) =>
      var r := DecodeArgs(env, core, data);
      if !r.outcome.Done? then Run(Crashed, r.core, r.rows)
      else match RowOf(env.schemas[column], r.outcome.value)
        case None => Run(Crashed, r.core, r.rows)
        case Some(row) => Run(Done(Nil), r.core, r.rows + [(column, row)])
  }

  /** Steps that decode nothing. */
  function Immediate(env: Env, core: Core, kind: StepKind, d: seq<Json>): Run<Value> {
    match kind
    case Load =>
      Run(if d == [] then Crashed
          else if !d[0].JNum? || Trunc(d[0].n) !in core.refs then Done(Int(0))
          else Done(core.refs[Trunc(d[0].n)]), core, [])
    case I64FromString =>
      Run(if d == [] then Crashed
          else if !d[0].JStr? then Done(Nil)
          else match ParseInt(d[0].s)
            case None => Done(Int(0))
            case Some(i) => Done(I64(i)), core, [])
    case CurrentTime => Run(Done(I64(env.clock(core.ticks))), core.(ticks := core.ticks + 1), [])
    case MapCreate => Run(Done(MapRef(core.next)), core.(maps := core.maps[core.next := map[]], next := core.next + 1), [])
    case ArrayCreate => Run(Done(Arr([])), core, [])
    case LoggerLog => Run(if d == [] then Crashed else Done(Nil), core, [])
    case ToBlob =>
      Run(if d == [] then Crashed
          else if !d[0].JStr? then Done(Nil)
          else match env.blob(d[0].s)
            case None => Done(Nil)
            case Some(bytes) => Done(Blob(bytes)), core, [])
    case _ => Run(Done(Nil), core, [])
  }

  /** Steps on operands already decoded. */
  function Strict(env: Env, core: Core, kind: StepKind, v: seq<Value>): (Outcome<Value>, Core)
    requires AllFit(v, OperandsOf(kind))
  {
    assert |v| > 0 ==> Fits(v[0], OperandsOf(kind)[0]);
    assert |v| > 1 ==> Fits(v[1], OperandsOf(kind)[1]);
    match kind
    case NotStep => (Done(v[0]), core)
    case MapSet =>
      var key := if v[1].Str? then v[1].s else env.show(v[1]);
      var old' := if v[0].id in core.maps then core.maps[v[0].id] else map[];
      (Done(Nil), core.(maps := core.maps[v[0].id := old'[key := v[2]]]))
    case ArrayAppend => (Done(Arr(v[0].items + [v[1]])), core)
    case ArrayGetSize => (Done(Int(|v[0].items|)), core)
    case I64Add => (Done(I64(WrapInt64(v[0].n + v[1].n))), core)
    case I64Equal => (Done(Bool(v[0].n == v[1].n)), core)
    case _ => (Done(Nil), core)
  }

  // ----- the table -----

  type Table = map<string, seq<Row>>

  function AppendRow(table: Table, row: (string, Row)): Table {
    if row.0 in table then table[row.0 := table[row.0] + [row.1]] else table
  }

  function AppendRows(table: Table, rows: Emitted): Table {
    if rows == [] then table else AppendRows(AppendRow(table, rows[0]), rows[1..])
  }

  class LightSpeedDecoder {
    const env: Env
    var table: Table
    var refs: map<int, Value>
    var maps: map<nat, map<string, Value>>
    var next: nat
    var ticks: nat

    constructor (env: Env, maps: map<nat, map<string, Value>>, next: nat)
      ensures this.env == env && State() == Core(map[], maps, next, 0)
      ensures table.Keys == env.schemas.Keys && forall column :: column in table ==> table[column] == []
    {
      this.env := env;
      this.table := map column | column in env.schemas :: [];
      this.refs, this.maps, this.next, this.ticks := map[], maps, next, 0;
    }

    ghost function State(): Core
      reads this
    {
      Core(refs, maps, next, ticks)
    }

    /** Runs a step program; the table grows by exactly the rows it emits, in order. */
    method Run(data: Json) returns (r: Outcome<Value>)
      modifies this
      ensures var run := Decode(env, old(State()), data);
              r == run.outcome && State() == run.core && table == AppendRows(old(table), run.rows)
      decreases data, 1
    {
      match data {
        case JArr(items) => r := RunStep(items);
        case JNull => r := Done(Nil);
        case JBool(b) => r := Done(Bool(b));
        case JNum(n) => r := Done(Float(n));
        case JStr(s) => r := Done(Str(s));
        case JObj(id) => r := Done(MapRef(id));
      }
    }

    method RunStep(s: seq<Json>) returns (r: Outcome<Value>)
      modifies this
      ensures var run := DecodeStep(env, old(State()), s);
              r == run.outcome && State() == run.core && table == AppendRows(old(table), run.rows)
      decreases s, 3
    {
      if s == [] || !s[0].JNum? {
        return Crashed;
      }
      var d := s[1..];
      var kind := KindOf(Trunc(s[0].n));
      if kind.Block? {
        r := RunBlock(d);
      } else if kind.StoreArray? {
        if |d| < 2 || !d[0].JNum? || !d[1].JNum? {
          return Crashed;
        }
        refs := refs[Trunc(d[0].n) := I64(Trunc(d[1].n))];
        r := RunStep(s[2..]);
        r := if r.Done? then Done(Nil) else r;
      } else if kind.Store? {
        if |d| < 2 {
          return Crashed;
        }
        r := Run(d[1]);
        if !r.Done? || !d[0].JNum? {
          return Crashed;
        }
        refs := refs[Trunc(d[0].n) := r.value];
        r := Done(Nil);
      } else if kind.CallStoredProcedure? {
        if d == [] {
          return Crashed;
        }
        if !d[0].JStr? {
          return Done(Nil);
        }
        r := HandleStoredProcedure(d[0].s, d[1..]);
      } else if kind.IfStep? {
        r := RunIf(d);
      } else if OperandsOf(kind) == [] {
        r := RunImmediate(kind, d);
      } else {
        var vs := RunOperands(d, OperandsOf(kind));
        if !vs.Done? {
          return Crashed;
        }
        if vs.value.None? {
          return Done(Nil);
        }
        var (outcome, core) := Strict(env, Core(refs, maps, next, ticks), kind, vs.value.value);
        refs, maps, next, ticks := core.refs, core.maps, core.next, core.ticks;
        r := outcome;
      }
    }

    method RunBlock(d: seq<Json>) returns (r: Outcome<Value>)
      modifies this
      ensures var run := DecodeBlock(env, old(State()), d);
              r == run.outcome && State() == run.core && table == AppendRows(old(table), run.rows)
      decreases d, 2
    {
      var k := 0;
      ghost var whole := DecodeBlock(env, State(), d);
      ghost var rows: Emitted := [];
      assert d[0..] == d && rows + whole.rows == whole.rows;
      while k < |d|
        invariant 0 <= k <= |d|
        invariant whole == After(rows, DecodeBlock(env, State(), d[k..]))
        invariant table == AppendRows(old(table), rows)
      {
        assert d[k..][1..] == d[k + 1..];
        if d[k].JArr? {
          ghost var step := DecodeStep(env, State(), d[k].items);
          AppendMore(old(table), rows, step.rows);
          r := RunStep(d[k].items);
          if !r.Done? {
            return;
          }
          AfterTwice(rows, step.rows, DecodeBlock(env, State(), d[k + 1..]));
          rows := rows + step.rows;
        }
        k := k + 1;
      }
      assert rows + [] == rows;
      return Done(Nil);
    }

    method RunIf(d: seq<Json>) returns (r: Outcome<Value>)
      modifies this
      ensures var run := DecodeIf(env, old(State()), d);
              r == run.outcome && State() == run.core && table == AppendRows(old(table), run.rows)
      decreases d, 2
    {
      ghost var rows := DecodeOperands(env, State(), d, [I64Operand]).rows;
      var vs := RunOperands(d, [I64Operand]);
      if !vs.Done? {
        return Crashed;
      }
      if vs.value.None? {
        return Done(Nil);
      }
      if vs.value.value[0].n > 0 {
        if |d| < 2 {
          return Crashed;
        }
        AppendMore(old(table), rows, Decode(env, State(), d[1]).rows);
        r := Run(d[1]);
      } else if |d| >= 3 && !d[2].JNull? {
        AppendMore(old(table), rows, Decode(env, State(), d[2]).rows);
        r := Run(d[2]);
      } else {
        return Done(Nil);
      }
      r := if r.Done? then Done(Nil) else r;
    }

    method RunOperands(d: seq<Json>, kinds: seq<OperandKind>) returns (r: Outcome<Option<seq<Value>>>)
      modifies this
      ensures var run := DecodeOperands(env, old(State()), d, kinds);
              r == run.outcome && State() == run.core && table == AppendRows(old(table), run.rows)
      decreases d, 1
    {
      if kinds == [] {
        return Done(Some([]));
      }
      if d == [] {
        return Crashed;
      }
      ghost var rows := Decode(env, State(), d[0]).rows;
      var v := Run(d[0]);
      if !v.Done? {
        return Crashed;
      }
      if !Fits(v.value, kinds[0]) {
        return Done(None);
      }
      AppendMore(old(table), rows, DecodeOperands(env, State(), d[1..], kinds[1..]).rows);
      r := RunOperands(d[1..], kinds[1..]);
      if r.Done? && r.value.Some? {
        r := Done(Some([v.value] + r.value.value));
      }
    }

    /** Skips an unknown procedure without decoding its arguments; otherwise decodes them and appends one row. */
    method HandleStoredProcedure(name: string, data: seq<Json>) returns (r: Outcome<Value>)
      modifies this
      ensures var run := DecodeCall(env, old(State()), name, data);
              r == run.outcome && State() == run.core && table == AppendRows(old(table), run.rows)
      decreases data, 2
    {
      if name !in env.deps || env.deps[name] !in env.schemas {
        return Done(Nil);
      }
      var column := env.deps[name];
      ghost var rows := DecodeArgs(env, State(), data).rows;
      var args := RunArgs(data);
      if !args.Done? {
        return Crashed;
      }
      var row := BuildRow(env.schemas[column], args.value);
      match row {
        case None => return Crashed;
        case Some(newRow) =>
          AppendMore(old(table), rows, [(column, newRow)]);
          if column in table {
            table := table[column := table[column] + [newRow]];
          }
          return Done(Nil);
      }
    }

    method RunArgs(data: seq<Json>) returns (r: Outcome<seq<Value>>)
      modifies this
      ensures var run := DecodeArgs(env, old(State()), data);
              r == run.outcome && State() == run.core && table == AppendRows(old(table), run.rows)
      decreases data, 1
    {
      if data == [] {
        return Done([]);
      }
      ghost var rows := Decode(env, State(), data[0]).rows;
      var v := Run(data[0]);
      if !v.Done? {
        return Crashed;
      }
      AppendMore(old(table), rows, DecodeArgs(env, State(), data[1..]).rows);
      r := RunArgs(data[1..]);
      if r.Done? {
        r := Done([v.value] + r.value);
      }
    }

    method RunImmediate(kind: StepKind, d: seq<Json>) returns (r: Outcome<Value>)
      modifies this
      ensures var run := Immediate(env, old(State()), kind, d);
              r == run.outcome && State() == run.core && table == AppendRows(old(table), run.rows)
    {
      var run := Immediate(env, Core(refs, maps, next, ticks), kind, d);
      refs, maps, next, ticks := run.core.refs, run.core.maps, run.core.next, run.core.ticks;
      r := run.outcome;
    }
  }

  lemma {:induction false} AfterTwice<T>(rows: Emitted, more: Emitted, r: Run<T>)
    ensures After(rows, After(more, r)) == After(rows + more, r)
  {
    assert rows + (more + r.rows) == rows + more + r.rows;
  }

  lemma {:induction false} AppendMore(table: Table, rows: Emitted, more: Emitted)
    ensures AppendRows(table, rows + more) == AppendRows(AppendRows(table, rows), more)
    decreases |rows|
  {
    if rows == [] {
      assert rows + more == more;
    } else {
      assert (rows + more)[1..] == rows[1..] + more;
      AppendMore(AppendRow(table, rows[0]), rows[1..], more);
    }
  }
}
