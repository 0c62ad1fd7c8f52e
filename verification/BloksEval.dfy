/**
 The meaning of Bloks scripts: what Interpreter.Evaluate of pkg/messagix/bloks/interp.go computes, as a function
 of the form, the argument frame in the context and the interpreter's variables. BloksInterpreter runs it on
 mutable state.

 A script can call itself through a variable, so evaluation need not end: `fuel` bounds the nesting depth of
 lambda bodies, and FuelIsOnlyABound in BloksLaws shows that it changes nothing else.
 */
module BloksEval {
  import opened Common

  /** One constructor for each group of case labels that the source handles alike. */
  datatype Op =
    | If | Or | And | TakeLast | Apply | FuncConst
    | GetArg | SetArg | BindWithArray
    | GetVariable | GetVariableWithScope | WriteLocalState | WriteGlobalStore | RefRead | RefWrite
    | ArrayMake | ArrayLength
    | MapMake | MapGet | MapMerge | MapPut | MapHas
    | Not | Const | LessThan | GreaterThan | AsNonnull | GetScript
    | Unimplemented

  datatype Form =
    | Literal(value: Value)
    | Call(op: Op, args: seq<Form>)

  /**
   Nil is Go's nil literal pointer, the content of an unset argument slot; Null is the script's null and Nothing
   the result of an action. A map is a reference: `id` names an entry of the store.
   */
  datatype Value =
    | Nil
    | Null
    | Nothing
    | Bool(b: bool)
    | Int(i: int)
    | Str(s: string)
    | Arr(items: seq<Value>)
    | Map(id: nat)
    | Lambda(body: Form, bound: seq<Value>)

  type Dict = map<string, Value>

  /** The mutable part of an interpreter, and the variable changes it has reported to its bridge. */
  datatype Store = Store(locals: Dict, globals: Dict, dicts: seq<Dict>, changes: seq<(string, Value)>)

  /** The immutable part: named scripts, and whether the bridge answers its n-th variable change with an error. */
  datatype Env = Env(scripts: Dict, rejects: nat -> bool)

  datatype Error = WrongType | MismatchingLengths | NonStringKey | NonRef | NullValue | NoSuchScript | BridgeError | NotImplemented

  datatype Outcome<+T> =
    | Ok(value: T)
    | Err(error: Error)
    | Panicked
    | OutOfFuel

  /** The argument slots in the context; absent at top level. */
  type Frame = Option<seq<Value>>

  datatype Run<+T> = Run(outcome: Outcome<T>, frame: Frame, store: Store)

  /** An evaluation that stopped short, as the result of the evaluation around it. */
  function Stop<T, U>(r: Run<T>): (s: Run<U>)
    requires !r.outcome.Ok?
  {
    var outcome := match r.outcome
      case Err(e) => Err(e)
      case Panicked => Panicked
      case OutOfFuel => OutOfFuel;
    Run(outcome, r.frame, r.store)
  }

  const MAX_ARGS := 100

  datatype Kind = AnyValue | IntValue | StrValue | ArrValue | MapValue | LambdaValue

  predicate HasKind(v: Value, kind: Kind) {
    match kind
    case AnyValue => true
    case IntValue => v.Int?
    case StrValue => v.Str?
    case ArrValue => v.Arr?
    case MapValue => v.Map?
    case LambdaValue => v.Lambda?
  }

  /** A value of the wrong type; looking inside the nil literal is a panic. */
  function Mismatch<T>(value: Value): Outcome<T> {
    if value.Nil? then Panicked else Err(WrongType)
  }

  predicate HaveKinds(vs: seq<Value>, kinds: seq<Kind>) {
    |vs| == |kinds| && forall k | 0 <= k < |vs| :: HasKind(vs[k], kinds[k])
  }

  /** The operands an ordinary builtin evaluates, in order; each is checked before the next is evaluated. */
  function Operands(op: Op): seq<Kind> {
    match op
    case GetArg => [IntValue]
    case SetArg => [IntValue, AnyValue]
    case BindWithArray => [LambdaValue, ArrValue]
    case GetVariable => [StrValue]
    case GetVariableWithScope => [StrValue]
    case WriteLocalState => [StrValue, AnyValue]
    case WriteGlobalStore => [StrValue, AnyValue]
    case ArrayLength => [ArrValue]
    case MapMake => [ArrValue, ArrValue]
    case MapGet => [MapValue, StrValue]
    case MapMerge => [MapValue, MapValue]
    case MapPut => [MapValue, StrValue, AnyValue]
    case MapHas => [MapValue, StrValue]
    case Not => [AnyValue]
    case Const => [AnyValue]
    case LessThan => [IntValue, IntValue]
    case GreaterThan => [IntValue, IntValue]
    case AsNonnull => [AnyValue]
    case GetScript => [StrValue]
    case _ => []
  }

  /** Every number is truthy, zero too: the source looks for `int`, and scripts hold int64. */
  predicate IsTruthy(v: Value)
    requires !v.Nil?
  {
    match v
    case Bool(b) => b
    case Str(s) => |s| > 0
    case Null => false
    case _ => true
  }

  function Lookup(dict: Dict, key: string): Value {
    if key in dict then dict[key] else Null
  }

  /** The entries behind a map reference; a reference to nothing reads as Go's nil map. */
  function DictOf(store: Store, id: nat): Dict {
    if id < |store.dicts| then store.dicts[id] else map[]
  }

  function NewDict(store: Store, dict: Dict): (Value, Store) {
    (Map(|store.dicts|), store.(dicts := store.dicts + [dict]))
  }

  /** Pairs keys with values, later ones winning. */
  function Zip(keys: seq<Value>, values: seq<Value>): Outcome<Dict>
    requires |keys| == |values|
  {
    if keys == [] then Ok(map[])
    else
      var last := |keys| - 1;
      match Zip(keys[..last], values[..last])
      case Ok(dict) =>
        if keys[last].Nil? then Panicked
        else if !keys[last].Str? then Err(NonStringKey)
        else Ok(dict[keys[last].s := values[last]])
      case failed => failed
  }

  /** The argument slots of a call: bound arguments, then the others, cut and padded to the fixed size. */
  function Slots(values: seq<Value>): (slots: seq<Value>)
    ensures |slots| == MAX_ARGS
  {
    seq(MAX_ARGS, i requires 0 <= i => if i < |values| then values[i] else Nil)
  }

  function Eval(env: Env, fuel: nat, form: Form, frame: Frame, store: Store): Run<Value>
    decreases fuel, form, 2
  {
    match form
    case Literal(value) => Run(Ok(value), frame, store)
    case Call(op, args) =>
      match op
      case If => Choose(env, fuel, args, 1, 2, frame, store)
      case Or => Choose(env, fuel, args, 0, 1, frame, store)
      case And => Choose(env, fuel, args, 1, 0, frame, store)
      case TakeLast =>
        var r := EvalList(env, fuel, args, |args|, frame, store);
        if !r.outcome.Ok? then Stop(r)
        else Run(Ok(if args == [] then Nil else r.outcome.value[|args| - 1]), r.frame, r.store)
      case ArrayMake =>
        var r := EvalList(env, fuel, args, |args|, frame, store);
        if !r.outcome.Ok? then Stop(r) else Run(Ok(Arr(r.outcome.value)), r.frame, r.store)
      case Apply => EvalApply(env, fuel, args, frame, store)
      case FuncConst =>
        Run(if args == [] then Panicked else Ok(Lambda(args[0], [])), frame, store)
      case RefRead => EvalRef(env, fuel, args, frame, store)
      case RefWrite => WriteRef(env, fuel, args, frame, store)
      case Unimplemented => Run(Err(NotImplemented), frame, store)
      case _ =>
        var r := EvalTyped(env, fuel, args, Operands(op), frame, store);
        match r.outcome
        case Ok(values) => Builtin(env, op, values, r.frame, r.store)
        case _ => Stop(r)
  }

  /**
   If, Or and And: evaluates the first argument and then the one its truth selects. Selecting argument 0 means
   keeping the value already there.
   */
  function Choose(env: Env, fuel: nat, args: seq<Form>, whenTrue: nat, whenFalse: nat, frame: Frame,
      store: Store): Run<Value>
    decreases fuel, args, 1
  {
    if args == [] then Run(Panicked, frame, store)
    else
      var r := Eval(env, fuel, args[0], frame, store);
      if !r.outcome.Ok? then r
      else if r.outcome.value.Nil? then r.(outcome := Panicked)
      else
        var k := if IsTruthy(r.outcome.value) then whenTrue else whenFalse;
        if k == 0 then r
        else if k >= |args| then r.(outcome := Panicked)
        else Eval(env, fuel, args[k], r.frame, r.store)
  }

  /** Evaluates forms from left to right; a value beyond `room` is evaluated and then has no slot. */
  function EvalList(env: Env, fuel: nat, forms: seq<Form>, room: nat, frame: Frame, store: Store): (r: Run<seq<Value>>)
    ensures r.outcome.Ok? ==> |r.outcome.value| == |forms| <= room
    decreases fuel, forms, 1
  {
    if forms == [] then Run(Ok([]), frame, store)
    else
      var r := Eval(env, fuel, forms[0], frame, store);
      match r.outcome
      case Ok(value) =>
        if room == 0 then Run(Panicked, r.frame, r.store)
        else
          var rest := EvalList(env, fuel, forms[1..], room - 1, r.frame, r.store);
          if rest.outcome.Ok? then rest.(outcome := Ok([value] + rest.outcome.value)) else rest
      case _ => Stop(r)
  }

  /** Evaluates as many forms as there are kinds, checking each value before going on. */
  function EvalTyped(env: Env, fuel: nat, forms: seq<Form>, kinds: seq<Kind>, frame: Frame,
      store: Store): (r: Run<seq<Value>>)
    ensures r.outcome.Ok? ==> HaveKinds(r.outcome.value, kinds)
    decreases fuel, forms, 1
  {
    if kinds == [] then Run(Ok([]), frame, store)
    else if forms == [] then Run(Panicked, frame, store)
    else
      var r := Eval(env, fuel, forms[0], frame, store);
      match r.outcome
      case Ok(value) =>
        if !HasKind(value, kinds[0]) then Run(Mismatch(value), r.frame, r.store)
        else
          var rest := EvalTyped(env, fuel, forms[1..], kinds[1..], r.frame, r.store);
          if rest.outcome.Ok? then rest.(outcome := Ok([value] + rest.outcome.value)) else rest
      case _ => Stop(r)
  }

  /** Apply: first the lambda. */
  function EvalApply(env: Env, fuel: nat, args: seq<Form>, frame: Frame, store: Store): Run<Value>
    decreases fuel, args, 3
  {
    if args == [] then Run(Panicked, frame, store)
    else
      var r := Eval(env, fuel, args[0], frame, store);
      if !r.outcome.Ok? then r
      else if !r.outcome.value.Lambda? then r.(outcome := Mismatch(r.outcome.value))
      else Enter(env, fuel, r.outcome.value, args[1..], r.frame, r.store)
  }

  /** Then its arguments in the caller's frame, and the body in a frame of its own. */
  function Enter(env: Env, fuel: nat, fn: Value, given: seq<Form>, frame: Frame, store: Store): Run<Value>
    requires fn.Lambda?
    decreases fuel, given, 2
  {
    var room := if |fn.bound| < MAX_ARGS then MAX_ARGS - |fn.bound| else 0;
    var r := EvalList(env, fuel, given, room, frame, store);
    if !r.outcome.Ok? then Stop(r)
    else if fuel == 0 then Run(OutOfFuel, r.frame, r.store)
    else
      var body := Eval(env, fuel - 1, fn.body, Some(Slots(fn.bound + r.outcome.value)), r.store);
      Run(body.outcome, r.frame, body.store)
  }

  /** The name inside a ref form, which is read as a pattern and not evaluated itself. */
  function RefName(env: Env, fuel: nat, args: seq<Form>, frame: Frame, store: Store): (r: Run<seq<Value>>)
    ensures r.outcome.Ok? ==> |r.outcome.value| == 1 && r.outcome.value[0].Str?
    decreases fuel, args, 2
  {
    if args == [] then Run(Panicked, frame, store)
    else if !args[0].Call? || !args[0].op.GetVariable? then Run(Err(NonRef), frame, store)
    else EvalTyped(env, fuel, args[0].args, [StrValue], frame, store)
  }

  function EvalRef(env: Env, fuel: nat, args: seq<Form>, frame: Frame, store: Store): Run<Value>
    decreases fuel, args, 3
  {
    var r := RefName(env, fuel, args, frame, store);
    match r.outcome
    case Ok(names) => Run(Ok(Lookup(r.store.globals, names[0].s)), r.frame, r.store)
    case _ => Stop(r)
  }

  function WriteRef(env: Env, fuel: nat, args: seq<Form>, frame: Frame, store: Store): Run<Value>
    decreases fuel, args, 3
  {
    var r := RefName(env, fuel, args, frame, store);
    match r.outcome
    case Ok(names) =>
      if |args| < 2 then Run(Panicked, r.frame, r.store)
      else
        var v := Eval(env, fuel, args[1], r.frame, r.store);
        if v.outcome.Ok? then
          Run(Ok(Nothing), v.frame, v.store.(globals := v.store.globals[names[0].s := v.outcome.value]))
        else v
    case _ => Stop(r)
  }

  /** An ordinary builtin on evaluated operands. */
  function Builtin(env: Env, op: Op, v: seq<Value>, frame: Frame, store: Store): Run<Value>
    requires HaveKinds(v, Operands(op))
  {
    assert |v| > 0 ==> HasKind(v[0], Operands(op)[0]);
    assert |v| > 1 ==> HasKind(v[1], Operands(op)[1]);
    match op
    case GetArg =>
      // With no frame in the context the source reads a fresh one.
      var slots := if frame.Some? then frame.value else Slots([]);
      Run(if 0 <= v[0].i < |slots| then Ok(slots[v[0].i]) else Panicked, frame, store)
    case SetArg =>
      if frame.Some? && 0 <= v[0].i < |frame.value| then
        Run(Ok(Nothing), Some(frame.value[v[0].i := v[1]]), store)
      else Run(Panicked, frame, store)
    case BindWithArray => Run(Ok(Lambda(v[0].body, v[1].items)), frame, store)
    case GetVariable => Run(Ok(Variable(store, v[0].s)), frame, store)
    case GetVariableWithScope => Run(Ok(Variable(store, v[0].s)), frame, store)
    case WriteLocalState => Run(Ok(Nothing), frame, store.(locals := store.locals[v[0].s := v[1]]))
    case WriteGlobalStore =>
      Run(if env.rejects(|store.changes|) then Err(BridgeError) else Ok(Nothing), frame,
          store.(globals := store.globals[v[0].s := v[1]], changes := store.changes + [(v[0].s, v[1])]))
    case ArrayLength => Run(Ok(Int(|v[0].items|)), frame, store)
    case MapMake =>
      if |v[0].items| != |v[1].items| then Run(Err(MismatchingLengths), frame, store)
      else (match Zip(v[0].items, v[1].items)
            case Ok(dict) => var (m, store') := NewDict(store, dict); Run(Ok(m), frame, store')
            case Err(e) => Run(Err(e), frame, store)
            case Panicked => Run(Panicked, frame, store)
            case OutOfFuel => Run(OutOfFuel, frame, store))
    case MapGet => Run(Ok(Lookup(DictOf(store, v[0].id), v[1].s)), frame, store)
    case MapMerge =>
      var (m, store') := NewDict(store, DictOf(store, v[0].id) + DictOf(store, v[1].id));
      Run(Ok(m), frame, store')
    case MapPut =>
      if v[0].id < |store.dicts| then
        var id := v[0].id;
        Run(Ok(Nothing), frame, store.(dicts := store.dicts[id := store.dicts[id][v[1].s := v[2]]]))
      else Run(Panicked, frame, store)
    case MapHas => Run(Ok(Bool(v[1].s in DictOf(store, v[0].id))), frame, store)
    case Not => Run(if v[0].Nil? then Panicked else Ok(Bool(!IsTruthy(v[0]))), frame, store)
    case Const => Run(Ok(v[0]), frame, store)
    case LessThan => Run(Ok(Bool(v[0].i < v[1].i)), frame, store)
    case GreaterThan => Run(Ok(Bool(v[0].i > v[1].i)), frame, store)
    case AsNonnull =>
      Run(if v[0].Nil? then Panicked else if v[0].Null? then Err(NullValue) else Ok(v[0]), frame, store)
    case GetScript =>
      Run(if v[0].s in env.scripts then Ok(env.scripts[v[0].s]) else Err(NoSuchScript), frame, store)
    case _ => Run(Err(NotImplemented), frame, store)
  }

  function Variable(store: Store, name: string): Value {
    if name in store.locals then store.locals[name] else Lookup(store.globals, name)
  }
}
