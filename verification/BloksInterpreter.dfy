/**
 The Bloks interpreter as the source runs it: variables, maps and argument frames are mutable, and every frame is
 an array. Evaluate computes what BloksEval says, and its modifies clause is the frame isolation law: whatever the
 script, it writes the interpreter and the one frame it was given. The frame of an Apply is allocated inside, so
 while a lambda body runs, no slot of the caller's frame, or of any frame further out, is within its reach.
 */
module BloksInterpreter {
  import opened Common
  import opened BloksEval

  ghost predicate IsFrame(slots: array?<Value>) {
    slots != null ==> slots.Length == MAX_ARGS
  }

  ghost function FrameOf(slots: array?<Value>): Frame
    reads slots
  {
    if slots == null then None else Some(slots[..])
  }

  class Interpreter {
    const env: Env
    var locals: Dict
    var globals: Dict
    var dicts: seq<Dict>
    var changes: seq<(string, Value)>

    constructor (env: Env, locals: Dict, globals: Dict)
      ensures this.env == env && State() == Store(locals, globals, [], [])
    {
      this.env := env;
      this.locals, this.globals := locals, globals;
      this.dicts, this.changes := [], [];
    }

    ghost function State(): Store
      reads this
    {
      Store(locals, globals, dicts, changes)
    }

    method Evaluate(fuel: nat, form: Form, slots: array?<Value>) returns (r: Outcome<Value>)
      requires IsFrame(slots)
      modifies this, slots
      ensures Run(r, FrameOf(slots), State()) == Eval(env, fuel, form, old(FrameOf(slots)), old(State()))
      decreases fuel, form, 2
    {
      match form {
        case Literal(value) =>
          return Ok(value);
        case Call(op, args) =>
          if op.If? {
            r := Branch(fuel, args, 1, 2, slots);
          } else if op.Or? {
            r := Branch(fuel, args, 0, 1, slots);
          } else if op.And? {
            r := Branch(fuel, args, 1, 0, slots);
          } else if op.TakeLast? || op.ArrayMake? {
            var vs := EvaluateList(fuel, args, |args|, slots);
            if !vs.Ok? {
              return Abort(vs);
            }
            r := Ok(if op.ArrayMake? then Arr(vs.value) else if args == [] then Nil else vs.value[|args| - 1]);
          } else if op.Apply? {
            r := EvaluateApply(fuel, args, slots);
          } else if op.FuncConst? {
            r := if args == [] then Panicked else Ok(Lambda(args[0], []));
          } else if op.RefRead? {
            var name := ReadRefName(fuel, args, slots);
            r := if !name.Ok? then Abort(name) else Ok(Lookup(globals, name.value[0].s));
          } else if op.RefWrite? {
            r := AssignRef(fuel, args, slots);
          } else if op.Unimplemented? {
            r := Err(NotImplemented);
          } else {
            var vs := EvaluateTyped(fuel, args, Operands(op), slots);
            if !vs.Ok? {
              return Abort(vs);
            }
            r := RunBuiltin(op, vs.value, slots);
          }
      }
    }

    method Branch(fuel: nat, args: seq<Form>, whenTrue: nat, whenFalse: nat,
        slots: array?<Value>) returns (r: Outcome<Value>)
      requires IsFrame(slots)
      modifies this, slots
      ensures Run(r, FrameOf(slots), State()) ==
              Choose(env, fuel, args, whenTrue, whenFalse, old(FrameOf(slots)), old(State()))
      decreases fuel, args, 1
    {
      if args == [] {
        return Panicked;
      }
      r := Evaluate(fuel, args[0], slots);
      if r.Ok? {
        if r.value.Nil? {
          return Panicked;
        }
        var k := if IsTruthy(r.value) then whenTrue else whenFalse;
        if k >= |args| && k != 0 {
          return Panicked;
        }
        if k != 0 {
          r := Evaluate(fuel, args[k], slots);
        }
      }
    }

    method EvaluateList(fuel: nat, forms: seq<Form>, room: nat, slots: array?<Value>) returns (r: Outcome<seq<Value>>)
      requires IsFrame(slots)
      modifies this, slots
      ensures Run(r, FrameOf(slots), State()) ==
              EvalList(env, fuel, forms, room, old(FrameOf(slots)), old(State()))
      decreases fuel, forms, 1
    {
      var values: seq<Value> := [];
      var k := 0;
      ghost var whole := EvalList(env, fuel, forms, room, FrameOf(slots), State());
      assert forms[0..] == forms;
      PrependNone(whole);
      while k < |forms|
        invariant 0 <= k == |values| <= |forms| && k <= room
        invariant whole == Prepend(values, EvalList(env, fuel, forms[k..], room - k, FrameOf(slots), State()))
      {
        ghost var here := EvalList(env, fuel, forms[k..], room - k, FrameOf(slots), State());
        var v := Evaluate(fuel, forms[k], slots);
        assert forms[k..][1..] == forms[k + 1..];
        if !v.Ok? {
          return Abort(v);
        }
        if k == room {
          return Panicked;
        }
        ghost var rest := EvalList(env, fuel, forms[k + 1..], room - k - 1, FrameOf(slots), State());
        assert here == Prepend([v.value], rest);
        PrependMore(values, v.value, rest);
        values := values + [v.value];
        k := k + 1;
      }
      assert values + [] == values;
      return Ok(values);
    }

    method EvaluateTyped(fuel: nat, forms: seq<Form>, kinds: seq<Kind>,
        slots: array?<Value>) returns (r: Outcome<seq<Value>>)
      requires IsFrame(slots)
      modifies this, slots
      ensures Run(r, FrameOf(slots), State()) ==
              EvalTyped(env, fuel, forms, kinds, old(FrameOf(slots)), old(State()))
      decreases fuel, forms, 1
    {
      if kinds == [] {
        return Ok([]);
      }
      if forms == [] {
        return Panicked;
      }
      var v := Evaluate(fuel, forms[0], slots);
      if !v.Ok? {
        return Abort(v);
      }
      if !HasKind(v.value, kinds[0]) {
        return Mismatch(v.value);
      }
      r := EvaluateTyped(fuel, forms[1..], kinds[1..], slots);
      if r.Ok? {
        r := Ok([v.value] + r.value);
      }
    }

    method EvaluateApply(fuel: nat, args: seq<Form>, slots: array?<Value>) returns (r: Outcome<Value>)
      requires IsFrame(slots)
      modifies this, slots
      ensures Run(r, FrameOf(slots), State()) == EvalApply(env, fuel, args, old(FrameOf(slots)), old(State()))
      decreases fuel, args, 3
    {
      if args == [] {
        return Panicked;
      }
      r := Evaluate(fuel, args[0], slots);
      if r.Ok? {
        if r.value.Lambda? {
          r := EnterBody(fuel, r.value, args[1..], slots);
        } else {
          r := Mismatch(r.value);
        }
      }
    }

    method EnterBody(fuel: nat, fn: Value, given: seq<Form>, slots: array?<Value>) returns (r: Outcome<Value>)
      requires IsFrame(slots) && fn.Lambda?
      modifies this, slots
      ensures Run(r, FrameOf(slots), State()) == Enter(env, fuel, fn, given, old(FrameOf(slots)), old(State()))
      decreases fuel, given, 2
    {
      var bound := fn.bound;
      var newArgs := new Value[MAX_ARGS](i requires 0 <= i => if i < |bound| then bound[i] else Nil);
      assert bound + [] == bound;
      assert newArgs[..] == Slots(bound);
      var values := StoreArguments(fuel, |bound|, given, slots, newArgs, bound);
      if !values.Ok? {
        return Abort(values);
      }
      if fuel == 0 {
        return OutOfFuel;
      }
      r := Evaluate(fuel - 1, fn.body, newArgs);
    }

    /** Evaluates the arguments in the caller's frame, each into its slot; an argument without a slot panics there. */
    method StoreArguments(fuel: nat, first: nat, given: seq<Form>, slots: array?<Value>, newArgs: array<Value>,
        ghost bound: seq<Value>)
      returns (r: Outcome<()>)
      requires IsFrame(slots) && newArgs != slots && newArgs.Length == MAX_ARGS
      requires first == |bound| && newArgs[..] == Slots(bound)
      modifies this, slots, newArgs
      ensures var room := if |bound| < MAX_ARGS then MAX_ARGS - |bound| else 0;
              var list := EvalList(env, fuel, given, room, old(FrameOf(slots)), old(State()));
              && FrameOf(slots) == list.frame && State() == list.store
              && (r.Ok? <==> list.outcome.Ok?) && (!r.Ok? ==> Abort(list.outcome) == r)
              && (r.Ok? ==> newArgs[..] == Slots(bound + list.outcome.value))
      decreases fuel, given, 1
    {
      ghost var room := if |bound| < MAX_ARGS then MAX_ARGS - |bound| else 0;
      ghost var whole := EvalList(env, fuel, given, room, FrameOf(slots), State());
      ghost var values: seq<Value> := [];
      var k := 0;
      assert given[0..] == given && bound + values == bound;
      PrependNone(whole);
      while k < |given|
        invariant 0 <= k == |values| <= |given| && k <= room
        invariant whole == Prepend(values, EvalList(env, fuel, given[k..], room - k, FrameOf(slots), State()))
        invariant newArgs[..] == Slots(bound + values)
      {
        EvalListNext(env, fuel, given, k, room - k, FrameOf(slots), State(), values);
        var v := Evaluate(fuel, given[k], slots);
        if !v.Ok? {
          return Abort(v);
        }
        if first + k >= newArgs.Length {
          return Panicked;
        }
        NextSlot(bound, values, v.value);
        ghost var before := newArgs[..];
        newArgs[first + k] := v.value;
        assert newArgs[..] == before[first + k := v.value];
        values := values + [v.value];
        k := k + 1;
      }
      assert values + [] == values;
      return Ok(());
    }

    method ReadRefName(fuel: nat, args: seq<Form>, slots: array?<Value>) returns (r: Outcome<seq<Value>>)
      requires IsFrame(slots)
      modifies this, slots
      ensures Run(r, FrameOf(slots), State()) == RefName(env, fuel, args, old(FrameOf(slots)), old(State()))
      decreases fuel, args, 2
    {
      if args == [] {
        return Panicked;
      }
      if !args[0].Call? || !args[0].op.GetVariable? {
        return Err(NonRef);
      }
      r := EvaluateTyped(fuel, args[0].args, [StrValue], slots);
    }

    method AssignRef(fuel: nat, args: seq<Form>, slots: array?<Value>) returns (r: Outcome<Value>)
      requires IsFrame(slots)
      modifies this, slots
      ensures Run(r, FrameOf(slots), State()) == WriteRef(env, fuel, args, old(FrameOf(slots)), old(State()))
      decreases fuel, args, 3
    {
      var name := ReadRefName(fuel, args, slots);
      if !name.Ok? {
        return Abort(name);
      }
      if |args| < 2 {
        return Panicked;
      }
      r := Evaluate(fuel, args[1], slots);
      if r.Ok? {
        globals := globals[name.value[0].s := r.value];
        r := Ok(Nothing);
      }
    }

    method RunBuiltin(op: Op, v: seq<Value>, slots: array?<Value>) returns (r: Outcome<Value>)
      requires IsFrame(slots) && HaveKinds(v, Operands(op))
      modifies this, slots
      ensures Run(r, FrameOf(slots), State()) == Builtin(env, op, v, old(FrameOf(slots)), old(State()))
    {
      assert |v| > 0 ==> HasKind(v[0], Operands(op)[0]);
      assert |v| > 1 ==> HasKind(v[1], Operands(op)[1]);
      match op {
        case SetArg =>
          if slots == null || !(0 <= v[0].i < slots.Length) {
            return Panicked;
          }
          slots[v[0].i] := v[1];
          return Ok(Nothing);
        case WriteLocalState =>
          locals := locals[v[0].s := v[1]];
          return Ok(Nothing);
        case WriteGlobalStore =>
          globals := globals[v[0].s := v[1]];
          var rejected := env.rejects(|changes|);
          changes := changes + [(v[0].s, v[1])];
          return if rejected then Err(BridgeError) else Ok(Nothing);
        case MapMake =>
          if |v[0].items| != |v[1].items| {
            return Err(MismatchingLengths);
          }
          var dict := Zip(v[0].items, v[1].items);
          if !dict.Ok? {
            return Abort(dict);
          }
          dicts := dicts + [dict.value];
          return Ok(Map(|dicts| - 1));
        case MapMerge =>
          var first := if v[0].id < |dicts| then dicts[v[0].id] else map[];
          var second := if v[1].id < |dicts| then dicts[v[1].id] else map[];
          dicts := dicts + [first + second];
          return Ok(Map(|dicts| - 1));
        case MapPut =>
          var id := v[0].id;
          if id >= |dicts| {
            return Panicked;
          }
          dicts := dicts[id := dicts[id][v[1].s := v[2]]];
          return Ok(Nothing);
        case GetArg =>
          if slots == null {
            return if 0 <= v[0].i < MAX_ARGS then Ok(Nil) else Panicked;
          }
          return if 0 <= v[0].i < slots.Length then Ok(slots[v[0].i]) else Panicked;
        case _ =>
          var store := Store(locals, globals, dicts, changes);
          return Builtin(env, op, v, None, store).outcome;
      }
    }
  }

  function Abort<T, U>(o: Outcome<T>): (r: Outcome<U>)
    requires !o.Ok?
  {
    match o
    case Err(e) => Err(e)
    case Panicked => Panicked
    case OutOfFuel => OutOfFuel
  }

  function Prepend(front: seq<Value>, r: Run<seq<Value>>): Run<seq<Value>> {
    if r.outcome.Ok? then r.(outcome := Ok(front + r.outcome.value)) else r
  }

  lemma {:induction false} Associative(a: seq<Value>, b: seq<Value>, c: seq<Value>)
    ensures a + b + c == a + (b + c)
  {
  }

  lemma {:induction false} SlotsGrow(values: seq<Value>, v: Value)
    requires |values| < MAX_ARGS
    ensures Slots(values)[|values| := v] == Slots(values + [v])
  {
  }

  lemma {:induction false} NextSlot(bound: seq<Value>, values: seq<Value>, v: Value)
    requires |bound| + |values| < MAX_ARGS
    ensures Slots(bound + values)[|bound| + |values| := v] == Slots(bound + (values + [v]))
  {
    SlotsGrow(bound + values, v);
    Associative(bound, values, [v]);
  }

  lemma {:induction false} PrependNone(r: Run<seq<Value>>)
    ensures Prepend([], r) == r
  {
    if r.outcome.Ok? {
      assert [] + r.outcome.value == r.outcome.value;
    }
  }

  /** One turn of the loop over the arguments. */
  lemma {:induction false} EvalListNext(env: Env, fuel: nat, forms: seq<Form>, k: nat, room: nat, frame: Frame, store: Store,
      done: seq<Value>)
    requires k < |forms|
    ensures var r := Eval(env, fuel, forms[k], frame, store);
      Prepend(done, EvalList(env, fuel, forms[k..], room, frame, store)) ==
      match r.outcome
      case Ok(value) =>
        if room == 0 then Run(Panicked, r.frame, r.store)
        else Prepend(done + [value], EvalList(env, fuel, forms[k + 1..], room - 1, r.frame, r.store))
      case _ => Stop(r)
  {
    var r := Eval(env, fuel, forms[k], frame, store);
    assert forms[k..][0] == forms[k] && forms[k..][1..] == forms[k + 1..];
    if r.outcome.Ok? && room > 0 {
      PrependMore(done, r.outcome.value, EvalList(env, fuel, forms[k + 1..], room - 1, r.frame, r.store));
    }
  }

  lemma {:induction false} PrependMore(front: seq<Value>, v: Value, r: Run<seq<Value>>)
    ensures Prepend(front, Prepend([v], r)) == Prepend(front + [v], r)
  {
    if r.outcome.Ok? {
      assert front + ([v] + r.outcome.value) == front + [v] + r.outcome.value;
    }
  }
}
