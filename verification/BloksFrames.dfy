/** Frame isolation: a lambda's body has a frame of its own, and no form but SetArg writes to the frame it runs in. */
module BloksFrames {
  import opened Common
  import opened BloksEval
  import opened BloksLaws

  /** No SetArg outside of function bodies, which FuncConst does not evaluate. */
  predicate KeepsFrame(form: Form) {
    match form
    case Literal(_) => true
    case Call(op, args) => op.FuncConst? || (!op.SetArg? && AllKeepFrame(args))
  }

  predicate AllKeepFrame(forms: seq<Form>) {
    forall form :: form in forms ==> KeepsFrame(form)
  }

  lemma {:induction false} FrameIsKept(env: Env, fuel: nat, form: Form, frame: Frame, store: Store)
    requires KeepsFrame(form)
    ensures Eval(env, fuel, form, frame, store).frame == frame
    decreases form, 2
  {
    match form {
      case Literal(_) =>
      case Call(op, args) =>
        match op {
          case If => ChooseKeepsFrame(env, fuel, args, 1, 2, frame, store);
          case Or => ChooseKeepsFrame(env, fuel, args, 0, 1, frame, store);
          case And => ChooseKeepsFrame(env, fuel, args, 1, 0, frame, store);
          case TakeLast => ListKeepsFrame(env, fuel, args, |args|, frame, store);
          case ArrayMake => ListKeepsFrame(env, fuel, args, |args|, frame, store);
          case Apply => ApplyKeepsFrame(env, fuel, args, frame, store);
          case RefRead => NameKeepsFrame(env, fuel, args, frame, store);
          case RefWrite =>
            NameKeepsFrame(env, fuel, args, frame, store);
            if |args| > 1 {
              FrameIsKept(env, fuel, args[1], frame, RefName(env, fuel, args, frame, store).store);
            }
          case FuncConst =>
          case SetArg =>
          case Unimplemented =>
          case _ => TypedKeepsFrame(env, fuel, args, Operands(op), frame, store);
        }
    }
  }

  lemma {:induction false} ChooseKeepsFrame(env: Env, fuel: nat, args: seq<Form>, whenTrue: nat, whenFalse: nat,
      frame: Frame, store: Store)
    requires AllKeepFrame(args)
    ensures Choose(env, fuel, args, whenTrue, whenFalse, frame, store).frame == frame
    decreases args, 1
  {
    if args != [] {
      FrameIsKept(env, fuel, args[0], frame, store);
      var r := Eval(env, fuel, args[0], frame, store);
      if r.outcome.Ok? && !r.outcome.value.Nil? {
        var k := if IsTruthy(r.outcome.value) then whenTrue else whenFalse;
        if 0 < k < |args| {
          FrameIsKept(env, fuel, args[k], frame, r.store);
        }
      }
    }
  }

  lemma {:induction false} ListKeepsFrame(env: Env, fuel: nat, forms: seq<Form>, room: nat, frame: Frame, store: Store)
    requires AllKeepFrame(forms)
    ensures EvalList(env, fuel, forms, room, frame, store).frame == frame
    decreases forms, 1
  {
    if forms != [] {
      FrameIsKept(env, fuel, forms[0], frame, store);
      if room > 0 {
        ListKeepsFrame(env, fuel, forms[1..], room - 1, frame, Eval(env, fuel, forms[0], frame, store).store);
      }
    }
  }

  lemma {:induction false} TypedKeepsFrame(env: Env, fuel: nat, forms: seq<Form>, kinds: seq<Kind>, frame: Frame,
      store: Store)
    requires AllKeepFrame(forms)
    ensures EvalTyped(env, fuel, forms, kinds, frame, store).frame == frame
    decreases forms, 1
  {
    if forms != [] && kinds != [] {
      FrameIsKept(env, fuel, forms[0], frame, store);
      TypedKeepsFrame(env, fuel, forms[1..], kinds[1..], frame, Eval(env, fuel, forms[0], frame, store).store);
    }
  }

  lemma {:induction false} NameKeepsFrame(env: Env, fuel: nat, args: seq<Form>, frame: Frame, store: Store)
    requires AllKeepFrame(args)
    ensures RefName(env, fuel, args, frame, store).frame == frame
    decreases args, 1
  {
    if args != [] && args[0].Call? && args[0].op.GetVariable? {
      assert KeepsFrame(args[0]);
      TypedKeepsFrame(env, fuel, args[0].args, [StrValue], frame, store);
    }
  }

  /** Whatever lambda is called, and whatever its body writes: the caller's frame is the one its arguments left. */
  lemma {:induction false} ApplyKeepsFrame(env: Env, fuel: nat, args: seq<Form>, frame: Frame, store: Store)
    requires AllKeepFrame(args)
    ensures EvalApply(env, fuel, args, frame, store).frame == frame
    decreases args, 1
  {
    if args != [] {
      FrameIsKept(env, fuel, args[0], frame, store);
      var r := Eval(env, fuel, args[0], frame, store);
      if r.outcome.Ok? && r.outcome.value.Lambda? {
        var bound := r.outcome.value.bound;
        ListKeepsFrame(env, fuel, args[1..], if |bound| < MAX_ARGS then MAX_ARGS - |bound| else 0, frame, r.store);
      }
    }
  }

  /** Calling any lambda, with any nesting of SetArg and Apply in its body, changes no slot of the caller's frame. */
  lemma {:induction false} BodiesLeaveTheCallersFrame(
    env: Env, fuel: nat, body: Form, bound: seq<Value>, given: seq<Form>, frame: Frame, store: Store)
    requires AllKeepFrame(given)
    ensures Eval(env, fuel, Call(Apply, [Literal(Lambda(body, bound))] + given), frame, store).frame == frame
  {
    var args := [Literal(Lambda(body, bound))] + given;
    forall form | form in args ensures KeepsFrame(form) {
      assert form == Literal(Lambda(body, bound)) || form in given;
    }
    FrameIsKept(env, fuel, Call(Apply, args), frame, store);
  }

  /** Where SetArg writes, when both operands have values. */
  ghost predicate Writes(env: Env, fuel: nat, index: Form, value: Form, frame: Frame, store: Store, slots: seq<Value>) {
    var i := Eval(env, fuel, index, frame, store);
    var v := Eval(env, fuel, value, i.frame, i.store);
    i.outcome.Ok? && i.outcome.value.Int? && v.outcome.Ok? && v.frame == Some(slots) && 0 <= i.outcome.value.i < |slots|
  }

  /** SetArg evaluates the index and then the value, and writes one slot of the frame that they leave. */
  lemma {:induction false} SetArgWritesOneSlot(env: Env, fuel: nat, index: Form, value: Form, frame: Frame, store: Store, slots: seq<Value>)
    requires Writes(env, fuel, index, value, frame, store, slots)
    ensures var i := Eval(env, fuel, index, frame, store);
      var v := Eval(env, fuel, value, i.frame, i.store);
      Eval(env, fuel, Call(SetArg, [index, value]), frame, store) ==
      Run(Ok(Nothing), Some(slots[i.outcome.value.i := v.outcome.value]), v.store)
  {
    EvalTypedTwo(env, fuel, index, value, IntValue, AnyValue, frame, store);
  }

  /** And it succeeds in no other way: without a slot to write to it is an error or a panic. */
  lemma {:induction false} SetArgSucceedsExactly(env: Env, fuel: nat, index: Form, value: Form, frame: Frame, store: Store)
    ensures Eval(env, fuel, Call(SetArg, [index, value]), frame, store).outcome.Ok? <==>
      exists slots :: Writes(env, fuel, index, value, frame, store, slots)
  {
    EvalTypedTwo(env, fuel, index, value, IntValue, AnyValue, frame, store);
    var i := Eval(env, fuel, index, frame, store);
    var v := Eval(env, fuel, value, i.frame, i.store);
    if Eval(env, fuel, Call(SetArg, [index, value]), frame, store).outcome.Ok? {
      assert Writes(env, fuel, index, value, frame, store, v.frame.value);
    }
  }
}
