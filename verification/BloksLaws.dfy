/** Laws of the Bloks evaluator. */
module BloksLaws {
  import opened Common
  import opened BloksEval

  // ----- partial application -----

  function ApplyDirect(f: Form, a: seq<Form>, b: seq<Form>): Form {
    Call(Apply, [f] + (a + b))
  }

  function ApplyBound(f: Form, a: seq<Form>, b: seq<Form>): Form {
    Call(Apply, [Call(BindWithArray, [f, Call(ArrayMake, a)])] + b)
  }

  /** The form does not evaluate to a lambda that already carries bound arguments. */
  ghost predicate Unbound(env: Env, fuel: nat, f: Form, frame: Frame, store: Store) {
    var r := Eval(env, fuel, f, frame, store).outcome;
    r.Ok? && r.value.Lambda? ==> r.value.bound == []
  }

  lemma {:induction false} EvalListAppend(env: Env, fuel: nat, a: seq<Form>, b: seq<Form>, room: nat, frame: Frame,
      store: Store)
    requires |a| <= room
    ensures var ra := EvalList(env, fuel, a, |a|, frame, store);
            var rab := EvalList(env, fuel, a + b, room, frame, store);
            if !ra.outcome.Ok? then rab == ra
            else
              var rb := EvalList(env, fuel, b, room - |a|, ra.frame, ra.store);
              rab == if rb.outcome.Ok? then rb.(outcome := Ok(ra.outcome.value + rb.outcome.value)) else rb
  {
    if a == [] {
      assert a + b == b;
      var rb := EvalList(env, fuel, b, room, frame, store);
      if rb.outcome.Ok? {
        assert [] + rb.outcome.value == rb.outcome.value;
      }
    } else {
      assert (a + b)[1..] == a[1..] + b;
      var r := Eval(env, fuel, a[0], frame, store);
      if r.outcome.Ok? {
        EvalListAppend(env, fuel, a[1..], b, room - 1, r.frame, r.store);
        var ra := EvalList(env, fuel, a[1..], |a| - 1, r.frame, r.store);
        if ra.outcome.Ok? {
          var rb := EvalList(env, fuel, b, room - |a|, ra.frame, ra.store);
          if rb.outcome.Ok? {
            var v := [r.outcome.value];
            assert v + (ra.outcome.value + rb.outcome.value) == v + ra.outcome.value + rb.outcome.value;
          }
        }
      }
    }
  }

  lemma {:induction false} EvalTypedOne(env: Env, fuel: nat, forms: seq<Form>, kind: Kind, frame: Frame, store: Store)
    requires forms != []
    ensures var r := Eval(env, fuel, forms[0], frame, store);
            EvalTyped(env, fuel, forms, [kind], frame, store) ==
            if !r.outcome.Ok? then Stop(r)
            else if !HasKind(r.outcome.value, kind) then Run(Mismatch(r.outcome.value), r.frame, r.store)
            else Run(Ok([r.outcome.value]), r.frame, r.store)
  {
    assert [kind][1..] == [];
    var r := Eval(env, fuel, forms[0], frame, store);
    if r.outcome.Ok? {
      assert [r.outcome.value] + [] == [r.outcome.value];
    }
  }

  lemma {:induction false} EvalTypedTwo(env: Env, fuel: nat, one: Form, two: Form, kind: Kind, kind': Kind,
      frame: Frame, store: Store)
    ensures var r := Eval(env, fuel, one, frame, store);
            EvalTyped(env, fuel, [one, two], [kind, kind'], frame, store) ==
            if !r.outcome.Ok? then Stop(r)
            else if !HasKind(r.outcome.value, kind) then Run(Mismatch(r.outcome.value), r.frame, r.store)
            else
              var r' := Eval(env, fuel, two, r.frame, r.store);
              if !r'.outcome.Ok? then Stop(r')
              else if !HasKind(r'.outcome.value, kind') then Run(Mismatch(r'.outcome.value), r'.frame, r'.store)
              else Run(Ok([r.outcome.value, r'.outcome.value]), r'.frame, r'.store)
  {
    var r := Eval(env, fuel, one, frame, store);
    assert [one, two][1..] == [two] && [kind, kind'][1..] == [kind'];
    if r.outcome.Ok? {
      EvalTypedOne(env, fuel, [two], kind', r.frame, r.store);
      var r' := Eval(env, fuel, two, r.frame, r.store);
      if r'.outcome.Ok? {
        assert [r.outcome.value] + [r'.outcome.value] == [r.outcome.value, r'.outcome.value];
      }
    }
  }

  lemma {:induction false} EvalMake(env: Env, fuel: nat, a: seq<Form>, frame: Frame, store: Store)
    ensures var r := EvalList(env, fuel, a, |a|, frame, store);
            Eval(env, fuel, Call(ArrayMake, a), frame, store) ==
            if r.outcome.Ok? then Run(Ok(Arr(r.outcome.value)), r.frame, r.store) else Stop(r)
  {
  }

  lemma {:induction false} EvalBindOf(env: Env, fuel: nat, forms: seq<Form>, frame: Frame, store: Store)
    ensures var r := EvalTyped(env, fuel, forms, [LambdaValue, ArrValue], frame, store);
            Eval(env, fuel, Call(BindWithArray, forms), frame, store) ==
            if !r.outcome.Ok? then Stop(r)
            else Run(Ok(Lambda(r.outcome.value[0].body, r.outcome.value[1].items)), r.frame, r.store)
  {
  }

  /** Binding the values of `a` to an unbound lambda: the function, then the array, then a closure over both. */
  lemma {:induction false} EvalBind(env: Env, fuel: nat, f: Form, a: seq<Form>, frame: Frame, store: Store)
    ensures var rf := Eval(env, fuel, f, frame, store);
            var bind := Eval(env, fuel, Call(BindWithArray, [f, Call(ArrayMake, a)]), frame, store);
            if !rf.outcome.Ok? then bind == rf
            else if !rf.outcome.value.Lambda? then
              bind == rf.(outcome := Mismatch(rf.outcome.value))
            else
              var ra := EvalList(env, fuel, a, |a|, rf.frame, rf.store);
              if !ra.outcome.Ok? then bind == Stop(ra)
              else bind == Run(Ok(Lambda(rf.outcome.value.body, ra.outcome.value)), ra.frame, ra.store)
  {
    var make := Call(ArrayMake, a);
    var rf := Eval(env, fuel, f, frame, store);
    EvalTypedTwo(env, fuel, f, make, LambdaValue, ArrValue, frame, store);
    EvalMake(env, fuel, a, rf.frame, rf.store);
    EvalBindOf(env, fuel, [f, make], frame, store);
  }

  lemma {:induction false} EvalCall(env: Env, fuel: nat, fn: Form, given: seq<Form>, frame: Frame, store: Store)
    ensures var r := Eval(env, fuel, fn, frame, store);
            var call := Eval(env, fuel, Call(Apply, [fn] + given), frame, store);
            if !r.outcome.Ok? then call == r
            else if !r.outcome.value.Lambda? then call == r.(outcome := Mismatch(r.outcome.value))
            else call == Enter(env, fuel, r.outcome.value, given, r.frame, r.store)
  {
    assert ([fn] + given)[1..] == given;
  }

  /**
   Binding arguments first and applying later gives the result, the error and the final state of applying to all
   arguments at once.
   */
  lemma {:induction false} PartialApplication(env: Env, fuel: nat, f: Form, a: seq<Form>, b: seq<Form>, frame: Frame,
      store: Store)
    requires |a| <= MAX_ARGS && Unbound(env, fuel, f, frame, store)
    ensures Eval(env, fuel, ApplyBound(f, a, b), frame, store) == Eval(env, fuel, ApplyDirect(f, a, b), frame, store)
  {
    var bind := Call(BindWithArray, [f, Call(ArrayMake, a)]);
    EvalBind(env, fuel, f, a, frame, store);
    EvalCall(env, fuel, bind, b, frame, store);
    EvalCall(env, fuel, f, a + b, frame, store);
    var rf := Eval(env, fuel, f, frame, store);
    if rf.outcome.Ok? && rf.outcome.value.Lambda? {
      EvalListAppend(env, fuel, a, b, MAX_ARGS, rf.frame, rf.store);
      var ra := EvalList(env, fuel, a, |a|, rf.frame, rf.store);
      if ra.outcome.Ok? {
        var rb := EvalList(env, fuel, b, MAX_ARGS - |a|, ra.frame, ra.store);
        if rb.outcome.Ok? {
          assert [] + (ra.outcome.value + rb.outcome.value) == ra.outcome.value + rb.outcome.value;
        }
      }
    }
  }

  // Beyond 100 bound arguments the law fails: binding drops the surplus, applying has no slot for it.

  lemma {:induction false} EvalLiterals(env: Env, fuel: nat, n: nat, room: nat, frame: Frame, store: Store)
    ensures EvalList(env, fuel, seq(n, _ => Literal(Null)), room, frame, store) ==
            Run(if n <= room then Ok(seq(n, _ => Null)) else Panicked, frame, store)
    decreases n
  {
    var forms := seq(n, _ => Literal(Null));
    if n > 0 {
      assert forms[1..] == seq(n - 1, _ => Literal(Null));
      if room > 0 {
        EvalLiterals(env, fuel, n - 1, room - 1, frame, store);
        assert [Null] + seq(n - 1, _ => Null) == seq(n, _ => Null);
      }
    } else {
      assert forms == [];
      assert seq(n, _ => Null) == [];
    }
  }

  ghost predicate PartialApplicationHolds(n: nat) {
    forall env, fuel, f, a: seq<Form>, b, frame, store ::
      |a| == n && Unbound(env, fuel, f, frame, store) ==>
        Eval(env, fuel, ApplyBound(f, a, b), frame, store) == Eval(env, fuel, ApplyDirect(f, a, b), frame, store)
  }

  lemma {:induction false} SurplusArgumentsDiffer(n: nat, env: Env, store: Store)
    requires n > MAX_ARGS
    ensures var f, a := Literal(Lambda(Literal(Null), [])), seq(n, _ => Literal(Null));
            && Eval(env, 1, ApplyDirect(f, a, []), None, store).outcome == Panicked
            && Eval(env, 1, ApplyBound(f, a, []), None, store).outcome == Ok(Null)
  {
    var f, a := Literal(Lambda(Literal(Null), [])), seq(n, _ => Literal(Null));
    assert a + [] == a;
    EvalLiterals(env, 1, n, MAX_ARGS, None, store);
    EvalLiterals(env, 1, n, n, None, store);
    EvalBind(env, 1, f, a, None, store);
    EvalCall(env, 1, Call(BindWithArray, [f, Call(ArrayMake, a)]), [], None, store);
    EvalCall(env, 1, f, a + [], None, store);
  }

  /** The law of partial application holds for exactly those numbers of bound arguments that the frame has slots for. */
  lemma {:induction false} PartialApplicationExactly(n: nat)
    ensures PartialApplicationHolds(n) <==> n <= MAX_ARGS
  {
    if n <= MAX_ARGS {
      forall env, fuel, f, a: seq<Form>, b, frame, store | |a| == n && Unbound(env, fuel, f, frame, store)
        ensures Eval(env, fuel, ApplyBound(f, a, b), frame, store) == Eval(env, fuel, ApplyDirect(f, a, b), frame, store)
      {
        PartialApplication(env, fuel, f, a, b, frame, store);
      }
    } else {
      var env := Env(map[], (k: nat) => false);
      var store := Store(map[], map[], [], []);
      SurplusArgumentsDiffer(n, env, store);
      var f, a := Literal(Lambda(Literal(Null), [])), seq(n, _ => Literal(Null));
      assert Unbound(env, 1, f, None, store);
      assert Eval(env, 1, ApplyBound(f, a, []), None, store) != Eval(env, 1, ApplyDirect(f, a, []), None, store);
    }
  }

  lemma {:induction false} EvalListOne(env: Env, fuel: nat, value: Value, room: nat, frame: Frame, store: Store)
    requires room > 0
    ensures EvalList(env, fuel, [Literal(value)], room, frame, store) == Run(Ok([value]), frame, store)
  {
    assert [Literal(value)][1..] == [];
    assert [value] + [] == [value];
  }

  /** And only for a lambda with nothing bound yet: binding replaces earlier bound arguments, it does not add to them. */
  lemma {:induction false} BindingTwiceReplaces(env: Env, x: Value, y: Value, store: Store)
    requires x != y
    ensures var first := Literal(Lambda(Call(GetArg, [Literal(Int(0))]), [x]));
            && Eval(env, 1, ApplyDirect(first, [Literal(y)], []), None, store).outcome == Ok(x)
            && Eval(env, 1, ApplyBound(first, [Literal(y)], []), None, store).outcome == Ok(y)
  {
    var getFirst := Call(GetArg, [Literal(Int(0))]);
    var first := Literal(Lambda(getFirst, [x]));
    EvalListOne(env, 1, y, 99, None, store);
    EvalListOne(env, 1, y, 1, None, store);
    assert [Literal(y)] + [] == [Literal(y)];
    EvalBind(env, 1, first, [Literal(y)], None, store);
    EvalCall(env, 1, Call(BindWithArray, [first, Call(ArrayMake, [Literal(y)])]), [], None, store);
    EvalCall(env, 1, first, [Literal(y)], None, store);
    assert [Literal(y)][1..] == [];
    forall slots: seq<Value> | |slots| == MAX_ARGS
      ensures Eval(env, 0, getFirst, Some(slots), store).outcome == Ok(slots[0])
    {
      EvalTypedOne(env, 0, getFirst.args, IntValue, Some(slots), store);
    }
    assert ([x] + [y])[0] == x && ([y] + [])[0] == y;
  }

  // ----- fuel -----

  ghost predicate Ended<T>(r: Run<T>) {
    !r.outcome.OutOfFuel?
  }

  lemma {:induction false} MoreFuel(env: Env, fuel: nat, form: Form, frame: Frame, store: Store)
    requires Ended(Eval(env, fuel, form, frame, store))
    ensures Eval(env, fuel + 1, form, frame, store) == Eval(env, fuel, form, frame, store)
    decreases fuel, form, 2
  {
    match form {
      case Literal(_) =>
      case Call(op, args) =>
        match op {
          case If => MoreFuelChoose(env, fuel, args, 1, 2, frame, store);
          case Or => MoreFuelChoose(env, fuel, args, 0, 1, frame, store);
          case And => MoreFuelChoose(env, fuel, args, 1, 0, frame, store);
          case TakeLast => MoreFuelList(env, fuel, args, |args|, frame, store);
          case ArrayMake => MoreFuelList(env, fuel, args, |args|, frame, store);
          case Apply => MoreFuelApply(env, fuel, args, frame, store);
          case RefRead => MoreFuelRef(env, fuel, args, frame, store);
          case RefWrite => MoreFuelWriteRef(env, fuel, args, frame, store);
          case FuncConst =>
          case Unimplemented =>
          case _ => MoreFuelTyped(env, fuel, args, Operands(op), frame, store);
        }
    }
  }

  lemma {:induction false} MoreFuelChoose(env: Env, fuel: nat, args: seq<Form>, whenTrue: nat, whenFalse: nat,
      frame: Frame, store: Store)
    requires Ended(Choose(env, fuel, args, whenTrue, whenFalse, frame, store))
    ensures Choose(env, fuel + 1, args, whenTrue, whenFalse, frame, store) == Choose(env, fuel, args, whenTrue, whenFalse, frame, store)
    decreases fuel, args, 1
  {
    if args != [] {
      MoreFuel(env, fuel, args[0], frame, store);
      var r := Eval(env, fuel, args[0], frame, store);
      if r.outcome.Ok? && !r.outcome.value.Nil? {
        var k := if IsTruthy(r.outcome.value) then whenTrue else whenFalse;
        if 0 < k < |args| {
          MoreFuel(env, fuel, args[k], r.frame, r.store);
        }
      }
    }
  }

  lemma {:induction false} MoreFuelList(env: Env, fuel: nat, forms: seq<Form>, room: nat, frame: Frame, store: Store)
    requires Ended(EvalList(env, fuel, forms, room, frame, store))
    ensures EvalList(env, fuel + 1, forms, room, frame, store) == EvalList(env, fuel, forms, room, frame, store)
    decreases fuel, forms, 1
  {
    if forms != [] {
      MoreFuel(env, fuel, forms[0], frame, store);
      var r := Eval(env, fuel, forms[0], frame, store);
      if r.outcome.Ok? && room > 0 {
        MoreFuelList(env, fuel, forms[1..], room - 1, r.frame, r.store);
      }
    }
  }

  lemma {:induction false} MoreFuelTyped(env: Env, fuel: nat, forms: seq<Form>, kinds: seq<Kind>, frame: Frame, store: Store)
    requires Ended(EvalTyped(env, fuel, forms, kinds, frame, store))
    ensures EvalTyped(env, fuel + 1, forms, kinds, frame, store) == EvalTyped(env, fuel, forms, kinds, frame, store)
    decreases fuel, forms, 1
  {
    if forms != [] && kinds != [] {
      MoreFuel(env, fuel, forms[0], frame, store);
      var r := Eval(env, fuel, forms[0], frame, store);
      if r.outcome.Ok? && HasKind(r.outcome.value, kinds[0]) {
        MoreFuelTyped(env, fuel, forms[1..], kinds[1..], r.frame, r.store);
      }
    }
  }

  lemma {:induction false} MoreFuelApply(env: Env, fuel: nat, args: seq<Form>, frame: Frame, store: Store)
    requires Ended(EvalApply(env, fuel, args, frame, store))
    ensures EvalApply(env, fuel + 1, args, frame, store) == EvalApply(env, fuel, args, frame, store)
    decreases fuel, args, 3
  {
    if args != [] {
      MoreFuel(env, fuel, args[0], frame, store);
      var r := Eval(env, fuel, args[0], frame, store);
      if r.outcome.Ok? && r.outcome.value.Lambda? {
        MoreFuelEnter(env, fuel, r.outcome.value, args[1..], r.frame, r.store);
      }
    }
  }

  lemma {:induction false} MoreFuelEnter(env: Env, fuel: nat, fn: Value, given: seq<Form>, frame: Frame, store: Store)
    requires fn.Lambda? && Ended(Enter(env, fuel, fn, given, frame, store))
    ensures Enter(env, fuel + 1, fn, given, frame, store) == Enter(env, fuel, fn, given, frame, store)
    decreases fuel, given, 2
  {
    var room := if |fn.bound| < MAX_ARGS then MAX_ARGS - |fn.bound| else 0;
    MoreFuelList(env, fuel, given, room, frame, store);
    var r := EvalList(env, fuel, given, room, frame, store);
    if r.outcome.Ok? {
      MoreFuel(env, fuel - 1, fn.body, Some(Slots(fn.bound + r.outcome.value)), r.store);
    }
  }

  lemma {:induction false} MoreFuelRefName(env: Env, fuel: nat, args: seq<Form>, frame: Frame, store: Store)
    requires Ended(RefName(env, fuel, args, frame, store))
    ensures RefName(env, fuel + 1, args, frame, store) == RefName(env, fuel, args, frame, store)
    decreases fuel, args, 2
  {
    if args != [] && args[0].Call? && args[0].op.GetVariable? {
      MoreFuelTyped(env, fuel, args[0].args, [StrValue], frame, store);
    }
  }

  lemma {:induction false} MoreFuelRef(env: Env, fuel: nat, args: seq<Form>, frame: Frame, store: Store)
    requires Ended(EvalRef(env, fuel, args, frame, store))
    ensures EvalRef(env, fuel + 1, args, frame, store) == EvalRef(env, fuel, args, frame, store)
    decreases fuel, args, 3
  {
    MoreFuelRefName(env, fuel, args, frame, store);
  }

  lemma {:induction false} MoreFuelWriteRef(env: Env, fuel: nat, args: seq<Form>, frame: Frame, store: Store)
    requires Ended(WriteRef(env, fuel, args, frame, store))
    ensures WriteRef(env, fuel + 1, args, frame, store) == WriteRef(env, fuel, args, frame, store)
    decreases fuel, args, 3
  {
    MoreFuelRefName(env, fuel, args, frame, store);
    var r := RefName(env, fuel, args, frame, store);
    if r.outcome.Ok? && |args| >= 2 {
      MoreFuel(env, fuel, args[1], r.frame, r.store);
    }
  }

  /** A run that ends within its fuel ends the same way with any larger amount. */
  lemma {:induction false} FuelIsOnlyABound(env: Env, fuel: nat, more: nat, form: Form, frame: Frame, store: Store)
    requires fuel <= more && !Eval(env, fuel, form, frame, store).outcome.OutOfFuel?
    ensures Eval(env, more, form, frame, store) == Eval(env, fuel, form, frame, store)
    decreases more - fuel
  {
    if fuel < more {
      MoreFuel(env, fuel, form, frame, store);
      FuelIsOnlyABound(env, fuel + 1, more, form, frame, store);
    }
  }
}
