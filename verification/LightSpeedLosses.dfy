/** When handleStoredProcedure loses an argument, and when it does not panic. */
module LightSpeedLosses {
  import opened Common
  import opened Splitting
  import opened LightSpeedRow

  // ----- arguments that are lost -----

  /** Field f is of an unsupported kind, and its turn takes an argument that is not nil. */
  predicate Drops(schema: Schema, f: nat, fields: map<nat, Value>, left: seq<Value>)
    requires f < |schema.fields|
  {
    var t := TargetOf(schema, schema.fields[f], fields);
    schema.fields[f].kind.UnsupportedField? && t.Index? && 0 <= t.i < |left| && !left[t.i].Nil?
  }

  /** Some field from position f on does, when the loop comes to it. */
  predicate DropsFrom(schema: Schema, f: nat, fields: map<nat, Value>, left: seq<Value>)
    requires f <= |schema.fields|
    decreases |schema.fields| - f
  {
    && f < |schema.fields| && TakeTurn(schema, f, fields, left).Go?
    && (Drops(schema, f, fields, left) ||
        DropsFrom(schema, f + 1, TakeTurn(schema, f, fields, left).fields, TakeTurn(schema, f, fields, left).left))
  }

  /** The arguments that are gone are those some field holds, and those that were dropped. */
  ghost predicate Tallied(schema: Schema, args: seq<Value>, f: nat, fields: map<nat, Value>, left: seq<Value>,
      from: map<nat, nat>, dropped: set<nat>)
  {
    && |left| == |args| && from.Values !! dropped
    && (forall k :: 0 <= k < |args| ==> left[k] == if k in from.Values || k in dropped then Nil else args[k])
    && (forall d :: d in dropped ==> d < |args| && !args[d].Nil?)
    && Holds(schema, args, fields, from) && forall g :: g in fields ==> g < f
  }

  lemma {:induction false} SetTallied(schema: Schema, args: seq<Value>, f: nat, fields: map<nat, Value>, left: seq<Value>,
      from: map<nat, nat>, dropped: set<nat>, i: nat)
    requires f < |schema.fields| && Tallied(schema, args, f, fields, left, from, dropped)
    requires i < |args| && !left[i].Nil? && Accepts(schema.fields[f].kind, left[i])
    requires TargetOf(schema, schema.fields[f], fields) == Index(i)
    ensures Tallied(schema, args, f + 1, fields[f := left[i]], left[i := Nil], from[f := i], dropped)
  {
    SetHolds(schema, args, f, fields, from, i);
    OneMoreValue(from, f, i);
  }

  lemma {:induction false} OneMoreValue(from: map<nat, nat>, f: nat, i: nat)
    requires f !in from
    ensures from[f := i].Values == from.Values + {i}
  {
    var from' := from[f := i];
    assert from'[f] == i;
    forall g | g in from ensures from[g] in from'.Values {
      assert from'[g] == from[g];
    }
  }

  lemma {:induction false} TurnIsTallied(schema: Schema, args: seq<Value>, f: nat, fields: map<nat, Value>, left: seq<Value>,
      from: map<nat, nat>, dropped: set<nat>)
    returns (from': map<nat, nat>, dropped': set<nat>)
    requires f < |schema.fields| && Tallied(schema, args, f, fields, left, from, dropped)
    requires TakeTurn(schema, f, fields, left).Go?
    ensures var turn := TakeTurn(schema, f, fields, left);
      Tallied(schema, args, f + 1, turn.fields, turn.left, from', dropped')
    ensures dropped' != {} <==> dropped != {} || Drops(schema, f, fields, left)
  {
    from', dropped' := from, dropped;
    var t := TargetOf(schema, schema.fields[f], fields);
    if t.Index? && !left[t.i].Nil? {
      if schema.fields[f].kind.UnsupportedField? {
        dropped' := dropped + {t.i};
      } else if Accepts(schema.fields[f].kind, left[t.i]) {
        SetTallied(schema, args, f, fields, left, from, dropped, t.i);
        from' := from[f := t.i];
      }
    }
  }

  /** What Unrecognized holds when the loop has ended. */
  ghost predicate LeftExcept(args: seq<Value>, unrecognized: map<nat, Value>, from: map<nat, nat>, dropped: set<nat>) {
    forall k :: k in unrecognized <==> 0 <= k < |args| && !args[k].Nil? && k !in from.Values && k !in dropped
  }

  ghost predicate RowIsTallied(schema: Schema, args: seq<Value>, row: Row, from: map<nat, nat>, dropped: set<nat>) {
    && Holds(schema, args, row.fields, from) && LeftExcept(args, row.unrecognized, from, dropped)
    && (forall k :: k in row.unrecognized ==> row.unrecognized[k] == args[k])
    && from.Values !! dropped && forall d :: d in dropped ==> d < |args| && !args[d].Nil?
  }

  lemma {:induction false} EndIsTallied(schema: Schema, args: seq<Value>, f: nat, fields: map<nat, Value>, left: seq<Value>,
      from: map<nat, nat>, dropped: set<nat>)
    requires schema.hasUnrecognized && Tallied(schema, args, f, fields, left, from, dropped)
    ensures RowIsTallied(schema, args, Row(fields, Leftovers(schema, left)), from, dropped)
  {
  }

  lemma {:induction false} PlaceIsTallied(schema: Schema, args: seq<Value>, f: nat, fields: map<nat, Value>, left: seq<Value>,
      from: map<nat, nat>, dropped: set<nat>)
    returns (from': map<nat, nat>, dropped': set<nat>)
    requires schema.hasUnrecognized && f <= |schema.fields| && Tallied(schema, args, f, fields, left, from, dropped)
    requires Place(schema, f, fields, left).Some?
    ensures RowIsTallied(schema, args, Place(schema, f, fields, left).value, from', dropped')
    ensures dropped' != {} <==> dropped != {} || DropsFrom(schema, f, fields, left)
    decreases |schema.fields| - f
  {
    if f == |schema.fields| || TakeTurn(schema, f, fields, left).Stop? {
      EndIsTallied(schema, args, f, fields, left, from, dropped);
      from', dropped' := from, dropped;
    } else {
      var turn := TakeTurn(schema, f, fields, left);
      from', dropped' := TurnIsTallied(schema, args, f, fields, left, from, dropped);
      PlaceGoesOn(schema, f, fields, left);
      from', dropped' := PlaceIsTallied(schema, args, f + 1, turn.fields, turn.left, from', dropped');
    }
  }

  lemma {:induction false} PlaceGoesOn(schema: Schema, f: nat, fields: map<nat, Value>, left: seq<Value>)
    requires f < |schema.fields| && TakeTurn(schema, f, fields, left).Go?
    ensures var turn := TakeTurn(schema, f, fields, left);
      && Place(schema, f, fields, left) == Place(schema, f + 1, turn.fields, turn.left)
      && DropsFrom(schema, f, fields, left) ==
         (Drops(schema, f, fields, left) || DropsFrom(schema, f + 1, turn.fields, turn.left))
  {
  }

  /** The fields that are set leave no choice of which argument each of them holds. */
  lemma {:induction false} HoldsOnce(schema: Schema, args: seq<Value>, fields: map<nat, Value>, from: map<nat, nat>, from': map<nat, nat>)
    requires Holds(schema, args, fields, from) && Holds(schema, args, fields, from')
    ensures from == from'
  {
    forall g | g in from
      ensures from[g] == from'[g]
    {
      assert g in from' && Looks(schema, fields, g) == Index(from[g]);
    }
  }

  lemma {:induction false} DroppedIsNowhere(args: seq<Value>, unrecognized: map<nat, Value>, from: map<nat, nat>, dropped: set<nat>)
    requires LeftExcept(args, unrecognized, from, dropped) && from.Values !! dropped
    requires forall d :: d in dropped ==> d < |args| && !args[d].Nil?
    requires forall k :: k in unrecognized ==> unrecognized[k] == args[k]
    ensures LeftBy(args, unrecognized, from) <==> dropped == {}
  {
    if dropped != {} {
      var d :| d in dropped;
      assert d !in unrecognized && d !in from.Values;
    }
  }

  /**
   For every schema with an Unrecognized map, whatever kinds its fields are: each non-nil argument is in one field of its
   kind, or in Unrecognized at its own index, exactly when no field of an unsupported kind takes one.
   */
  lemma {:induction false} NothingIsLostExactly(schema: Schema, args: seq<Value>)
    requires schema.hasUnrecognized && RowOf(schema, args).Some?
    ensures var row := RowOf(schema, args).value;
      (exists from :: Holds(schema, args, row.fields, from) && LeftBy(args, row.unrecognized, from)) <==>
      !DropsFrom(schema, 0, map[], args)
  {
    var row := RowOf(schema, args).value;
    var none: map<nat, nat> := map[];
    assert none.Values == {};
    var from, dropped := PlaceIsTallied(schema, args, 0, map[], args, none, {});
    DroppedIsNowhere(args, row.unrecognized, from, dropped);
    forall from' | Holds(schema, args, row.fields, from')
      ensures from' == from
    {
      HoldsOnce(schema, args, row.fields, from, from');
    }
  }

  // ----- schemas that never panic -----

  predicate IsIndexOrNone(t: Target) {
    t.NoIndex? || (t.Index? && t.i >= 0)
  }

  /** Indexes are not negative, and conditions have two choices and stand on Bool fields. */
  predicate IsWellFormed(schema: Schema) {
    forall f :: 0 <= f < |schema.fields| ==>
      match schema.fields[f].index
      case At(i) => i >= 0
      case ByCondition(c, choices) =>
        && c < |schema.fields| && schema.fields[c].kind.BoolField? && |Split(choices, ',')| >= 2
        && IsIndexOrNone(ConditionIndex(true, choices)) && IsIndexOrNone(ConditionIndex(false, choices))
  }

  lemma {:induction false} PlaceNeverPanics(schema: Schema, f: nat, fields: map<nat, Value>, left: seq<Value>)
    requires IsWellFormed(schema) && f <= |schema.fields|
    ensures Place(schema, f, fields, left).Some?
    decreases |schema.fields| - f
  {
    if f < |schema.fields| {
      assert IsIndexOrNone(TargetOf(schema, schema.fields[f], fields));
      var turn := TakeTurn(schema, f, fields, left);
      if turn.Go? {
        PlaceNeverPanics(schema, f + 1, turn.fields, turn.left);
      }
    }
  }

  /** On such a schema a row is built from any arguments. */
  lemma {:induction false} WellFormedNeverPanics(schema: Schema, args: seq<Value>)
    requires IsWellFormed(schema)
    ensures RowOf(schema, args).Some?
  {
    PlaceNeverPanics(schema, 0, map[], args);
  }
}
