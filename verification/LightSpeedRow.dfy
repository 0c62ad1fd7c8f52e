/**
 How handleStoredProcedure of pkg/messagix/lightspeed/decode.go turns decoded arguments into a row. Reflection is
 replaced by a schema that lists the struct's fields in order.
 */
module LightSpeedRow {
  import opened Common
  import opened Decimal
  import opened Splitting

  /** A Go interface value. Int and I64 are different types to the decoder; a map is a reference. */
  datatype Value =
    | Nil
    | Bool(b: bool)
    | Float(r: real)
    | Str(s: string)
    | Int(i: int)
    | I64(n: int)
    | Arr(items: seq<Value>)
    | MapRef(id: nat)
    | Blob(bytes: seq<byte>)

  datatype FieldKind = I64Field | StrField | AnyField | BoolField | IntField | FloatField | UnsupportedField

  /** The tag of a field: its argument's index, or two comma-separated choices of it behind an earlier Bool field. */
  datatype Index = At(index: int) | ByCondition(field: nat, choices: string)

  datatype Field = Field(kind: FieldKind, index: Index)

  datatype Schema = Schema(fields: seq<Field>, hasUnrecognized: bool)

  /** The fields that were set, by position in the schema, and the left-over arguments, by their own index. */
  datatype Row = Row(fields: map<nat, Value>, unrecognized: map<nat, Value>)

  predicate Accepts(kind: FieldKind, v: Value) {
    match kind
    case I64Field => v.I64?
    case StrField => v.Str?
    case AnyField => true
    case BoolField => v.Bool?
    case IntField => v.Int?
    case FloatField => v.Float?
    case UnsupportedField => false
  }

  /** Where a field looks, given the fields set so far. */
  datatype Target = Index(i: int) | NoIndex | Panics

  function ConditionIndex(holds: bool, choices: string): Target {
    var parts := Split(choices, ',');
    if holds then FromText(parts[0])
    else if |parts| < 2 then Panics
    else FromText(parts[1])
  }

  function FromText(text: string): Target {
    match ParseInt(text)
    case None => NoIndex
    case Some(i) => Index(i)
  }

  function TargetOf(schema: Schema, field: Field, set': map<nat, Value>): Target {
    match field.index
    case At(i) => Index(i)
    case ByCondition(c, choices) =>
      if c >= |schema.fields| || !schema.fields[c].kind.BoolField? then Panics
      else ConditionIndex(c in set' && set'[c] == Bool(true), choices)
  }

  /** One field's turn: the fields set and the arguments left behind it. Stop is the break on short data. */
  datatype Turn = Go(fields: map<nat, Value>, left: seq<Value>) | Stop | Panic

  function TakeTurn(schema: Schema, f: nat, fields: map<nat, Value>, left: seq<Value>): (t: Turn)
    requires f < |schema.fields|
    ensures t.Go? ==> |t.left| == |left|
  {
    match TargetOf(schema, schema.fields[f], fields)
    case Panics => Panic
    case NoIndex => Go(fields, left)
    case Index(i) =>
      if i >= |left| then Stop
      else if i < 0 then Panic
      else if left[i].Nil? then Go(fields, left)
      else if schema.fields[f].kind.UnsupportedField? then Go(fields, left[i := Nil])
      else if Accepts(schema.fields[f].kind, left[i]) then Go(fields[f := left[i]], left[i := Nil])
      else Go(fields, left)
  }

  /** All fields from position f on; None when the source would panic. */
  function Place(schema: Schema, f: nat, fields: map<nat, Value>, left: seq<Value>): (r: Option<Row>)
    requires f <= |schema.fields|
    decreases |schema.fields| - f
  {
    if f == |schema.fields| then Some(Row(fields, Leftovers(schema, left)))
    else match TakeTurn(schema, f, fields, left)
      case Panic => None
      case Stop => Some(Row(fields, Leftovers(schema, left)))
      case Go(fields', left') => Place(schema, f + 1, fields', left')
  }

  function Leftovers(schema: Schema, left: seq<Value>): map<nat, Value> {
    if schema.hasUnrecognized then map k: nat | k < |left| && !left[k].Nil? :: left[k] else map[]
  }

  function RowOf(schema: Schema, args: seq<Value>): Option<Row> {
    Place(schema, 0, map[], args)
  }

  /** The source's two loops. */
  method BuildRow(schema: Schema, args: seq<Value>) returns (r: Option<Row>)
    ensures r == RowOf(schema, args)
  {
    var decodedData := new Value[|args|](k requires 0 <= k < |args| => args[k]);
    var fields: map<nat, Value> := map[];
    assert decodedData[..] == args;
    var f := 0;
    while f < |schema.fields|
      invariant 0 <= f <= |schema.fields|
      invariant RowOf(schema, args) == Place(schema, f, fields, decodedData[..])
    {
      ghost var left := decodedData[..];
      var field := schema.fields[f];
      match TargetOf(schema, field, fields) {
        case Panics => return None;
        case NoIndex =>
        case Index(index) =>
          if index >= decodedData.Length {
            break;
          }
          if index < 0 {
            return None;
          }
          var val := decodedData[index];
          if !val.Nil? {
            if field.kind.UnsupportedField? {
              decodedData[index] := Nil;
              assert decodedData[..] == left[index := Nil];
            } else if Accepts(field.kind, val) {
              fields := fields[f := val];
              decodedData[index] := Nil;
              assert decodedData[..] == left[index := Nil];
            }
          }
      }
      f := f + 1;
    }
    var unrecognized: map<nat, Value> := map[];
    var k := 0;
    while k < decodedData.Length
      invariant 0 <= k <= decodedData.Length
      invariant unrecognized ==
                if schema.hasUnrecognized then map j: nat | j < k && !decodedData[j].Nil? :: decodedData[j] else map[]
    {
      if !decodedData[k].Nil? && schema.hasUnrecognized {
        unrecognized := unrecognized[k := decodedData[k]];
      }
      k := k + 1;
    }
    assert unrecognized == Leftovers(schema, decodedData[..]);
    return Some(Row(fields, unrecognized));
  }

  // ----- every argument ends in exactly one place -----

  ghost predicate Supported(schema: Schema) {
    schema.hasUnrecognized && forall f :: 0 <= f < |schema.fields| ==> !schema.fields[f].kind.UnsupportedField?
  }

  /** The index field f looks at, given the fields set in front of it. */
  ghost function Looks(schema: Schema, fields: map<nat, Value>, f: nat): Target
    requires f < |schema.fields|
  {
    TargetOf(schema, schema.fields[f], Before(fields, f))
  }

  ghost function Before(fields: map<nat, Value>, f: nat): map<nat, Value> {
    map g | g in fields && g < f :: fields[g]
  }

  /** Field g looks behind the last argument, which ends the loop over the fields. */
  ghost predicate Ends(schema: Schema, args: seq<Value>, fields: map<nat, Value>, g: nat)
    requires g < |schema.fields|
  {
    var t := Looks(schema, fields, g);
    t.Index? && t.i >= |args|
  }

  /** Field f looks at a non-nil argument of its kind that no earlier field holds. */
  ghost predicate Claims(schema: Schema, args: seq<Value>, fields: map<nat, Value>, from: map<nat, nat>, f: nat)
    requires f < |schema.fields|
  {
    var t := Looks(schema, fields, f);
    && t.Index? && 0 <= t.i < |args| && !args[t.i].Nil? && Accepts(schema.fields[f].kind, args[t.i])
    && forall g :: g in from && g < f ==> from[g] != t.i
  }

  /** `from` says which argument each set field holds; different fields hold different arguments. */
  ghost predicate Holds(schema: Schema, args: seq<Value>, fields: map<nat, Value>, from: map<nat, nat>) {
    && from.Keys == fields.Keys
    && (forall f :: f in from ==>
          && f < |schema.fields| && Looks(schema, fields, f) == Index(from[f])
          && from[f] < |args| && !args[from[f]].Nil?
          && fields[f] == args[from[f]] && Accepts(schema.fields[f].kind, fields[f]))
    && (forall f, g :: f in from && g in from && from[f] == from[g] ==> f == g)
  }

  /** A field is set exactly when it claims an argument before the loop ends. */
  ghost predicate SetBy(schema: Schema, args: seq<Value>, fields: map<nat, Value>, from: map<nat, nat>) {
    && Holds(schema, args, fields, from)
    && (forall f: nat {:trigger Reached(schema, args, fields, f)} :: f < |schema.fields| ==>
          (f in from <==> Claims(schema, args, fields, from, f) && Reached(schema, args, fields, f)))
  }

  ghost predicate Reached(schema: Schema, args: seq<Value>, fields: map<nat, Value>, f: nat)
    requires f < |schema.fields|
  {
    forall g: nat :: g <= f ==> !Ends(schema, args, fields, g)
  }

  /** The non-nil arguments that no field holds are exactly the left-over ones, each at its own index. */
  ghost predicate LeftBy(args: seq<Value>, unrecognized: map<nat, Value>, from: map<nat, nat>) {
    && (forall k :: k in unrecognized <==> 0 <= k < |args| && !args[k].Nil? && k !in from.Values)
    && (forall k :: k in unrecognized ==> unrecognized[k] == args[k])
  }

  ghost predicate PlacedBy(schema: Schema, args: seq<Value>, row: Row, from: map<nat, nat>) {
    SetBy(schema, args, row.fields, from) && LeftBy(args, row.unrecognized, from)
  }

  /** The arguments that are gone are those some field holds. */
  ghost predicate Gone(args: seq<Value>, left: seq<Value>, from: map<nat, nat>) {
    && |left| == |args|
    && forall k :: 0 <= k < |args| ==> left[k] == if k in from.Values then Nil else args[k]
  }

  /** The loop went on past the first f fields, and set those of them that claim an argument. */
  ghost predicate Decided(schema: Schema, args: seq<Value>, f: nat, fields: map<nat, Value>, from: map<nat, nat>)
    requires f <= |schema.fields|
  {
    && (forall g :: g in fields ==> g < f)
    && (forall g :: 0 <= g < f ==> (g in from <==> Claims(schema, args, fields, from, g)))
    && (forall g :: 0 <= g < f ==> !Ends(schema, args, fields, g))
  }

  ghost predicate Taken(schema: Schema, args: seq<Value>, f: nat, fields: map<nat, Value>, left: seq<Value>,
      from: map<nat, nat>)
    requires f <= |schema.fields|
  {
    Gone(args, left, from) && Holds(schema, args, fields, from) && Decided(schema, args, f, fields, from)
  }

  /** One more entry, behind all others, changes nothing in front of it. */
  lemma {:induction false} SetBehind(fields: map<nat, Value>, f: nat, v: Value)
    requires forall g :: g in fields ==> g < f
    ensures forall g: nat :: g <= f ==> Before(fields[f := v], g) == Before(fields, g)
    ensures Before(fields, f) == fields
  {
  }

  lemma {:induction false} SetGone(args: seq<Value>, left: seq<Value>, from: map<nat, nat>, f: nat, i: nat)
    requires Gone(args, left, from) && f !in from && i < |args|
    ensures Gone(args, left[i := Nil], from[f := i])
  {
    var from' := from[f := i];
    assert from'[f] == i;
    forall g | g in from ensures from[g] in from'.Values {
      assert from'[g] == from[g];
    }
    assert from'.Values == from.Values + {i};
  }

  lemma {:induction false} SetHolds(schema: Schema, args: seq<Value>, f: nat, fields: map<nat, Value>,
      from: map<nat, nat>, i: nat)
    requires f < |schema.fields| && Holds(schema, args, fields, from) && forall g :: g in fields ==> g < f
    requires i < |args| && !args[i].Nil? && Accepts(schema.fields[f].kind, args[i])
    requires i !in from.Values && TargetOf(schema, schema.fields[f], fields) == Index(i)
    ensures Holds(schema, args, fields[f := args[i]], from[f := i])
  {
    SetBehind(fields, f, args[i]);
    var fields', from' := fields[f := args[i]], from[f := i];
    forall g | g in from'
      ensures Looks(schema, fields', g) == Index(from'[g])
    {
      assert Before(fields', g) == Before(fields, g);
    }
    forall g | g in from ensures from[g] != i {
      assert from[g] in from.Values;
    }
  }

  lemma {:induction false} ClaimsAlike(schema: Schema, args: seq<Value>, fields: map<nat, Value>,
      from: map<nat, nat>, fields': map<nat, Value>, from': map<nat, nat>, g: nat)
    requires g < |schema.fields| && Before(fields, g) == Before(fields', g)
    requires forall h :: h < g ==> (h in from' <==> h in from)
    requires forall h :: h in from && h < g ==> from'[h] == from[h]
    ensures Claims(schema, args, fields, from, g) <==> Claims(schema, args, fields', from', g)
  {
    assert forall h :: h in from' && h < g ==> h in from && from'[h] == from[h];
    assert forall h :: h in from && h < g ==> h in from';
  }

  lemma {:induction false} SetDecided(schema: Schema, args: seq<Value>, f: nat, fields: map<nat, Value>,
      from: map<nat, nat>, i: nat)
    requires f < |schema.fields| && Decided(schema, args, f, fields, from) && from.Keys == fields.Keys
    requires i < |args| && !args[i].Nil? && Accepts(schema.fields[f].kind, args[i])
    requires i !in from.Values && TargetOf(schema, schema.fields[f], fields) == Index(i)
    ensures Decided(schema, args, f + 1, fields[f := args[i]], from[f := i])
  {
    SetBehind(fields, f, args[i]);
    var fields', from' := fields[f := args[i]], from[f := i];
    forall g: nat | g <= f
      ensures g in from' <==> Claims(schema, args, fields', from', g)
      ensures !Ends(schema, args, fields', g)
    {
      assert Before(fields', g) == Before(fields, g);
      if g < f {
        assert g in from <==> Claims(schema, args, fields, from, g);
        assert !Ends(schema, args, fields, g);
        assert forall h :: h < g ==> (h in from' <==> h in from);
        assert forall h :: h in from && h < g ==> from'[h] == from[h];
        ClaimsAlike(schema, args, fields, from, fields', from', g);
      } else {
        forall h | h in from ensures from[h] != i {
          assert from[h] in from.Values;
        }
      }
    }
  }

  /** A field that takes nothing claims nothing. */
  lemma {:induction false} UnsetDecided(schema: Schema, args: seq<Value>, f: nat, fields: map<nat, Value>,
      left: seq<Value>, from: map<nat, nat>)
    requires Supported(schema) && f < |schema.fields| && Taken(schema, args, f, fields, left, from)
    requires TakeTurn(schema, f, fields, left) == Go(fields, left)
    ensures Decided(schema, args, f + 1, fields, from)
  {
    SetBehind(fields, f, Nil);
    assert Looks(schema, fields, f) == TargetOf(schema, schema.fields[f], fields);
    if Claims(schema, args, fields, from, f) {
      ClaimIsTaken(schema, args, f, fields, left, from);
    }
    DecidedOneMore(schema, args, f, fields, from);
  }

  lemma {:induction false} DecidedOneMore(schema: Schema, args: seq<Value>, f: nat, fields: map<nat, Value>,
      from: map<nat, nat>)
    requires f < |schema.fields| && Decided(schema, args, f, fields, from)
    requires f !in from && !Claims(schema, args, fields, from, f) && !Ends(schema, args, fields, f)
    ensures Decided(schema, args, f + 1, fields, from)
  {
  }

  lemma {:induction false} ClaimIsTaken(schema: Schema, args: seq<Value>, f: nat, fields: map<nat, Value>,
      left: seq<Value>, from: map<nat, nat>)
    requires Supported(schema) && f < |schema.fields| && Gone(args, left, from) && Before(fields, f) == fields
    requires Claims(schema, args, fields, from, f) && forall g :: g in from ==> g < f
    ensures TakeTurn(schema, f, fields, left).Go? && f in TakeTurn(schema, f, fields, left).fields
  {
    var i := Looks(schema, fields, f).i;
    assert left[i] == args[i];
  }

  lemma {:induction false} TurnKeepsTaken(schema: Schema, args: seq<Value>, f: nat, fields: map<nat, Value>,
      left: seq<Value>, from: map<nat, nat>)
    returns (from': map<nat, nat>)
    requires Supported(schema) && f < |schema.fields| && Taken(schema, args, f, fields, left, from)
    requires TakeTurn(schema, f, fields, left).Go?
    ensures var turn := TakeTurn(schema, f, fields, left);
            Taken(schema, args, f + 1, turn.fields, turn.left, from')
  {
    var turn := TakeTurn(schema, f, fields, left);
    if turn == Go(fields, left) {
      from' := from;
      UnsetDecided(schema, args, f, fields, left, from);
    } else {
      var i := TargetOf(schema, schema.fields[f], fields).i;
      from' := from[f := i];
      SetGone(args, left, from, f, i);
      SetHolds(schema, args, f, fields, from, i);
      SetDecided(schema, args, f, fields, from, i);
    }
  }

  lemma {:induction false} DecidedIsSetBy(schema: Schema, args: seq<Value>, f: nat, fields: map<nat, Value>,
      from: map<nat, nat>)
    requires f <= |schema.fields| && Holds(schema, args, fields, from) && Decided(schema, args, f, fields, from)
    requires f < |schema.fields| ==> Ends(schema, args, fields, f)
    ensures SetBy(schema, args, fields, from)
  {
    forall g: nat | g < |schema.fields|
      ensures g in from <==> Claims(schema, args, fields, from, g) && Reached(schema, args, fields, g)
    {
      assert g < f ==> Reached(schema, args, fields, g);
      assert f <= g ==> !Reached(schema, args, fields, g) && g !in fields;
    }
  }

  lemma {:induction false} LeftoversAreLeft(schema: Schema, args: seq<Value>, left: seq<Value>, from: map<nat, nat>)
    requires schema.hasUnrecognized && Gone(args, left, from)
    ensures LeftBy(args, Leftovers(schema, left), from)
  {
  }

  lemma {:induction false} PlaceTakesEachOnce(schema: Schema, args: seq<Value>, f: nat, fields: map<nat, Value>,
      left: seq<Value>, from: map<nat, nat>)
    requires Supported(schema) && f <= |schema.fields|
    requires Taken(schema, args, f, fields, left, from)
    requires Place(schema, f, fields, left).Some?
    ensures exists all :: PlacedBy(schema, args, Place(schema, f, fields, left).value, all)
    decreases |schema.fields| - f
  {
    if f == |schema.fields| || TakeTurn(schema, f, fields, left).Stop? {
      if f < |schema.fields| {
        SetBehind(fields, f, Nil);
        assert Ends(schema, args, fields, f);
      }
      DecidedIsSetBy(schema, args, f, fields, from);
      LeftoversAreLeft(schema, args, left, from);
      assert PlacedBy(schema, args, Row(fields, Leftovers(schema, left)), from);
    } else {
      var turn := TakeTurn(schema, f, fields, left);
      var from' := TurnKeepsTaken(schema, args, f, fields, left, from);
      PlaceTakesEachOnce(schema, args, f + 1, turn.fields, turn.left, from');
    }
  }

  /**
   For every schema of supported kinds with an Unrecognized map, every non-nil argument ends in exactly one place:
   in the first field that looks at it and is of its kind, or in Unrecognized at its own index.
   */
  lemma {:induction false} EveryArgumentInOnePlace(schema: Schema, args: seq<Value>)
    requires Supported(schema) && RowOf(schema, args).Some?
    ensures exists from :: PlacedBy(schema, args, RowOf(schema, args).value, from)
  {
    assert Taken(schema, args, 0, map[], args, map[]);
    PlaceTakesEachOnce(schema, args, 0, map[], args, map[]);
  }

  /** The first f fields hold the same arguments in both maps. */
  ghost predicate AgreeBelow(from: map<nat, nat>, from': map<nat, nat>, f: nat) {
    forall g: nat :: g < f ==> (g in from <==> g in from') && (g in from && g in from' ==> from[g] == from'[g])
  }

  lemma {:induction false} BeforeAgrees(schema: Schema, args: seq<Value>, fields: map<nat, Value>,
      from: map<nat, nat>, fields': map<nat, Value>, from': map<nat, nat>, f: nat)
    requires Holds(schema, args, fields, from) && Holds(schema, args, fields', from') && AgreeBelow(from, from', f)
    ensures Before(fields, f) == Before(fields', f)
  {
    forall g: nat | g < f
      ensures g in fields <==> g in fields'
      ensures g in fields && g in fields' ==> fields[g] == fields'[g]
    {
      assert g in from <==> g in from';
    }
    SameBefore(fields, fields', f);
  }

  lemma {:induction false} SameBefore(fields: map<nat, Value>, fields': map<nat, Value>, f: nat)
    requires forall g: nat :: g < f ==> (g in fields <==> g in fields') && (g in fields && g in fields' ==> fields[g] == fields'[g])
    ensures Before(fields, f) == Before(fields', f)
  {
  }

  lemma {:induction false} ReachedAlike(schema: Schema, args: seq<Value>, fields: map<nat, Value>,
      from: map<nat, nat>, fields': map<nat, Value>, from': map<nat, nat>, f: nat)
    requires Holds(schema, args, fields, from) && Holds(schema, args, fields', from')
    requires f < |schema.fields| && AgreeBelow(from, from', f)
    ensures Reached(schema, args, fields, f) <==> Reached(schema, args, fields', f)
  {
    forall g: nat | g <= f
      ensures Ends(schema, args, fields, g) == Ends(schema, args, fields', g)
    {
      EndsAlike(schema, args, fields, from, fields', from', f, g);
    }
  }

  lemma {:induction false} EndsAlike(schema: Schema, args: seq<Value>, fields: map<nat, Value>, from: map<nat, nat>,
      fields': map<nat, Value>, from': map<nat, nat>, f: nat, g: nat)
    requires Holds(schema, args, fields, from) && Holds(schema, args, fields', from')
    requires g <= f < |schema.fields| && AgreeBelow(from, from', f)
    ensures Ends(schema, args, fields, g) == Ends(schema, args, fields', g)
  {
    assert AgreeBelow(from, from', g);
    BeforeAgrees(schema, args, fields, from, fields', from', g);
  }

  lemma {:induction false} FieldsAgree(schema: Schema, args: seq<Value>, fields: map<nat, Value>,
      from: map<nat, nat>, fields': map<nat, Value>, from': map<nat, nat>, f: nat)
    requires f <= |schema.fields| && SetBy(schema, args, fields, from) && SetBy(schema, args, fields', from')
    ensures AgreeBelow(from, from', f)
  {
    if f > 0 {
      var last := f - 1;
      FieldsAgree(schema, args, fields, from, fields', from', last);
      BeforeAgrees(schema, args, fields, from, fields', from', last);
      ReachedAlike(schema, args, fields, from, fields', from', last);
      ClaimsAlike(schema, args, fields, from, fields', from', last);
      SetByAt(schema, args, fields, from, last);
      SetByAt(schema, args, fields', from', last);
      AgreeOneMore(from, from', last);
    }
  }

  lemma {:induction false} SetByAt(schema: Schema, args: seq<Value>, fields: map<nat, Value>, from: map<nat, nat>, f: nat)
    requires f < |schema.fields| && SetBy(schema, args, fields, from)
    ensures f in from <==> Claims(schema, args, fields, from, f) && Reached(schema, args, fields, f)
    ensures f in from ==> Looks(schema, fields, f) == Index(from[f])
  {
    assert Reached(schema, args, fields, f) || !Reached(schema, args, fields, f);
  }

  lemma {:induction false} AgreeOneMore(from: map<nat, nat>, from': map<nat, nat>, last: nat)
    requires AgreeBelow(from, from', last)
    requires last in from <==> last in from'
    requires last in from && last in from' ==> from[last] == from'[last]
    ensures AgreeBelow(from, from', last + 1)
  {
  }

  /** PlacedBy leaves no freedom: it holds of one row only. */
  lemma {:induction false} PlacementIsUnique(schema: Schema, args: seq<Value>, row: Row, from: map<nat, nat>,
      row': Row, from': map<nat, nat>)
    requires PlacedBy(schema, args, row, from) && PlacedBy(schema, args, row', from')
    ensures row == row'
  {
    FieldsAgree(schema, args, row.fields, from, row'.fields, from', |schema.fields|);
    SameFields(schema, args, row.fields, from, row'.fields, from');
    SameLeftovers(args, row.unrecognized, row'.unrecognized, from);
  }

  lemma {:induction false} SameFields(schema: Schema, args: seq<Value>, fields: map<nat, Value>, from: map<nat, nat>,
      fields': map<nat, Value>, from': map<nat, nat>)
    requires Holds(schema, args, fields, from) && Holds(schema, args, fields', from') && AgreeBelow(from, from', |schema.fields|)
    ensures from == from' && fields == fields'
  {
    BeforeAgrees(schema, args, fields, from, fields', from', |schema.fields|);
    assert Before(fields, |schema.fields|) == fields && Before(fields', |schema.fields|) == fields';
    forall g | g in from
      ensures from[g] == from'[g]
    {
      assert g in from';
    }
  }

  lemma {:induction false} SameLeftovers(args: seq<Value>, left: map<nat, Value>, left': map<nat, Value>,
      from: map<nat, nat>)
    requires LeftBy(args, left, from) && LeftBy(args, left', from)
    ensures left == left'
  {
    assert left.Keys == left'.Keys;
  }
}
