/** What a LightSpeed program can do to the table. */
module LightSpeedTheorems {
  import opened Common
  import opened LightSpeedRow
  import opened LightSpeed
  import opened LightSpeedTraces

  /** The rows emitted for one column, in order. */
  function RowsFor(rows: Emitted, column: string): seq<Row> {
    if rows == [] then []
    else if rows[0].0 == column then [rows[0].1] + RowsFor(rows[1..], column)
    else RowsFor(rows[1..], column)
  }

  lemma {:induction false} Associative(a: seq<Row>, b: seq<Row>, c: seq<Row>)
    ensures a + b + c == a + (b + c)
  {
  }

  lemma {:induction false} NothingAppended(a: seq<Row>)
    ensures a + [] == a
  {
  }

  /** Decoding only appends: each column ends as its old rows followed by the rows emitted for it, in order. */
  lemma {:induction false} ColumnsOnlyGrow(table: Table, rows: Emitted, column: string)
    ensures AppendRows(table, rows).Keys == table.Keys
    ensures column in table ==> AppendRows(table, rows)[column] == table[column] + RowsFor(rows, column)
    decreases |rows|
  {
    if rows == [] {
      if column in table {
        NothingAppended(table[column]);
      }
    } else {
      ColumnsOnlyGrow(AppendRow(table, rows[0]), rows[1..], column);
      if column in table && rows[0].0 == column {
        Associative(table[column], [rows[0].1], RowsFor(rows[1..], column));
      }
    }
  }

  /** The row is the one that some completed call builds from the arguments it decoded. */
  ghost predicate FromCall(env: Env, events: seq<Event>, row: (string, Row)) {
    exists k :: 0 <= k < |events| && RowsOfCall(env, events[k]) == [row]
  }

  lemma {:induction false} RowIsOfSomeCall(env: Env, events: seq<Event>, k: nat)
    requires k < |RowsOfCalls(env, events)|
    ensures FromCall(env, events, RowsOfCalls(env, events)[k])
    decreases |events|
  {
    var first := RowsOfCall(env, events[0]);
    if k >= |first| {
      RowIsOfSomeCall(env, events[1..], k - |first|);
      var i :| 0 <= i < |events[1..]| && RowsOfCall(env, events[1..][i]) == [RowsOfCalls(env, events)[k]];
      assert events[i + 1] == events[1..][i];
    }
  }

  /** On any step tree, every row that is emitted is built by a call that the program has completed. */
  lemma {:induction false} EveryRowIsFromACall(env: Env, core: Core, data: Json, k: nat)
    requires k < |Decode(env, core, data).rows|
    ensures FromCall(env, Trace(env, core, data), Decode(env, core, data).rows[k])
  {
    RowsAreCompletedCalls(env, core, data);
    RowIsOfSomeCall(env, Trace(env, core, data), k);
  }

  /**
   An IF step wants an int64, and I64_EQUAL yields a bool: whatever is compared, no branch of such an IF is
   executed, and it emits only what decoding the condition emitted.
   */
  lemma {:induction false} EqualityNeverSelects(env: Env, core: Core, left: Json, right: Json, branches: seq<Json>)
    ensures var condition := JArr([JNum(30.0), left, right]);
            var run := DecodeIf(env, core, [condition] + branches);
            && (run.outcome.Crashed? || run.outcome == Done(Nil))
            && run.rows == Decode(env, core, condition).rows && run.core == Decode(env, core, condition).core
  {
    var condition := JArr([JNum(30.0), left, right]);
    var d := [condition] + branches;
    var r := Decode(env, core, condition);
    assert Trunc(30.0) == 30;
    assert condition.items[0] == JNum(30.0);
    assert r == DecodeStep(env, core, condition.items);
    assert r.outcome.Done? ==> !r.outcome.value.I64?;
    assert DecodeOperands(env, core, d, [I64Operand]).rows == r.rows;
  }
}
