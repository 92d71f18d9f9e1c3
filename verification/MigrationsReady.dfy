/**
 When a migration run succeeds: the exact condition on the database it starts from, and why the
 version-14 backfill makes the version-16 rebuild safe (sean_os/migrations.py:161-265).
 */
module MigrationsReady {
  import opened Basics
  import opened Migrations
  import opened MigrationsData

  const EXECUTION_COLUMNS: set<string> := {
    "attempt_count", "max_attempts", "available_at", "lease_owner", "lease_expires_at", "last_error"}

  // ---------------------------------------------------------------- the transfer table, version by version

  function WithExecution(t: Table): Table {
    AddColumn(AddColumn(AddColumn(AddColumn(AddColumn(AddColumn(
      t, "attempt_count", Int(0)), "max_attempts", Int(3)), "available_at", Null),
      "lease_owner", Null), "lease_expires_at", Null), "last_error", Null)
  }

  function After14(t: Table): Table {
    EachRow(WithExecution(t), FillRow)
  }

  function WithPreflight(t: Table): Table {
    AddColumn(t, "preflight_receipt_payload", Null)
  }

  function After15(t: Table): Table {
    EachRow(WithPreflight(t), MoveRow)
  }

  /** The transfer table as version v leaves it. */
  function TransfersAt(v: nat, db: Db): Table {
    var t := if v >= 14 && 14 !in db.ledger then After14(db.transfers) else db.transfers;
    var u := if v >= 15 && 15 !in db.ledger then After15(t) else t;
    if v >= 16 && 16 !in db.ledger && !u.current then Rebuilt(Transfers, u) else u
  }

  predicate WorkReady(t: Table) {
    t.current || Rebuildable(WorkQueue, t)
  }

  predicate RecordsReady(t: Table) {
    {"effective_at", "created_at", "confidence", "source", "retention_rule"} <= t.columns
    && forall k | k in t.rows :: !Aborted(t.rows[k])
  }

  predicate AlertsReady(t: Table) {
    {"created_at", "status"} <= t.columns
  }

  /** What versions 1 to v need of the tables a run starts from, as far as they are still to be run. */
  predicate ReadyFor(v: nat, db: Db) {
    && (v >= 2 && 2 !in db.ledger ==> WorkReady(db.work))
    && (v >= 7 && 7 !in db.ledger ==> RecordsReady(db.records))
    && (v >= 11 && 11 !in db.ledger ==> AlertsReady(db.alerts))
    && (v >= 14 && 14 !in db.ledger ==> {"created_at", "status"} <= db.transfers.columns)
    && (v >= 15 && 15 !in db.ledger ==> {"receipt_payload", "status"} <= TransfersAt(14, db).columns)
    && (v >= 16 && 16 !in db.ledger ==> TransfersAt(15, db).current || Rebuildable(Transfers, TransfersAt(15, db)))
  }

  /** The tables that version v leaves when everything up to it succeeds. */
  ghost predicate Reached(v: nat, db: Db, d: Db) {
    && (v < 2 ==> d.work == db.work) && (v < 7 ==> d.records == db.records) && (v < 11 ==> d.alerts == db.alerts)
    && d.transfers == TransfersAt(v, db)
  }

  lemma PlainVersion(v: nat, d: Db)
    requires v !in {2, 7, 11, 14, 15, 16}
    ensures Exec(Program(v), d) == (d.(ledger := d.ledger + {v}), true)
  {
    assert Program(v) == [Record(v)];
    ExecNone(d);
    ExecSnoc([], Record(v), d);
  }

  /** A program of one fallible step and its record. */
  lemma OneStepVersion(v: nat, s: Step, d: Db)
    requires Program(v) == [s, Record(v)]
    ensures Exec(Program(v), d) ==
      if Effect(s, d).None? then (d, false)
      else (Effect(s, d).value.(ledger := Effect(s, d).value.ledger + {v}), true)
  {
    ExecNone(d);
    ExecSnoc([], s, d);
    assert [] + [s] == [s];
    ExecSnoc([s], Record(v), d);
    assert [s] + [Record(v)] == [s, Record(v)];
  }

  lemma {:induction false} AddsExec(steps: seq<Step>, name: TableName, d: Db)
    requires forall s | s in steps :: s.Add? && s.table == name
    ensures Exec(steps, d) == (WithTable(d, name, Added(steps, TableOf(d, name))), true)
    decreases |steps|
  {
    if steps == [] {
      ExecNone(d);
    } else {
      var before, s := steps[..|steps| - 1], steps[|steps| - 1];
      assert forall t | t in before :: t in steps;
      AddsExec(before, name, d);
      assert s in steps;
    }
  }

  function Added(steps: seq<Step>, t: Table): Table
    requires forall s | s in steps :: s.Add?
  {
    if steps == [] then t else
    var s := steps[|steps| - 1];
    assert s in steps;
    AddColumn(Added(steps[..|steps| - 1], t), s.column, s.default)
  }

  lemma AddedSnoc(steps: seq<Step>, s: Step, t: Table)
    requires s.Add? && forall r | r in steps :: r.Add?
    ensures Added(steps + [s], t) == AddColumn(Added(steps, t), s.column, s.default)
  {
    assert (steps + [s])[..|steps|] == steps;
    hide AddColumn;
  }

  lemma {:induction false} AddedColumns(steps: seq<Step>, t: Table)
    requires forall s | s in steps :: s.Add?
    ensures Added(steps, t).columns == t.columns + set s | s in steps :: s.column
  {
    if steps != [] {
      var before, s := steps[..|steps| - 1], steps[|steps| - 1];
      assert steps == before + [s];
      AddedColumns(before, t);
      AddedSnoc(before, s, t);
      assert (set r | r in steps :: r.column) == (set r | r in before :: r.column) + {s.column};
      hide Added;
    } else {
      assert (set r | r in steps :: r.column) == {};
    }
  }

  /** A program of additions, one fallible step and its record. */
  lemma AddsThenStep(adds: seq<Step>, name: TableName, last: Step, v: nat, d: Db)
    requires forall s | s in adds :: s.Add? && s.table == name
    ensures var e := WithTable(d, name, Added(adds, TableOf(d, name)));
      Exec(adds + [last, Record(v)], d) ==
        if Effect(last, e).None? then (e, false)
        else (Effect(last, e).value.(ledger := Effect(last, e).value.ledger + {v}), true)
  {
    AddsExec(adds, name, d);
    ExecSnoc(adds, last, d);
    ExecSnoc(adds + [last], Record(v), d);
    assert adds + [last] + [Record(v)] == adds + [last, Record(v)];
    hide Added, Exec;
  }

  const ALERT_ADDS: seq<Step> := [
    Add(Alerts, "max_attempts", Int(3)), Add(Alerts, "available_at", Null), Add(Alerts, "lease_owner", Null),
    Add(Alerts, "lease_expires_at", Null), Add(Alerts, "last_error", Null)]

  const TRANSFER_ADDS: seq<Step> := [
    Add(Transfers, "attempt_count", Int(0)), Add(Transfers, "max_attempts", Int(3)),
    Add(Transfers, "available_at", Null), Add(Transfers, "lease_owner", Null),
    Add(Transfers, "lease_expires_at", Null), Add(Transfers, "last_error", Null)]

  lemma Version11(d: Db)
    ensures var (e, ok) := Exec(Program(11), d);
      && (ok <==> AlertsReady(d.alerts))
      && (ok ==> e.records == d.records && e.work == d.work && e.transfers == d.transfers)
  {
    var adds := ALERT_ADDS;
    assert Program(11) == adds + [FillAvailable(Alerts), Record(11)];
    AddsThenStep(adds, Alerts, FillAvailable(Alerts), 11, d);
    AddedColumns(adds, d.alerts);
    assert adds[1] in adds && adds[3] in adds;
    assert forall s | s in adds :: s.column != "created_at" && s.column != "status";
    hide Added, Exec, Program;
  }

  lemma TransferAdds(t: Table)
    ensures Added(TRANSFER_ADDS, t) == WithExecution(t)
  {
    var a := TRANSFER_ADDS;
    assert a == [a[0]] + [a[1]] + [a[2]] + [a[3]] + [a[4]] + [a[5]];
    AddedSnoc([], a[0], t);
    assert [] + [a[0]] == [a[0]];
    AddedSnoc([a[0]], a[1], t);
    AddedSnoc([a[0]] + [a[1]], a[2], t);
    AddedSnoc([a[0]] + [a[1]] + [a[2]], a[3], t);
    AddedSnoc([a[0]] + [a[1]] + [a[2]] + [a[3]], a[4], t);
    AddedSnoc([a[0]] + [a[1]] + [a[2]] + [a[3]] + [a[4]], a[5], t);
    assert Added([], t) == t;
    hide Added, AddColumn;
  }

  /** Several columns added at once; columns that exist keep their values. */
  function AddAll(t: Table, defaults: map<string, Cell>): Table {
    t.(columns := t.columns + defaults.Keys, rows := map k | k in t.rows :: Supplied(t, t.rows[k], defaults))
  }

  function Supplied(t: Table, row: Row, defaults: map<string, Cell>): Row {
    row + (defaults - t.columns)
  }

  lemma SuppliedStep(t: Table, row: Row, m: map<string, Cell>, column: string, default: Cell)
    ensures Supplied(t, row, m[column := default]) ==
      if column in t.columns then Supplied(t, row, m) else Supplied(t, row, m)[column := default]
  {
    if column in t.columns {
      assert m[column := default] - t.columns == m - t.columns;
    } else {
      assert m[column := default] - t.columns == (m - t.columns)[column := default];
    }
  }

  lemma AddAllStep(t: Table, m: map<string, Cell>, column: string, default: Cell)
    requires column !in m
    ensures AddColumn(AddAll(t, m), column, default) == AddAll(t, m[column := default])
  {
    hide Supplied;
    var u, v := AddColumn(AddAll(t, m), column, default), AddAll(t, m[column := default]);
    assert m[column := default].Keys == m.Keys + {column};
    assert u.columns == v.columns;
    forall k | k in t.rows ensures u.rows[k] == v.rows[k] {
      SuppliedStep(t, t.rows[k], m, column, default);
    }
    assert u.rows == v.rows;
  }

  const EXECUTION_DEFAULTS: map<string, Cell> :=
    map[]["attempt_count" := Int(0)]["max_attempts" := Int(3)]["available_at" := Null]
      ["lease_owner" := Null]["lease_expires_at" := Null]["last_error" := Null]

  lemma WithExecutionAdds(t: Table)
    ensures WithExecution(t) == AddAll(t, EXECUTION_DEFAULTS) && EXECUTION_DEFAULTS.Keys == EXECUTION_COLUMNS
  {
    var m: map<string, Cell> := map[];
    assert AddAll(t, m) == t by {
      forall k | k in t.rows ensures Supplied(t, t.rows[k], m) == t.rows[k] { assert m - t.columns == m; }
    }
    var m1 := m["attempt_count" := Int(0)];
    var m2 := m1["max_attempts" := Int(3)];
    var m3 := m2["available_at" := Null];
    var m4 := m3["lease_owner" := Null];
    var m5 := m4["lease_expires_at" := Null];
    hide AddAll, AddColumn;
    AddAllStep(t, m, "attempt_count", Int(0));
    AddAllStep(t, m1, "max_attempts", Int(3));
    AddAllStep(t, m2, "available_at", Null);
    AddAllStep(t, m3, "lease_owner", Null);
    AddAllStep(t, m4, "lease_expires_at", Null);
    AddAllStep(t, m5, "last_error", Null);
  }

  lemma Version14(d: Db)
    ensures var (e, ok) := Exec(Program(14), d);
      && (ok <==> {"created_at", "status"} <= d.transfers.columns)
      && (ok ==> e == d.(transfers := After14(d.transfers), ledger := d.ledger + {14}))
  {
    var adds := TRANSFER_ADDS;
    assert Program(14) == adds + [FillAvailable(Transfers), Record(14)];
    AddsThenStep(adds, Transfers, FillAvailable(Transfers), 14, d);
    TransferAdds(d.transfers);
    WithExecutionAdds(d.transfers);
    hide Added, Exec, Program, WithExecution, FillRow, EachRow, EXECUTION_DEFAULTS;
    assert "created_at" !in EXECUTION_COLUMNS && "status" !in EXECUTION_COLUMNS;
  }

  lemma Version15(d: Db)
    ensures var (e, ok) := Exec(Program(15), d);
      && (ok <==> {"receipt_payload", "status"} <= d.transfers.columns)
      && (ok ==> e == d.(transfers := After15(d.transfers), ledger := d.ledger + {15}))
  {
    var add := Add(Transfers, "preflight_receipt_payload", Null);
    assert Program(15) == [add] + [MoveReceipts, Record(15)];
    AddsThenStep([add], Transfers, MoveReceipts, 15, d);
    AddedOnce(add, d.transfers);
    hide Exec, Program, Added, MoveRow, EachRow, AddColumn;
    WithPreflightColumns(d.transfers);
  }

  lemma AddedOnce(s: Step, t: Table)
    requires s.Add?
    ensures Added([s], t) == AddColumn(t, s.column, s.default)
  {
    AddedSnoc([], s, t);
    assert [] + [s] == [s];
    hide AddColumn;
  }

  lemma WithPreflightColumns(t: Table)
    ensures WithPreflight(t).columns == t.columns + {"preflight_receipt_payload"}
  {
  }

  lemma PendingStep(v: nat, db: Db)
    requires v > 0
    ensures var (d, ok) := Exec(Pending(v - 1, db.ledger), db);
      Exec(Pending(v, db.ledger), db) == if ok then Exec(Missing(v, db.ledger), d) else (d, false)
  {
    ExecConcat(Pending(v - 1, db.ledger), Missing(v, db.ledger), db);
    hide Program, Effect, Exec, Missing;
  }

  lemma StepReaches(v: nat, db: Db, d: Db)
    requires v > 0 && v !in db.ledger && ReadyFor(v - 1, db) && Reached(v - 1, db, d)
    ensures var (e, ok) := Exec(Program(v), d);
      (ok <==> ReadyFor(v, db)) && (ok ==> Reached(v, db, e))
  {
    if v == 2 {
      OneStepVersion(2, Rebuild(WorkQueue), d);
    } else if v == 7 {
      OneStepVersion(7, BackfillRecords, d);
    } else if v == 11 {
      Version11(d);
    } else if v == 14 {
      Version14(d);
    } else if v == 15 {
      Version15(d);
    } else if v == 16 {
      OneStepVersion(16, Rebuild(Transfers), d);
    } else {
      PlainVersion(v, d);
    }
    hide Program, Exec, Rebuildable, After14, After15, AlertsReady, RecordsReady;
  }

  lemma {:induction false} RunReaches(v: nat, db: Db)
    ensures var (d, ok) := Exec(Pending(v, db.ledger), db);
      (ok <==> ReadyFor(v, db)) && (ok ==> Reached(v, db, d))
  {
    hide Program, Effect, Rebuildable, After14, After15, AlertsReady, RecordsReady;
    if v > 0 {
      RunReaches(v - 1, db);
      PendingStep(v, db);
      var d := Exec(Pending(v - 1, db.ledger), db).0;
      if v in db.ledger {
        ExecNone(d);
      } else if Exec(Pending(v - 1, db.ledger), db).1 {
        StepReaches(v, db, d);
      }
    }
  }

  // ---------------------------------------------------------------- the rebuild of version 16

  const EXECUTION_REQUIRED: set<string> := {"attempt_count", "max_attempts", "available_at"}

  /** What the rebuild needs of a row as it was before versions 14 and 15, those still to be run. */
  predicate RowReady(ledger: set<nat>, t: Table, row: Row) {
    && Present(row, TRANSFER_REQUIRED - EXECUTION_REQUIRED)
    && Sha64(Value(row, "plan_sha256")) && Sha64(Value(row, "proposal_sha256"))
    && OneOf(Value(row, "owner_scope"), {"IAC"}) && OneOf(Value(row, "status"), TRANSFER_STATES)
    && (14 !in ledger || !Value(row, "available_at").Null?)
    && ("attempt_count" in t.columns || 14 in ledger ==>
          !Value(row, "attempt_count").Null? && Between(Value(row, "attempt_count"), 0, MANY))
    && ("max_attempts" in t.columns || 14 in ledger ==>
          !Value(row, "max_attempts").Null? && Between(Value(row, "max_attempts"), 1, 10))
  }

  /** What versions 14 and 15 still add when the ledger lacks them. */
  function StillAdded(ledger: set<nat>): set<string> {
    (if 14 in ledger then {} else EXECUTION_COLUMNS)
    + (if 15 in ledger then {} else {"preflight_receipt_payload"})
  }

  predicate TransfersReady(ledger: set<nat>, t: Table) {
    && TRANSFER_COLUMNS - StillAdded(ledger) <= t.columns
    && forall k | k in t.rows :: RowReady(ledger, t, t.rows[k])
  }

  /** The row of version 15 that a row becomes. */
  function RowAt15(ledger: set<nat>, t: Table, row: Row): Row {
    var r := if 14 in ledger then row else FillRow(Supplied(t, row, EXECUTION_DEFAULTS));
    if 15 in ledger then r
    else MoveRow(if "preflight_receipt_payload" in t.columns then r else r["preflight_receipt_payload" := Null])
  }

  lemma TableAt14(t: Table)
    ensures var u := After14(t);
      && u.rows.Keys == t.rows.Keys && u.current == t.current && u.columns == t.columns + EXECUTION_COLUMNS
      && forall k | k in u.rows :: u.rows[k] == FillRow(Supplied(t, t.rows[k], EXECUTION_DEFAULTS))
  {
    WithExecutionAdds(t);
    hide WithExecution, Supplied, FillRow, EXECUTION_DEFAULTS, EXECUTION_COLUMNS;
  }

  lemma TableAt15(t: Table)
    ensures var u := After15(t);
      && u.rows.Keys == t.rows.Keys && u.current == t.current && u.columns == t.columns + {"preflight_receipt_payload"}
      && forall k | k in u.rows :: u.rows[k] == MoveRow(
          if "preflight_receipt_payload" in t.columns then t.rows[k]
          else t.rows[k]["preflight_receipt_payload" := Null])
  {
    hide MoveRow;
  }

  lemma TransfersAt15(db: Db)
    ensures var u := TransfersAt(15, db);
      && u.rows.Keys == db.transfers.rows.Keys && u.current == db.transfers.current
      && u.columns == db.transfers.columns + StillAdded(db.ledger)
      && forall k | k in u.rows :: u.rows[k] == RowAt15(db.ledger, db.transfers, db.transfers.rows[k])
  {
    hide After14, After15, Rebuilt, Supplied, FillRow, MoveRow, EXECUTION_DEFAULTS, EXECUTION_COLUMNS;
    var t := if 14 !in db.ledger then After14(db.transfers) else db.transfers;
    var u := TransfersAt(15, db);
    assert u == if 15 !in db.ledger then After15(t) else t;
    TableAt14(db.transfers);
    TableAt15(t);
    NoPreflightBefore15();
    forall k | k in u.rows ensures u.rows[k] == RowAt15(db.ledger, db.transfers, db.transfers.rows[k]) {
      var row := db.transfers.rows[k];
      assert t.rows[k] == if 14 in db.ledger then row else FillRow(Supplied(db.transfers, row, EXECUTION_DEFAULTS));
    }
  }

  lemma NoPreflightBefore15()
    ensures "preflight_receipt_payload" !in EXECUTION_COLUMNS
  {
  }

  lemma SuppliedValue(t: Table, row: Row, c: string)
    ensures Value(Supplied(t, row, EXECUTION_DEFAULTS), c) ==
      if c in EXECUTION_COLUMNS && c !in t.columns then EXECUTION_DEFAULTS[c] else Value(row, c)
  {
    WithExecutionAdds(t);
    hide EXECUTION_DEFAULTS, EXECUTION_COLUMNS;
  }

  lemma FilledValue(row: Row, c: string)
    ensures Value(FillRow(row), c) ==
      if c == "available_at" && Value(row, c).Null? then Value(row, "created_at") else Value(row, c)
  {
  }

  lemma MovedValue(row: Row, c: string)
    requires c != "preflight_receipt_payload" && c != "receipt_payload"
    ensures Value(MoveRow(row), c) == Value(row, c)
  {
  }

  /** The cells the rebuild constrains, as versions 14 and 15 leave them. */
  lemma ValueAt15(ledger: set<nat>, t: Table, row: Row, c: string)
    requires c != "preflight_receipt_payload" && c != "receipt_payload"
    ensures Value(RowAt15(ledger, t, row), c) ==
      if 14 in ledger then Value(row, c)
      else if c == "available_at" && (c !in t.columns || Value(row, c).Null?) then
        Value(row, "created_at")
      else if c in EXECUTION_COLUMNS && c !in t.columns then EXECUTION_DEFAULTS[c]
      else Value(row, c)
  {
    var supplied := Supplied(t, row, EXECUTION_DEFAULTS);
    SuppliedValue(t, row, c);
    SuppliedValue(t, row, "created_at");
    assert EXECUTION_DEFAULTS["available_at"] == Null;
    assert "created_at" !in EXECUTION_COLUMNS && "available_at" in EXECUTION_COLUMNS;
    FilledValue(supplied, c);
    var r := if 14 in ledger then row else FillRow(supplied);
    MovedValue(r, c);
    MovedValue(r["preflight_receipt_payload" := Null], c);
    hide Supplied, FillRow, MoveRow, EXECUTION_DEFAULTS, EXECUTION_COLUMNS;
  }

  /** The cells that versions 14 and 15 do not touch. */
  lemma KeptAt15(ledger: set<nat>, t: Table, row: Row, c: string)
    requires c in TRANSFER_REQUIRED - EXECUTION_REQUIRED || c == "plan_sha256"
    ensures Value(RowAt15(ledger, t, row), c) == Value(row, c)
  {
    ValueAt15(ledger, t, row, c);
    hide RowAt15, EXECUTION_DEFAULTS;
  }

  /** The three cells they may supply. */
  lemma SuppliedAt15(ledger: set<nat>, t: Table, row: Row)
    requires row.Keys <= t.columns && !Value(row, "created_at").Null?
    ensures var r := RowAt15(ledger, t, row);
      && (!Value(r, "available_at").Null? <==> 14 !in ledger || !Value(row, "available_at").Null?)
      && Value(r, "attempt_count") ==
        (if 14 !in ledger && "attempt_count" !in t.columns then Int(0) else Value(row, "attempt_count"))
      && Value(r, "max_attempts") ==
        (if 14 !in ledger && "max_attempts" !in t.columns then Int(3) else Value(row, "max_attempts"))
  {
    ValueAt15(ledger, t, row, "available_at");
    ValueAt15(ledger, t, row, "attempt_count");
    ValueAt15(ledger, t, row, "max_attempts");
    assert EXECUTION_DEFAULTS["attempt_count"] == Int(0) && EXECUTION_DEFAULTS["max_attempts"] == Int(3);
    assert "attempt_count" in EXECUTION_COLUMNS && "max_attempts" in EXECUTION_COLUMNS;
    hide RowAt15, EXECUTION_DEFAULTS, EXECUTION_COLUMNS;
  }

  lemma PresentSplit(row: Row)
    ensures Present(row, TRANSFER_REQUIRED) <==>
      Present(row, TRANSFER_REQUIRED - EXECUTION_REQUIRED) && !Value(row, "available_at").Null?
      && !Value(row, "attempt_count").Null? && !Value(row, "max_attempts").Null?
  {
    assert TRANSFER_REQUIRED == (TRANSFER_REQUIRED - EXECUTION_REQUIRED) + EXECUTION_REQUIRED;
    hide TRANSFER_REQUIRED;
  }

  /** Versions 14 and 15 supply exactly what a row may lack. */
  lemma RowFitsAt15(ledger: set<nat>, t: Table, row: Row)
    requires row.Keys <= t.columns
    ensures TransferRowFits(RowAt15(ledger, t, row)) <==> RowReady(ledger, t, row)
  {
    var r := RowAt15(ledger, t, row);
    forall c | c in TRANSFER_REQUIRED - EXECUTION_REQUIRED || c == "plan_sha256"
      ensures Value(r, c) == Value(row, c)
    {
      KeptAt15(ledger, t, row, c);
    }
    assert {"created_at", "proposal_sha256", "owner_scope", "status"} <= TRANSFER_REQUIRED - EXECUTION_REQUIRED;
    PresentSplit(r);
    if !Value(row, "created_at").Null? { SuppliedAt15(ledger, t, row); }
    hide RowAt15, Sha64, OneOf, TRANSFER_STATES, TRANSFER_REQUIRED, EXECUTION_REQUIRED;
  }

  lemma MovedAcross(wanted: set<string>, present: set<string>, added: set<string>)
    ensures wanted <= present + added <==> wanted - added <= present
  {
  }

  lemma RebuildReady(db: Db)
    requires WfDb(db)
    ensures Rebuildable(Transfers, TransfersAt(15, db)) <==> TransfersReady(db.ledger, db.transfers)
  {
    TransfersAt15(db);
    hide TransfersAt, RowAt15, RowReady, TransferRowFits, StillAdded, TRANSFER_COLUMNS, WORK_COLUMNS;
    var t, u := db.transfers, TransfersAt(15, db);
    assert Wf(TableOf(db, Transfers));
    MovedAcross(TRANSFER_COLUMNS, t.columns, StillAdded(db.ledger));
    forall k | k in t.rows ensures TransferRowFits(u.rows[k]) <==> RowReady(db.ledger, t, t.rows[k]) {
      RowFitsAt15(db.ledger, t, t.rows[k]);
    }
  }

  /** What a database must offer for the versions its ledger lacks. */
  predicate Ready(db: Db) {
    && (2 in db.ledger || WorkReady(db.work))
    && (7 in db.ledger || RecordsReady(db.records))
    && (11 in db.ledger || AlertsReady(db.alerts))
    && (14 in db.ledger || {"created_at", "status"} <= db.transfers.columns)
    && (15 in db.ledger || {"receipt_payload", "status"} <= db.transfers.columns)
    && (16 in db.ledger || db.transfers.current || TransfersReady(db.ledger, db.transfers))
  }

  /** A run raises nowhere exactly when the database it starts from is ready. */
  lemma SucceedsIff(db: Db)
    requires WfDb(db)
    ensures Migrated(db).1 <==> Ready(db)
  {
    RunReaches(LATEST_SCHEMA_VERSION, db);
    RebuildReady(db);
    TransfersAt15(db);
    Columns14(db);
    hide Exec, Pending, WorkReady, RecordsReady, AlertsReady, TransfersAt, TransfersReady, Rebuildable, RowAt15;
    hide StillAdded;
  }

  lemma Columns14(db: Db)
    ensures {"receipt_payload", "status"} <= TransfersAt(14, db).columns
      <==> {"receipt_payload", "status"} <= db.transfers.columns
  {
    TableAt14(db.transfers);
    hide After14, After15, Rebuilt;
    assert "receipt_payload" !in EXECUTION_COLUMNS && "status" !in EXECUTION_COLUMNS;
  }

  /**
   An outbox as versions before 14 left it, whatever execution columns an interrupted version 14 has
   added since: the base columns, and rows that meet the constraints of the columns there are.
   Nothing is asked of available_at, which is added without a constraint.
   */
  predicate OutboxBefore14(t: Table) {
    && TRANSFER_COLUMNS - EXECUTION_COLUMNS - {"preflight_receipt_payload"} <= t.columns
    && forall k | k in t.rows ::
         var row := t.rows[k];
         && Present(row, TRANSFER_REQUIRED - EXECUTION_REQUIRED)
         && Sha64(Value(row, "plan_sha256")) && Sha64(Value(row, "proposal_sha256"))
         && OneOf(Value(row, "owner_scope"), {"IAC"}) && OneOf(Value(row, "status"), TRANSFER_STATES)
         && ("attempt_count" in t.columns ==>
               !Value(row, "attempt_count").Null? && Between(Value(row, "attempt_count"), 0, MANY))
         && ("max_attempts" in t.columns ==>
               !Value(row, "max_attempts").Null? && Between(Value(row, "max_attempts"), 1, 10))
  }

  /**
   From any ledger 1..k with k below 14 the rebuild of version 16 cannot fail, whatever execution
   columns are missing and wherever available_at is null: the backfill has supplied them.
   */
  lemma BackfillMakesRebuildSafe(db: Db, k: nat)
    requires WfDb(db) && k < 14 && forall v :: v in db.ledger <==> 1 <= v <= k
    requires OutboxBefore14(db.transfers)
    ensures Rebuildable(Transfers, TransfersAt(15, db))
  {
    RebuildReady(db);
    assert 14 !in db.ledger && 15 !in db.ledger;
    assert TRANSFER_COLUMNS - StillAdded(db.ledger) ==
      TRANSFER_COLUMNS - EXECUTION_COLUMNS - {"preflight_receipt_payload"};
    hide Rebuildable, TransfersAt, Present, Sha64, OneOf, Between, TRANSFER_COLUMNS, EXECUTION_COLUMNS;
  }

  /** From ledger 14 or 15 it does fail on a row without available_at, in a table not yet rebuilt. */
  lemma NullAvailableFails(db: Db, key: string)
    requires WfDb(db) && 14 in db.ledger && 16 !in db.ledger && !db.transfers.current
    requires key in db.transfers.rows && Value(db.transfers.rows[key], "available_at").Null?
    ensures !Migrated(db).1
  {
    SucceedsIff(db);
    assert !RowReady(db.ledger, db.transfers, db.transfers.rows[key]);
    hide Migrated, RowReady;
  }
}
