/**
 What the migrations do to the data: nothing is lost but what the documented moves take, and a run
 fails exactly when a table lacks what its version needs (sean_os/migrations.py).
 */
module MigrationsData {
  import opened Basics
  import opened Migrations

  // ---------------------------------------------------------------- nothing is lost

  ghost predicate Wf(t: Table) {
    forall k | k in t.rows :: t.rows[k].Keys <= t.columns
  }

  ghost predicate WfDb(db: Db) {
    forall name: TableName :: Wf(TableOf(db, name))
  }

  /** Columns outside the rebuilt shape of a table whose rebuild is still to come from this ledger. */
  predicate Dropped(ledger: set<nat>, name: TableName, t: Table, column: string) {
    && !t.current && column !in Shape(name)
    && ((name.WorkQueue? && 2 !in ledger) || (name.Transfers? && 16 !in ledger))
  }

  /** The move of version 15: an early receipt becomes the preflight receipt. */
  predicate ReceiptMoved(was: Row, now: Row) {
    && Value(was, "preflight_receipt_payload").Null? && !Value(was, "receipt_payload").Null?
    && Value(now, "preflight_receipt_payload") == Value(was, "receipt_payload")
    && Value(now, "receipt_payload").Null?
    && Value(was, "status").Text? && Value(was, "status").s in MOVED_STATES
  }

  predicate CellKept(ledger: set<nat>, name: TableName, t: Table, was: Row, now: Row, column: string) {
    || Value(was, column).Null? || Value(now, column) == Value(was, column)
    || Dropped(ledger, name, t, column)
    || (name.Transfers? && column == "receipt_payload" && ReceiptMoved(was, now))
  }

  ghost predicate RowCarried(ledger: set<nat>, name: TableName, t: Table, was: Row, now: Row) {
    && (forall c :: CellKept(ledger, name, t, was, now, c))
    && Value(now, "status") == Value(was, "status")
    && (Value(was, "receipt_payload").Null? ==> Value(now, "receipt_payload").Null?)
  }

  /** Same keys, and every value kept, dropped with its column, or moved. */
  ghost predicate TableCarried(ledger: set<nat>, name: TableName, s: Table, t: Table) {
    && t.rows.Keys == s.rows.Keys && (s.current ==> t.current)
    && forall k | k in s.rows :: RowCarried(ledger, name, s, s.rows[k], t.rows[k])
  }

  ghost predicate Carried(ledger: set<nat>, a: Db, b: Db) {
    forall name: TableName :: TableCarried(ledger, name, TableOf(a, name), TableOf(b, name))
  }

  lemma RowCarriedTwice(ledger: set<nat>, name: TableName, s: Table, t: Table, a: Row, b: Row, c: Row)
    requires RowCarried(ledger, name, s, a, b) && RowCarried(ledger, name, t, b, c) && (s.current ==> t.current)
    ensures RowCarried(ledger, name, s, a, c)
  {
    forall col ensures CellKept(ledger, name, s, a, c, col) {
      assert CellKept(ledger, name, s, a, b, col) && CellKept(ledger, name, t, b, c, col);
      assert CellKept(ledger, name, s, a, b, "preflight_receipt_payload");
      assert CellKept(ledger, name, t, b, c, "preflight_receipt_payload");
      assert "preflight_receipt_payload" in TRANSFER_COLUMNS;
    }
  }

  lemma CarriedTwice(ledger: set<nat>, a: Db, b: Db, c: Db)
    requires Carried(ledger, a, b) && Carried(ledger, b, c)
    ensures Carried(ledger, a, c)
  {
    forall name: TableName ensures TableCarried(ledger, name, TableOf(a, name), TableOf(c, name)) {
      var s, t, u := TableOf(a, name), TableOf(b, name), TableOf(c, name);
      assert TableCarried(ledger, name, s, t) && TableCarried(ledger, name, t, u);
      forall k | k in s.rows ensures RowCarried(ledger, name, s, s.rows[k], u.rows[k]) {
        RowCarriedTwice(ledger, name, s, t, s.rows[k], t.rows[k], u.rows[k]);
      }
    }
  }

  lemma CarriedSame(ledger: set<nat>, a: Db)
    ensures Carried(ledger, a, a)
  {
  }

  /** A step that gives each row of one table a new value carries the data if each row is carried. */
  lemma EachRowCarries(ledger: set<nat>, db: Db, name: TableName, t: Table)
    requires var s := TableOf(db, name);
      && t.rows.Keys == s.rows.Keys && (s.current ==> t.current) && Wf(t)
      && forall k | k in s.rows :: RowCarried(ledger, name, s, s.rows[k], t.rows[k])
    requires WfDb(db)
    ensures Carried(ledger, db, WithTable(db, name, t)) && WfDb(WithTable(db, name, t))
  {
    var d := WithTable(db, name, t);
    forall n: TableName ensures TableCarried(ledger, n, TableOf(db, n), TableOf(d, n)) && Wf(TableOf(d, n)) {
      assert Wf(TableOf(db, n));
      if n != name { assert TableOf(d, n) == TableOf(db, n); }
    }
  }

  predicate Ordinary(ledger: set<nat>, s: Step) {
    && (s.Add? ==> s.column != "status" && s.column != "receipt_payload")
    && (s.Rebuild? ==> (s.table.WorkQueue? && 2 !in ledger) || (s.table.Transfers? && 16 !in ledger))
    && (s.Add? && (s.table.WorkQueue? || s.table.Transfers?) ==> s.column in Shape(s.table))
    && (s.FillAvailable? ==> s.table.Alerts? || s.table.Transfers?)
  }

  lemma AddCarries(ledger: set<nat>, db: Db, s: Step)
    requires WfDb(db) && s.Add? && Ordinary(ledger, s)
    ensures Carried(ledger, db, Effect(s, db).value) && WfDb(Effect(s, db).value)
  {
    var t := TableOf(db, s.table);
    assert Wf(t);
    EachRowCarries(ledger, db, s.table, AddColumn(t, s.column, s.default));
  }

  lemma FillCarries(ledger: set<nat>, db: Db, s: Step)
    requires WfDb(db) && s.FillAvailable? && Ordinary(ledger, s) && Effect(s, db).Some?
    ensures Carried(ledger, db, Effect(s, db).value) && WfDb(Effect(s, db).value)
  {
    var t := TableOf(db, s.table);
    assert Wf(t);
    EachRowCarries(ledger, db, s.table, EachRow(t, FillRow));
  }

  lemma BackfillRowCarried(ledger: set<nat>, t: Table, row: Row)
    ensures RowCarried(ledger, Records, t, row, BackfillRow(row))
  {
    forall c ensures CellKept(ledger, Records, t, row, BackfillRow(row), c) {}
  }

  lemma BackfillCarries(ledger: set<nat>, db: Db, s: Step)
    requires WfDb(db) && s.BackfillRecords? && Effect(s, db).Some?
    ensures Carried(ledger, db, Effect(s, db).value) && WfDb(Effect(s, db).value)
  {
    assert Wf(TableOf(db, Records));
    forall k | k in db.records.rows
      ensures RowCarried(ledger, Records, db.records, db.records.rows[k], BackfillRow(db.records.rows[k]))
      ensures BackfillRow(db.records.rows[k]).Keys <= db.records.columns
    {
      BackfillRowCarried(ledger, db.records, db.records.rows[k]);
    }
    hide BackfillRow, RowCarried, Aborted;
    EachRowCarries(ledger, db, Records, EachRow(db.records, BackfillRow));
  }

  lemma MoveCarries(ledger: set<nat>, db: Db, s: Step)
    requires WfDb(db) && s.MoveReceipts? && Effect(s, db).Some?
    ensures Carried(ledger, db, Effect(s, db).value) && WfDb(Effect(s, db).value)
  {
    var t := db.transfers;
    assert Wf(TableOf(db, Transfers));
    forall k | k in t.rows ensures RowCarried(ledger, Transfers, t, t.rows[k], MoveRow(t.rows[k])) {
      forall c ensures CellKept(ledger, Transfers, t, t.rows[k], MoveRow(t.rows[k]), c) {
      }
    }
    EachRowCarries(ledger, db, Transfers, EachRow(t, MoveRow));
  }

  lemma RestrictCarried(ledger: set<nat>, name: TableName, t: Table, row: Row)
    requires !t.current && ((name.WorkQueue? && 2 !in ledger) || (name.Transfers? && 16 !in ledger))
    ensures RowCarried(ledger, name, t, row, Restrict(row, Shape(name)))
  {
    assert "status" in Shape(name);
    forall c ensures CellKept(ledger, name, t, row, Restrict(row, Shape(name)), c) {}
  }

  lemma RebuildCarries(ledger: set<nat>, db: Db, s: Step)
    requires WfDb(db) && s.Rebuild? && Ordinary(ledger, s) && Effect(s, db).Some?
    ensures Carried(ledger, db, Effect(s, db).value) && WfDb(Effect(s, db).value)
  {
    var t := TableOf(db, s.table);
    if t.current {
      CarriedSame(ledger, db);
    } else {
      assert Wf(t);
      forall k | k in t.rows ensures RowCarried(ledger, s.table, t, t.rows[k], Restrict(t.rows[k], Shape(s.table))) {
        RestrictCarried(ledger, s.table, t, t.rows[k]);
      }
      hide RowCarried, Fits, Shape;
      EachRowCarries(ledger, db, s.table, Rebuilt(s.table, t));
    }
  }

  lemma StepCarries(ledger: set<nat>, db: Db, s: Step)
    requires WfDb(db) && Ordinary(ledger, s) && Effect(s, db).Some?
    ensures Carried(ledger, db, Effect(s, db).value) && WfDb(Effect(s, db).value)
  {
    match s
    case Record(v) =>
      var d := Effect(s, db).value;
      CarriedSame(ledger, db);
      forall name: TableName ensures TableOf(d, name) == TableOf(db, name) {}
    case Add(_, _, _) => AddCarries(ledger, db, s);
    case BackfillRecords => BackfillCarries(ledger, db, s);
    case FillAvailable(_) => FillCarries(ledger, db, s);
    case MoveReceipts => MoveCarries(ledger, db, s);
    case Rebuild(_) => RebuildCarries(ledger, db, s);
  }

  lemma ProgramOrdinary(v: nat, ledger: set<nat>)
    requires v !in ledger
    ensures forall s | s in Program(v) :: Ordinary(ledger, s)
  {
  }

  lemma {:induction false} PendingOrdinary(v: nat, ledger: set<nat>)
    ensures forall s | s in Pending(v, ledger) :: Ordinary(ledger, s)
  {
    if v > 0 {
      PendingOrdinary(v - 1, ledger);
      if v !in ledger { ProgramOrdinary(v, ledger); }
    }
    hide Program, Ordinary;
  }

  lemma {:induction false} ExecCarries(ledger: set<nat>, steps: seq<Step>, db: Db)
    requires WfDb(db) && forall s | s in steps :: Ordinary(ledger, s)
    ensures Carried(ledger, db, Exec(steps, db).0) && WfDb(Exec(steps, db).0)
    decreases |steps|
  {
    hide Effect, Carried, WfDb, Ordinary;
    if steps == [] {
      CarriedSame(ledger, db);
    } else {
      var before, s := steps[..|steps| - 1], steps[|steps| - 1];
      assert forall t | t in before :: t in steps;
      ExecCarries(ledger, before, db);
      var d := Exec(before, db).0;
      if Effect(s, d).Some? {
        assert s in steps;
        StepCarries(ledger, d, s);
        CarriedTwice(ledger, db, d, Effect(s, d).value);
      }
    }
  }

  /**
   At every crash point and at the end, keys are as they were and no value is lost but an early receipt
   that moves and the columns outside the shape of a table that is still to be rebuilt.
   */
  lemma MigrationCarries(db: Db, steps: nat)
    requires WfDb(db)
    ensures Carried(db.ledger, db, Crashed(db, steps)) && Carried(db.ledger, db, Migrated(db).0)
  {
    var p := Pending(LATEST_SCHEMA_VERSION, db.ledger);
    PendingOrdinary(LATEST_SCHEMA_VERSION, db.ledger);
    var prefix := p[..if steps < |p| then steps else |p|];
    assert forall s | s in prefix :: s in p;
    hide Pending, Exec, Ordinary, Carried;
    ExecCarries(db.ledger, prefix, db);
    ExecCarries(db.ledger, p, db);
  }

  // ---------------------------------------------------------------- what a rebuild drops is gone

  /** A rebuilt table has no values outside its shape. */
  ghost predicate Shaped(name: TableName, t: Table) {
    t.current ==> forall k | k in t.rows :: t.rows[k].Keys <= Shape(name)
  }

  lemma StepShapes(ledger: set<nat>, db: Db, s: Step, name: TableName)
    requires Ordinary(ledger, s) && Effect(s, db).Some? && (name.WorkQueue? || name.Transfers?)
    requires Shaped(name, TableOf(db, name))
    ensures Shaped(name, TableOf(Effect(s, db).value, name))
    ensures TableOf(db, name).current || s == Rebuild(name) ==> TableOf(Effect(s, db).value, name).current
  {
    assert {"available_at", "preflight_receipt_payload", "receipt_payload"} <= TRANSFER_COLUMNS;
    assert "available_at" in WORK_COLUMNS;
  }

  lemma {:induction false} ExecShapes(ledger: set<nat>, steps: seq<Step>, db: Db, name: TableName)
    requires (name.WorkQueue? || name.Transfers?) && Shaped(name, TableOf(db, name)) && Exec(steps, db).1
    requires forall s | s in steps :: Ordinary(ledger, s)
    ensures Shaped(name, TableOf(Exec(steps, db).0, name))
    ensures TableOf(db, name).current || Rebuild(name) in steps ==> TableOf(Exec(steps, db).0, name).current
    decreases |steps|
  {
    hide Effect, Shaped, Ordinary;
    if steps != [] {
      var before, s := steps[..|steps| - 1], steps[|steps| - 1];
      assert forall t | t in before :: t in steps;
      assert s in steps;
      ExecShapes(ledger, before, db, name);
      StepShapes(ledger, Exec(before, db).0, s, name);
    }
  }

  lemma {:induction false} PendingRebuilds(v: nat, ledger: set<nat>)
    ensures v >= 2 && 2 !in ledger ==> Rebuild(WorkQueue) in Pending(v, ledger)
    ensures v >= 16 && 16 !in ledger ==> Rebuild(Transfers) in Pending(v, ledger)
  {
    if v > 0 {
      PendingRebuilds(v - 1, ledger);
      assert v == 2 ==> Program(2)[0] == Rebuild(WorkQueue);
      assert v == 16 ==> Program(16)[0] == Rebuild(Transfers);
    }
  }

  /**
   Of a finished run: a value outside the shape of a rebuilt table is kept if and only if the table was
   rebuilt before, or its version was recorded; otherwise it is gone.
   */
  lemma DroppedExactly(db: Db, name: TableName, k: string, column: string)
    requires WfDb(db) && Migrated(db).1 && (name.WorkQueue? || name.Transfers?)
    requires k in TableOf(db, name).rows && column !in Shape(name)
    requires !Value(TableOf(db, name).rows[k], column).Null?
    ensures k in TableOf(Migrated(db).0, name).rows
    ensures var was, now := TableOf(db, name).rows[k], TableOf(Migrated(db).0, name).rows[k];
      && (Value(now, column) == Value(was, column) <==> !Dropped(db.ledger, name, TableOf(db, name), column))
      && (Dropped(db.ledger, name, TableOf(db, name), column) ==> column !in now)
  {
    var t, u := TableOf(db, name), TableOf(Migrated(db).0, name);
    MigrationCarries(db, 0);
    assert TableCarried(db.ledger, name, t, u);
    assert "receipt_payload" in TRANSFER_COLUMNS;
    assert RowCarried(db.ledger, name, t, t.rows[k], u.rows[k]);
    assert CellKept(db.ledger, name, t, t.rows[k], u.rows[k], column);
    hide Carried, RowCarried, TableCarried, Exec, Pending;
    if Dropped(db.ledger, name, t, column) {
      var p := Pending(LATEST_SCHEMA_VERSION, db.ledger);
      PendingOrdinary(LATEST_SCHEMA_VERSION, db.ledger);
      PendingRebuilds(LATEST_SCHEMA_VERSION, db.ledger);
      ExecShapes(db.ledger, p, db, name);
    }
  }

  /** A finished run leaves a full ledger and adds no version beyond it. */
  lemma FullLedger(db: Db)
    requires Migrated(db).1
    ensures forall v: nat :: v in Migrated(db).0.ledger <==> v in db.ledger || 1 <= v <= LATEST_SCHEMA_VERSION
  {
    var p := Pending(LATEST_SCHEMA_VERSION, db.ledger);
    LedgerGrows(p, db);
    hide Pending, Exec;
    forall v: nat ensures Record(v) in p <==> 1 <= v <= LATEST_SCHEMA_VERSION && v !in db.ledger {
      PendingRecords(LATEST_SCHEMA_VERSION, db.ledger, v);
    }
  }
}
