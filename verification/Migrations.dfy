/**
 The ordered, restart-safe schema migrations (sean_os/migrations.py): each autocommitted statement
 and each committed transaction is one step. A run is the steps of the versions that the ledger
 lacked when it began, up to the first failure or the crash.
 */
module Migrations {
  import opened Basics

  datatype Cell = Null | Text(s: string) | Int(n: int) | Real(x: real)

  type Row = map<string, Cell>

  /** A table as the migrations see it; `current` says its CHECK names the newest states. */
  datatype Table = Table(columns: set<string>, current: bool, rows: map<string, Row>)

  datatype TableName = Records | WorkQueue | Alerts | Transfers

  datatype Db = Db(records: Table, work: Table, alerts: Table, transfers: Table, ledger: set<nat>)

  datatype Step =
    | BackfillRecords
    | Add(table: TableName, column: string, default: Cell)
    | FillAvailable(table: TableName)
    | MoveReceipts
    | Rebuild(table: TableName)
    | Record(version: nat)

  const LATEST_SCHEMA_VERSION := 18

  const WORK_COLUMNS: set<string> := {
    "id", "task_type", "owner_scope", "payload", "status", "priority", "attempts", "max_attempts", "available_at",
    "lease_owner", "lease_expires_at", "last_error", "created_at", "updated_at"}

  const WORK_REQUIRED: set<string> := {
    "task_type", "owner_scope", "payload", "status", "priority", "attempts", "max_attempts", "available_at",
    "created_at", "updated_at"}

  const WORK_STATES: set<string> := {
    "QUEUED", "RUNNING", "SUCCEEDED", "FAILED", "DEAD_LETTER", "BUDGET_BLOCKED", "APPROVAL_BLOCKED", "POLICY_BLOCKED"}

  const SCOPES: set<string> := {"PERSONAL", "IAC", "SHARED"}

  const TRANSFER_COLUMNS: set<string> := {
    "plan_sha256", "owner_scope", "approval_target", "proposal_sha256", "plan_payload", "status", "approval_id",
    "attempt_count", "max_attempts", "available_at", "lease_owner", "lease_expires_at", "last_error",
    "preflight_receipt_payload", "receipt_payload", "created_at", "updated_at", "completed_at"}

  const TRANSFER_REQUIRED: set<string> := {
    "owner_scope", "approval_target", "proposal_sha256", "plan_payload", "status", "attempt_count", "max_attempts",
    "available_at", "created_at", "updated_at"}

  const TRANSFER_STATES: set<string> := {
    "STAGED", "PREFLIGHT_VALIDATED", "AUTHORIZED", "COMPLETED", "FAILED", "RECONCILIATION_REQUIRED"}

  const MOVED_STATES: set<string> := {"STAGED", "PREFLIGHT_VALIDATED", "AUTHORIZED", "FAILED"}

  // ---------------------------------------------------------------- steps

  function Value(row: Row, column: string): Cell {
    if column in row then row[column] else Null
  }

  function TableOf(db: Db, name: TableName): Table {
    match name
    case Records => db.records
    case WorkQueue => db.work
    case Alerts => db.alerts
    case Transfers => db.transfers
  }

  function WithTable(db: Db, name: TableName, t: Table): Db {
    match name
    case Records => db.(records := t)
    case WorkQueue => db.(work := t)
    case Alerts => db.(alerts := t)
    case Transfers => db.(transfers := t)
  }

  function EachRow(t: Table, f: Row -> Row): Table {
    t.(rows := map k | k in t.rows :: f(t.rows[k]))
  }

  function AddColumn(t: Table, column: string, default: Cell): Table {
    if column in t.columns then t
    else EachRow(t.(columns := t.columns + {column}), (row: Row) => row[column := default])
  }

  function FillRow(row: Row): Row {
    if Value(row, "available_at").Null? then row["available_at" := Value(row, "created_at")] else row
  }

  function BackfillRow(row: Row): Row {
    var dated := if Value(row, "effective_at").Null? then row["effective_at" := Value(row, "created_at")] else row;
    if Value(dated, "confidence").Null?
    then dated["confidence" := Real(if Value(row, "source") == Text("user") then 1.0 else 0.5)] else dated
  }

  predicate Blank(c: Cell) {
    c.Text? && forall i | 0 <= i < |c.s| :: c.s[i] == ' '
  }

  /** The update trigger on records aborts rows that are undated or have no retention rule. */
  predicate Aborted(row: Row) {
    && (Value(row, "effective_at").Null? || Value(row, "confidence").Null?)
    && (Value(BackfillRow(row), "effective_at").Null? || Blank(Value(row, "retention_rule")))
  }

  predicate Moves(row: Row) {
    && Value(row, "preflight_receipt_payload").Null? && !Value(row, "receipt_payload").Null?
    && Value(row, "status").Text? && Value(row, "status").s in MOVED_STATES
  }

  function MoveRow(row: Row): Row {
    if Moves(row)
    then row["preflight_receipt_payload" := Value(row, "receipt_payload")]["receipt_payload" := Null]
    else row
  }

  predicate OneOf(c: Cell, texts: set<string>) {
    c.Null? || (c.Text? && c.s in texts)
  }

  predicate Between(c: Cell, low: int, high: int) {
    c.Null? || (c.Int? && low <= c.n <= high)
  }

  predicate Sha64(c: Cell) {
    c.Null? || (c.Text? && |c.s| == 64)
  }

  predicate Present(row: Row, columns: set<string>) {
    forall c | c in columns :: !Value(row, c).Null?
  }

  /** NOT NULL and CHECK of the rebuilt tables. */
  predicate WorkRowFits(row: Row) {
    Present(row, WORK_REQUIRED) && OneOf(Value(row, "owner_scope"), SCOPES) && OneOf(Value(row, "status"), WORK_STATES)
  }

  const MANY := 0x7fff_ffff_ffff_ffff

  predicate TransferRowFits(row: Row) {
    && Present(row, TRANSFER_REQUIRED)
    && Sha64(Value(row, "plan_sha256")) && Sha64(Value(row, "proposal_sha256"))
    && OneOf(Value(row, "owner_scope"), {"IAC"}) && OneOf(Value(row, "status"), TRANSFER_STATES)
    && Between(Value(row, "attempt_count"), 0, MANY) && Between(Value(row, "max_attempts"), 1, 10)
  }

  function Shape(name: TableName): set<string> {
    if name.Transfers? then TRANSFER_COLUMNS else WORK_COLUMNS
  }

  predicate Fits(name: TableName, row: Row) {
    if name.Transfers? then TransferRowFits(row) else WorkRowFits(row)
  }

  predicate Rebuildable(name: TableName, t: Table) {
    Shape(name) <= t.columns && forall k | k in t.rows :: Fits(name, t.rows[k])
  }

  function Restrict(row: Row, columns: set<string>): Row {
    map c | c in row && c in columns :: row[c]
  }

  function Rebuilt(name: TableName, t: Table): Table {
    EachRow(t.(columns := Shape(name), current := true), (row: Row) => Restrict(row, Shape(name)))
  }

  /** One step; nothing when it raises, its transaction rolled back. */
  function Effect(step: Step, db: Db): Option<Db> {
    match step
    case Record(v) => Some(db.(ledger := db.ledger + {v}))
    case Add(name, column, default) => Some(WithTable(db, name, AddColumn(TableOf(db, name), column, default)))
    case BackfillRecords =>
      if {"effective_at", "created_at", "confidence", "source", "retention_rule"} <= db.records.columns
         && forall k | k in db.records.rows :: !Aborted(db.records.rows[k])
      then Some(db.(records := EachRow(db.records, BackfillRow))) else None
    case FillAvailable(name) =>
      if {"available_at", "created_at", "status", "lease_expires_at"} <= TableOf(db, name).columns
      then Some(WithTable(db, name, EachRow(TableOf(db, name), FillRow))) else None
    case MoveReceipts =>
      if {"preflight_receipt_payload", "receipt_payload", "status"} <= db.transfers.columns
      then Some(db.(transfers := EachRow(db.transfers, MoveRow))) else None
    case Rebuild(name) =>
      if TableOf(db, name).current then Some(db)
      else if Rebuildable(name, TableOf(db, name)) then Some(WithTable(db, name, Rebuilt(name, TableOf(db, name))))
      else None
  }

  // ---------------------------------------------------------------- runs

  function Program(v: nat): (p: seq<Step>)
    ensures |p| > 0 && p[|p| - 1] == Record(v) && forall i | 0 <= i < |p| - 1 :: !p[i].Record?
  {
    match v
    case 2 => [Rebuild(WorkQueue), Record(2)]
    case 7 => [BackfillRecords, Record(7)]
    case 11 => [Add(Alerts, "max_attempts", Int(3)), Add(Alerts, "available_at", Null),
                Add(Alerts, "lease_owner", Null), Add(Alerts, "lease_expires_at", Null),
                Add(Alerts, "last_error", Null), FillAvailable(Alerts), Record(11)]
    case 14 => [Add(Transfers, "attempt_count", Int(0)), Add(Transfers, "max_attempts", Int(3)),
                Add(Transfers, "available_at", Null), Add(Transfers, "lease_owner", Null),
                Add(Transfers, "lease_expires_at", Null), Add(Transfers, "last_error", Null),
                FillAvailable(Transfers), Record(14)]
    case 15 => [Add(Transfers, "preflight_receipt_payload", Null), MoveReceipts, Record(15)]
    case 16 => [Rebuild(Transfers), Record(16)]
    case _ => [Record(v)]
  }

  function Missing(v: nat, ledger: set<nat>): seq<Step> {
    if v in ledger then [] else Program(v)
  }

  /** The steps of versions 1 to v that a run starting from this ledger takes. */
  function Pending(v: nat, ledger: set<nat>): seq<Step> {
    if v == 0 then [] else Pending(v - 1, ledger) + Missing(v, ledger)
  }

  /** The steps taken in order; the flag says that none of them raised. */
  function Exec(steps: seq<Step>, db: Db): (Db, bool)
    decreases |steps|
  {
    if steps == [] then (db, true) else
    var (d, ok) := Exec(steps[..|steps| - 1], db);
    if !ok then (d, false) else
    var e := Effect(steps[|steps| - 1], d);
    if e.None? then (d, false) else (e.value, true)
  }

  /** A run that nothing interrupts. */
  function Migrated(db: Db): (Db, bool) {
    Exec(Pending(LATEST_SCHEMA_VERSION, db.ledger), db)
  }

  /** What a run leaves that stops after a given number of steps. */
  function Crashed(db: Db, steps: nat): Db {
    var p := Pending(LATEST_SCHEMA_VERSION, db.ledger);
    Exec(p[..if steps < |p| then steps else |p|], db).0
  }

  /** What a series of interrupted runs leaves. */
  function CrashedOften(db: Db, crashes: seq<nat>): Db
    decreases |crashes|
  {
    if crashes == [] then db
    else Crashed(CrashedOften(db, crashes[..|crashes| - 1]), crashes[|crashes| - 1])
  }

  lemma ExecSnoc(steps: seq<Step>, s: Step, db: Db)
    ensures Exec(steps + [s], db) ==
      var (d, ok) := Exec(steps, db);
      if !ok then (d, false) else
      if Effect(s, d).None? then (d, false) else (Effect(s, d).value, true)
  {
    assert (steps + [s])[..|steps|] == steps;
  }

  lemma {:induction false} ExecConcat(a: seq<Step>, b: seq<Step>, db: Db)
    ensures Exec(a + b, db) == if Exec(a, db).1 then Exec(b, Exec(a, db).0) else Exec(a, db)
    decreases |b|
  {
    hide Effect;
    if b == [] {
      assert a + b == a;
    } else {
      var last := |b| - 1;
      ExecConcat(a, b[..last], db);
      assert a + b == (a + b[..last]) + [b[last]];
      ExecSnoc(a + b[..last], b[last], db);
      assert b == b[..last] + [b[last]];
      ExecSnoc(b[..last], b[last], Exec(a, db).0);
    }
  }

  // ---------------------------------------------------------------- every step is settled once taken

  predicate Settled(s: Step, db: Db) {
    Effect(s, db) == Some(db)
  }

  lemma EachRowSame(t: Table, f: Row -> Row)
    requires forall k | k in t.rows :: f(t.rows[k]) == t.rows[k]
    ensures EachRow(t, f) == t
  {
  }

  lemma StepSettles(s: Step, db: Db)
    requires Effect(s, db).Some?
    ensures Settled(s, Effect(s, db).value)
  {
    var d := Effect(s, db).value;
    match s
    case Record(v) => assert db.ledger + {v} + {v} == db.ledger + {v};
    case Add(_, _, _) =>
    case BackfillRecords =>
      EachRowSame(d.records, BackfillRow);
    case FillAvailable(name) =>
      EachRowSame(TableOf(d, name), FillRow);
    case MoveReceipts =>
      EachRowSame(d.transfers, MoveRow);
    case Rebuild(name) =>
  }

  /** The steps of one version never undo one another. */
  predicate Compatible(s: Step, t: Step) {
    t.Record? || (s.Add? && !t.Rebuild?)
  }

  lemma StaysSettled(s: Step, t: Step, db: Db)
    requires Compatible(s, t) && Settled(s, db) && !s.Record? && Effect(t, db).Some?
    ensures Settled(s, Effect(t, db).value)
  {
    if s.Add? {
      assert s.column in TableOf(db, s.table).columns;
    }
  }

  lemma ProgramsCompatible(v: nat)
    ensures forall i, j | 0 <= i < j < |Program(v)| :: Compatible(Program(v)[i], Program(v)[j])
  {
  }

  lemma {:induction false} PrefixSettled(p: seq<Step>, i: nat, db: Db)
    requires i <= |p| && Exec(p[..i], db).1
    requires forall a, b | 0 <= a < b < |p| :: Compatible(p[a], p[b])
    requires forall a | 0 <= a < |p| - 1 :: !p[a].Record?
    ensures forall a | 0 <= a < i :: Settled(p[a], Exec(p[..i], db).0)
  {
    hide Effect, Compatible, Settled;
    if i > 0 {
      assert p[..i] == p[..i - 1] + [p[i - 1]];
      ExecSnoc(p[..i - 1], p[i - 1], db);
      PrefixSettled(p, i - 1, db);
      var d := Exec(p[..i - 1], db).0;
      StepSettles(p[i - 1], d);
      forall a | 0 <= a < i - 1 ensures Settled(p[a], Exec(p[..i], db).0) {
        StaysSettled(p[a], p[i - 1], d);
      }
    }
  }

  lemma {:induction false} SettledPrefix(p: seq<Step>, db: Db)
    requires forall a | 0 <= a < |p| :: Settled(p[a], db)
    ensures Exec(p, db) == (db, true)
    decreases |p|
  {
    hide Effect;
    if p != [] {
      assert forall a | 0 <= a < |p| - 1 :: p[..|p| - 1][a] == p[a];
      SettledPrefix(p[..|p| - 1], db);
      assert Settled(p[|p| - 1], db);
    }
  }

  /** Starting a version again after any part of it comes to the same as taking it once. */
  lemma {:induction false} Absorbed(p: seq<Step>, i: nat, db: Db)
    requires i <= |p|
    requires forall a, b | 0 <= a < b < |p| :: Compatible(p[a], p[b])
    requires forall a | 0 <= a < |p| - 1 :: !p[a].Record?
    ensures Exec(p, Exec(p[..i], db).0) == Exec(p, db)
  {
    hide Effect, Compatible;
    var (d, ok) := Exec(p[..i], db);
    assert p == p[..i] + p[i..];
    if ok {
      PrefixSettled(p, i, db);
      SettledPrefix(p[..i], d);
      ExecConcat(p[..i], p[i..], db);
      ExecConcat(p[..i], p[i..], d);
    } else {
      assert p[..i] == p[..i - 1] + [p[i - 1]];
      ExecSnoc(p[..i - 1], p[i - 1], db);
      Absorbed(p, i - 1, db);
    }
  }

  // ---------------------------------------------------------------- convergence

  /** Which versions a prefix of the pending steps can have recorded. */
  lemma {:induction false} LedgerGrows(steps: seq<Step>, db: Db)
    ensures db.ledger <= Exec(steps, db).0.ledger
    ensures forall v | v in Exec(steps, db).0.ledger && v !in db.ledger :: Record(v) in steps
    ensures Exec(steps, db).1 ==> forall v | Record(v) in steps :: v in Exec(steps, db).0.ledger
    decreases |steps|
  {
    if steps != [] {
      LedgerGrows(steps[..|steps| - 1], db);
      if Effect(steps[|steps| - 1], Exec(steps[..|steps| - 1], db).0).Some? {
        LedgerStep(steps[|steps| - 1], Exec(steps[..|steps| - 1], db).0);
      }
      hide Effect;
      assert steps == steps[..|steps| - 1] + [steps[|steps| - 1]];
    }
  }

  lemma LedgerStep(s: Step, db: Db)
    requires Effect(s, db).Some?
    ensures Effect(s, db).value.ledger == if s.Record? then db.ledger + {s.version} else db.ledger
  {
  }

  lemma PendingSplit(v: nat, ledger: set<nat>)
    requires v > 0
    ensures Pending(v, ledger) == Pending(v - 1, ledger) + Missing(v, ledger)
  {
  }

  lemma {:induction false} PendingSame(v: nat, ledger: set<nat>, other: set<nat>)
    requires forall w | 1 <= w <= v :: w in ledger <==> w in other
    ensures Pending(v, ledger) == Pending(v, other)
  {
    hide Program;
    if v > 0 { PendingSame(v - 1, ledger, other); }
  }

  lemma ProgramRecords(v: nat, w: nat)
    ensures Record(w) in Program(v) <==> w == v
  {
    var p := Program(v);
    hide Program;
    assert p[|p| - 1] == Record(v);
    if Record(w) in p {
      var i :| 0 <= i < |p| && p[i] == Record(w);
    }
  }

  lemma {:induction false} PendingRecords(v: nat, ledger: set<nat>, w: nat)
    ensures Record(w) in Pending(v, ledger) <==> 1 <= w <= v && w !in ledger
  {
    if v > 0 {
      PendingRecords(v - 1, ledger, w);
      ProgramRecords(v, w);
    }
    hide Program;
  }

  lemma {:induction false} PendingNone(v: nat, ledger: set<nat>)
    requires forall w | 1 <= w <= v :: w in ledger
    ensures Pending(v, ledger) == []
  {
    if v > 0 { PendingNone(v - 1, ledger); }
  }

  lemma NotYetRecorded(v: nat, j: nat, db: Db)
    requires j < |Program(v)| && v !in db.ledger
    ensures v !in Exec(Program(v)[..j], db).0.ledger
  {
    var p := Program(v);
    assert forall i | 0 <= i < j :: p[..j][i] == p[i] && !p[i].Record?;
    LedgerGrows(p[..j], db);
  }

  /** A version is in the ledger only after its whole program. */
  lemma VersionDone(v: nat, j: nat, db: Db)
    requires j <= |Program(v)| && v !in db.ledger && v in Exec(Program(v)[..j], db).0.ledger
    ensures j == |Program(v)| && Exec(Program(v), db).1
  {
    var p := Program(v);
    var last := |p| - 1;
    if j < |p| { NotYetRecorded(v, j, db); }
    NotYetRecorded(v, last, db);
    hide Program;
    assert p[..|p|] == p == p[..last] + [Record(v)];
    ExecSnoc(p[..last], Record(v), db);
  }

  lemma VersionConverges(v: nat, j: nat, db: Db)
    requires j <= |Program(v)| && v !in db.ledger
    ensures var d := Exec(Program(v)[..j], db).0; Exec(Missing(v, d.ledger), d) == Exec(Program(v), db)
  {
    var d := Exec(Program(v)[..j], db).0;
    ProgramsCompatible(v);
    var p := Program(v);
    hide Program, Compatible, Effect;
    if v in d.ledger {
      VersionDone(v, j, db);
      assert p[..j] == p;
    } else {
      Absorbed(p, j, db);
    }
  }

  lemma {:induction false} Converges(v: nat, i: nat, db: Db)
    requires i <= |Pending(v, db.ledger)|
    ensures var d := Exec(Pending(v, db.ledger)[..i], db).0;
      Exec(Pending(v, d.ledger), d) == Exec(Pending(v, db.ledger), db)
    decreases v, i
  {
    hide Program, Effect, Exec, Missing;
    if v == 0 {
      assert Pending(v, db.ledger)[..i] == [];
      ExecNone(db);
    } else {
      var p := Pending(v - 1, db.ledger);
      if i <= |p| {
        Converges(v - 1, i, db);
        ConvergesBefore(v, i, db);
      } else if !Exec(p, db).1 {
        ConvergesStopped(v, i, db);
        Converges(v, |p|, db);
        ConvergesStopped(v, |p|, db);
      } else {
        ConvergesInside(v, i, db);
      }
    }
  }

  /** A crash among the steps of versions below v leaves v as recorded or unrecorded as it was. */
  lemma SameRecorded(v: nat, i: nat, db: Db)
    requires v > 0 && i <= |Pending(v - 1, db.ledger)|
    ensures v in Exec(Pending(v - 1, db.ledger)[..i], db).0.ledger <==> v in db.ledger
  {
    hide Program, Effect, Exec, Pending;
    var p := Pending(v - 1, db.ledger);
    LedgerGrows(p[..i], db);
    PendingRecords(v - 1, db.ledger, v);
    assert Record(v) in p[..i] ==> Record(v) in p;
  }

  lemma SameMissing(v: nat, i: nat, db: Db)
    requires v > 0 && i <= |Pending(v - 1, db.ledger)|
    ensures Missing(v, Exec(Pending(v - 1, db.ledger)[..i], db).0.ledger) == Missing(v, db.ledger)
  {
    SameRecorded(v, i, db);
    hide Program, Effect, Exec, Pending;
  }

  lemma ConvergesBefore(v: nat, i: nat, db: Db)
    requires v > 0 && i <= |Pending(v - 1, db.ledger)|
    requires var d := Exec(Pending(v - 1, db.ledger)[..i], db).0;
      Exec(Pending(v - 1, d.ledger), d) == Exec(Pending(v - 1, db.ledger), db)
    ensures |Pending(v - 1, db.ledger)| <= |Pending(v, db.ledger)|
    ensures var d := Exec(Pending(v, db.ledger)[..i], db).0;
      Exec(Pending(v, d.ledger), d) == Exec(Pending(v, db.ledger), db)
  {
    var p, q := Pending(v - 1, db.ledger), Missing(v, db.ledger);
    var d := Exec(p[..i], db).0;
    PendingSplit(v, db.ledger);
    PendingSplit(v, d.ledger);
    SameMissing(v, i, db);
    hide Program, Effect, Exec, Pending, Missing;
    ExecConcat(p, q, db);
    ExecConcat(Pending(v - 1, d.ledger), q, d);
    assert (p + q)[..i] == p[..i];
  }

  lemma ExecNone(db: Db)
    ensures Exec([], db) == (db, true)
  {
  }

  lemma ConvergesStopped(v: nat, i: nat, db: Db)
    requires v > 0 && |Pending(v - 1, db.ledger)| <= i <= |Pending(v, db.ledger)|
    requires !Exec(Pending(v - 1, db.ledger), db).1
    ensures Exec(Pending(v, db.ledger)[..i], db).0 == Exec(Pending(v - 1, db.ledger), db).0
  {
    hide Program, Effect, Exec;
    var p, q := Pending(v - 1, db.ledger), Missing(v, db.ledger);
    assert (p + q)[..i] == p + q[..i - |p|];
    ExecConcat(p, q[..i - |p|], db);
  }

  lemma MissingProgram(v: nat, ledger: set<nat>, n: nat)
    requires n == |Missing(v, ledger)| > 0
    ensures v !in ledger && Missing(v, ledger) == Program(v)
  {
  }

  lemma AllRecorded(v: nat, db: Db, w: nat)
    requires Exec(Pending(v, db.ledger), db).1 && 1 <= w <= v
    ensures w in Exec(Pending(v, db.ledger), db).0.ledger
  {
    hide Program, Effect, Exec, Pending;
    LedgerGrows(Pending(v, db.ledger), db);
    PendingRecords(v, db.ledger, w);
  }

  /** All versions below v are done; the rest of the run is version v alone. */
  lemma InsideLedger(v: nat, j: nat, db: Db)
    requires v > 0 && Exec(Pending(v - 1, db.ledger), db).1 && v !in db.ledger && j <= |Program(v)|
    ensures var e := Exec(Pending(v - 1, db.ledger), db).0;
      v !in e.ledger && Pending(v - 1, Exec(Program(v)[..j], e).0.ledger) == []
  {
    hide Program, Effect, Exec, Pending;
    var p := Pending(v - 1, db.ledger);
    var e := Exec(p, db).0;
    SameRecorded(v, |p|, db);
    assert p[..|p|] == p;
    LedgerGrows(Program(v)[..j], e);
    forall w | 1 <= w < v ensures w in e.ledger { AllRecorded(v - 1, db, w); }
    PendingNone(v - 1, Exec(Program(v)[..j], e).0.ledger);
  }

  lemma ConvergesInside(v: nat, i: nat, db: Db)
    requires v > 0 && |Pending(v - 1, db.ledger)| < i <= |Pending(v, db.ledger)|
    requires Exec(Pending(v - 1, db.ledger), db).1
    ensures var d := Exec(Pending(v, db.ledger)[..i], db).0;
      Exec(Pending(v, d.ledger), d) == Exec(Pending(v, db.ledger), db)
  {
    var p, q := Pending(v - 1, db.ledger), Missing(v, db.ledger);
    var j := i - |p|;
    PendingSplit(v, db.ledger);
    MissingProgram(v, db.ledger, |q|);
    InsideLedger(v, j, db);
    var e := Exec(p, db).0;
    var d := Exec(q[..j], e).0;
    PendingSplit(v, d.ledger);
    VersionConverges(v, j, e);
    hide Program, Effect, Exec, Pending, Missing;
    assert (p + q)[..i] == p + q[..j];
    ExecConcat(p, q, db);
    ExecConcat(p, q[..j], db);
    assert [] + Missing(v, d.ledger) == Missing(v, d.ledger);
  }

  /** However often a run is cut short, running again comes to what one uninterrupted run comes to. */
  lemma {:induction false} CrashesConverge(db: Db, crashes: seq<nat>)
    ensures Migrated(CrashedOften(db, crashes)) == Migrated(db)
    decreases |crashes|
  {
    if crashes != [] {
      var before := CrashedOften(db, crashes[..|crashes| - 1]);
      CrashesConverge(db, crashes[..|crashes| - 1]);
      var steps, p := crashes[|crashes| - 1], Pending(LATEST_SCHEMA_VERSION, before.ledger);
      Converges(LATEST_SCHEMA_VERSION, if steps < |p| then steps else |p|, before);
    }
  }
}
