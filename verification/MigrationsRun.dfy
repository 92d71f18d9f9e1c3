/**
 apply_migrations on an open connection: the tables and the ledger change in place, one statement
 or transaction at a time (sean_os/migrations.py:15-265).
 */
module MigrationsRun {
  import opened Basics
  import opened Migrations
  import opened MigrationsData
  import opened MigrationsReady

  class Connection {
    var records: Table
    var work: Table
    var alerts: Table
    var transfers: Table
    var ledger: set<nat>

    function View(): Db reads this {
      Db(records, work, alerts, transfers, ledger)
    }

    constructor (db: Db)
      ensures View() == db
    {
      records, work, alerts, transfers, ledger := db.records, db.work, db.alerts, db.transfers, db.ledger;
    }

    method RecordVersion(v: nat)
      modifies this
      ensures Effect(Record(v), old(View())) == Some(View())
    {
      ledger := ledger + {v};
    }

    method AddColumnIfMissing(name: TableName, column: string, default: Cell)
      modifies this
      ensures Effect(Add(name, column, default), old(View())) == Some(View())
    {
      var t := TableOf(View(), name);
      if column !in t.columns {
        SetTable(name, AddColumn(t, column, default));
      }
    }

    method SetTable(name: TableName, t: Table)
      modifies this
      ensures View() == WithTable(old(View()), name, t)
    {
      match name
      case Records => records := t;
      case WorkQueue => work := t;
      case Alerts => alerts := t;
      case Transfers => transfers := t;
    }

    /** The update of version 11 or 14, with the index that needs its columns. */
    method FillAvailableAt(name: TableName) returns (ok: bool)
      modifies this
      ensures Effect(FillAvailable(name), old(View())) == if ok then Some(View()) else None
      ensures !ok ==> View() == old(View())
    {
      var t := TableOf(View(), name);
      ok := {"available_at", "created_at", "status", "lease_expires_at"} <= t.columns;
      if ok {
        SetTable(name, EachRow(t, FillRow));
      }
    }

    method BackfillRecordDates() returns (ok: bool)
      modifies this
      ensures Effect(BackfillRecords, old(View())) == if ok then Some(View()) else None
      ensures !ok ==> View() == old(View())
    {
      ok := {"effective_at", "created_at", "confidence", "source", "retention_rule"} <= records.columns
        && forall k | k in records.rows :: !Aborted(records.rows[k]);
      if ok {
        records := EachRow(records, BackfillRow);
      }
    }

    method MoveEarlyReceipts() returns (ok: bool)
      modifies this
      ensures Effect(MoveReceipts, old(View())) == if ok then Some(View()) else None
      ensures !ok ==> View() == old(View())
    {
      ok := {"preflight_receipt_payload", "receipt_payload", "status"} <= transfers.columns;
      if ok {
        transfers := EachRow(transfers, MoveRow);
      }
    }

    /** _upgrade_work_queue and _upgrade_backup_transfer_outbox: all of the rebuild or none of it. */
    method Upgrade(name: TableName) returns (ok: bool)
      modifies this
      ensures Effect(Rebuild(name), old(View())) == if ok then Some(View()) else None
      ensures !ok ==> View() == old(View())
    {
      var t := TableOf(View(), name);
      if t.current {
        return true;
      }
      if !Rebuildable(name, t) {
        return false;
      }
      hide Rebuildable, Rebuilt;
      SetTable(name, Rebuilt(name, t));
      return true;
    }

    method AddAndTake(ghost before: Db, ghost steps: seq<Step>, name: TableName, column: string, default: Cell)
      requires Exec(steps, before) == (View(), true)
      modifies this
      ensures Exec(steps + [Add(name, column, default)], before) == (View(), true)
    {
      ExecSnoc(steps, Add(name, column, default), before);
      AddColumnIfMissing(name, column, default);
    }

    method ExecutionColumns(ghost before: Db, ghost steps: seq<Step>, name: TableName)
      requires Exec(steps, before) == (View(), true)
      modifies this
      ensures Exec(steps + ExecutionAdds(name), before) == (View(), true)
    {
      hide Exec;
      AddAndTake(before, steps, name, "max_attempts", Int(3));
      AddAndTake(before, steps + [Add(name, "max_attempts", Int(3))], name, "available_at", Null);
      ghost var two := steps + [Add(name, "max_attempts", Int(3))] + [Add(name, "available_at", Null)];
      AddAndTake(before, two, name, "lease_owner", Null);
      AddAndTake(before, two + [Add(name, "lease_owner", Null)], name, "lease_expires_at", Null);
      ghost var four := two + [Add(name, "lease_owner", Null)] + [Add(name, "lease_expires_at", Null)];
      AddAndTake(before, four, name, "last_error", Null);
      assert four + [Add(name, "last_error", Null)] == steps + ExecutionAdds(name);
    }

    method Version2() returns (ok: bool)
      modifies this
      ensures Exec(Program(2), old(View())) == (View(), ok)
    {
      OneStepVersion(2, Rebuild(WorkQueue), View());
      ok := Upgrade(WorkQueue);
      if ok { RecordVersion(2); }
    }

    method Version7() returns (ok: bool)
      modifies this
      ensures Exec(Program(7), old(View())) == (View(), ok)
    {
      OneStepVersion(7, BackfillRecords, View());
      ok := BackfillRecordDates();
      if ok { RecordVersion(7); }
    }

    method Version11() returns (ok: bool)
      modifies this
      ensures Exec(Program(11), old(View())) == (View(), ok)
    {
      ghost var before := View();
      ExecNone(before);
      ExecutionColumns(before, [], Alerts);
      ok := FillAndRecord(before, [] + ExecutionAdds(Alerts), Alerts, 11);
      assert [] + ExecutionAdds(Alerts) + [FillAvailable(Alerts), Record(11)] == Program(11);
    }

    method FillAndRecord(ghost before: Db, ghost steps: seq<Step>, name: TableName, v: nat) returns (ok: bool)
      requires Exec(steps, before) == (View(), true)
      modifies this
      ensures Exec(steps + [FillAvailable(name), Record(v)], before) == (View(), ok)
    {
      ghost var s := FillAvailable(name);
      ExecSnoc(steps, s, before);
      ExecSnoc(steps + [s], Record(v), before);
      assert steps + [s] + [Record(v)] == steps + [s, Record(v)];
      hide Exec;
      ok := FillAvailableAt(name);
      if ok { RecordVersion(v); }
    }

    method Version14() returns (ok: bool)
      modifies this
      ensures Exec(Program(14), old(View())) == (View(), ok)
    {
      ghost var before := View();
      ExecNone(before);
      AddAndTake(before, [], Transfers, "attempt_count", Int(0));
      ghost var one := [] + [Add(Transfers, "attempt_count", Int(0))];
      ExecutionColumns(before, one, Transfers);
      ok := FillAndRecord(before, one + ExecutionAdds(Transfers), Transfers, 14);
      assert one + ExecutionAdds(Transfers) + [FillAvailable(Transfers), Record(14)] == Program(14);
    }

    method Version15() returns (ok: bool)
      modifies this
      ensures Exec(Program(15), old(View())) == (View(), ok)
    {
      ghost var before := View();
      ghost var add := Add(Transfers, "preflight_receipt_payload", Null);
      ExecNone(before);
      AddAndTake(before, [], Transfers, "preflight_receipt_payload", Null);
      ExecSnoc([] + [add], MoveReceipts, before);
      ExecSnoc([] + [add] + [MoveReceipts], Record(15), before);
      assert [] + [add] + [MoveReceipts] + [Record(15)] == Program(15);
      hide Exec, Program;
      ok := MoveEarlyReceipts();
      if ok { RecordVersion(15); }
    }

    method Version16() returns (ok: bool)
      modifies this
      ensures Exec(Program(16), old(View())) == (View(), ok)
    {
      OneStepVersion(16, Rebuild(Transfers), View());
      ok := Upgrade(Transfers);
      if ok { RecordVersion(16); }
    }

    /** The block of one version, after the blocks of all earlier ones, unless one of them raised. */
    method Block(v: nat, versions: set<nat>, soFar: bool, ghost start: Db) returns (ok: bool)
      requires 1 <= v <= LATEST_SCHEMA_VERSION && versions == start.ledger
      requires Exec(Pending(v - 1, versions), start) == (View(), soFar)
      modifies this
      ensures Exec(Pending(v, versions), start) == (View(), ok)
    {
      PendingStep(v, start);
      hide Effect, Pending;
      if !soFar {
        return false;
      }
      if v in versions {
        ExecNone(View());
        return true;
      }
      hide Exec, Program;
      match v
      case 2 => ok := Version2();
      case 7 => ok := Version7();
      case 11 => ok := Version11();
      case 14 => ok := Version14();
      case 15 => ok := Version15();
      case 16 => ok := Version16();
      case _ =>
        PlainVersion(v, View());
        ledger := ledger + {v};
        ok := true;
    }

    /**
     apply_migrations: the tables and ledger of an uninterrupted run, and success exactly when the
     database was ready and its ledger held no unknown version.
     */
    method ApplyMigrations() returns (ok: bool)
      requires WfDb(View())
      modifies this
      ensures View() == Migrated(old(View())).0
      ensures ok <==> Ready(old(View())) && forall v | v in old(ledger) :: v <= LATEST_SCHEMA_VERSION
    {
      ghost var start := View();
      var versions := ledger;
      SucceedsIff(start);
      if Migrated(start).1 { FullLedger(start); }
      Unstarted(start);
      hide Exec, Pending, Ready, WfDb;
      ok := UpTo9(versions, true, start);
      ok := From10(versions, ok, start);
      ok := ok && 18 in ledger && forall v | v in ledger :: v <= LATEST_SCHEMA_VERSION;
    }

    method UpTo9(versions: set<nat>, soFar: bool, ghost start: Db) returns (ok: bool)
      requires versions == start.ledger && Exec(Pending(0, versions), start) == (View(), soFar)
      modifies this
      ensures Exec(Pending(9, versions), start) == (View(), ok)
    {
      hide Exec, Pending;
      ok := soFar;
      ok := Block(1, versions, ok, start);
      ok := Block(2, versions, ok, start);
      ok := Block(3, versions, ok, start);
      ok := Block(4, versions, ok, start);
      ok := Block(5, versions, ok, start);
      ok := Block(6, versions, ok, start);
      ok := Block(7, versions, ok, start);
      ok := Block(8, versions, ok, start);
      ok := Block(9, versions, ok, start);
    }

    method From10(versions: set<nat>, soFar: bool, ghost start: Db) returns (ok: bool)
      requires versions == start.ledger && Exec(Pending(9, versions), start) == (View(), soFar)
      modifies this
      ensures Exec(Pending(18, versions), start) == (View(), ok)
    {
      hide Exec, Pending;
      ok := soFar;
      ok := Block(10, versions, ok, start);
      ok := Block(11, versions, ok, start);
      ok := Block(12, versions, ok, start);
      ok := Block(13, versions, ok, start);
      ok := Block(14, versions, ok, start);
      ok := Block(15, versions, ok, start);
      ok := Block(16, versions, ok, start);
      ok := Block(17, versions, ok, start);
      ok := Block(18, versions, ok, start);
    }
  }

  lemma Unstarted(db: Db)
    ensures Exec(Pending(0, db.ledger), db) == (db, true)
  {
    ExecNone(db);
  }

  function ExecutionAdds(name: TableName): seq<Step> {
    [Add(name, "max_attempts", Int(3)), Add(name, "available_at", Null), Add(name, "lease_owner", Null),
     Add(name, "lease_expires_at", Null), Add(name, "last_error", Null)]
  }
}
