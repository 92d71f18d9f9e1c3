/**
 The guard around the migrations themselves: the runner takes the steps of the migration program,
 until one fails, it dies, or all are taken (sean_os/migration_guard.py:238-289,
 sean_os/migrations.py:161-265).
 */
module GuardedMigrations {
  import opened Basics
  import opened MigrationGuard
  import opened MigrationGuardRun
  import opened MigrationRestore
  import opened MigrationOutcomes
  import opened Migrations
  import opened MigrationsData
  import opened MigrationsReady

  predicate InRange(v: nat, n: nat) {
    1 <= v <= n
  }

  /** Versions 1 to n. */
  function UpTo(n: nat): set<nat> {
    set v: nat | v <= n && InRange(v, n)
  }

  lemma {:induction false} UpToSize(n: nat)
    ensures |UpTo(n)| == n
  {
    if n > 0 {
      UpToSize(n - 1);
      assert UpTo(n) == UpTo(n - 1) + {n};
    } else {
      assert UpTo(0) == {};
    }
  }

  lemma SubsetSize(a: set<nat>, b: set<nat>)
    requires a <= b && |a| == |b|
    ensures a == b
  {
    if x :| x in b && x !in a {
      assert |b - {x}| == |b| - 1;
      Smaller(a, b - {x});
    }
  }

  lemma {:induction false} Smaller(a: set<nat>, b: set<nat>)
    requires a <= b
    ensures |a| <= |b|
    decreases a
  {
    if x :| x in a {
      Smaller(a - {x}, b - {x});
    }
  }

  /** A contiguous ledger is exactly the versions up to its length. */
  lemma LedgerIs(db: Migrations.Db)
    ensures LedgerVersion(db).Some? ==> db.ledger == UpTo(LedgerVersion(db).value)
    ensures forall n: nat :: n > 0 && db.ledger == UpTo(n) ==> LedgerVersion(db) == Some(n)
  {
    forall n: nat | n > 0 && db.ledger == UpTo(n) ensures LedgerVersion(db) == Some(n) {
      UpToSize(n);
      assert InRange(1, n) && 1 in db.ledger;
    }
    if LedgerVersion(db).Some? {
      UpToSize(|db.ledger|);
      SubsetSize(db.ledger, UpTo(|db.ledger|));
      assert |db.ledger| > 0;
    }
  }

  // ---------------------------------------------------------------- the ledger at every crash point

  function Recorded(steps: seq<Step>): set<nat> {
    set s | s in steps && s.Record? :: s.version
  }

  /** A run records what some prefix of its steps records. */
  lemma {:induction false} ExecRecords(steps: seq<Step>, db: Migrations.Db) returns (j: nat)
    ensures j <= |steps| && Exec(steps, db).0.ledger == db.ledger + Recorded(steps[..j])
    ensures Exec(steps, db).1 ==> j == |steps|
    decreases |steps|
  {
    hide Effect;
    if steps == [] {
      j := 0;
    } else {
      var before, s := steps[..|steps| - 1], steps[|steps| - 1];
      j := ExecRecords(before, db);
      var d := Exec(before, db).0;
      assert before[..j] == steps[..j];
      if Exec(before, db).1 && Effect(s, d).Some? {
        EffectRecords(s, d);
        assert before[..j] == before && steps == before + [s];
        RecordedSnoc(before, s);
        j := |steps|;
        assert steps[..j] == steps;
      }
    }
  }

  lemma EffectRecords(s: Step, db: Migrations.Db)
    requires Effect(s, db).Some?
    ensures Effect(s, db).value.ledger == db.ledger + if s.Record? then {s.version} else {}
  {
  }

  lemma RecordedSnoc(steps: seq<Step>, s: Step)
    ensures Recorded(steps + [s]) == Recorded(steps) + if s.Record? then {s.version} else {}
  {
    forall v | v in Recorded(steps) ensures v in Recorded(steps + [s]) {
      assert Record(v) in steps;
      assert Record(v) in steps + [s];
    }
    if s.Record? { assert s in steps + [s]; }
  }

  lemma RecordedConcat(a: seq<Step>, b: seq<Step>)
    ensures Recorded(a + b) == Recorded(a) + Recorded(b)
  {
    forall v | v in Recorded(a) + Recorded(b) ensures v in Recorded(a + b) {
      assert Record(v) in a || Record(v) in b;
      assert Record(v) in a + b;
    }
  }

  lemma ProgramRecords(v: nat, j: nat)
    requires j <= |Program(v)|
    ensures Recorded(Program(v)[..j]) == if j == |Program(v)| then {v} else {}
  {
    hide Program;
    var p := Program(v);
    if j == |p| {
      assert p[|p| - 1] in p[..j];
    }
  }

  function Later(a: nat, b: nat): nat {
    if a < b then b else a
  }

  /** One more version's steps: it is recorded when all of them are taken. */
  lemma VersionRecords(n: nat, source: nat, i: nat)
    requires n > 0 && i <= |Missing(n, UpTo(source))|
    ensures UpTo(Later(n - 1, source)) + Recorded(Missing(n, UpTo(source))[..i]) ==
      UpTo(if i == |Missing(n, UpTo(source))| then Later(n, source) else Later(n - 1, source))
  {
    hide Program;
    assert n in UpTo(source) <==> InRange(n, source);
    if n > source {
      ProgramRecords(n, i);
      assert UpTo(n) == UpTo(n - 1) + {n};
    }
  }

  /** From a contiguous ledger, every prefix of the missing versions' steps leaves a contiguous one. */
  lemma {:induction false} PrefixRecords(n: nat, source: nat, j: nat) returns (v: nat)
    requires j <= |Pending(n, UpTo(source))|
    ensures source <= v <= Later(n, source)
    ensures UpTo(source) + Recorded(Pending(n, UpTo(source))[..j]) == UpTo(v)
    ensures j == |Pending(n, UpTo(source))| ==> v == Later(n, source)
  {
    hide Program, UpTo, Missing, Recorded;
    if n == 0 {
      v := source;
      assert Pending(n, UpTo(source))[..j] == [];
      NothingRecorded(UpTo(source));
    } else {
      var before, last := Pending(n - 1, UpTo(source)), Missing(n, UpTo(source));
      if j < |before| {
        assert (before + last)[..j] == before[..j];
        v := PrefixRecords(n - 1, source, j);
      } else {
        var all := PrefixRecords(n - 1, source, |before|);
        assert before[..|before|] == before;
        assert (before + last)[..j] == before + last[..j - |before|];
        RecordedConcat(before, last[..j - |before|]);
        VersionRecords(n, source, j - |before|);
        v := if j == |before| + |last| then Later(n, source) else Later(n - 1, source);
      }
    }
  }

  lemma NothingRecorded(ledger: set<nat>)
    ensures ledger + Recorded([]) == ledger
  {
  }

  /** However far the migrations come, the ledger stays contiguous, between source and target. */
  lemma CrashedLedger(db: Migrations.Db, source: nat, m: Option<nat>)
    requires LedgerVersion(db) == Some(source) && source <= LATEST
    ensures var version := LedgerVersion(Left(db, m)); version.Some? && source <= version.value <= LATEST
    ensures m.None? && Migrated(db).1 ==> LedgerVersion(Left(db, m)) == Some(LATEST)
  {
    LedgerIs(db);
    var p := Pending(LATEST_SCHEMA_VERSION, db.ledger);
    var steps := if m.None? then p else p[..if m.value < |p| then m.value else |p|];
    hide Exec, Pending, LedgerVersion, UpTo;
    var j := ExecRecords(steps, db);
    assert steps[..j] == p[..j];
    var v := PrefixRecords(LATEST_SCHEMA_VERSION, source, j);
    assert Left(db, m).ledger == UpTo(v);
    assert source > 0 by { PositiveVersion(db); }
    LedgerIs(Left(db, m));
  }

  lemma PositiveVersion(db: Migrations.Db)
    ensures LedgerVersion(db).Some? ==> LedgerVersion(db).value > 0
  {
  }

  // ---------------------------------------------------------------- the guard

  /** What the migrations leave of a database: all steps up to a failing one, or those before a crash. */
  function Left(db: Migrations.Db, m: Option<nat>): Migrations.Db {
    if m.None? then Migrated(db).0 else Crashed(db, m.value)
  }

  /** The runner is a run of the migrations, and then the integrity check; `m` is where it dies, if it does. */
  predicate RunsMigrations(q: Sqlite, db: Migrations.Db, runner: RunnerOutcome, m: Option<nat>) {
    && runner.main.Some? && runner.main.value != []
    && q.content(runner.main.value, runner.wal) == Some(Left(db, m))
    && (runner.ok <==> m.None? && Migrated(db).1 && q.sound(runner.main.value, runner.wal))
  }

  /**
   A guarded run of the migrations ends verified exactly if it is not interrupted, the database was
   ready for its missing versions, and the result is sound. Wherever else it stops, its database can
   be put aside, so that only failing file calls keep the backup from being in place again.
   */
  lemma GuardedRun(
    q: Sqlite, n: Names, files: Files, source: nat, db: Migrations.Db, runner: RunnerOutcome, m: Option<nat>, f: Faults)
    requires NamesOk(n) && Fresh(n, files) && BackupMade(q, n, files, source, f)
    requires ContentOf(q, n, files, n.database) == Some(db) && WfDb(db) && RunsMigrations(q, db, runner, m)
    ensures var outcome := GuardOutcome(q, n, files, runner, f);
      var after := Attempted(q, n, files, source, runner);
      && (outcome.MigrationVerified? <==>
            m.None? && Ready(db) && q.sound(runner.main.value, runner.wal))
      && Recoverable(q, n, after, source)
      && (outcome.BothFailed? <==>
            !outcome.MigrationVerified? && !LooksRestored(q, n, after, source)
            && !(ExchangeWorks(q, n, after, source, f) && !f.evidence))
  {
    var after := Attempted(q, n, files, source, runner);
    hide NamesOk, Fresh, Migrated, Crashed, Ready, LedgerVersion, WfDb, ExchangeWorks, LooksRestored, GuardOutcome;
    SourceVersion(q, n, files, source, db, f);
    AttemptsExactly(q, n, files, source, runner, f);
    EvidenceStays(q, n, files, source, runner, f);
    RunnerSidecars(n, GuardedFiles(q, n, files, source), runner);
    AttemptedIs(q, n, files, source, runner);
    CrashedLedger(db, source, m);
    SucceedsIff(db);
    hide BackupMade, GuardedFiles, Attempted, AfterRunner, EvidenceMatches;
    Names3(n);
    assert ContentOf(q, n, after, n.database) == Some(Left(db, m));
  }

  lemma SourceVersion(q: Sqlite, n: Names, files: Files, source: nat, db: Migrations.Db, f: Faults)
    requires BackupMade(q, n, files, source, f) && ContentOf(q, n, files, n.database) == Some(db)
    ensures n.database in files && LedgerVersion(db) == Some(source) && 0 < source < LATEST
  {
  }
}
