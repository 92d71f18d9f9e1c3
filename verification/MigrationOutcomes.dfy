/**
 The outcomes of guarded_migrate: exactly when each of them is reached, and what its files hold
 (sean_os/migration_guard.py:247-289).
 */
module MigrationOutcomes {
  import opened Basics
  import opened MigrationGuard
  import opened MigrationGuardRun
  import opened MigrationRestore
  import Migrations

  /** A failed runner's database can be put aside: it reads, at a version from source to target. */
  predicate Recoverable(q: Sqlite, n: Names, files: Files, source: nat) {
    && n.database in files
    && var version := VersionOf(q, n, files, n.database);
      version.Some? && source <= version.value <= LATEST
  }

  /** The main file is at the source version and has the digest of the backup. */
  predicate LooksRestored(q: Sqlite, n: Names, files: Files, source: nat) {
    && n.database in files && n.backup in files && VersionOf(q, n, files, n.database) == Some(source)
    && q.sha(BytesOf(files[n.database])) == q.sha(BytesOf(files[n.backup]))
  }

  /** The runner does not touch backup and manifest, so a restore finds them as they were made. */
  lemma EvidenceStays(q: Sqlite, n: Names, files: Files, source: nat, runner: RunnerOutcome, f: Faults)
    requires NamesOk(n) && Fresh(n, files) && BackupMade(q, n, files, source, f)
    ensures var after := Attempted(q, n, files, source, runner);
      && Fresh(n, after) && EvidenceMatches(q, n, after, source)
      && n.backup in after && after[n.backup] == WithBackup(q, n, files)[n.backup]
      && (n.database in after <==> runner.main.Some?)
      && (runner.main.Some? ==> after[n.database] == Blob(runner.main.value))
      && n.manifest in after && after[n.manifest] == GuardedFiles(q, n, files, source)[n.manifest]
  {
    GuardedFresh(q, n, files, source, runner);
    RunnerApart(n, GuardedFiles(q, n, files, source), runner);
    Names3(n);
    ManifestApart(n);
    hide NamesOk, Fresh;
  }

  lemma ManifestApart(n: Names)
    requires NamesOk(n)
    ensures n.manifest !in {n.database, n.wal, n.shm}
  {
    var o := Ordered(n);
    assert o[0] == n.database && o[1] == n.wal && o[2] == n.shm && o[4] == n.manifest;
  }

  /** The first decision: a first start, a current database, a guarded migration, or an error. */
  lemma OutcomesExactly(q: Sqlite, n: Names, files: Files, runner: RunnerOutcome, f: Faults)
    requires NamesOk(n) && Fresh(n, files)
    ensures var outcome := GuardOutcome(q, n, files, runner, f);
      var started := VersionOf(q, n, AfterRunner(n, files, runner), n.database);
      var version := VersionOf(q, n, files, n.database);
      && (forall v: nat :: outcome == FirstStart(v) <==> NoDatabase(n, files) && runner.ok && started == Some(v))
      && (outcome.UpToDate? <==> !NoDatabase(n, files) && Verified(q, n, files, n.database, LATEST))
      && (Tried(outcome) <==> version.Some? && BackupMade(q, n, files, version.value, f))
  {
    hide NamesOk, Fresh, LedgerVersion, BackupThere, Restoring, AfterRunner;
  }

  /** The second decision, once the backup is made: what the runner left, and what a restore can do. */
  lemma AttemptsExactly(q: Sqlite, n: Names, files: Files, source: nat, runner: RunnerOutcome, f: Faults)
    requires NamesOk(n) && Fresh(n, files) && BackupMade(q, n, files, source, f)
    ensures var outcome := GuardOutcome(q, n, files, runner, f);
      var after := Attempted(q, n, files, source, runner);
      var migrated := runner.ok && Verified(q, n, after, n.database, LATEST);
      var restorable := Recoverable(q, n, after, source) && ExchangeWorks(q, n, after, source, f) && !f.evidence;
      && outcome == AttemptOutcome(q, n, files, source, runner, f)
      && (outcome.MigrationVerified? <==> migrated)
      && (outcome.FoundRestored? <==> !migrated && LooksRestored(q, n, after, source))
      && (outcome.MigrationUndone? <==> !migrated && !LooksRestored(q, n, after, source) && restorable)
      && (outcome.BothFailed? <==> !migrated && !LooksRestored(q, n, after, source) && !restorable)
  {
    EvidenceStays(q, n, files, source, runner, f);
    hide NamesOk, Fresh, LedgerVersion, BackupThere, EvidenceMatches, ExchangeWorks, Attempted, Verified, ContentOf;
  }

  /**
   An undone migration reads as its backup, and as the database did before if the backup is a new
   copy; everything the runner left is in quarantine, as it was.
   */
  lemma UndoneReads(q: Sqlite, n: Names, files: Files, source: nat, runner: RunnerOutcome, f: Faults)
    requires NamesOk(n) && Fresh(n, files) && BackupMade(q, n, files, source, f) && Faithful(q)
    requires GuardOutcome(q, n, files, runner, f).MigrationUndone?
    ensures var end := GuardFiles(q, n, files, runner, f);
      && n.wal !in end && ContentOf(q, n, end, n.database).Some?
      && ContentOf(q, n, end, n.database) == ContentOf(q, n, end, n.backup)
      && (n.backup !in files ==> ContentOf(q, n, end, n.database) == ContentOf(q, n, files, n.database))
      && (n.backup in files ==> n.backup in end && end[n.backup] == files[n.backup])
      && runner.main.Some? && n.heldDatabase in end && end[n.heldDatabase] == Blob(runner.main.value)
      && (runner.wal.Some? ==> n.heldWal in end && end[n.heldWal] == Blob(runner.wal.value))
      && (runner.shm.Some? ==> n.heldShm in end && end[n.heldShm] == Blob(runner.shm.value))
  {
    var after := Attempted(q, n, files, source, runner);
    var end := GuardFiles(q, n, files, runner, f);
    AttemptsExactly(q, n, files, source, runner, f);
    EvidenceStays(q, n, files, source, runner, f);
    RunnerSidecars(n, GuardedFiles(q, n, files, source), runner);
    RestoringEnds(q, n, after, source, f);
    GuardedEnd(q, n, files, source, runner, f);
    RestoredContent(q, n, after, end);
    BackupStays(q, n, after);
    BackupReads(q, n, files, source, f);
    Names3(n);
    hide NamesOk, Fresh, Attempted, RestoringFiles, Restoring, Movable, MovesUpTo, BackupMade, Faithful, AfterRestore;
    hide GuardOutcome, GuardFiles, Recoverable, LooksRestored, ExchangeWorks, EvidenceMatches, LedgerVersion, Verified;
  }

  lemma GuardedEnd(q: Sqlite, n: Names, files: Files, source: nat, runner: RunnerOutcome, f: Faults)
    requires NamesOk(n) && Fresh(n, files) && BackupMade(q, n, files, source, f)
    ensures var after := Attempted(q, n, files, source, runner);
      var outcome := GuardOutcome(q, n, files, runner, f);
      && Fresh(n, after)
      && GuardFiles(q, n, files, runner, f) ==
        (if outcome.MigrationVerified? then after else RestoringFiles(q, n, after, source, f))
      && (outcome.MigrationUndone? <==> !outcome.MigrationVerified? && Restoring(q, n, after, source, f).Restored?)
      && (outcome.FoundRestored? <==>
            !outcome.MigrationVerified? && Restoring(q, n, after, source, f).NothingToRestore?)
      && (outcome.BothFailed? <==> !outcome.MigrationVerified? && Restoring(q, n, after, source, f).Failed?)
  {
    GuardedFresh(q, n, files, source, runner);
    hide NamesOk, Fresh, LedgerVersion, Restoring, RestoringFiles, Attempted, BackupThere;
  }

  lemma RunnerSidecars(n: Names, files: Files, runner: RunnerOutcome)
    requires NamesOk(n)
    ensures var after := AfterRunner(n, files, runner);
      && (n.wal in after <==> runner.wal.Some?) && (runner.wal.Some? ==> after[n.wal] == Blob(runner.wal.value))
      && (n.shm in after <==> runner.shm.Some?) && (runner.shm.Some? ==> after[n.shm] == Blob(runner.shm.value))
  {
    var o := Ordered(n);
    assert o[0] == n.database && o[1] == n.wal && o[2] == n.shm;
  }

  lemma BackupStays(q: Sqlite, n: Names, pre: Files)
    requires NamesOk(n) && Fresh(n, pre) && n.backup in pre && Movable(pre, MovesUpTo(n, pre, 3))
    ensures n.backup in AfterRestore(q, n, pre) && AfterRestore(q, n, pre)[n.backup] == pre[n.backup]
  {
    AfterExchange(n, pre);
    Names3(n);
    hide Aside, Movable, MovesUpTo, NamesOk, Fresh;
  }

  /** The backup reads, and a new one reads as the database. */
  lemma BackupReads(q: Sqlite, n: Names, files: Files, source: nat, f: Faults)
    requires NamesOk(n) && BackupMade(q, n, files, source, f)
    ensures q.content(BytesOf(WithBackup(q, n, files)[n.backup]), None).Some?
    ensures n.backup in files ==> WithBackup(q, n, files)[n.backup] == files[n.backup]
    ensures Faithful(q) && n.backup !in files ==>
      q.content(BytesOf(WithBackup(q, n, files)[n.backup]), None) == ContentOf(q, n, files, n.database)
  {
  }

  /**
   A database that is found restored is left as the runner left it. Only main files are compared, so
   it reads as the backup if and only if there is no log beside it, or a log that changes nothing.
   */
  lemma FoundReads(q: Sqlite, n: Names, files: Files, source: nat, runner: RunnerOutcome, f: Faults)
    requires NamesOk(n) && Fresh(n, files) && BackupMade(q, n, files, source, f)
    requires GuardOutcome(q, n, files, runner, f).FoundRestored?
    requires var backup := BytesOf(WithBackup(q, n, files)[n.backup]);
      runner.main.Some? && q.sha(runner.main.value) == q.sha(backup) ==> runner.main.value == backup
    ensures var end := GuardFiles(q, n, files, runner, f);
      && end == Attempted(q, n, files, source, runner) && runner.main.Some?
      && (ContentOf(q, n, end, n.database) == ContentOf(q, n, end, n.backup) <==>
            runner.wal.None? || q.content(runner.main.value, runner.wal) == q.content(runner.main.value, None))
  {
    AttemptsExactly(q, n, files, source, runner, f);
    EvidenceStays(q, n, files, source, runner, f);
    RunnerSidecars(n, GuardedFiles(q, n, files, source), runner);
    GuardedEnd(q, n, files, source, runner, f);
    Names3(n);
    hide NamesOk, Fresh, BackupMade, GuardOutcome, GuardFiles, Recoverable, EvidenceMatches, Verified, VersionOf;
    hide WithBackup, GuardedFiles, Restoring, ExchangeWorks;
    AttemptedIs(q, n, files, source, runner);
  }

  lemma AttemptedIs(q: Sqlite, n: Names, files: Files, source: nat, runner: RunnerOutcome)
    requires n.database in files
    ensures Attempted(q, n, files, source, runner) == AfterRunner(n, GuardedFiles(q, n, files, source), runner)
  {
  }

  /** A main file that reads as one database without its log, and as another with it. */
  function WitnessContent(one: Migrations.Db, two: Migrations.Db): (Bytes, Option<Bytes>) -> Option<Migrations.Db> {
    (main: Bytes, wal: Option<Bytes>) => if main == [1] && wal.None? then Some(one) else Some(two)
  }

  /**
   Such a log occurs: the runner fails and leaves the main file as it was, with a log in which its
   changes are, at the same ledger. The guard finds the database restored, and it is not the backup.
   */
  lemma FoundWithLog(n: Names, one: Migrations.Db, two: Migrations.Db, f: Faults)
    returns (q: Sqlite, files: Files, runner: RunnerOutcome)
    requires NamesOk(n) && one != two && one.ledger == two.ledger && LedgerVersion(one) == Some(1)
    requires !f.copy && !f.replace && !f.manifest
    ensures Faithful(q) && Fresh(n, files) && BackupMade(q, n, files, 1, f)
    ensures GuardOutcome(q, n, files, runner, f).FoundRestored?
    ensures var end := GuardFiles(q, n, files, runner, f);
      && n.database in end && n.backup in end && end[n.database] == end[n.backup]
      && ContentOf(q, n, end, n.database) == Some(two) && ContentOf(q, n, end, n.backup) == Some(one)
      && ContentOf(q, n, files, n.database) == Some(one)
  {
    var copy := (main: Bytes, wal: Option<Bytes>) => if wal.None? then main else [2];
    q := Sqlite(WitnessContent(one, two), (main, wal) => true, copy, bytes => |bytes|);
    files, runner := map[n.database := Blob([1])], RunnerOutcome(false, Some([1]), Some([2]), None);
    PlainNames(n);
    Names3(n);
    assert Faithful(q);
    hide LedgerVersion;
    WitnessBackup(q, n, files, f);
    AttemptsExactly(q, n, files, 1, runner, f);
    EvidenceStays(q, n, files, 1, runner, f);
    RunnerSidecars(n, GuardedFiles(q, n, files, 1), runner);
    GuardedEnd(q, n, files, 1, runner, f);
    AttemptedIs(q, n, files, 1, runner);
    hide NamesOk, Fresh, BackupMade, GuardOutcome, GuardFiles, Recoverable, EvidenceMatches, Faithful, GuardedFiles;
    hide Restoring, Attempted, RestoringFiles, ExchangeWorks;
  }

  lemma WitnessBackup(q: Sqlite, n: Names, files: Files, f: Faults)
    requires NamesOk(n) && files == map[n.database := Blob([1])]
    requires q.content([1], None).Some? && LedgerVersion(q.content([1], None).value) == Some(1)
    requires q.copy([1], None) == [1] && q.sound([1], None) && !f.copy && !f.replace && !f.manifest
    ensures BackupMade(q, n, files, 1, f) && WithBackup(q, n, files)[n.backup] == Blob([1])
  {
    Names3(n);
    hide LedgerVersion;
  }

  /**
   What a double failure leaves: the runner's files, if nothing was tried or everything was undone;
   the moves made before a failing rename; a restored database, if only its evidence is missing.
   */
  lemma BothFailedFiles(q: Sqlite, n: Names, files: Files, source: nat, runner: RunnerOutcome, f: Faults)
    requires NamesOk(n) && Fresh(n, files) && BackupMade(q, n, files, source, f)
    requires GuardOutcome(q, n, files, runner, f).BothFailed?
    ensures var end := GuardFiles(q, n, files, runner, f);
      var after := Attempted(q, n, files, source, runner);
      var stuck := FirstRename(n, after, f, 0);
      && Movable(after, MovesUpTo(n, after, stuck)) && Movable(after, MovesUpTo(n, after, 3)) && n.backup in after
      && (!Recoverable(q, n, after, source) ==> end == after)
      && (Recoverable(q, n, after, source) && stuck < 3 ==> end == Aside(after, MovesUpTo(n, after, stuck)))
      && (Recoverable(q, n, after, source) && ExchangeWorks(q, n, after, source, f) ==>
            f.evidence && end[n.evidence := RestoreEvidence] == AfterRestore(q, n, after))
      && (Recoverable(q, n, after, source) && !ExchangeWorks(q, n, after, source, f) && RenamesWork(n, after, f) ==>
            end == WithTemp(q, n, after, f))
      && (!f.recleanup ==> WithTemp(q, n, after, f) == after)
  {
    var after := Attempted(q, n, files, source, runner);
    AttemptsExactly(q, n, files, source, runner, f);
    EvidenceStays(q, n, files, source, runner, f);
    GuardedEnd(q, n, files, source, runner, f);
    RestoringEnds(q, n, after, source, f);
    PairsMovable(n, after, FirstRename(n, after, f, 0));
    GoesOnIff(q, n, after, source);
    hide NamesOk, Fresh, BackupMade, GuardOutcome, GuardFiles, Recoverable, EvidenceMatches, LooksRestored, Verified;
    hide RestoreGoesOn, RenamesWork, CanRestore, AlreadyRestored, Movable, MovesUpTo, Aside, AfterRestore, Attempted;
  }

  lemma GoesOnIff(q: Sqlite, n: Names, files: Files, source: nat)
    requires EvidenceMatches(q, n, files, source) && source <= LATEST
    ensures RestoreGoesOn(q, n, files, source) <==>
      Recoverable(q, n, files, source) && !LooksRestored(q, n, files, source)
    ensures LooksRestored(q, n, files, source) ==> Recoverable(q, n, files, source)
  {
    hide Verified, VersionOf;
  }

  /** An error before the runner leaves every file but the backup's own two names as it was. */
  lemma RaisedFiles(q: Sqlite, n: Names, files: Files, runner: RunnerOutcome, f: Faults)
    requires NamesOk(n) && Fresh(n, files) && !NoDatabase(n, files)
    requires GuardOutcome(q, n, files, runner, f).Raised?
    ensures var end := GuardFiles(q, n, files, runner, f);
      && end - {n.backup, n.backupTemp} == files - {n.backup, n.backupTemp}
      && (n.backup in files ==> end == files)
      && (f.copy || !f.cleanup ==> n.backupTemp !in end)
  {
    assert Random(n, n.backupTemp);
    BackupTempFree(n);
    hide NamesOk, LedgerVersion, Restoring, Attempted, BackupMade, CopyWorks;
  }

  lemma BackupTempFree(n: Names)
    requires NamesOk(n)
    ensures n.backupTemp != n.backup
  {
    var o := Ordered(n);
    assert o[3] == n.backup && o[6] == n.backupTemp;
  }
}
