/**
 restore_pre_migration_backup and guarded_migrate: the outcomes of a guarded migration and the
 files each of them leaves (sean_os/migration_guard.py:176-289).
 */
module MigrationRestore {
  import opened Basics
  import opened MigrationGuard
  import opened MigrationGuardRun

  /** The restore's own reading of backup and manifest; the recorded size is not compared. */
  predicate EvidenceMatches(q: Sqlite, n: Names, files: Files, version: nat) {
    && n.backup in files && n.manifest in files && Verified(q, n, files, n.backup, version)
    && files[n.manifest].ManifestFile?
    && var doc := files[n.manifest].doc;
      && doc.formatOk && doc.backupFile == n.backup && doc.sha == q.sha(BytesOf(files[n.backup]))
      && doc.source == version && doc.target == LATEST
  }

  predicate AlreadyRestored(q: Sqlite, n: Names, files: Files, version: nat)
    requires n.database in files && n.backup in files
  {
    VersionOf(q, n, files, n.database) == Some(version)
    && q.sha(BytesOf(files[n.database])) == q.sha(BytesOf(files[n.backup]))
  }

  /** When a restore goes ahead: the evidence matches and the present database can still be read. */
  predicate CanRestore(q: Sqlite, n: Names, files: Files, version: nat) {
    && EvidenceMatches(q, n, files, version) && n.database in files
    && var current := VersionOf(q, n, files, n.database);
      current.Some? && (AlreadyRestored(q, n, files, version) || version <= current.value <= LATEST)
  }

  datatype Restoration = Restored | NothingToRestore | Failed

  /** The copy of the backup that a restore puts in place. */
  function BackupCopy(q: Sqlite, n: Names, files: Files): Bytes
    requires n.backup in files
  {
    q.copy(BytesOf(files[n.backup]), None)
  }

  /** The files after a restore that goes through: the failed ones in quarantine, the copy in place. */
  ghost function AfterRestore(q: Sqlite, n: Names, files: Files): Files
    requires n.backup in files && Movable(files, MovesUpTo(n, files, 3))
  {
    Aside(files, MovesUpTo(n, files, 3))[n.database := Blob(BackupCopy(q, n, files))][n.evidence := RestoreEvidence]
  }

  lemma DatabaseAside(n: Names, files: Files)
    requires NamesOk(n) && Fresh(n, files) && n.database in files && Movable(files, MovesUpTo(n, files, 3))
    ensures n.database !in Aside(files, MovesUpTo(n, files, 3)) && n.wal !in Aside(files, MovesUpTo(n, files, 3))
  {
    Names3(n);
    assert Random(n, n.heldDatabase) && Random(n, n.heldWal) && Random(n, n.heldShm);
    assert Pairs(n)[0] in MovesUpTo(n, files, 3);
    assert n.wal in files ==> Pairs(n)[1] in MovesUpTo(n, files, 3);
  }

  /** The files before the exchange, with what a failing clean-up of the copy adds to them. */
  function WithTemp(q: Sqlite, n: Names, files: Files, f: Faults): Files
    requires n.backup in files
  {
    LeftBehind(files, n.restoreTemp, BackupCopy(q, n, files), f.recopy, f.recleanup)
  }

  lemma TempApart(q: Sqlite, n: Names, files: Files, f: Faults, moves: set<Move>)
    requires NamesOk(n) && Fresh(n, files) && n.backup in files && moves <= MovesUpTo(n, files, 3)
    ensures Movable(files, moves) && Movable(WithTemp(q, n, files, f), moves)
    ensures Aside(WithTemp(q, n, files, f), moves) ==
      LeftBehind(Aside(files, moves), n.restoreTemp, BackupCopy(q, n, files), f.recopy, f.recleanup)
  {
    PairsMovable(n, files, 3);
    FewerMoves(files, MovesUpTo(n, files, 3), moves);
    assert Random(n, n.restoreTemp);
    TempNotHeld(n);
    assert forall m | m in moves :: m.1 != n.restoreTemp;
    hide Movable, Aside, MovesUpTo, NamesOk, Fresh;
    AsideApart(files, moves, n.restoreTemp, Blob(BackupCopy(q, n, files)));
  }

  lemma TempNotHeld(n: Names)
    requires NamesOk(n)
    ensures forall m | m in Pairs(n) :: m.1 != n.restoreTemp
  {
    var o := Ordered(n);
    assert o[8] == n.restoreTemp && o[10] == n.heldDatabase && o[11] == n.heldWal && o[12] == n.heldShm;
  }

  /** The moves that a failed restore leaves made: those from the first undoing that fails. */
  function LeftMoved(n: Names, files: Files, f: Faults): set<Move> {
    var moved := MoveList(n, files, 3);
    var rest := moved[FirstRollback(f, 0, |moved|)..];
    set m | m in rest
  }

  lemma LeftMovedIs(n: Names, files: Files, f: Faults)
    requires NamesOk(n)
    ensures var moved := MoveList(n, files, 3);
      LeftMoved(n, files, f) == Listed(moved[FirstRollback(f, 0, |moved|)..]) <= MovesUpTo(n, files, 3)
  {
    MoveListIs(n, files, 3);
    var moved := MoveList(n, files, 3);
    var rest := moved[FirstRollback(f, 0, |moved|)..];
    assert forall m | m in rest :: m in moved;
  }

  /** A failed rename leaves the earlier moves made; a failed copy leaves those whose undoing failed. */
  ghost function Exchanged(q: Sqlite, n: Names, pre: Files, version: nat, f: Faults): Files
    requires NamesOk(n) && Fresh(n, pre) && n.backup in pre
  {
    PairsMovable(n, pre, FirstRename(n, pre, f, 0));
    LeftMovedIs(n, pre, f);
    TempApart(q, n, pre, f, LeftMoved(n, pre, f));
    var aside := Aside(pre, MovesUpTo(n, pre, FirstRename(n, pre, f, 0)));
    if FirstRename(n, pre, f, 0) < 3 then aside
    else if CopyWorks(q, BackupCopy(q, n, pre), version, f.recopy, f.rereplace) then
      aside[n.database := Blob(BackupCopy(q, n, pre))]
    else Aside(WithTemp(q, n, pre, f), LeftMoved(n, pre, f))
  }

  predicate ExchangeWorks(q: Sqlite, n: Names, pre: Files, version: nat, f: Faults) {
    && n.backup in pre && FirstRename(n, pre, f, 0) == 3
    && CopyWorks(q, BackupCopy(q, n, pre), version, f.recopy, f.rereplace)
  }

  /**
   The part of a restore that changes files: quarantine, copy, and rollback if the copy fails. A
   failing rename is not rolled back.
   */
  method Exchange(dir: Directory, q: Sqlite, n: Names, version: nat, f: Faults) returns (ok: bool)
    requires NamesOk(n) && Fresh(n, dir.files) && n.backup in dir.files && n.database in dir.files && dir.Valid()
    modifies dir
    ensures dir.Valid()
    ensures ok <==> ExchangeWorks(q, n, old(dir.files), version, f)
    ensures dir.files == Exchanged(q, n, old(dir.files), version, f)
    ensures n.backup in dir.files && dir.files[n.backup] == old(dir.files)[n.backup]
    ensures KeptSince(old(dir.history), dir.history, n.backup, old(dir.files)[n.backup])
  {
    ghost var pre, before, backup := dir.files, dir.history, dir.files[n.backup];
    PairsMovable(n, pre, 3);
    DatabaseAside(n, pre);
    Names3(n);
    MoveListIs(n, pre, 3);
    LeftMovedIs(n, pre, f);
    TempApart(q, n, pre, f, LeftMoved(n, pre, f));
    TempApart(q, n, pre, f, MovesUpTo(n, pre, 3));
    hide Movable, Aside, MovesUpTo, Pairs, NamesOk, Fresh, KeptSince, Distinct, Listed, CopyWorks, LeftBehind;
    hide LeftMoved, Directory.Valid, ComesLast;
    var k, moved;
    ok, moved, k := Quarantine(dir, n, f);
    QuarantinedBackup(n, pre, dir.files, moved, k, f);
    if !ok {
      return;
    }
    ghost var between := dir.history;
    ok := CopyInto(dir, q, n, n.restoreTemp, n.database, q.copy(BytesOf(dir.files[n.backup]), None), version,
      f.recopy, f.rereplace, f.recleanup, n.backup);
    KeptTwice(before, between, dir.history, n.backup, backup);
    if !ok {
      ghost var later := dir.history;
      var back := Rollback(dir, n, moved, WithTemp(q, n, pre, f), f);
      KeptTwice(before, later, dir.history, n.backup, backup);
    }
  }

  lemma KeptTwice(a: seq<Files>, b: seq<Files>, c: seq<Files>, name: string, file: File)
    requires KeptSince(a, b, name, file) && KeptSince(b, c, name, file)
    ensures KeptSince(a, c, name, file)
  {
    forall i | |a| <= i < |c| ensures name in c[i] && c[i][name] == file {
      if i < |b| { assert c[i] == b[i]; }
    }
  }

  /** How a restore ends. */
  predicate RestoreGoesOn(q: Sqlite, n: Names, files: Files, version: nat) {
    CanRestore(q, n, files, version) && !AlreadyRestored(q, n, files, version)
  }

  function Restoring(q: Sqlite, n: Names, files: Files, version: nat, f: Faults): Restoration {
    if !CanRestore(q, n, files, version) then Failed
    else if AlreadyRestored(q, n, files, version) then NothingToRestore
    else if ExchangeWorks(q, n, files, version, f) && !f.evidence then Restored
    else Failed
  }

  /** The files after a restore: as they were, exchanged, or exchanged with the evidence written. */
  ghost function RestoringFiles(q: Sqlite, n: Names, files: Files, version: nat, f: Faults): Files
    requires NamesOk(n) && Fresh(n, files)
  {
    if !RestoreGoesOn(q, n, files, version) then files
    else
      var exchanged := Exchanged(q, n, files, version, f);
      if Restoring(q, n, files, version, f).Restored? then exchanged[n.evidence := RestoreEvidence] else exchanged
  }

  /**
   restore_pre_migration_backup. It changes nothing unless the evidence matches and the present
   database is readable at an approved version; the backup is unchanged throughout.
   */
  method Restore(dir: Directory, q: Sqlite, n: Names, version: nat, f: Faults) returns (r: Restoration)
    requires NamesOk(n) && Fresh(n, dir.files) && dir.Valid()
    modifies dir
    ensures dir.Valid() && old(dir.history) <= dir.history
    ensures r == Restoring(q, n, old(dir.files), version, f)
    ensures dir.files == RestoringFiles(q, n, old(dir.files), version, f)
    ensures n.backup in old(dir.files) ==>
      && n.backup in dir.files && dir.files[n.backup] == old(dir.files)[n.backup]
      && KeptSince(old(dir.history), dir.history, n.backup, old(dir.files)[n.backup])
  {
    r := Failed;
    ghost var pre, before := dir.files, dir.history;
    if !CanRestore(q, n, dir.files, version) {
      return;
    }
    if AlreadyRestored(q, n, dir.files, version) {
      return NothingToRestore;
    }
    Names3(n);
    hide CanRestore, AlreadyRestored, KeptSince, BackupCopy, Exchanged, ExchangeWorks;
    assert n.backup in pre && n.database in pre by { Readable(q, n, pre, version); }
    ghost var backup := pre[n.backup];
    EvidenceTempFree(q, n, pre, version, f);
    var ok := Exchange(dir, q, n, version, f);
    if !ok {
      return;
    }
    ghost var between := dir.history;
    ok := WriteAtomic(dir, n.evidenceTemp, n.evidence, RestoreEvidence, f.evidence, n.backup);
    KeptTwice(before, between, dir.history, n.backup, backup);
    r := if ok then Restored else Failed;
  }

  lemma EvidenceTempFree(q: Sqlite, n: Names, pre: Files, version: nat, f: Faults)
    requires NamesOk(n) && Fresh(n, pre) && n.backup in pre && n.database in pre
    ensures ExchangeWorks(q, n, pre, version, f) ==> n.evidenceTemp !in Exchanged(q, n, pre, version, f)
  {
    PairsMovable(n, pre, 3);
    AfterExchange(n, pre);
    hide CopyWorks, Aside, Movable, MovesUpTo, NamesOk, Fresh;
  }

  lemma Readable(q: Sqlite, n: Names, files: Files, version: nat)
    requires CanRestore(q, n, files, version)
    ensures n.backup in files && n.database in files
  {
  }

  lemma AfterExchange(n: Names, pre: Files)
    requires NamesOk(n) && Fresh(n, pre) && n.backup in pre && Movable(pre, MovesUpTo(n, pre, 3))
    ensures n.backup in Aside(pre, MovesUpTo(n, pre, 3)) && Aside(pre, MovesUpTo(n, pre, 3))[n.backup] == pre[n.backup]
    ensures n.evidenceTemp !in Aside(pre, MovesUpTo(n, pre, 3)) && n.evidenceTemp != n.database
  {
    PairsMovable(n, pre, 3);
    Names3(n);
    var o := Ordered(n);
    assert o[0] == n.database && o[9] == n.evidenceTemp;
  }

  /** A moved file is in quarantine, as it was. */
  lemma InQuarantine(n: Names, pre: Files, k: nat)
    requires NamesOk(n) && k < 3 && Pairs(n)[k].0 in pre && Movable(pre, MovesUpTo(n, pre, 3))
    ensures var aside := Aside(pre, MovesUpTo(n, pre, 3));
      Pairs(n)[k].1 in aside && aside[Pairs(n)[k].1] == pre[Pairs(n)[k].0]
  {
    var moves, m := MovesUpTo(n, pre, 3), Pairs(n)[k];
    assert m in moves;
    assert Targets(pre, moves)[m.1] == pre[m.0];
  }

  lemma QuarantineNames(n: Names)
    requires NamesOk(n)
    ensures forall m | m in Pairs(n) :: m.1 != n.database && m.1 != n.evidence
  {
    var o := Ordered(n);
    assert o[0] == n.database && o[5] == n.evidence && o[10] == n.heldDatabase && o[11] == n.heldWal
      && o[12] == n.heldShm;
  }

  /** A restored database reads as its backup, and the runner's files are in quarantine. */
  lemma RestoredContent(q: Sqlite, n: Names, pre: Files, files: Files)
    requires Faithful(q) && NamesOk(n) && Fresh(n, pre) && n.backup in pre && n.database in pre
    requires Movable(pre, MovesUpTo(n, pre, 3)) && files == AfterRestore(q, n, pre)
    ensures n.wal !in files && ContentOf(q, n, files, n.database) == ContentOf(q, n, pre, n.backup)
    ensures n.heldDatabase in files && files[n.heldDatabase] == pre[n.database]
    ensures n.wal in pre ==> n.heldWal in files && files[n.heldWal] == pre[n.wal]
    ensures n.shm in pre ==> n.heldShm in files && files[n.heldShm] == pre[n.shm]
  {
    RestoredReads(q, n, pre);
    HeldAfter(q, n, pre, 0);
    if n.wal in pre { HeldAfter(q, n, pre, 1); }
    if n.shm in pre { HeldAfter(q, n, pre, 2); }
    hide Movable, MovesUpTo, NamesOk, Fresh, ContentOf, AfterRestore;
  }

  lemma HeldAfter(q: Sqlite, n: Names, pre: Files, k: nat)
    requires NamesOk(n) && n.backup in pre && k < 3 && Pairs(n)[k].0 in pre && Movable(pre, MovesUpTo(n, pre, 3))
    ensures var files := AfterRestore(q, n, pre);
      Pairs(n)[k].1 in files && files[Pairs(n)[k].1] == pre[Pairs(n)[k].0]
  {
    QuarantineNames(n);
    InQuarantine(n, pre, k);
    assert Pairs(n)[k] in Pairs(n);
    hide Movable, Aside, MovesUpTo, NamesOk, BackupCopy, Pairs;
  }

  lemma RestoredReads(q: Sqlite, n: Names, pre: Files)
    requires Faithful(q) && NamesOk(n) && Fresh(n, pre) && n.backup in pre && n.database in pre
    requires Movable(pre, MovesUpTo(n, pre, 3))
    ensures var files := AfterRestore(q, n, pre);
      n.wal !in files && ContentOf(q, n, files, n.database) == ContentOf(q, n, pre, n.backup)
  {
    DatabaseAside(n, pre);
    Names3(n);
    hide Movable, Aside, MovesUpTo, NamesOk, Fresh;
  }

  /** A restore that goes through leaves exactly this; one whose renames all work undoes its moves. */
  lemma RestoringEnds(q: Sqlite, n: Names, pre: Files, version: nat, f: Faults)
    requires NamesOk(n) && Fresh(n, pre)
    ensures Movable(pre, MovesUpTo(n, pre, 3))
    ensures Restoring(q, n, pre, version, f).Restored? ==>
      n.backup in pre && n.database in pre && RestoringFiles(q, n, pre, version, f) == AfterRestore(q, n, pre)
    ensures RestoreGoesOn(q, n, pre, version) && ExchangeWorks(q, n, pre, version, f) && f.evidence ==>
      n.backup in pre && n.database in pre
      && RestoringFiles(q, n, pre, version, f)[n.evidence := RestoreEvidence] == AfterRestore(q, n, pre)
    ensures RestoreGoesOn(q, n, pre, version) && !ExchangeWorks(q, n, pre, version, f) && RenamesWork(n, pre, f) ==>
      n.backup in pre && RestoringFiles(q, n, pre, version, f) == WithTemp(q, n, pre, f)
  {
    PairsMovable(n, pre, 3);
    if RestoreGoesOn(q, n, pre, version) {
      Readable(q, n, pre, version);
      if RenamesWork(n, pre, f) { AllBack(q, n, pre, f); }
    }
    hide Aside, Movable, MovesUpTo, NamesOk, Fresh, CanRestore, AlreadyRestored, CopyWorks, LeftBehind, RenamesWork;
    hide LeftMoved, MoveList, Pairs;
  }

  /** No rename of an existing file fails, and no undoing of one. */
  predicate RenamesWork(n: Names, files: Files, f: Faults) {
    && FirstRename(n, files, f, 0) == 3
    && FirstRollback(f, 0, |MoveList(n, files, 3)|) == |MoveList(n, files, 3)|
  }

  lemma AllBack(q: Sqlite, n: Names, files: Files, f: Faults)
    requires NamesOk(n) && Fresh(n, files) && n.backup in files && RenamesWork(n, files, f)
    ensures LeftMoved(n, files, f) == {} && Movable(WithTemp(q, n, files, f), {})
    ensures Aside(WithTemp(q, n, files, f), {}) == WithTemp(q, n, files, f)
    ensures FirstRename(n, files, f, 0) == 3
  {
    MoveNone(WithTemp(q, n, files, f));
  }

  /**
   How guarded_migrate ends: a new database, one that is current, a verified migration, a failed one
   that was undone, a failed one whose main file is still the backup's, a failed one that was not
   undone, or an error before any migration was tried.
   */
  datatype Outcome =
    FirstStart(version: nat) | UpToDate | MigrationVerified | MigrationUndone | FoundRestored | BothFailed | Raised

  predicate Tried(outcome: Outcome) {
    outcome.MigrationVerified? || outcome.MigrationUndone? || outcome.FoundRestored? || outcome.BothFailed?
  }

  lemma FreshStill(n: Names, files: Files, later: Files)
    requires NamesOk(n) && Fresh(n, files) && forall name | name in later :: name in files || !Random(n, name)
    ensures Fresh(n, later)
  {
  }

  lemma PlainNames(n: Names)
    requires NamesOk(n)
    ensures forall name | name in {n.database, n.wal, n.shm, n.backup, n.manifest} :: !Random(n, name)
  {
    var o := Ordered(n);
    assert o[0] == n.database && o[1] == n.wal && o[2] == n.shm && o[3] == n.backup && o[4] == n.manifest
      && o[6] == n.backupTemp && o[7] == n.manifestTemp && o[8] == n.restoreTemp && o[9] == n.evidenceTemp
      && o[10] == n.heldDatabase && o[11] == n.heldWal && o[12] == n.heldShm;
  }

  lemma RunnerApart(n: Names, files: Files, r: RunnerOutcome)
    requires NamesOk(n) && Fresh(n, files) && n.backup in files && n.manifest in files
    ensures var after := AfterRunner(n, files, r);
      && Fresh(n, after) && n.backup in after && after[n.backup] == files[n.backup]
      && (n.database in after <==> r.main.Some?) && (r.main.Some? ==> after[n.database] == Blob(r.main.value))
  {
    PlainNames(n);
    Names3(n);
    var o := Ordered(n);
    assert o[0] == n.database && o[1] == n.wal && o[2] == n.shm;
  }

  /** The files that the runner leaves of a guarded database. */
  function Attempted(q: Sqlite, n: Names, files: Files, source: nat, runner: RunnerOutcome): Files
    requires n.database in files
  {
    AfterRunner(n, GuardedFiles(q, n, files, source), runner)
  }

  function AttemptOutcome(q: Sqlite, n: Names, files: Files, source: nat, runner: RunnerOutcome, f: Faults): Outcome {
    if !BackupMade(q, n, files, source, f) then Raised
    else
      var after := Attempted(q, n, files, source, runner);
      if runner.ok && Verified(q, n, after, n.database, LATEST) then MigrationVerified
      else
        match Restoring(q, n, after, source, f)
        case Restored => MigrationUndone
        case NothingToRestore => FoundRestored
        case Failed => BothFailed
  }

  lemma GuardedFresh(q: Sqlite, n: Names, files: Files, source: nat, runner: RunnerOutcome)
    requires NamesOk(n) && Fresh(n, files) && n.database in files
    ensures Fresh(n, GuardedFiles(q, n, files, source)) && Fresh(n, Attempted(q, n, files, source, runner))
  {
    PlainNames(n);
    hide ManifestOf, SourceCopy;
    FreshStill(n, files, GuardedFiles(q, n, files, source));
    RunnerApart(n, GuardedFiles(q, n, files, source), runner);
  }

  ghost function AttemptFiles(
    q: Sqlite, n: Names, files: Files, source: nat, runner: RunnerOutcome, f: Faults): Files
    requires NamesOk(n) && Fresh(n, files)
  {
    if !BackupMade(q, n, files, source, f) then EnsuredFiles(q, n, files, source, f)
    else
      GuardedFresh(q, n, files, source, runner);
      var after := Attempted(q, n, files, source, runner);
      if AttemptOutcome(q, n, files, source, runner, f).MigrationVerified? then after
      else RestoringFiles(q, n, after, source, f)
  }

  predicate NoDatabase(n: Names, files: Files) {
    n.database !in files || BytesOf(files[n.database]) == []
  }

  function GuardOutcome(q: Sqlite, n: Names, files: Files, runner: RunnerOutcome, f: Faults): Outcome {
    var version := VersionOf(q, n, files, n.database);
    if NoDatabase(n, files) then
      var started := VersionOf(q, n, AfterRunner(n, files, runner), n.database);
      if runner.ok && started.Some? then FirstStart(started.value) else Raised
    else if version.None? || version.value > LATEST then Raised
    else if version.value == LATEST then
      if Verified(q, n, files, n.database, LATEST) then UpToDate else Raised
    else AttemptOutcome(q, n, files, version.value, runner, f)
  }

  /** Nothing is guarded on a first start, nothing is changed in a database that is not upgraded. */
  ghost function GuardFiles(q: Sqlite, n: Names, files: Files, runner: RunnerOutcome, f: Faults): Files
    requires NamesOk(n) && Fresh(n, files)
  {
    var version := VersionOf(q, n, files, n.database);
    if NoDatabase(n, files) then AfterRunner(n, files, runner)
    else if version.None? || version.value >= LATEST then files
    else AttemptFiles(q, n, files, version.value, runner, f)
  }

  /**
   At position `made` of the history, after `from`, the backup has just been made, and next comes what
   the runner did. From there on the backup is in every state, the same file, and it verifies.
   */
  ghost predicate BackupSince(
    q: Sqlite, n: Names, pre: Files, history: seq<Files>, from: nat, made: nat, source: nat, runner: RunnerOutcome)
  {
    && n.database in pre && from <= made && made + 1 < |history|
    && history[made] == GuardedFiles(q, n, pre, source) && history[made + 1] == Attempted(q, n, pre, source, runner)
    && n.backup in history[made] && CopyVerified(q, BytesOf(history[made][n.backup]), source)
    && forall i | made <= i < |history| ::
         n.backup in history[i] && history[i][n.backup] == history[made][n.backup]
  }

  /**
   guarded_migrate: how it ends and what files it leaves, for whatever the runner does and whichever
   calls fail. Whatever happens, once the backup is there it is there in every later state, unchanged;
   when a migration was tried it verifies in all of them.
   */
  method GuardedMigrate(dir: Directory, q: Sqlite, n: Names, runner: RunnerOutcome, f: Faults)
    returns (outcome: Outcome, source: nat, ghost made: nat)
    requires NamesOk(n) && Fresh(n, dir.files) && dir.Valid()
    modifies dir
    ensures dir.Valid() && old(dir.history) <= dir.history
    ensures KeptOnceThere(dir.history, |old(dir.history)|, n.backup)
    ensures outcome == GuardOutcome(q, n, old(dir.files), runner, f)
    ensures dir.files == GuardFiles(q, n, old(dir.files), runner, f)
    ensures Tried(outcome) ==>
      && VersionOf(q, n, old(dir.files), n.database) == Some(source)
      && BackupSince(q, n, old(dir.files), dir.history, |old(dir.history)|, made, source, runner)
  {
    source, made := 0, 0;
    if n.database !in dir.files || BytesOf(dir.files[n.database]) == [] {
      dir.RunMigrations(n, runner);
      var version := VersionOf(q, n, dir.files, n.database);
      outcome := if runner.ok && version.Some? then FirstStart(version.value) else Raised;
      return;
    }
    var found := VersionOf(q, n, dir.files, n.database);
    if found.None? || found.value > LATEST {
      return Raised, source, made;
    }
    source := found.value;
    if source == LATEST {
      outcome := if Verified(q, n, dir.files, n.database, LATEST) then UpToDate else Raised;
      return;
    }
    outcome, made := Attempt(dir, q, n, source, runner, f);
  }

  /** Backup, runner, verification, and restoration if either of these fails. */
  method Attempt(dir: Directory, q: Sqlite, n: Names, source: nat, runner: RunnerOutcome, f: Faults)
    returns (outcome: Outcome, ghost made: nat)
    requires NamesOk(n) && Fresh(n, dir.files) && 0 < source < LATEST && dir.Valid()
    modifies dir
    ensures dir.Valid() && old(dir.history) <= dir.history
    ensures KeptOnceThere(dir.history, |old(dir.history)|, n.backup)
    ensures outcome == AttemptOutcome(q, n, old(dir.files), source, runner, f)
    ensures dir.files == AttemptFiles(q, n, old(dir.files), source, runner, f)
    ensures Tried(outcome) ==>
      BackupSince(q, n, old(dir.files), dir.history, |old(dir.history)|, made, source, runner)
  {
    outcome, made := Raised, 0;
    ghost var pre, start := dir.files, dir.history;
    var ok := EnsureBackup(dir, q, n, source, f);
    if !ok {
      return;
    }
    made := |dir.history| - 1;
    ghost var before, mid := dir.history, dir.files;
    ghost var backup := mid[n.backup];
    GuardedFresh(q, n, pre, source, runner);
    RunnerApart(n, mid, runner);
    Names3(n);
    dir.RunMigrations(n, runner);
    ghost var between := dir.history;
    assert KeptSince(before, between, n.backup, backup);
    BackupSinceRun(q, n, pre, between, |start|, made, source, runner);
    KeptOn(before, between, |start|, n.backup, backup);
    assert dir.files == Attempted(q, n, pre, source, runner);
    hide BackupReady, AfterRunner, NamesOk, Fresh, LedgerVersion, Restoring, RestoringFiles, BackupMade, Attempted;
    hide BackupSince, CopyVerified, EnsuredFiles, KeptOnceThere, KeptSince, Directory.Valid, GuardedFiles;
    if runner.ok && Verified(q, n, dir.files, n.database, LATEST) {
      return MigrationVerified, made;
    }
    var restoration := Restore(dir, q, n, source, f);
    BackupSinceKept(q, n, pre, between, dir.history, |start|, made, source, runner, backup);
    KeptOn(between, dir.history, |start|, n.backup, backup);
    outcome := match restoration
      case Restored => MigrationUndone
      case NothingToRestore => FoundRestored
      case Failed => BothFailed;
  }

  /** What is kept once there, and is there, stays so while it is kept. */
  lemma KeptOn(before: seq<Files>, now: seq<Files>, from: nat, name: string, file: File)
    requires KeptOnceThere(before, from, name) && KeptSince(before, now, name, file) && from < |before|
    requires name in before[|before| - 1] && before[|before| - 1][name] == file
    ensures KeptOnceThere(now, from, name)
  {
    forall i | from <= i < |now| && name in now[i] ensures now[i][name] == file {
      if i < |before| { assert now[i] == before[i] && name in before[|before| - 1]; }
    }
    forall i | 0 <= i < |before| ensures now[i] == before[i] {}
  }

  lemma BackupSinceRun(
    q: Sqlite, n: Names, pre: Files, history: seq<Files>, from: nat, made: nat, source: nat, runner: RunnerOutcome)
    requires NamesOk(n) && n.database in pre && from <= made && |history| == made + 2
    requires history[made] == GuardedFiles(q, n, pre, source)
    requires history[made + 1] == Attempted(q, n, pre, source, runner)
    requires BackupReady(q, n, history[made], source)
    ensures BackupSince(q, n, pre, history, from, made, source, runner)
  {
    Names3(n);
  }

  lemma BackupSinceKept(
    q: Sqlite, n: Names, pre: Files, before: seq<Files>, history: seq<Files>, from: nat, made: nat, source: nat,
    runner: RunnerOutcome, backup: File)
    requires BackupSince(q, n, pre, before, from, made, source, runner) && before[made][n.backup] == backup
    requires KeptSince(before, history, n.backup, backup)
    ensures BackupSince(q, n, pre, history, from, made, source, runner)
  {
    hide GuardedFiles, Attempted, CopyVerified;
    forall i | made <= i < |history| ensures n.backup in history[i] && history[i][n.backup] == backup {
      if i < |before| { assert history[i] == before[i]; }
    }
    assert history[made] == before[made] && history[made + 1] == before[made + 1];
  }
}
