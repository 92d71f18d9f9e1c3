/**
 ensure_pre_migration_backup, restore_pre_migration_backup and guarded_migrate
 (sean_os/migration_guard.py:102-289).
 */
module MigrationGuardRun {
  import opened Basics
  import opened MigrationGuard

  /** Which file calls fail; renames and their undoing are numbered. */
  datatype Faults = Faults(
    copy: bool, replace: bool, cleanup: bool, manifest: bool,
    rename: nat -> bool, recopy: bool, rereplace: bool, recleanup: bool, rollback: nat -> bool, evidence: bool)

  function Pairs(n: Names): seq<Move> {
    [(n.database, n.heldDatabase), (n.wal, n.heldWal), (n.shm, n.heldShm)]
  }

  /** The files among the first k that exist, with their quarantine names. */
  function MovesUpTo(n: Names, files: Files, k: nat): set<Move>
    requires k <= 3
  {
    set i | 0 <= i < k && Pairs(n)[i].0 in files :: Pairs(n)[i]
  }

  lemma PairNames(n: Names, files: Files)
    requires NamesOk(n) && Fresh(n, files)
    ensures forall m | m in Pairs(n) :: m.1 !in files && m.0 != n.backup && m.1 != n.backup
    ensures forall m | m in Pairs(n) :: m.1 != n.restoreTemp && m.1 != n.evidenceTemp
    ensures forall m, k | m in Pairs(n) && k in Pairs(n) && m != k :: m.0 != k.0 && m.1 != k.1
    ensures n.restoreTemp !in files && n.evidenceTemp !in files
  {
    var o := Ordered(n);
    assert o[0] == n.database && o[1] == n.wal && o[2] == n.shm && o[3] == n.backup && o[8] == n.restoreTemp
      && o[9] == n.evidenceTemp && o[10] == n.heldDatabase && o[11] == n.heldWal && o[12] == n.heldShm;
    assert Random(n, n.heldDatabase) && Random(n, n.heldWal) && Random(n, n.heldShm);
    assert Random(n, n.restoreTemp) && Random(n, n.evidenceTemp);
  }

  lemma MovesExist(n: Names, files: Files, k: nat)
    requires k <= 3
    ensures forall m | m in MovesUpTo(n, files, k) :: m in Pairs(n) && m.0 in files
  {
  }

  lemma PairsMovable(n: Names, files: Files, k: nat)
    requires k <= 3 && NamesOk(n) && Fresh(n, files)
    ensures Movable(files, MovesUpTo(n, files, k))
    ensures n.backup !in Sources(MovesUpTo(n, files, k))
    ensures n.backup in files ==>
      var aside := Aside(files, MovesUpTo(n, files, k)); n.backup in aside && aside[n.backup] == files[n.backup]
    ensures n.restoreTemp !in Aside(files, MovesUpTo(n, files, k))
    ensures n.evidenceTemp !in Aside(files, MovesUpTo(n, files, k))
  {
    PairNames(n, files);
    MovesExist(n, files, k);
    hide NamesOk, Fresh, Pairs, MovesUpTo;
  }

  lemma NextMove(n: Names, files: Files, k: nat)
    requires k < 3 && NamesOk(n)
    ensures Pairs(n)[k] !in MovesUpTo(n, files, k)
    ensures MovesUpTo(n, files, k + 1) ==
      if Pairs(n)[k].0 in files then MovesUpTo(n, files, k) + {Pairs(n)[k]} else MovesUpTo(n, files, k)
  {
    var o := Ordered(n);
    assert o[0] == n.database && o[1] == n.wal && o[2] == n.shm;
  }

  ghost function Listed(moved: seq<Move>): set<Move> {
    set m | m in moved
  }

  ghost predicate Distinct(moved: seq<Move>) {
    forall i, j | 0 <= i < j < |moved| :: moved[i] != moved[j]
  }

  lemma ListedSnoc(moved: seq<Move>, m: Move)
    requires Distinct(moved) && m !in Listed(moved)
    ensures Distinct(moved + [m]) && Listed(moved + [m]) == Listed(moved) + {m}
  {
  }

  /** The moves among the first k names, in the order in which they are made. */
  function MoveList(n: Names, files: Files, k: nat): seq<Move>
    requires k <= 3
  {
    if k == 0 then []
    else if Pairs(n)[k - 1].0 in files then MoveList(n, files, k - 1) + [Pairs(n)[k - 1]]
    else MoveList(n, files, k - 1)
  }

  /** The first rename from the k-th on that fails; 3 if none does. */
  function FirstRename(n: Names, files: Files, f: Faults, k: nat): (r: nat)
    requires k <= 3
    ensures k <= r <= 3
    decreases 3 - k
  {
    if k == 3 || (Pairs(n)[k].0 in files && f.rename(k)) then k else FirstRename(n, files, f, k + 1)
  }

  /** The first undoing from the j-th on that fails; their number if none does. */
  function FirstRollback(f: Faults, j: nat, count: nat): (r: nat)
    requires j <= count
    ensures j <= r <= count
    decreases count - j
  {
    if j == count || f.rollback(j) then j else FirstRollback(f, j + 1, count)
  }

  lemma {:induction false} MoveListIs(n: Names, files: Files, k: nat)
    requires NamesOk(n) && k <= 3
    ensures Listed(MoveList(n, files, k)) == MovesUpTo(n, files, k) && Distinct(MoveList(n, files, k))
    ensures forall m | m in MoveList(n, files, k) :: m in Pairs(n)
  {
    if k == 0 {
      assert MovesUpTo(n, files, 0) == {} == Listed([]);
    } else {
      MoveListIs(n, files, k - 1);
      NextMove(n, files, k - 1);
      hide NamesOk, MovesUpTo, Distinct, Listed, Pairs;
      if Pairs(n)[k - 1].0 in files { ListedSnoc(MoveList(n, files, k - 1), Pairs(n)[k - 1]); }
      PairIn(n, k - 1);
    }
  }

  lemma PairIn(n: Names, k: nat)
    requires k < 3
    ensures Pairs(n)[k] in Pairs(n)
  {
  }

  /** The state of the quarantine after its first k names. */
  ghost predicate Quarantined(n: Names, pre: Files, files: Files, moved: seq<Move>, k: nat, f: Faults) {
    && k <= 3 && Movable(pre, MovesUpTo(n, pre, k)) && files == Aside(pre, MovesUpTo(n, pre, k))
    && moved == MoveList(n, pre, k) && FirstRename(n, pre, f, 0) == FirstRename(n, pre, f, k)
  }

  lemma QuarantineStart(n: Names, pre: Files, f: Faults)
    ensures Quarantined(n, pre, pre, [], 0, f)
  {
    MoveNone(pre);
    assert MovesUpTo(n, pre, 0) == {};
  }

  lemma QuarantineNext(n: Names, pre: Files, files: Files, moved: seq<Move>, k: nat, f: Faults)
    requires NamesOk(n) && Fresh(n, pre) && k < 3 && Quarantined(n, pre, files, moved, k, f)
    ensures Pairs(n)[k].0 in files <==> Pairs(n)[k].0 in pre
    ensures var (from, to) := Pairs(n)[k];
      if from !in pre then Quarantined(n, pre, files, moved, k + 1, f)
      else if f.rename(k) then FirstRename(n, pre, f, 0) == k
      else Quarantined(n, pre, Moved(files, from, to), moved + [Pairs(n)[k]], k + 1, f)
  {
    PairsMovable(n, pre, k + 1);
    NextMove(n, pre, k);
    ExistsStill(n, pre, k);
    hide Movable, Aside, MovesUpTo, Moved, NamesOk, Fresh, Listed, Distinct, Pairs;
    var s, m := MovesUpTo(n, pre, k), Pairs(n)[k];
    if m.0 in pre {
      MoveOneMore(pre, s, m);
    }
  }

  lemma QuarantinedBackup(n: Names, pre: Files, files: Files, moved: seq<Move>, k: nat, f: Faults)
    requires NamesOk(n) && Fresh(n, pre) && Quarantined(n, pre, files, moved, k, f) && n.backup in pre
    ensures n.backup in files && files[n.backup] == pre[n.backup]
    ensures n.restoreTemp !in files && n.evidenceTemp !in files
  {
    PairsMovable(n, pre, k);
  }

  lemma KeptNext(before: seq<Files>, now: seq<Files>, files: Files, name: string, file: File)
    requires KeptSince(before, now, name, file) && name in files && files[name] == file
    ensures KeptSince(before, now + [files], name, file)
  {
  }

  /** The quarantine loop: a failing rename stops it, and what was moved before stays moved. */
  method Quarantine(dir: Directory, n: Names, f: Faults) returns (ok: bool, moved: seq<Move>, k: nat)
    requires NamesOk(n) && Fresh(n, dir.files) && n.backup in dir.files && dir.Valid()
    modifies dir
    ensures dir.Valid()
    ensures k == FirstRename(n, old(dir.files), f, 0) && (ok <==> k == 3)
    ensures Quarantined(n, old(dir.files), dir.files, moved, k, f)
    ensures KeptSince(old(dir.history), dir.history, n.backup, old(dir.files[n.backup]))
  {
    hide Directory.Valid;
    ghost var pre, before := dir.files, dir.history;
    moved, k, ok := [], 0, true;
    QuarantineStart(n, pre, f);
    while k < 3
      invariant 0 <= k <= 3 && Quarantined(n, pre, dir.files, moved, k, f)
      invariant KeptSince(before, dir.history, n.backup, pre[n.backup]) && dir.Valid()
    {
      QuarantineNext(n, pre, dir.files, moved, k, f);
      QuarantinedBackup(n, pre, dir.files, moved, k, f);
      hide Quarantined, KeptSince, NamesOk;
      var (from, to) := Pairs(n)[k];
      if from in dir.files {
        BackupKept(n, dir.files, k);
        KeptNext(before, dir.history, dir.files, n.backup, pre[n.backup]);
        KeptNext(before, dir.history, Moved(dir.files, from, to), n.backup, pre[n.backup]);
        ok := dir.Replace(from, to, f.rename(k));
        if !ok {
          return;
        }
        moved := moved + [Pairs(n)[k]];
      }
      k := k + 1;
    }
  }

  /** The k-th name still has its file, if it had one, when its turn comes. */
  lemma ExistsStill(n: Names, files: Files, k: nat)
    requires k < 3 && NamesOk(n) && Fresh(n, files) && Movable(files, MovesUpTo(n, files, k))
    ensures Pairs(n)[k].0 in Aside(files, MovesUpTo(n, files, k)) <==> Pairs(n)[k].0 in files
  {
    var o := Ordered(n);
    assert o[0] == n.database && o[1] == n.wal && o[2] == n.shm
      && o[10] == n.heldDatabase && o[11] == n.heldWal && o[12] == n.heldShm;
  }

  /** The rollback of a failed copy: the quarantined files go back to their names, up to a failing rename. */
  method Rollback(dir: Directory, n: Names, moved: seq<Move>, ghost base: Files, f: Faults) returns (ok: bool)
    requires NamesOk(n) && n.backup in dir.files && Distinct(moved) && dir.Valid()
    requires forall m | m in moved :: m in Pairs(n)
    requires Movable(base, Listed(moved)) && dir.files == Aside(base, Listed(moved))
    modifies dir
    ensures dir.Valid()
    ensures var stop := FirstRollback(f, 0, |moved|);
      && (ok <==> stop == |moved|)
      && Movable(base, Listed(moved[stop..])) && dir.files == Aside(base, Listed(moved[stop..]))
    ensures n.backup in dir.files && dir.files[n.backup] == old(dir.files[n.backup])
    ensures KeptSince(old(dir.history), dir.history, n.backup, old(dir.files[n.backup]))
  {
    hide Movable, Aside, Listed, Distinct, NamesOk, Pairs, Directory.Valid;
    var j := 0;
    ghost var before, kept := dir.history, dir.files[n.backup];
    assert KeptSince(before, dir.history, n.backup, kept);
    hide KeptSince;
    assert moved[0..] == moved;
    while j < |moved|
      invariant 0 <= j <= |moved|
      invariant FirstRollback(f, 0, |moved|) == FirstRollback(f, j, |moved|)
      invariant n.backup in dir.files && dir.files[n.backup] == kept
      invariant Movable(base, Listed(moved[j..])) && dir.files == Aside(base, Listed(moved[j..]))
      invariant KeptSince(before, dir.history, n.backup, kept) && dir.Valid()
    {
      var (original, held) := moved[j];
      assert moved[j] in moved;
      BackupApart(n, moved[j]);
      RollbackNext(base, moved, j);
      if original !in dir.files && held in dir.files {
        KeptNext(before, dir.history, dir.files, n.backup, kept);
        KeptNext(before, dir.history, Moved(dir.files, held, original), n.backup, kept);
        ok := dir.Replace(held, original, f.rollback(j));
        if !ok {
          return;
        }
      }
      j := j + 1;
    }
    ok := true;
  }

  lemma RestNext(base: Files, moved: seq<Move>, j: nat)
    requires j < |moved| && Distinct(moved)
    requires Movable(base, Listed(moved[j..]))
    ensures moved[j] !in Listed(moved[j + 1..]) && Listed(moved[j..]) == Listed(moved[j + 1..]) + {moved[j]}
    ensures Movable(base, Listed(moved[j + 1..]))
  {
    assert moved[j..] == [moved[j]] + moved[j + 1..];
    assert forall m | m in Listed(moved[j + 1..]) :: m in Listed(moved[j..]);
  }

  lemma RollbackNext(base: Files, moved: seq<Move>, j: nat)
    requires j < |moved| && Distinct(moved) && Movable(base, Listed(moved[j..]))
    ensures var files := Aside(base, Listed(moved[j..]));
      && moved[j].0 !in files && moved[j].1 in files
      && Movable(base, Listed(moved[j + 1..]))
      && Moved(files, moved[j].1, moved[j].0) == Aside(base, Listed(moved[j + 1..]))
  {
    RestNext(base, moved, j);
    MoveOneBack(base, Listed(moved[j + 1..]), moved[j]);
    hide Movable, Aside, Listed, Moved;
  }

  lemma BackupKept(n: Names, files: Files, k: nat)
    requires NamesOk(n) && k < 3 && n.backup in files && Pairs(n)[k].0 in files
    ensures var (from, to) := Pairs(n)[k];
      n.backup in Moved(files, from, to) && Moved(files, from, to)[n.backup] == files[n.backup]
  {
    BackupApart(n, Pairs(n)[k]);
  }

  lemma BackupApart(n: Names, m: Move)
    requires NamesOk(n) && m in Pairs(n)
    ensures m.0 != n.backup && m.1 != n.backup
  {
    var o := Ordered(n);
    assert o[0] == n.database && o[1] == n.wal && o[2] == n.shm && o[3] == n.backup
      && o[10] == n.heldDatabase && o[11] == n.heldWal && o[12] == n.heldShm;
  }

  // ---------------------------------------------------------------- copies and atomic writes

  /** A database with no sidecars that holds what a file's backup copy holds, at a given version. */
  predicate CopyVerified(q: Sqlite, bytes: Bytes, version: nat) {
    var content := q.content(bytes, None);
    content.Some? && LedgerVersion(content.value) == Some(version) && q.sound(bytes, None)
  }

  predicate CopyWorks(q: Sqlite, copy: Bytes, version: nat, writeFails: bool, replaceFails: bool) {
    !writeFails && CopyVerified(q, copy, version) && !replaceFails
  }

  /** Only the new name can stay behind, when the copy was written and its removal fails. */
  function LeftBehind(files: Files, temp: string, copy: Bytes, writeFails: bool, cleanupFails: bool): Files {
    if !writeFails && cleanupFails then files[temp := Blob(copy)] else files
  }

  /** A name that was not there is in the last state, as this file, and in no new state before; or in none. */
  ghost predicate ComesLast(before: seq<Files>, now: seq<Files>, name: string, file: Option<File>) {
    && before < now
    && (forall i | |before| <= i < |now| - 1 :: name !in now[i])
    && var last := now[|now| - 1];
      if file.Some? then name in last && last[name] == file.value else name !in last
  }

  /** Write under a new name, verify, then replace; a failure removes the new name again. */
  method CopyInto(
    dir: Directory, q: Sqlite, n: Names, temp: string, target: string, copy: Bytes, version: nat,
    writeFails: bool, replaceFails: bool, cleanupFails: bool, ghost kept: string)
    returns (ok: bool)
    requires temp != n.database && temp !in dir.files && target !in dir.files && temp != target
    requires kept in dir.files && kept != temp && kept != target
    modifies dir
    ensures dir.Valid() && ComesLast(old(dir.history), dir.history, target, if ok then Some(Blob(copy)) else None)
    ensures ok <==> CopyWorks(q, copy, version, writeFails, replaceFails)
    ensures dir.files ==
      if ok then old(dir.files)[target := Blob(copy)]
      else LeftBehind(old(dir.files), temp, copy, writeFails, cleanupFails)
    ensures kept in dir.files && dir.files[kept] == old(dir.files[kept])
    ensures KeptSince(old(dir.history), dir.history, kept, old(dir.files[kept]))
  {
    ok := dir.Write(temp, Blob(copy), writeFails);
    if ok {
      ok := Verified(q, n, dir.files, temp, version);
      if ok {
        ok := dir.Replace(temp, target, replaceFails);
      }
    }
    if temp in dir.files {
      var gone := dir.Unlink(temp, cleanupFails);
    }
  }

  /** _write_json_atomic: the new document under its name, or nothing. */
  method WriteAtomic(dir: Directory, temp: string, name: string, file: File, fails: bool, ghost kept: string)
    returns (ok: bool)
    requires temp !in dir.files && temp != name && kept in dir.files && kept != temp && kept != name
    modifies dir
    ensures dir.Valid() && old(dir.history) < dir.history
    ensures ok == !fails
    ensures dir.files == if ok then old(dir.files)[name := file] else old(dir.files)
    ensures kept in dir.files && dir.files[kept] == old(dir.files[kept])
    ensures KeptSince(old(dir.history), dir.history, kept, old(dir.files[kept]))
  {
    ok := dir.Write(temp, file, fails);
    if ok {
      ok := dir.Replace(temp, name, false);
    }
  }

  // ---------------------------------------------------------------- the backup

  function ManifestOf(q: Sqlite, n: Names, files: Files, version: nat): ManifestDoc
    requires n.backup in files
  {
    var bytes := BytesOf(files[n.backup]);
    ManifestDoc(true, n.backup, q.sha(bytes), |bytes|, version, LATEST)
  }

  /** A verified backup with the manifest that describes it. */
  predicate BackupReady(q: Sqlite, n: Names, files: Files, version: nat) {
    && n.backup in files && Verified(q, n, files, n.backup, version)
    && n.manifest in files && files[n.manifest] == ManifestFile(ManifestOf(q, n, files, version))
  }

  lemma Names3(n: Names)
    requires NamesOk(n)
    ensures n.backupTemp !in {n.database, n.backup, n.manifest} && n.manifestTemp !in {n.database, n.backup, n.manifest}
    ensures n.backup != n.manifest && n.database !in {n.backup, n.manifest} && n.backupTemp != n.manifestTemp
    ensures n.wal !in {n.backup, n.manifest, n.backupTemp, n.manifestTemp}
    ensures n.restoreTemp !in {n.database, n.backup, n.evidence, n.evidenceTemp}
    ensures n.evidence !in {n.database, n.backup, n.wal} && n.evidenceTemp !in {n.database, n.backup, n.evidence}
    ensures n.wal != n.database && n.heldWal != n.wal && n.wal !in {n.heldDatabase, n.heldShm, n.shm}
    ensures n.backup !in {n.wal, n.shm}
  {
    var o := Ordered(n);
    assert o[0] == n.database && o[1] == n.wal && o[2] == n.shm && o[3] == n.backup && o[4] == n.manifest
      && o[5] == n.evidence && o[6] == n.backupTemp && o[7] == n.manifestTemp && o[8] == n.restoreTemp
      && o[9] == n.evidenceTemp && o[10] == n.heldDatabase && o[11] == n.heldWal && o[12] == n.heldShm;
  }

  function SourceCopy(q: Sqlite, n: Names, files: Files): Bytes
    requires n.database in files
  {
    q.copy(BytesOf(files[n.database]), LogOf(n, files, n.database))
  }

  /** The files with a backup: the one that was there, or a copy of the database. */
  function WithBackup(q: Sqlite, n: Names, files: Files): (r: Files)
    requires n.database in files
    ensures n.backup in r
  {
    if n.backup in files then files else files[n.backup := Blob(SourceCopy(q, n, files))]
  }

  predicate Upgradable(q: Sqlite, n: Names, files: Files, version: nat) {
    0 < version < LATEST && n.database in files && VersionOf(q, n, files, n.database) == Some(version)
  }

  /** An old backup is taken as it is; a new one takes a copy that verifies and calls that work. */
  predicate BackupThere(q: Sqlite, n: Names, files: Files, version: nat, f: Faults)
    requires n.database in files
  {
    n.backup in files || CopyWorks(q, SourceCopy(q, n, files), version, f.copy, f.replace)
  }

  /** When the backup is made: it verifies, and no other manifest describes it. */
  predicate BackupMade(q: Sqlite, n: Names, files: Files, version: nat, f: Faults) {
    && Upgradable(q, n, files, version) && BackupThere(q, n, files, version, f) && !f.manifest
    && var ready := WithBackup(q, n, files);
      && CopyVerified(q, BytesOf(ready[n.backup]), version)
      && (n.manifest in files ==> files[n.manifest] == ManifestFile(ManifestOf(q, n, ready, version)))
  }

  /** The files when the backup is made. */
  function GuardedFiles(q: Sqlite, n: Names, files: Files, version: nat): Files
    requires n.database in files
  {
    var ready := WithBackup(q, n, files);
    ready[n.manifest := ManifestFile(ManifestOf(q, n, ready, version))]
  }

  /** The files after ensure_pre_migration_backup, whatever it ends in. */
  function EnsuredFiles(q: Sqlite, n: Names, files: Files, version: nat, f: Faults): Files {
    if BackupMade(q, n, files, version, f) then GuardedFiles(q, n, files, version)
    else if !Upgradable(q, n, files, version) then files
    else if BackupThere(q, n, files, version, f) then WithBackup(q, n, files)
    else LeftBehind(files, n.backupTemp, SourceCopy(q, n, files), f.copy, f.cleanup)
  }

  /** An existing backup stays; a missing one is copied, and comes last. */
  method PlaceBackup(dir: Directory, q: Sqlite, n: Names, version: nat, f: Faults) returns (ok: bool)
    requires NamesOk(n) && Fresh(n, dir.files) && dir.Valid() && Upgradable(q, n, dir.files, version)
    modifies dir
    ensures dir.Valid()
    ensures ok <==> BackupThere(q, n, old(dir.files), version, f)
    ensures dir.files ==
      if ok then WithBackup(q, n, old(dir.files))
      else LeftBehind(old(dir.files), n.backupTemp, SourceCopy(q, n, old(dir.files)), f.copy, f.cleanup)
    ensures
      if n.backup in old(dir.files) then dir.history == old(dir.history)
      else ComesLast(old(dir.history), dir.history, n.backup, if ok then Some(dir.files[n.backup]) else None)
  {
    hide NamesOk, LedgerVersion, Directory.Valid, CopyWorks;
    Names3(n);
    assert Random(n, n.backupTemp);
    hide Fresh;
    ok := true;
    if n.backup !in dir.files {
      var copy := q.copy(BytesOf(dir.files[n.database]), LogOf(n, dir.files, n.database));
      ok := CopyInto(dir, q, n, n.backupTemp, n.backup, copy, version, f.copy, f.replace, f.cleanup, n.database);
    }
  }

  /**
   ensure_pre_migration_backup: an existing backup is reused as it is, a missing one is copied from
   the database; nothing else changes but the manifest.
   */
  method EnsureBackup(dir: Directory, q: Sqlite, n: Names, version: nat, f: Faults) returns (ok: bool)
    requires NamesOk(n) && Fresh(n, dir.files) && dir.Valid()
    modifies dir
    ensures dir.Valid() && old(dir.history) <= dir.history
    ensures KeptOnceThere(dir.history, |old(dir.history)|, n.backup)
    ensures ok ==> |old(dir.history)| < |dir.history|
    ensures ok <==> BackupMade(q, n, old(dir.files), version, f)
    ensures dir.files == EnsuredFiles(q, n, old(dir.files), version, f)
    ensures ok ==> BackupReady(q, n, dir.files, version)
    ensures n.backup in old(dir.files) ==>
      KeptSince(old(dir.history), dir.history, n.backup, old(dir.files)[n.backup])
  {
    assert n.backup in dir.files ==> KeptSince(dir.history, dir.history, n.backup, dir.files[n.backup]);
    hide NamesOk, LedgerVersion, Directory.Valid, ComesLast, KeptSince, CopyWorks, KeptOnceThere;
    Names3(n);
    assert Random(n, n.backupTemp) && Random(n, n.manifestTemp);
    hide Fresh;
    if version == 0 || version >= LATEST || VersionOf(q, n, dir.files, n.database) != Some(version) {
      return false;
    }
    ghost var pre, before := dir.files, dir.history;
    ok := PlaceBackup(dir, q, n, version, f);
    if !ok {
      NoneCame(before, dir.history, n.backup);
      return;
    }
    ghost var ready, backup := dir.history, dir.files[n.backup];
    KeptFromReady(before, ready, ready, n.backup, backup, n.backup in pre);
    if !Verified(q, n, dir.files, n.backup, version) {
      return false;
    }
    var doc := ManifestFile(ManifestOf(q, n, dir.files, version));
    if n.manifest in dir.files && dir.files[n.manifest] != doc {
      return false;
    }
    ok := WriteAtomic(dir, n.manifestTemp, n.manifest, doc, f.manifest, n.backup);
    KeptFromReady(before, ready, dir.history, n.backup, backup, n.backup in pre);
  }

  lemma NoneCame(before: seq<Files>, now: seq<Files>, name: string)
    requires ComesLast(before, now, name, None)
    ensures KeptOnceThere(now, |before|, name)
  {
  }

  /** A backup that is there, or comes last, and is kept from then on. */
  lemma KeptFromReady(
    before: seq<Files>, ready: seq<Files>, now: seq<Files>, name: string, file: File, there: bool)
    requires KeptSince(ready, now, name, file)
    requires if there then ready == before else ComesLast(before, ready, name, Some(file))
    ensures KeptOnceThere(now, |before|, name)
  {
    forall i | |before| <= i < |now| ensures i < |ready| - 1 ==> name !in now[i]
      ensures i >= |ready| - 1 ==> name in now[i] && now[i][name] == file
    {
      if i < |ready| { assert now[i] == ready[i]; }
    }
  }
}
