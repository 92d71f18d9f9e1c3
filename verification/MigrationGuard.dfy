/**
 The migration guard's files: the verified backup, the runner, and restoration with quarantine and
 rollback (sean_os/migration_guard.py). A database file is read together with its write-ahead log;
 its content is a database as the migrations see it.
 */
module MigrationGuard {
  import opened Basics
  import Migrations

  type Bytes = seq<Byte>

  datatype ManifestDoc = ManifestDoc(
    formatOk: bool, backupFile: string, sha: Digest, size: int, source: int, target: int)

  /** A file is a blob, a manifest, or restore evidence; any other JSON is a blob. */
  datatype File = Blob(bytes: Bytes) | ManifestFile(doc: ManifestDoc) | RestoreEvidence

  type Files = map<string, File>

  /** SQLite and SHA-256, uninterpreted: what a file reads as, its soundness, its backup copy. */
  datatype Sqlite = Sqlite(
    content: (Bytes, Option<Bytes>) -> Option<Migrations.Db>,
    sound: (Bytes, Option<Bytes>) -> bool,
    copy: (Bytes, Option<Bytes>) -> Bytes,
    sha: Bytes -> Digest)

  /** A backup copy holds what its source holds. */
  ghost predicate Faithful(q: Sqlite) {
    forall main, wal :: q.content(q.copy(main, wal), None) == q.content(main, wal)
  }

  const LATEST := Migrations.LATEST_SCHEMA_VERSION

  /** The names derived from one database path; those with a random part are new. */
  datatype Names = Names(
    database: string, wal: string, shm: string, backup: string, manifest: string, evidence: string,
    backupTemp: string, manifestTemp: string, restoreTemp: string, evidenceTemp: string,
    heldDatabase: string, heldWal: string, heldShm: string)

  function Ordered(n: Names): seq<string> {
    [n.database, n.wal, n.shm, n.backup, n.manifest, n.evidence, n.backupTemp, n.manifestTemp, n.restoreTemp,
     n.evidenceTemp, n.heldDatabase, n.heldWal, n.heldShm]
  }

  predicate Random(n: Names, name: string) {
    name in {n.backupTemp, n.manifestTemp, n.restoreTemp, n.evidenceTemp, n.heldDatabase, n.heldWal, n.heldShm}
  }

  ghost predicate NamesOk(n: Names) {
    forall i, j | 0 <= i < j < 13 :: Ordered(n)[i] != Ordered(n)[j]
  }

  ghost predicate Fresh(n: Names, files: Files) {
    forall name | Random(n, name) :: name !in files
  }

  // ---------------------------------------------------------------- reading

  function BytesOf(file: File): Bytes {
    if file.Blob? then file.bytes else []
  }

  function LogOf(n: Names, files: Files, name: string): Option<Bytes> {
    if name == n.database && n.wal in files then Some(BytesOf(files[n.wal])) else None
  }

  function ContentOf(q: Sqlite, n: Names, files: Files, name: string): Option<Migrations.Db> {
    if name in files then q.content(BytesOf(files[name]), LogOf(n, files, name)) else None
  }

  /** _ledger_version: the length of a ledger that is exactly 1 to n. */
  function LedgerVersion(db: Migrations.Db): Option<nat> {
    if db.ledger != {} && forall v | v in db.ledger :: 1 <= v <= |db.ledger| then Some(|db.ledger|) else None
  }

  function VersionOf(q: Sqlite, n: Names, files: Files, name: string): Option<nat> {
    var content := ContentOf(q, n, files, name);
    if name !in files || BytesOf(files[name]) == [] then Some(0)
    else if content.None? then None
    else LedgerVersion(content.value)
  }

  predicate Verified(q: Sqlite, n: Names, files: Files, name: string, version: nat) {
    var content := ContentOf(q, n, files, name);
    && content.Some? && LedgerVersion(content.value) == Some(version)
    && q.sound(BytesOf(files[name]), LogOf(n, files, name))
  }

  // ---------------------------------------------------------------- changing

  function Moved(files: Files, from: string, to: string): Files
    requires from in files
  {
    (files - {from})[to := files[from]]
  }

  /** The runner may change the database and its two sidecars, and nothing else. */
  datatype RunnerOutcome = RunnerOutcome(ok: bool, main: Option<Bytes>, wal: Option<Bytes>, shm: Option<Bytes>)

  function Put(files: Files, name: string, bytes: Option<Bytes>): Files {
    if bytes.Some? then files[name := Blob(bytes.value)] else files - {name}
  }

  function AfterRunner(n: Names, files: Files, r: RunnerOutcome): Files {
    Put(Put(Put(files, n.database, r.main), n.wal, r.wal), n.shm, r.shm)
  }

  /**
   From a position of a history on, once a name has a file it keeps that very file: in every later
   state, the last one included.
   */
  ghost predicate KeptOnceThere(history: seq<Files>, from: nat, name: string) {
    forall i, j | from <= i <= j < |history| && name in history[i] ::
      name in history[j] && history[j][name] == history[i][name]
  }

  /** Later states only add to a history, and in all of them a file is what it was. */
  ghost predicate KeptSince(before: seq<Files>, now: seq<Files>, name: string, file: File) {
    before <= now && forall i | |before| <= i < |now| :: name in now[i] && now[i][name] == file
  }

  /** One directory; `history` lists its states, one after each call that may change it. */
  class Directory {
    var files: Files
    ghost var history: seq<Files>

    ghost predicate Valid() reads this {
      history != [] && history[|history| - 1] == files
    }

    constructor (files: Files)
      ensures Valid() && this.files == files && history == [files]
    {
      this.files, history := files, [files];
    }

    method Replace(from: string, to: string, fails: bool) returns (ok: bool)
      requires from in files
      modifies this
      ensures ok == !fails
      ensures files == if ok then Moved(old(files), from, to) else old(files)
      ensures Valid() && history == old(history) + [files]
    {
      ok := !fails;
      if ok { files := Moved(files, from, to); }
      history := history + [files];
    }

    method Write(name: string, file: File, fails: bool) returns (ok: bool)
      modifies this
      ensures ok == !fails
      ensures files == if ok then old(files)[name := file] else old(files)
      ensures Valid() && history == old(history) + [files]
    {
      ok := !fails;
      if ok { files := files[name := file]; }
      history := history + [files];
    }

    method Unlink(name: string, fails: bool) returns (ok: bool)
      modifies this
      ensures ok == !fails
      ensures files == if ok then old(files) - {name} else old(files)
      ensures Valid() && history == old(history) + [files]
    {
      ok := !fails;
      if ok { files := files - {name}; }
      history := history + [files];
    }

    method RunMigrations(n: Names, r: RunnerOutcome)
      modifies this
      ensures files == AfterRunner(n, old(files), r)
      ensures Valid() && history == old(history) + [files]
    {
      files := AfterRunner(n, files, r);
      history := history + [files];
    }
  }

  // ---------------------------------------------------------------- moving aside and back

  type Move = (string, string)

  /** Moves between names that are all different, from files that exist to names that are free. */
  ghost predicate Movable(files: Files, moves: set<Move>) {
    && (forall m | m in moves :: m.0 in files && m.1 !in files)
    && (forall m, k | m in moves && k in moves && m != k :: m.0 != k.0 && m.1 != k.1)
  }

  function Sources(moves: set<Move>): set<string> {
    set m | m in moves :: m.0
  }

  ghost function Targets(files: Files, moves: set<Move>): Files
    requires Movable(files, moves)
  {
    map m | m in moves :: m.1 := files[m.0]
  }

  /** The files once these moves are made, in any order. */
  ghost function Aside(files: Files, moves: set<Move>): Files
    requires Movable(files, moves)
  {
    (files - Sources(moves)) + Targets(files, moves)
  }

  lemma OneMoreTarget(files: Files, moves: set<Move>, m: Move)
    requires m !in moves && Movable(files, moves + {m}) && Movable(files, moves)
    ensures Targets(files, moves + {m}) == Targets(files, moves)[m.1 := files[m.0]]
  {
    var t, u := Targets(files, moves + {m}), Targets(files, moves)[m.1 := files[m.0]];
    assert m in moves + {m};
    forall name ensures name in t <==> name in u {
      if name in u && name != m.1 {
        var k :| k in moves && k.1 == name;
        assert k in moves + {m};
      }
    }
  }

  lemma OneMoreSource(files: Files, moves: set<Move>, m: Move)
    requires m !in moves && Movable(files, moves + {m})
    ensures Sources(moves + {m}) == Sources(moves) + {m.0} && m.0 !in Sources(moves)
    ensures m.0 in files && m.1 !in files
  {
    assert m in moves + {m};
    assert forall k | k in moves :: k in moves + {m};
  }

  /** Moving a file that is neither a source nor a target yet, on plain maps. */
  lemma MovedInto(files: Files, gone: set<string>, held: Files, from: string, to: string)
    requires from in files && from !in gone && from !in held && to !in files && to !in held
    ensures from in (files - gone) + held && to !in (files - gone) + held
    ensures Moved((files - gone) + held, from, to) == (files - (gone + {from})) + held[to := files[from]]
  {
  }

  lemma MoveOneMore(files: Files, moves: set<Move>, m: Move)
    requires m !in moves && Movable(files, moves + {m}) && Movable(files, moves)
    ensures m.0 in Aside(files, moves) && m.1 !in Aside(files, moves)
    ensures Moved(Aside(files, moves), m.0, m.1) == Aside(files, moves + {m})
  {
    OneMoreTarget(files, moves, m);
    OneMoreSource(files, moves, m);
    NotATarget(files, moves, m);
    hide Targets, Movable, Sources, Moved;
    MovedInto(files, Sources(moves), Targets(files, moves), m.0, m.1);
  }

  lemma NotATarget(files: Files, moves: set<Move>, m: Move)
    requires m !in moves && Movable(files, moves + {m}) && Movable(files, moves)
    ensures m.0 !in Targets(files, moves) && m.1 !in Targets(files, moves)
  {
    assert m in moves + {m};
    assert forall k | k in moves :: k in moves + {m} && k.1 !in files;
  }

  lemma MoveOneBack(files: Files, moves: set<Move>, m: Move)
    requires m !in moves && Movable(files, moves + {m}) && Movable(files, moves)
    ensures m.1 in Aside(files, moves + {m}) && m.0 !in Aside(files, moves + {m})
    ensures Moved(Aside(files, moves + {m}), m.1, m.0) == Aside(files, moves)
  {
    MoveOneMore(files, moves, m);
    var a := Aside(files, moves);
    assert Moved(Moved(a, m.0, m.1), m.1, m.0) == a;
  }

  /** A file that no move touches stays where it is. */
  lemma AsideApart(files: Files, moves: set<Move>, name: string, file: File)
    requires Movable(files, moves) && name !in files && forall m | m in moves :: m.1 != name
    ensures Movable(files[name := file], moves)
    ensures Aside(files[name := file], moves) == Aside(files, moves)[name := file]
  {
    assert Targets(files[name := file], moves) == Targets(files, moves);
    assert name !in Sources(moves);
  }

  lemma FewerMoves(files: Files, moves: set<Move>, fewer: set<Move>)
    requires Movable(files, moves) && fewer <= moves
    ensures Movable(files, fewer)
  {
  }

  lemma MoveNone(files: Files)
    ensures Movable(files, {}) && Aside(files, {}) == files
  {
  }
}
