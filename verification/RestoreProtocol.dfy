/**
 The isolated restore as a step relation: any number of workers, each with a destination of its own
 choice, somewhere between claiming a row and settling it, interleaved with every other transaction,
 lease expiry, kill-switch flips and crashes (scripts/restore_worker.py:60-124,
 sean_os/backup_restore_execution.py:190-391, sean_os/backup_encryption.py:278-401).
 */
module RestoreProtocol {
  import opened Basics
  import opened Evidence
  import opened Outbox
  import opened Store
  import StoreClass

  type Bytes = seq<Byte>

  /**
   Where a live worker is. From `Linked` on, the file at the destination is the one it linked there;
   `Cleaning` is the handler of a failure inside the decryption, after the link.
   */
  datatype Pc =
    | Idle
    | Claimed(pk: Digest, destination: string, until: Instant)
    | Validated(pk: Digest, destination: string, startedAt: Instant)
    | MayDownload(pk: Digest, destination: string, startedAt: Instant)
    | Downloaded(pk: Digest, destination: string, startedAt: Instant)
    | MayDecrypt(pk: Digest, destination: string, startedAt: Instant)
    | Linked(pk: Digest, destination: string, startedAt: Instant)
    | Cleaning(pk: Digest, destination: string)
    | Decrypted(pk: Digest, destination: string, startedAt: Instant)
    | Verified(pk: Digest, destination: string, startedAt: Instant)
    | Receipted(pk: Digest, destination: string, receipt: RestoreReceipt)
    | Holding(pk: Digest, destination: string)
    | Failing(pk: Digest, destination: string)

  /**
   `files` are those at destinations; `made` records for which row each was linked, and `published`
   which of them completed which row. No step reads these two.
   */
  datatype World = World(
    db: Db, files: map<string, Bytes>, pcs: map<string, Pc>, made: map<string, Digest>, published: map<Digest, string>)

  datatype Step =
    | Other(e: Event)
    | Claim(worker: string, destination: string, leaseSeconds: int, at: Instant)
    | Validate(worker: string, configMatches: bool, at: Instant)
    | GuardDownload(worker: string, at: Instant)
    | Download(worker: string, served: Option<Bytes>)
    | GuardDecrypt(worker: string, at: Instant)
    | Link(worker: string, plaintext: Option<Bytes>)
    | UnlinkPartial(worker: string, ok: bool)
    | CleanUp(worker: string, removed: bool)
    | Verify(worker: string, sound: bool)
    | GuardReceipt(worker: string, at: Instant)
    | Finish(worker: string, at: Instant)
    | Hold(worker: string)
    | Fail(worker: string, at: Instant)
    | Crash(worker: string)

  const RETRY_SECONDS := 60

  /** Store transactions that belong to no restore worker. */
  predicate IsOther(e: Event) {
    !e.ClaimRestore? && !e.FailRestore? && !e.HoldRestore? && !e.CompleteRestore?
  }

  function PcOf(w: World, worker: string): Pc {
    if worker in w.pcs then w.pcs[worker] else Idle
  }

  function At(w: World, worker: string, pc: Pc): World {
    w.(pcs := w.pcs[worker := pc])
  }

  /** The plan verifies, and the instant is inside its window and before the lease ends. */
  predicate InTime(c: Checks, plan: RestorePlan, until: Instant, at: Instant) {
    && RestorePlanOk(c, plan) && at < until
    && plan.body.identity.windowStart <= at <= plan.body.identity.windowEnd
  }

  /** A restore lease is clipped to the window. */
  function LeaseEnd(row: RestoreRow, leaseSeconds: int, at: Instant): Instant {
    Min(at + leaseSeconds, row.plan.body.identity.windowEnd)
  }

  /** The live recheck before each stage. */
  predicate Guard(c: Checks, db: Db, pk: Digest, worker: string, at: Instant) {
    && !db.killSwitch && pk in db.restores && HeldBy(db.restores[pk], worker)
    && db.restores[pk].approval.Some? && InTime(c, db.restores[pk].plan, db.restores[pk].lease.value.expiresAt, at)
  }

  /** The planned ciphertext, byte for byte as far as size and digest tell. */
  predicate PlannedObject(c: Checks, plan: RestorePlan, served: Bytes) {
    |served| == plan.body.identity.ciphertextBytes && c.sha(FileBytes(served)) == plan.body.identity.ciphertextSha
  }

  /** The planned backup, by size and digest. */
  predicate PlannedBackup(c: Checks, plan: RestorePlan, plaintext: Bytes) {
    |plaintext| == plan.body.identity.plaintextBytes && c.sha(FileBytes(plaintext)) == plan.body.identity.plaintextSha
  }

  /** The destination holds the backup that the plan is for. */
  predicate Published(c: Checks, files: map<string, Bytes>, plan: RestorePlan, destination: string) {
    destination in files && PlannedBackup(c, plan, files[destination])
  }

  /** The only transaction a step runs, if it runs one. */
  function Transaction(w: World, s: Step): Option<Event> {
    match s
    case Other(e) => if IsOther(e) then Some(e) else None
    case Claim(worker, destination, leaseSeconds, at) =>
      if PcOf(w, worker).Idle? && destination !in w.files then Some(ClaimRestore(worker, leaseSeconds, at)) else None
    case Finish(worker, at) =>
      var pc := PcOf(w, worker);
      if pc.Receipted? then Some(CompleteRestore(pc.pk, worker, pc.receipt, at)) else None
    case Hold(worker) =>
      if PcOf(w, worker).Holding? then Some(HoldRestore(PcOf(w, worker).pk, worker)) else None
    case Fail(worker, at) =>
      var pc := PcOf(w, worker);
      if pc.Failing? then Some(FailureEvent(w, pc, worker, at)) else None
    case _ => None
  }

  /** An error before the decryption returned: reconciliation if there is a file, else a retry. */
  function FailureEvent(w: World, pc: Pc, worker: string, at: Instant): Event
    requires pc.Failing?
  {
    if pc.destination in w.files then HoldRestore(pc.pk, worker) else FailRestore(pc.pk, worker, RETRY_SECONDS, at)
  }

  /** Whether a step links its worker's plaintext to a destination that is still free. */
  predicate Links(w: World, s: Step) {
    s.Link? && PcOf(w, s.worker).MayDecrypt? && s.plaintext.Some? && PcOf(w, s.worker).destination !in w.files
  }

  predicate Removes(w: World, s: Step) {
    s.CleanUp? && PcOf(w, s.worker).Cleaning? && s.removed
  }

  function NextFiles(w: World, s: Step): map<string, Bytes> {
    if Links(w, s) then w.files[PcOf(w, s.worker).destination := s.plaintext.value]
    else if Removes(w, s) then w.files - {PcOf(w, s.worker).destination}
    else w.files
  }

  /** Whether a step completes its worker's row for the first time. */
  predicate Publishes(c: Checks, w: World, s: Step) {
    && s.Finish? && PcOf(w, s.worker).Receipted?
    && var pc := PcOf(w, s.worker);
      && RestoreCompletes(c, w.db, pc.pk, s.worker, pc.receipt, s.at) && !w.db.restores[pc.pk].status.Completed?
  }

  /** Where a claim leaves its worker. */
  ghost function ClaimPc(w: World, s: Step): Pc
    requires s.Claim?
  {
    var pick := RestorePick(w.db.restores, s.at);
    if PcOf(w, s.worker).Idle? && s.destination !in w.files && pick.Some?
       && StoreClass.ClaimProceeds(w.db, s.worker, s.leaseSeconds)
    then Claimed(pick.value, s.destination, LeaseEnd(w.db.restores[pick.value], s.leaseSeconds, s.at))
    else PcOf(w, s.worker)
  }

  /** Where a step leaves its worker; a step its worker is not ready for leaves it where it was. */
  ghost function NextPc(c: Checks, w: World, s: Step): Pc
    requires !s.Other?
  {
    var pc := PcOf(w, s.worker);
    if s.Crash? then Idle
    else if s.Claim? then ClaimPc(w, s)
    else if pc.Idle? || pc.pk !in w.db.restores then pc
    else
      var plan := w.db.restores[pc.pk].plan;
      var failing, holding := Failing(pc.pk, pc.destination), Holding(pc.pk, pc.destination);
      match s
      case Validate(worker, configMatches, at) =>
        if !pc.Claimed? then pc
        else if configMatches && InTime(c, plan, pc.until, at) && pc.destination !in w.files
        then Validated(pc.pk, pc.destination, at) else failing
      case GuardDownload(worker, at) =>
        if !pc.Validated? then pc
        else if Guard(c, w.db, pc.pk, worker, at) then MayDownload(pc.pk, pc.destination, pc.startedAt) else failing
      case Download(worker, served) =>
        if !pc.MayDownload? then pc
        else if served.Some? && PlannedObject(c, plan, served.value)
        then Downloaded(pc.pk, pc.destination, pc.startedAt) else failing
      case GuardDecrypt(worker, at) =>
        if !pc.Downloaded? then pc
        else if Guard(c, w.db, pc.pk, worker, at) then MayDecrypt(pc.pk, pc.destination, pc.startedAt) else failing
      case Link(worker, plaintext) =>
        if !pc.MayDecrypt? then pc
        else if Links(w, s) then Linked(pc.pk, pc.destination, pc.startedAt) else failing
      case UnlinkPartial(worker, ok) =>
        if !pc.Linked? then pc
        else if ok then Decrypted(pc.pk, pc.destination, pc.startedAt) else Cleaning(pc.pk, pc.destination)
      case CleanUp(worker, removed) => if pc.Cleaning? then failing else pc
      case Verify(worker, sound) =>
        if !pc.Decrypted? then pc
        else if sound && Published(c, w.files, plan, pc.destination)
        then Verified(pc.pk, pc.destination, pc.startedAt) else holding
      case GuardReceipt(worker, at) =>
        if !pc.Verified? then pc
        else
          var built := BuildRestoreReceipt(c, plan, FactsOf(plan.body.identity), pc.startedAt);
          if Guard(c, w.db, pc.pk, worker, at) && built.Ok?
          then Receipted(pc.pk, pc.destination, built.value) else holding
      case Finish(worker, at) =>
        if !pc.Receipted? then pc
        else if RestoreCompletes(c, w.db, pc.pk, worker, pc.receipt, at) then Idle else holding
      case Hold(worker) => if pc.Holding? then Idle else pc
      case Fail(worker, at) => if pc.Failing? then Idle else pc
  }

  /** One atomic step: its transaction, its effect on the destinations, and where it leaves its worker. */
  ghost function NextWorld(c: Checks, w: World, s: Step): World {
    World(
      if Transaction(w, s).Some? then Next(c, w.db, Transaction(w, s).value) else w.db,
      NextFiles(w, s),
      if s.Other? then w.pcs else w.pcs[s.worker := NextPc(c, w, s)],
      if Links(w, s) then w.made[PcOf(w, s.worker).destination := PcOf(w, s.worker).pk] else w.made,
      if Publishes(c, w, s) then w.published[PcOf(w, s.worker).pk := PcOf(w, s.worker).destination] else w.published)
  }

  ghost function RunSteps(c: Checks, w: World, steps: seq<Step>): World {
    if steps == [] then w else NextWorld(c, RunSteps(c, w, steps[..|steps| - 1]), steps[|steps| - 1])
  }

  const START := World(EMPTY, map[], map[], map[], map[])

  // ---------------------------------------------------------------- restored means published

  /** The file at the destination is this worker's own. */
  predicate Owns(pc: Pc) {
    pc.Linked? || pc.Cleaning? || pc.Decrypted? || pc.Verified? || pc.Receipted?
  }

  ghost predicate PcOk(c: Checks, w: World, pc: Pc) {
    && (!pc.Idle? ==> pc.pk in w.db.restores)
    && (Owns(pc) ==> pc.destination in w.files && forall k | k in w.published :: w.published[k] != pc.destination)
    && (pc.Verified? || pc.Receipted? ==> Published(c, w.files, w.db.restores[pc.pk].plan, pc.destination))
  }

  ghost predicate OwnAlone(w: World) {
    forall a, b | a in w.pcs && b in w.pcs && a != b && Owns(w.pcs[a]) && Owns(w.pcs[b]) ::
      w.pcs[a].destination != w.pcs[b].destination
  }

  ghost predicate RowPublished(c: Checks, w: World, k: Digest)
    requires k in w.db.restores
  {
    w.db.restores[k].receipt.Some? ==>
      k in w.published && Published(c, w.files, w.db.restores[k].plan, w.published[k])
  }

  ghost predicate WorldInv(c: Checks, w: World) {
    && Inv(c, w.db) && OwnAlone(w)
    && (forall worker | worker in w.pcs :: PcOk(c, w, w.pcs[worker]))
    && (forall k | k in w.published ::
          w.published[k] in w.files && k in w.db.restores && w.db.restores[k].status.Completed?)
    && (forall k | k in w.db.restores :: RowPublished(c, w, k))
  }

  /** A transaction keeps every row and its plan; a receipt appears only by completion. */
  lemma RowAfter(c: Checks, db: Db, e: Event, k: Digest)
    requires k in db.restores
    ensures k in Next(c, db, e).restores
    ensures var row, row' := db.restores[k], Next(c, db, e).restores[k];
      && row'.plan == row.plan && (row.status.Completed? ==> row'.status.Completed?)
      && (row'.receipt != row.receipt ==>
            && e.CompleteRestore? && e.pk == k && row'.receipt == Some(e.done) && row'.status.Completed?
            && RestoreCompletes(c, db, k, e.worker, e.done, e.at) && row.status.Authorized?)
      && (e.CompleteRestore? && e.pk == k && RestoreCompletes(c, db, k, e.worker, e.done, e.at) ==>
            row'.status.Completed?)
  {
    NextRestoreRow(c, db, e, k);
  }

  lemma NewRowsHaveNoReceipt(c: Checks, db: Db, e: Event, k: Digest)
    requires k in Next(c, db, e).restores && k !in db.restores
    ensures Next(c, db, e).restores[k].receipt.None?
  {
  }

  /** A file at a destination changes only by its owner's clean-up. */
  lemma FilesOnlyCleaned(c: Checks, w: World, s: Step, name: string)
    requires name in w.files
    ensures
      || (name in NextWorld(c, w, s).files && NextWorld(c, w, s).files[name] == w.files[name])
      || (s.CleanUp? && PcOf(w, s.worker) == Cleaning(PcOf(w, s.worker).pk, name))
  {
    hide NextPc, Publishes, Transaction;
  }

  /** A step keeps rows with their plans, and a row is completed only by a worker with its receipt. */
  lemma RowMoves(c: Checks, w: World, s: Step, k: Digest)
    requires k in w.db.restores
    ensures k in NextWorld(c, w, s).db.restores
    ensures var w' := NextWorld(c, w, s);
      var row, row' := w.db.restores[k], w'.db.restores[k];
      && row'.plan == row.plan && (row.status.Completed? ==> row'.status.Completed?)
      && (row'.receipt != row.receipt ==>
            Publishes(c, w, s) && PcOf(w, s.worker).pk == k && row.status.Authorized?)
  {
    hide NextPc, NextFiles, Links, Next, RestoreCompletes;
    if Transaction(w, s).Some? { RowAfter(c, w.db, Transaction(w, s).value, k); }
  }

  /** What is published is a file of the worker that completes its row. */
  lemma PublishedMoves(c: Checks, w: World, s: Step, k: Digest)
    requires WorldInv(c, w) && k in NextWorld(c, w, s).published
    ensures var w' := NextWorld(c, w, s);
      || (k in w.published && w'.published[k] == w.published[k])
      || (&& Publishes(c, w, s) && PcOf(w, s.worker).pk == k && w'.published[k] == PcOf(w, s.worker).destination
          && k in w'.db.restores && w'.db.restores[k].status.Completed? && w'.files == w.files)
  {
    hide NextPc, Next, Inv, RestoreCompletes;
    if Publishes(c, w, s) {
      var pc := PcOf(w, s.worker);
      assert PcOk(c, w, pc);
      RowAfter(c, w.db, CompleteRestore(pc.pk, s.worker, pc.receipt, s.at), pc.pk);
    }
  }

  /** A published row keeps its file's name: it is COMPLETED, and is not completed again. */
  lemma PublishedKeeps(c: Checks, w: World, s: Step, k: Digest)
    requires WorldInv(c, w) && k in w.published
    ensures k in NextWorld(c, w, s).published && NextWorld(c, w, s).published[k] == w.published[k]
  {
    hide NextPc, Next, Inv, RestoreCompletes;
  }

  /** A file that is published, or owned by a worker that does not move, stays as it is. */
  lemma FileStays(c: Checks, w: World, s: Step, name: string)
    requires name in w.files && (s.Other? || !Owns(PcOf(w, s.worker)) || PcOf(w, s.worker).destination != name)
    ensures name in NextWorld(c, w, s).files && NextWorld(c, w, s).files[name] == w.files[name]
  {
    hide NextWorld;
    FilesOnlyCleaned(c, w, s, name);
  }

  lemma PublishedStays(c: Checks, w: World, s: Step, k: Digest)
    requires WorldInv(c, w) && k in w.published
    ensures w.published[k] in NextWorld(c, w, s).files
    ensures NextWorld(c, w, s).files[w.published[k]] == w.files[w.published[k]]
  {
    hide NextWorld, Inv;
    if !s.Other? && s.worker in w.pcs { assert PcOk(c, w, w.pcs[s.worker]); }
    FileStays(c, w, s, w.published[k]);
  }

  lemma StepKeepsRowPublished(c: Checks, w: World, s: Step, k: Digest)
    requires WorldInv(c, w) && k in NextWorld(c, w, s).db.restores
    ensures RowPublished(c, NextWorld(c, w, s), k)
  {
    hide Next, Inv, PlannedBackup, NextPc, NextFiles, Transaction, RestoreCompletes;
    var w' := NextWorld(c, w, s);
    if k !in w.db.restores {
      NewRowsHaveNoReceipt(c, w.db, Transaction(w, s).value, k);
    } else {
      RowMoves(c, w, s, k);
      assert RowPublished(c, w, k);
      if w'.db.restores[k].receipt != w.db.restores[k].receipt {
        assert PcOk(c, w, w.pcs[s.worker]);
        FinishKeepsFiles(w, s);
      } else if w.db.restores[k].receipt.Some? {
        PublishedKeeps(c, w, s, k);
        PublishedStays(c, w, s, k);
      }
    }
  }

  lemma FinishKeepsFiles(w: World, s: Step)
    requires s.Finish?
    ensures NextFiles(w, s) == w.files
  {
  }

  /** A worker that does not move is still where it says, with its file. */
  lemma OthersStayOk(c: Checks, w: World, s: Step, worker: string)
    requires WorldInv(c, w) && worker in w.pcs && (s.Other? || s.worker != worker)
    ensures PcOk(c, NextWorld(c, w, s), w.pcs[worker])
  {
    hide NextWorld, Next, Inv, PlannedBackup, Publishes;
    var w', pc := NextWorld(c, w, s), w.pcs[worker];
    assert PcOk(c, w, pc);
    if !pc.Idle? {
      RowMoves(c, w, s, pc.pk);
      if Owns(pc) {
        FileStays(c, w, s, pc.destination);
        forall k | k in w'.published ensures w'.published[k] != pc.destination {
          PublishedMoves(c, w, s, k);
          if Publishes(c, w, s) { ReceiptedOwns(c, w, s); }
        }
      }
    }
  }

  lemma ReceiptedOwns(c: Checks, w: World, s: Step)
    requires Publishes(c, w, s)
    ensures !s.Other? && s.worker in w.pcs && w.pcs[s.worker] == PcOf(w, s.worker) && Owns(PcOf(w, s.worker))
  {
    hide RestoreCompletes;
  }

  /** A worker that moves on stays with its row and its destination. */
  lemma MoverKeeps(c: Checks, w: World, s: Step)
    requires !s.Other?
    ensures var pc, pc' := PcOf(w, s.worker), NextPc(c, w, s);
      && (!pc'.Idle? && !pc.Idle? && !s.Claim? ==> pc'.pk == pc.pk && pc'.destination == pc.destination)
      && (pc.Idle? ==> pc'.Idle? || (pc'.Claimed? && s.Claim? && pc'.pk in w.db.restores))
      && (s.Claim? && !pc.Idle? ==> pc' == pc)
  {
    hide Guard, InTime, PlannedObject, Published, BuildRestoreReceipt, RestoreCompletes, Links;
  }

  /** A worker owns its file from the link on, and verified means verified. */
  lemma MoverOwns(c: Checks, w: World, s: Step)
    requires !s.Other? && Owns(NextPc(c, w, s)) && (PcOf(w, s.worker).Idle? || PcOf(w, s.worker).pk in w.db.restores)
    ensures var pc, pc' := PcOf(w, s.worker), NextPc(c, w, s);
      && !pc.Idle? && (if Owns(pc) then !Links(w, s) && !Removes(w, s) else Links(w, s))
      && (pc'.Verified? && !pc.Verified? ==>
            pc.pk in w.db.restores && Published(c, w.files, w.db.restores[pc.pk].plan, pc.destination))
      && (pc'.Receipted? ==> pc.Verified? || pc.Receipted?)
      && !Publishes(c, w, s)
  {
    hide Guard, InTime, PlannedObject, Published, BuildRestoreReceipt, RestoreCompletes, ClaimPc;
    ClaimNotOwner(w, s);
  }

  lemma ClaimNotOwner(w: World, s: Step)
    requires !s.Other?
    ensures s.Claim? ==> ClaimPc(w, s) == PcOf(w, s.worker) || ClaimPc(w, s).Claimed?
  {
  }

  lemma MoverOk(c: Checks, w: World, s: Step)
    requires WorldInv(c, w) && !s.Other?
    ensures PcOk(c, NextWorld(c, w, s), NextPc(c, w, s))
  {
    hide Next, Inv, PlannedBackup, NextPc, Links, Removes, Publishes, Transaction;
    var w' := NextWorld(c, w, s);
    var pc, pc' := PcOf(w, s.worker), NextPc(c, w, s);
    assert PcOk(c, w, pc) by { if s.worker in w.pcs { assert PcOk(c, w, w.pcs[s.worker]); } }
    MoverKeeps(c, w, s);
    if !pc'.Idle? {
      RowMoves(c, w, s, pc'.pk);
      if Owns(pc') {
        MoverOwns(c, w, s);
        if !Owns(pc) { LinksFree(w, s); }
      }
    }
  }

  /** The destination of a link was free, and holds a file afterwards. */
  lemma LinksFree(w: World, s: Step)
    requires Links(w, s)
    ensures PcOf(w, s.worker).destination !in w.files && PcOf(w, s.worker).destination in NextFiles(w, s)
  {
  }

  lemma StepKeepsOwnAlone(c: Checks, w: World, s: Step)
    requires WorldInv(c, w)
    ensures OwnAlone(NextWorld(c, w, s))
  {
    hide Next, Inv, NextPc, Links, Removes, Publishes, Transaction, NextFiles, Published;
    var w' := NextWorld(c, w, s);
    if !s.Other? && Owns(NextPc(c, w, s)) {
      if s.worker in w.pcs { assert PcOk(c, w, w.pcs[s.worker]); }
      MoverKeeps(c, w, s);
      MoverOwns(c, w, s);
      if !Owns(PcOf(w, s.worker)) { LinksFree(w, s); }
    }
    forall x | x in w.pcs ensures Owns(w.pcs[x]) ==> w.pcs[x].destination in w.files { assert PcOk(c, w, w.pcs[x]); }
  }

  lemma StepKeepsWorldInv(c: Checks, w: World, s: Step)
    requires WorldInv(c, w)
    ensures WorldInv(c, NextWorld(c, w, s))
  {
    var w' := NextWorld(c, w, s);
    hide Inv, PcOk, RowPublished, OwnAlone, NextPc, Links, Removes, Publishes, Transaction, NextFiles, Next;
    if Transaction(w, s).Some? { NextKeepsInv(c, w.db, Transaction(w, s).value); }
    StepKeepsOwnAlone(c, w, s);
    forall k | k in w'.db.restores ensures RowPublished(c, w', k) { StepKeepsRowPublished(c, w, s, k); }
    forall worker | worker in w'.pcs ensures PcOk(c, w', w'.pcs[worker]) {
      if !s.Other? && s.worker == worker { MoverOk(c, w, s); } else { OthersStayOk(c, w, s, worker); }
    }
    forall k | k in w'.published
      ensures w'.published[k] in w'.files && k in w'.db.restores && w'.db.restores[k].status.Completed?
    {
      PublishedMoves(c, w, s, k);
      if k in w.published {
        PublishedStays(c, w, s, k);
        RowMoves(c, w, s, k);
      }
      if Publishes(c, w, s) { PublishedFile(c, w, s); }
    }
  }

  lemma PublishedFile(c: Checks, w: World, s: Step)
    requires WorldInv(c, w) && Publishes(c, w, s)
    ensures !s.Other? && PcOf(w, s.worker).Receipted? && PcOf(w, s.worker).destination in w.files
  {
    hide Inv, RestoreCompletes;
    assert PcOk(c, w, w.pcs[s.worker]);
  }

  lemma {:induction false} RunKeepsWorldInv(c: Checks, steps: seq<Step>)
    ensures WorldInv(c, RunSteps(c, START, steps))
  {
    hide NextWorld;
    if steps != [] {
      RunKeepsWorldInv(c, steps[..|steps| - 1]);
      StepKeepsWorldInv(c, RunSteps(c, START, steps[..|steps| - 1]), steps[|steps| - 1]);
    }
  }

  /**
   In every interleaving, a RESTORED row has a file at the destination of the worker that completed
   it, with the size and digest of the planned backup, and a receipt that verifies against the plan.
   */
  lemma RestoredMeansPublished(c: Checks, steps: seq<Step>, k: Digest)
    requires k in RunSteps(c, START, steps).db.restores
    requires RunSteps(c, START, steps).db.restores[k].status.Completed?
    ensures var w := RunSteps(c, START, steps);
      var row := w.db.restores[k];
      && k in w.published && Published(c, w.files, row.plan, w.published[k])
      && row.receipt.Some? && RestoreReceiptOk(c, row.receipt.value, row.plan)
  {
    RunKeepsWorldInv(c, steps);
    var w := RunSteps(c, START, steps);
    assert RowPublished(c, w, k) && RestoreOk(c, w.db, k);
  }
}
