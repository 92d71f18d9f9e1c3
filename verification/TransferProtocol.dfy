/**
 The backup-transfer protocol as a step relation: any number of workers with distinct ids, each
 somewhere between claiming a row and settling it, interleaved with every other transaction of the
 store, lease expiry, kill-switch flips and crashes (scripts/worker.py:94-159,
 sean_os/backup_execution.py:320-346, sean_os/backup_provider.py:207-309).
 */
module TransferProtocol {
  import opened Basics
  import opened Evidence
  import opened Outbox
  import opened Store
  import StoreClass

  /** A key in a bucket; the provider writes it only if nothing is there (IfNoneMatch="*"). */
  datatype ObjectKey = ObjectKey(destinationRef: string, objectRef: string)

  datatype StoredObject = StoredObject(content: seq<Byte>, planSha: Digest)

  /** The verified facts of a successful conditional put and its retention check. */
  datatype Response = Response(
    requestRef: string, versionRef: string, uploadedAt: Instant, retainUntil: Instant)

  /** Where a live worker is; a worker that is not listed is idle. */
  datatype Pc =
    | Idle
    | Claimed(pk: Digest)
    | Validated(pk: Digest)
    | MayEncrypt(pk: Digest)
    | Encrypted(pk: Digest, artifact: seq<Byte>)
    | MayUpload(pk: Digest, artifact: seq<Byte>)
    | Uploaded(pk: Digest, artifact: seq<Byte>, response: Response)
    | Receipted(pk: Digest, receipt: UploadReceipt)
    | Holding(pk: Digest)
    | Failing(pk: Digest)

  /** What became of a put: accepted with a verified answer, ambiguous, or never applied. */
  datatype PutOutcome = Answered(response: Response) | AnswerLost | NotApplied

  /** `puts` counts the put attempts each plan ever saw; no step reads it. */
  datatype World = World(
    db: Db, objects: map<ObjectKey, StoredObject>, pcs: map<string, Pc>, puts: map<Digest, nat>)

  datatype Step =
    | Other(e: Event)
    | Claim(worker: string, leaseSeconds: int, at: Instant)
    | Validate(worker: string, configMatches: bool, at: Instant)
    | GuardEncrypt(worker: string, at: Instant)
    | Encrypt(worker: string, artifact: Option<seq<Byte>>)
    | GuardUpload(worker: string, at: Instant)
    | RefuseUpload(worker: string)
    | Put(worker: string, outcome: PutOutcome)
    | GuardReceipt(worker: string, at: Instant)
    | Finish(worker: string, at: Instant)
    | Hold(worker: string)
    | Fail(worker: string, at: Instant)
    | Crash(worker: string)

  const RETRY_SECONDS := 60

  /** Store transactions that belong to no transfer worker. */
  predicate IsOther(e: Event) {
    !e.ClaimTransfer? && !e.FailTransfer? && !e.HoldTransfer? && !e.CompleteTransfer?
  }

  function PcOf(w: World, worker: string): Pc {
    if worker in w.pcs then w.pcs[worker] else Idle
  }

  function At(w: World, worker: string, pc: Pc): World {
    w.(pcs := w.pcs[worker := pc])
  }

  function PutsOf(w: World, pk: Digest): nat {
    if pk in w.puts then w.puts[pk] else 0
  }

  function KeyOf(plan: UploadPlan): ObjectKey {
    ObjectKey(plan.body.destinationRef, plan.body.objectRef)
  }

  /** The live recheck before each irreversible stage. */
  predicate Guard(db: Db, pk: Digest, worker: string, at: Instant) {
    && !db.killSwitch && pk in db.transfers && HeldBy(db.transfers[pk], worker)
    && db.transfers[pk].approval.Some? && at < db.transfers[pk].lease.value.expiresAt
  }

  predicate ResponseOk(c: Checks, plan: UploadPlan, r: Response) {
    && c.looseRef(r.requestRef) && c.looseRef(r.versionRef)
    && |r.requestRef| <= 160 && |r.versionRef| <= 160
    && r.retainUntil - r.uploadedAt >= plan.body.retentionDays * DAY
  }

  function BuildReceipt(c: Checks, plan: UploadPlan, artifact: seq<Byte>, r: Response): UploadReceipt {
    var p := plan.body;
    var body := UploadReceiptBody(
      Exact, p.dataRegion, p.endpoint, p.writerRef, plan.sha, p.destinationRef, p.objectRef,
      p.backupSha, p.backupBytes, c.sha(FileBytes(artifact)), |artifact|, "AES_256_GCM", p.keyRef,
      r.requestRef, r.versionRef, p.retentionDays, r.uploadedAt, r.retainUntil);
    UploadReceipt(body, c.sha(UploadReceiptText(body)))
  }

  function PutEffect(c: Checks, w: World, worker: string, outcome: PutOutcome): World
    requires PcOf(w, worker).MayUpload? && PcOf(w, worker).pk in w.db.transfers
  {
    var pc := PcOf(w, worker);
    var plan := w.db.transfers[pc.pk].plan;
    var absent := KeyOf(plan) !in w.objects;
    World(w.db,
          if absent && !outcome.NotApplied?
          then w.objects[KeyOf(plan) := StoredObject(pc.artifact, plan.sha)] else w.objects,
          w.pcs[worker := if absent && outcome.Answered? && ResponseOk(c, plan, outcome.response)
                          then Uploaded(pc.pk, pc.artifact, outcome.response) else Holding(pc.pk)],
          w.puts[pc.pk := PutsOf(w, pc.pk) + 1])
  }

  /** One atomic step; a step its worker is not ready for changes nothing. */
  ghost function NextWorld(c: Checks, w: World, s: Step): World {
    match s
    case Other(e) => if IsOther(e) then w.(db := Next(c, w.db, e)) else w
    case Claim(worker, leaseSeconds, at) =>
      if !PcOf(w, worker).Idle? then w else
      var pick := First(w.db.transfers, TransferClaimable(w.db.transfers, at));
      var db := Next(c, w.db, ClaimTransfer(worker, leaseSeconds, at));
      At(w.(db := db), worker,
         if StoreClass.ClaimProceeds(w.db, worker, leaseSeconds) && pick.Some? then Claimed(pick.value) else Idle)
    case Validate(worker, configMatches, at) =>
      var pc := PcOf(w, worker);
      if !pc.Claimed? || pc.pk !in w.db.transfers then w else
      var plan := w.db.transfers[pc.pk].plan;
      var ok := configMatches && StoredUploadPlanOk(c, plan) && plan.body.windowStart <= at <= plan.body.windowEnd;
      At(w, worker, if ok then Validated(pc.pk) else Failing(pc.pk))
    case GuardEncrypt(worker, at) =>
      var pc := PcOf(w, worker);
      if !pc.Validated? then w else
      At(w, worker, if Guard(w.db, pc.pk, worker, at) then MayEncrypt(pc.pk) else Failing(pc.pk))
    case Encrypt(worker, artifact) =>
      var pc := PcOf(w, worker);
      if !pc.MayEncrypt? then w else
      At(w, worker, if artifact.Some? && artifact.value != [] then Encrypted(pc.pk, artifact.value)
                    else Failing(pc.pk))
    case GuardUpload(worker, at) =>
      var pc := PcOf(w, worker);
      if !pc.Encrypted? then w else
      At(w, worker, if Guard(w.db, pc.pk, worker, at) then MayUpload(pc.pk, pc.artifact) else Failing(pc.pk))
    case RefuseUpload(worker) =>
      if PcOf(w, worker).MayUpload? then At(w, worker, Failing(PcOf(w, worker).pk)) else w
    case Put(worker, outcome) =>
      var pc := PcOf(w, worker);
      if pc.MayUpload? && pc.pk in w.db.transfers then PutEffect(c, w, worker, outcome) else w
    case GuardReceipt(worker, at) =>
      var pc := PcOf(w, worker);
      if !pc.Uploaded? || pc.pk !in w.db.transfers then w else
      var receipt := BuildReceipt(c, w.db.transfers[pc.pk].plan, pc.artifact, pc.response);
      var ok := Guard(w.db, pc.pk, worker, at) && UploadReceiptOk(c, receipt, w.db.transfers[pc.pk].plan);
      At(w, worker, if ok then Receipted(pc.pk, receipt) else Holding(pc.pk))
    case Finish(worker, at) =>
      var pc := PcOf(w, worker);
      if !pc.Receipted? then w else
      At(w.(db := Next(c, w.db, CompleteTransfer(pc.pk, worker, pc.receipt, at))), worker,
         if TransferCompletes(c, w.db, pc.pk, worker, pc.receipt, at) then Idle else Holding(pc.pk))
    case Hold(worker) =>
      var pc := PcOf(w, worker);
      if !pc.Holding? then w else
      At(w.(db := Next(c, w.db, HoldTransfer(pc.pk, worker))), worker, Idle)
    case Fail(worker, at) =>
      var pc := PcOf(w, worker);
      if !pc.Failing? then w else
      At(w.(db := Next(c, w.db, FailTransfer(pc.pk, worker, RETRY_SECONDS, at))), worker, Idle)
    case Crash(worker) => At(w, worker, Idle)
  }

  ghost function RunSteps(c: Checks, w: World, steps: seq<Step>): World {
    if steps == [] then w else NextWorld(c, RunSteps(c, w, steps[..|steps| - 1]), steps[|steps| - 1])
  }

  lemma RunSnoc(c: Checks, w: World, steps: seq<Step>, s: Step)
    ensures RunSteps(c, w, steps + [s]) == NextWorld(c, RunSteps(c, w, steps), s)
  {
    assert (steps + [s])[..|steps|] == steps;
  }

  // ---------------------------------------------------------------- completed means stored

  /** The provider holds, under the plan's own key, exactly the ciphertext the receipt names. */
  ghost predicate Stored(
    c: Checks, objects: map<ObjectKey, StoredObject>, plan: UploadPlan, sha: Digest, bytes: int)
  {
    && KeyOf(plan) in objects
    && c.sha(FileBytes(objects[KeyOf(plan)].content)) == sha
    && |objects[KeyOf(plan)].content| == bytes
    && objects[KeyOf(plan)].planSha == plan.sha
  }

  ghost predicate PcOk(c: Checks, w: World, pc: Pc) {
    !pc.Idle? ==>
      && pc.pk in w.db.transfers
      && var plan := w.db.transfers[pc.pk].plan;
         && (pc.Encrypted? || pc.MayUpload? ==> |pc.artifact| > 0)
         && (pc.Uploaded? ==> Stored(c, w.objects, plan, c.sha(FileBytes(pc.artifact)), |pc.artifact|))
         && (pc.Receipted? ==> Stored(c, w.objects, plan, pc.receipt.body.ciphertextSha,
                                      pc.receipt.body.ciphertextBytes))
  }

  ghost predicate RowStored(c: Checks, w: World, k: Digest)
    requires k in w.db.transfers
  {
    var row := w.db.transfers[k];
    row.receipt.Some? ==>
      Stored(c, w.objects, row.plan, row.receipt.value.body.ciphertextSha, row.receipt.value.body.ciphertextBytes)
  }

  ghost predicate WorldInv(c: Checks, w: World) {
    && Inv(c, w.db)
    && (forall worker | worker in w.pcs :: PcOk(c, w, w.pcs[worker]))
    && (forall k | k in w.db.transfers :: RowStored(c, w, k))
  }

  /** No step ever replaces or removes an object. */
  lemma ObjectsNeverReplaced(c: Checks, w: World, s: Step, key: ObjectKey)
    requires key in w.objects
    ensures key in NextWorld(c, w, s).objects && NextWorld(c, w, s).objects[key] == w.objects[key]
  {
  }

  /** The only transaction a step runs, if it runs one. */
  ghost function Transaction(w: World, s: Step): Option<Event> {
    match s
    case Other(e) => if IsOther(e) then Some(e) else None
    case Claim(worker, leaseSeconds, at) =>
      if PcOf(w, worker).Idle? then Some(ClaimTransfer(worker, leaseSeconds, at)) else None
    case Finish(worker, at) =>
      var pc := PcOf(w, worker);
      if pc.Receipted? then Some(CompleteTransfer(pc.pk, worker, pc.receipt, at)) else None
    case Hold(worker) =>
      if PcOf(w, worker).Holding? then Some(HoldTransfer(PcOf(w, worker).pk, worker)) else None
    case Fail(worker, at) =>
      if PcOf(w, worker).Failing? then Some(FailTransfer(PcOf(w, worker).pk, worker, RETRY_SECONDS, at)) else None
    case _ => None
  }

  lemma StepIsTransaction(c: Checks, w: World, s: Step)
    ensures NextWorld(c, w, s).db ==
      match Transaction(w, s) { case None => w.db case Some(e) => Next(c, w.db, e) }
  {
  }

  /** A transaction keeps every row and its plan; a receipt appears only by completion. */
  lemma RowAfter(c: Checks, db: Db, e: Event, k: Digest)
    requires k in db.transfers
    ensures k in Next(c, db, e).transfers
    ensures var row, row' := db.transfers[k], Next(c, db, e).transfers[k];
      && row'.plan == row.plan
      && (row'.receipt != row.receipt ==>
            && e.CompleteTransfer? && e.pk == k && row'.receipt == Some(e.receipt))
  {
    NextTransferRow(c, db, e, k);
    ApplyKeepsInvFree(db.transfers[k], TransferEvent(c, db, e, k));
  }

  lemma ApplyKeepsInvFree<P, R>(row: Row<P, R>, e: RowEvent<R>)
    ensures Apply(row, e).plan == row.plan
    ensures Apply(row, e).receipt != row.receipt ==> e.Complete? && Apply(row, e).receipt == Some(e.receipt)
  {
  }

  lemma StepKeepsRowStored(c: Checks, w: World, s: Step, k: Digest)
    requires WorldInv(c, w) && k in NextWorld(c, w, s).db.transfers
    ensures RowStored(c, NextWorld(c, w, s), k)
  {
    hide Next, Inv, Guard, ResponseOk, StoredUploadPlanOk, UploadReceiptOk;
    var w' := NextWorld(c, w, s);
    StepIsTransaction(c, w, s);
    if k in w.db.transfers {
      assert RowStored(c, w, k);
      if Transaction(w, s).Some? {
        RowAfter(c, w.db, Transaction(w, s).value, k);
      }
      if KeyOf(w.db.transfers[k].plan) in w.objects {
        ObjectsNeverReplaced(c, w, s, KeyOf(w.db.transfers[k].plan));
      }
      if w'.db.transfers[k].receipt != w.db.transfers[k].receipt {
        assert PcOk(c, w, w.pcs[s.worker]);
      }
    } else {
      NewRowsHaveNoReceipt(c, w.db, Transaction(w, s).value, k);
    }
  }

  lemma NewRowsHaveNoReceipt(c: Checks, db: Db, e: Event, k: Digest)
    requires k in Next(c, db, e).transfers && k !in db.transfers
    ensures Next(c, db, e).transfers[k].receipt.None?
  {
  }

  /** An unchanged program counter stays justified, whatever happened to the rest of the world. */
  lemma PcStaysOk(c: Checks, w: World, s: Step, pc: Pc)
    requires WorldInv(c, w) && PcOk(c, w, pc)
    ensures PcOk(c, NextWorld(c, w, s), pc)
  {
    if !pc.Idle? {
      StepIsTransaction(c, w, s);
      if Transaction(w, s).Some? {
        RowAfter(c, w.db, Transaction(w, s).value, pc.pk);
      }
      var key := KeyOf(w.db.transfers[pc.pk].plan);
      if key in w.objects {
        ObjectsNeverReplaced(c, w, s, key);
      }
    }
  }

  ghost function Mover(s: Step): Option<string> {
    if s.Other? then None else Some(s.worker)
  }

  lemma OnlyMoverMoves(c: Checks, w: World, s: Step, worker: string)
    requires worker in NextWorld(c, w, s).pcs && Mover(s) != Some(worker)
    ensures worker in w.pcs && NextWorld(c, w, s).pcs[worker] == w.pcs[worker]
  {
  }

  lemma ClaimedOk(c: Checks, w: World, s: Step)
    requires s.Claim? && PcOf(w, s.worker).Idle?
    ensures PcOk(c, NextWorld(c, w, s), PcOf(NextWorld(c, w, s), s.worker))
  {
    hide Next;
    var pick := First(w.db.transfers, TransferClaimable(w.db.transfers, s.at));
    if pick.Some? {
      NextTransferRow(c, w.db, ClaimTransfer(s.worker, s.leaseSeconds, s.at), pick.value);
    }
  }

  /** A worker in the middle of a transfer, at its new place in it. */
  lemma MovedOk(c: Checks, w: World, s: Step)
    requires !s.Other? && !PcOf(w, s.worker).Idle? && PcOk(c, w, PcOf(w, s.worker))
    requires PcOf(NextWorld(c, w, s), s.worker) != PcOf(w, s.worker)
    ensures PcOk(c, NextWorld(c, w, s), PcOf(NextWorld(c, w, s), s.worker))
  {
    hide Next, Guard, ResponseOk, StoredUploadPlanOk, UploadReceiptOk;
    StepIsTransaction(c, w, s);
    if Transaction(w, s).Some? {
      RowAfter(c, w.db, Transaction(w, s).value, PcOf(w, s.worker).pk);
    }
  }

  /** The worker that moved is justified in its new place. */
  lemma MoverOk(c: Checks, w: World, s: Step)
    requires WorldInv(c, w) && Mover(s).Some?
    ensures PcOk(c, NextWorld(c, w, s), PcOf(NextWorld(c, w, s), s.worker))
  {
    var pc, pc' := PcOf(w, s.worker), PcOf(NextWorld(c, w, s), s.worker);
    assert PcOk(c, w, pc) by { if s.worker in w.pcs { assert PcOk(c, w, w.pcs[s.worker]); } }
    if pc' == pc {
      PcStaysOk(c, w, s, pc);
    } else if !pc.Idle? {
      MovedOk(c, w, s);
    } else {
      OnlyClaimsFromIdle(c, w, s);
      ClaimedOk(c, w, s);
    }
    hide PcOk, NextWorld, WorldInv;
  }

  lemma OnlyClaimsFromIdle(c: Checks, w: World, s: Step)
    requires !s.Other? && PcOf(w, s.worker).Idle? && !PcOf(NextWorld(c, w, s), s.worker).Idle?
    ensures s.Claim?
  {
    hide Next;
  }

  lemma StepKeepsWorldInv(c: Checks, w: World, s: Step)
    requires WorldInv(c, w)
    ensures WorldInv(c, NextWorld(c, w, s))
  {
    var w' := NextWorld(c, w, s);
    StepIsTransaction(c, w, s);
    if Transaction(w, s).Some? {
      NextKeepsInv(c, w.db, Transaction(w, s).value);
    }
    forall k | k in w'.db.transfers ensures RowStored(c, w', k) {
      StepKeepsRowStored(c, w, s, k);
    }
    forall worker | worker in w'.pcs ensures PcOk(c, w', w'.pcs[worker]) {
      if Mover(s) == Some(worker) {
        MoverOk(c, w, s);
      } else {
        OnlyMoverMoves(c, w, s, worker);
        PcStaysOk(c, w, s, w.pcs[worker]);
      }
    }
  }

  const START := World(EMPTY, map[], map[], map[])

  lemma {:induction false} RunKeepsWorldInv(c: Checks, w: World, steps: seq<Step>)
    requires WorldInv(c, w)
    ensures WorldInv(c, RunSteps(c, w, steps))
  {
    if steps != [] {
      RunKeepsWorldInv(c, w, steps[..|steps| - 1]);
      StepKeepsWorldInv(c, RunSteps(c, w, steps[..|steps| - 1]), steps[|steps| - 1]);
    }
  }

  /**
   In every interleaving, a COMPLETED transfer means the provider holds, under that row's key, the
   ciphertext of its stored receipt, written for that very plan.
   */
  lemma CompletedMeansStored(c: Checks, steps: seq<Step>, k: Digest)
    requires k in RunSteps(c, START, steps).db.transfers
    requires RunSteps(c, START, steps).db.transfers[k].status.Completed?
    ensures var w := RunSteps(c, START, steps);
      var row := w.db.transfers[k];
      && row.receipt.Some? && UploadReceiptOk(c, row.receipt.value, row.plan)
      && Stored(c, w.objects, row.plan, row.receipt.value.body.ciphertextSha,
                row.receipt.value.body.ciphertextBytes)
  {
    RunKeepsWorldInv(c, START, steps);
    var w := RunSteps(c, START, steps);
    assert RowStored(c, w, k) && TransferOk(c, w.db, k);
  }

  /** Over any run, an object once written is there for ever, unchanged. */
  lemma {:induction false} WrittenOnce(c: Checks, w: World, steps: seq<Step>, key: ObjectKey)
    requires key in w.objects
    ensures key in RunSteps(c, w, steps).objects && RunSteps(c, w, steps).objects[key] == w.objects[key]
  {
    if steps != [] {
      WrittenOnce(c, w, steps[..|steps| - 1], key);
      ObjectsNeverReplaced(c, RunSteps(c, w, steps[..|steps| - 1]), steps[|steps| - 1], key);
    }
  }
}
