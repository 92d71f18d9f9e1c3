/**
 process_backup_transfer_once as it runs: claim, guard, encrypt, guard, conditional put, guard, then
 complete, hold or fail (scripts/worker.py:94-159, sean_os/backup_execution.py:320-346,
 sean_os/backup_provider.py:207-309). The method is proved to be a run of the step relation of
 module TransferProtocol, so everything proved there of single-worker runs holds of it.
 */
module TransferWorker {
  import opened Basics
  import opened Evidence
  import opened Outbox
  import opened Store
  import opened StoreClass
  import opened TransferProtocol
  import opened SingleWorker

  /** The provider's bucket: a put succeeds only where no object is. */
  class Bucket {
    var objects: map<ObjectKey, StoredObject>

    constructor ()
      ensures objects == map[]
    {
      objects := map[];
    }

    method PutObject(key: ObjectKey, body: StoredObject, outcome: PutOutcome) returns (answer: Option<Response>)
      modifies this
      ensures objects ==
        if key !in old(objects) && !outcome.NotApplied? then old(objects)[key := body] else old(objects)
      ensures answer == if key !in old(objects) && outcome.Answered? then Some(outcome.response) else None
    {
      if key in objects || outcome.NotApplied? { return None; }
      objects := objects[key := body];
      return if outcome.Answered? then Some(outcome.response) else None;
    }
  }

  /** How upload_new ends: evidence, an error before the put, or an error at or after it. */
  datatype UploadResult = Evidence(response: Response) | ProviderError | ReconciliationError

  /** How execute_claimed_backup_transfer ends. */
  datatype Execution = Receipt(receipt: UploadReceipt) | Ambiguous | Raised

  /**
   What the world outside the worker does during one run: clock readings, the results of the
   injected ports, and the kill switch being thrown between stages.
   */
  datatype Script = Script(
    claimAt: Instant, configMatches: bool, validateAt: Instant,
    flipBeforeEncryption: Option<bool>, encryptAt: Instant, artifact: Option<seq<Byte>>,
    flipBeforeUpload: Option<bool>, uploadAt: Instant, controlsVerified: bool, put: PutOutcome,
    flipAfterUpload: Option<bool>, receiptAt: Instant,
    flipBeforeCompletion: Option<bool>, finishAt: Instant, failAt: Instant)

  const LEASE_SECONDS := 300

  /** The validation and the first guard go through, under a lease that ends at `until`. */
  predicate ReachesEncryption(c: Checks, plan: UploadPlan, s: Script, until: Instant) {
    && s.configMatches && StoredUploadPlanOk(c, plan)
    && plan.body.windowStart <= s.validateAt <= plan.body.windowEnd
    && s.flipBeforeEncryption != Some(true) && s.encryptAt < until
  }

  /** Everything before the put goes through. */
  predicate ReachesPut(c: Checks, plan: UploadPlan, s: Script, until: Instant) {
    && ReachesEncryption(c, plan, s, until)
    && s.artifact.Some? && s.artifact.value != []
    && s.flipBeforeUpload != Some(true) && s.uploadAt < until && s.controlsVerified
  }

  /** The put writes a new object, its answer and the receipt verify, and the lease still holds. */
  predicate PutCompletes(
    c: Checks, objects: map<ObjectKey, StoredObject>, plan: UploadPlan, s: Script, until: Instant)
    requires s.artifact.Some?
  {
    && KeyOf(plan) !in objects && s.put.Answered? && ResponseOk(c, plan, s.put.response)
    && s.flipAfterUpload != Some(true) && s.receiptAt < until
    && UploadReceiptOk(c, BuildReceipt(c, plan, s.artifact.value, s.put.response), plan)
    && s.flipBeforeCompletion != Some(true) && s.finishAt < until
  }

  /** The status that a run leaves its row in; the last attempt fails for good. */
  function StatusLeft(
    c: Checks, objects: map<ObjectKey, StoredObject>, row: TransferRow, s: Script, until: Instant): Status
  {
    if ReachesPut(c, row.plan, s, until) then
      if PutCompletes(c, objects, row.plan, s, until) then Completed else ReconciliationRequired
    else if row.attempts + 1 >= row.maxAttempts then Failed else Authorized
  }

  class Worker {
    const store: SeanOSStore
    const bucket: Bucket
    const id: string
    ghost const start: World
    ghost var trace: seq<Step>
    ghost var pcs: map<string, Pc>
    ghost var puts: map<Digest, nat>

    ghost function Now(): World
      reads this, store, bucket
    {
      World(store.View(), bucket.objects, pcs, puts)
    }

    /** The world is what the logged steps made of the starting world; the worker is alone and never crashed. */
    ghost predicate Valid()
      reads this, store, bucket
    {
      && id != "" && AllMine(trace, id)
      && Now() == RunSteps(store.checks, start, trace)
      && SoloInv(store.checks, Now(), id)
    }

    /** The row is leased to this worker until then, and the kill switch is off unless thrown since. */
    ghost predicate Leased(pk: Digest, row: TransferRow, until: Instant)
      reads store
    {
      && pk in store.transfers && store.transfers[pk].plan == row.plan
      && HeldBy(store.transfers[pk], id) && store.transfers[pk].lease.value.expiresAt == until
      && store.transfers[pk].approval.Some?
      && store.transfers[pk].attempts == row.attempts + 1 && store.transfers[pk].maxAttempts == row.maxAttempts
    }

    ghost function Me(): Pc
      reads this, store, bucket
    {
      PcOf(Now(), id)
    }

    constructor (store: SeanOSStore, bucket: Bucket, id: string)
      requires id != "" && store.View() == EMPTY && bucket.objects == map[]
      ensures Valid() && start == START && trace == [] && Me().Idle?
      ensures this.store == store && this.bucket == bucket && this.id == id
    {
      this.store, this.bucket, this.id := store, bucket, id;
      start, trace, pcs, puts := START, [], map[], map[];
    }

    /** Records a step that the store and the bucket have just made. */
    ghost method Log(before: World, s: Step)
      requires id != "" && AllMine(trace, id) && before == RunSteps(store.checks, start, trace)
      requires SoloInv(store.checks, before, id) && Mine(s, id)
      requires store.View() == NextWorld(store.checks, before, s).db
      requires bucket.objects == NextWorld(store.checks, before, s).objects
      modifies this`trace, this`pcs, this`puts
      ensures Valid() && Now() == NextWorld(store.checks, before, s) && trace == old(trace) + [s]
    {
      hide Next, Inv;
      RunSnoc(store.checks, start, trace, s);
      StepKeepsSolo(store.checks, before, id, s);
      trace := trace + [s];
      pcs := NextWorld(store.checks, before, s).pcs;
      puts := NextWorld(store.checks, before, s).puts;
    }

    /** The kill switch may be thrown at any time. */
    method Interfere(flip: Option<bool>)
      requires Valid()
      modifies this, store
      ensures Valid() && old(trace) <= trace && Me() == old(Me()) && puts == old(puts)
      ensures store.View() == old(store.View()).(killSwitch := if flip.Some? then flip.value else old(store.killSwitch))
    {
      hide Next, Inv;
      if flip.Some? {
        ghost var before := Now();
        store.SetKillSwitch(flip.value);
        Log(before, Other(Event.SetKillSwitch(flip.value)));
      }
    }

    method Claim(at: Instant) returns (claimed: Option<Digest>)
      requires Valid() && Me().Idle?
      modifies this, store
      ensures Valid() && old(trace) <= trace && puts == old(puts)
      ensures Me() == if claimed.None? then Idle else Claimed(claimed.value)
      ensures claimed ==
        if old(store.killSwitch) then None
        else First(old(store.transfers), TransferClaimable(old(store.transfers), at))
      ensures claimed.Some? ==>
        && !store.killSwitch && claimed.value in old(store.transfers)
        && Leased(claimed.value, old(store.transfers)[claimed.value], at + LEASE_SECONDS)
    {
      hide Next, Inv, TransferClaimable;
      ghost var before := Now();
      var r := store.ClaimAuthorizedBackupTransfer(id, LEASE_SECONDS, at);
      if r.value.Some? {
        ClaimedRow(store.checks, before.db, id, at, r.value.value);
      }
      Log(before, Step.Claim(id, LEASE_SECONDS, at));
      return r.value;
    }

    /** validate_claimed_backup_transfer: the stored plan, the configuration and the window. */
    method ValidateClaimed(pk: Digest, configMatches: bool, at: Instant) returns (ok: bool)
      requires Valid() && Me() == Claimed(pk)
      modifies this`trace, this`pcs, this`puts
      ensures Valid() && old(trace) <= trace && puts == old(puts)
      ensures Me() == if ok then Validated(pk) else Failing(pk)
      ensures pk in store.transfers
      ensures var plan := store.transfers[pk].plan;
        ok <==> configMatches && StoredUploadPlanOk(store.checks, plan)
                && plan.body.windowStart <= at <= plan.body.windowEnd
    {
      hide Next, Inv;
      ghost var before := Now();
      var plan := store.transfers[pk].plan;
      ok := configMatches && StoredUploadPlanOk(store.checks, plan)
            && plan.body.windowStart <= at <= plan.body.windowEnd;
      Log(before, Step.Validate(id, configMatches, at));
    }

    /** Verifies the bucket, makes one conditional put, and checks the answer and the retention. */
    method UploadNew(pk: Digest, artifact: seq<Byte>, controlsVerified: bool, put: PutOutcome)
      returns (r: UploadResult)
      requires Valid() && Me() == MayUpload(pk, artifact)
      modifies this`trace, this`pcs, this`puts, bucket
      ensures Valid() && old(trace) <= trace
      ensures Me() == match r {
        case Evidence(response) => Uploaded(pk, artifact, response)
        case ProviderError => Failing(pk)
        case ReconciliationError => Holding(pk) }
      ensures puts == if r.ProviderError? then old(puts) else old(puts)[pk := old(PutsOf(Now(), pk)) + 1]
      ensures r.ProviderError? <==> !controlsVerified
      ensures pk in store.transfers
      ensures var plan := store.transfers[pk].plan;
        && (r.Evidence? <==> controlsVerified && KeyOf(plan) !in old(bucket.objects)
                             && put.Answered? && ResponseOk(store.checks, plan, put.response))
        && (r.Evidence? ==> r.response == put.response)
    {
      hide Next, Inv;
      ghost var before := Now();
      var plan := store.transfers[pk].plan;
      var uploadAttempted := false;
      var evidence: Option<Response> := None;
      if controlsVerified {
        uploadAttempted := true;
        var answer := bucket.PutObject(KeyOf(plan), StoredObject(artifact, plan.sha), put);
        if answer.Some? && ResponseOk(store.checks, plan, answer.value) {
          evidence := answer;
        }
      }
      Log(before, if uploadAttempted then Put(id, put) else RefuseUpload(id));
      if evidence.Some? { return Evidence(evidence.value); }
      return if uploadAttempted then ReconciliationError else ProviderError;
    }

    method GuardStage(pk: Digest, at: Instant, ghost s: Step) returns (ok: bool)
      requires Valid() && !Me().Idle? && Me().pk == pk
      requires (s == GuardEncrypt(id, at) && Me().Validated?) || (s == GuardUpload(id, at) && Me().Encrypted?)
      modifies this`trace, this`pcs, this`puts
      ensures Valid() && old(trace) <= trace && puts == old(puts)
      ensures Me() == if !ok then Failing(pk)
                      else if s.GuardEncrypt? then MayEncrypt(pk) else MayUpload(pk, old(Me()).artifact)
      ensures ok <==> Guard(store.View(), pk, id, at)
    {
      hide Next, Inv;
      ghost var before := Now();
      ok := store.AssertBackupTransferExecutionAllowed(pk, id, at);
      Log(before, s);
    }

    /** encryptor.encrypt followed by the recheck of the artifact it wrote. */
    method EncryptArtifact(pk: Digest, produced: Option<seq<Byte>>) returns (artifact: Option<seq<Byte>>)
      requires Valid() && Me() == MayEncrypt(pk)
      modifies this`trace, this`pcs, this`puts
      ensures Valid() && old(trace) <= trace && puts == old(puts)
      ensures Me() == if artifact.Some? then Encrypted(pk, artifact.value) else Failing(pk)
      ensures artifact == if produced.Some? && produced.value != [] then produced else None
    {
      hide Next, Inv;
      ghost var before := Now();
      artifact := if produced.Some? && produced.value != [] then produced else None;
      Log(before, Encrypt(id, produced));
    }

    /** The guard after the upload and the receipt; any exception here means reconciliation. */
    method BuildReceiptAfterUpload(pk: Digest, artifact: seq<Byte>, response: Response, at: Instant)
      returns (r: Execution)
      requires Valid() && Me() == Uploaded(pk, artifact, response)
      modifies this`trace, this`pcs, this`puts
      ensures Valid() && old(trace) <= trace && puts == old(puts) && !r.Raised?
      ensures Me() == if r.Receipt? then Receipted(pk, r.receipt) else Holding(pk)
      ensures pk in store.transfers
      ensures var plan := store.transfers[pk].plan;
        var receipt := BuildReceipt(store.checks, plan, artifact, response);
        r == if Guard(store.View(), pk, id, at) && UploadReceiptOk(store.checks, receipt, plan)
             then Receipt(receipt) else Ambiguous
    {
      hide Next, Inv;
      ghost var before := Now();
      var ok := store.AssertBackupTransferExecutionAllowed(pk, id, at);
      var plan := store.transfers[pk].plan;
      var receipt := BuildReceipt(store.checks, plan, artifact, response);
      Log(before, GuardReceipt(id, at));
      return if ok && UploadReceiptOk(store.checks, receipt, plan) then Receipt(receipt) else Ambiguous;
    }

    /** Up to the first guard. */
    method PrepareEncryption(pk: Digest, s: Script, ghost row: TransferRow, ghost until: Instant) returns (ok: bool)
      requires Valid() && Me() == Claimed(pk) && Leased(pk, row, until) && !store.killSwitch
      modifies this, store
      ensures Valid() && old(trace) <= trace && puts == old(puts)
      ensures Me() == if ok then MayEncrypt(pk) else Failing(pk)
      ensures Leased(pk, row, until) && (ok ==> !store.killSwitch)
      ensures ok <==> ReachesEncryption(store.checks, row.plan, s, until)
    {
      hide Next, Inv, NextWorld, RunSteps, SoloInv, Worker.Valid, StoredUploadPlanOk;
      ok := ValidateClaimed(pk, s.configMatches, s.validateAt);
      if !ok { return; }
      Interfere(s.flipBeforeEncryption);
      ok := GuardStage(pk, s.encryptAt, GuardEncrypt(id, s.encryptAt));
    }

    /** Everything before the upload: any exception here leaves nothing at the provider. */
    method PrepareUpload(pk: Digest, s: Script, ghost row: TransferRow, ghost until: Instant)
      returns (artifact: Option<seq<Byte>>)
      requires Valid() && Me() == Claimed(pk) && Leased(pk, row, until) && !store.killSwitch
      modifies this, store
      ensures Valid() && old(trace) <= trace && puts == old(puts)
      ensures Me() == if artifact.Some? then MayUpload(pk, artifact.value) else Failing(pk)
      ensures Leased(pk, row, until) && (artifact.Some? ==> !store.killSwitch && artifact == s.artifact)
      ensures artifact.Some? && s.controlsVerified <==> ReachesPut(store.checks, row.plan, s, until)
    {
      hide Next, Inv, NextWorld, RunSteps, SoloInv, Worker.Valid, ReachesEncryption;
      var ok := PrepareEncryption(pk, s, row, until);
      if !ok { return None; }
      artifact := EncryptArtifact(pk, s.artifact);
      if artifact.None? { return None; }
      Interfere(s.flipBeforeUpload);
      ok := GuardStage(pk, s.uploadAt, GuardUpload(id, s.uploadAt));
      if !ok { return None; }
    }

    method ExecuteClaimedBackupTransfer(pk: Digest, s: Script, ghost row: TransferRow, ghost until: Instant)
      returns (r: Execution)
      requires Valid() && Me() == Claimed(pk) && Leased(pk, row, until) && !store.killSwitch
      modifies this, store, bucket
      ensures Valid() && old(trace) <= trace
      ensures Me() == match r {
        case Receipt(receipt) => Receipted(pk, receipt)
        case Ambiguous => Holding(pk)
        case Raised => Failing(pk) }
      ensures puts == if r.Raised? then old(puts) else old(puts)[pk := old(PutsOf(Now(), pk)) + 1]
      ensures Leased(pk, row, until)
      ensures r.Raised? <==> !ReachesPut(store.checks, row.plan, s, until)
      ensures !r.Raised? ==>
        (r.Receipt? && s.flipBeforeCompletion != Some(true) && s.finishAt < until <==>
           PutCompletes(store.checks, old(bucket.objects), row.plan, s, until))
      ensures r.Receipt? ==> !store.killSwitch && UploadReceiptOk(store.checks, r.receipt, row.plan)
    {
      hide Next, Inv, NextWorld, RunSteps, SoloInv, Worker.Valid, ReachesPut, ResponseOk, UploadReceiptOk, BuildReceipt;
      var artifact := PrepareUpload(pk, s, row, until);
      if artifact.None? { return Raised; }
      var uploaded := UploadNew(pk, artifact.value, s.controlsVerified, s.put);
      if uploaded.ProviderError? { return Raised; }
      if uploaded.ReconciliationError? { return Ambiguous; }
      Interfere(s.flipAfterUpload);
      r := BuildReceiptAfterUpload(pk, artifact.value, uploaded.response, s.receiptAt);
    }

    method HoldForReconciliation(pk: Digest) returns (status: Status)
      requires Valid() && Me() == Holding(pk)
      modifies this, store
      ensures Valid() && old(trace) <= trace && puts == old(puts) && Me().Idle?
      ensures pk in store.transfers && status == store.transfers[pk].status == ReconciliationRequired
    {
      hide Next, Inv;
      ghost var before := Now();
      var r := store.HoldClaimedBackupTransferForReconciliation(pk, id);
      Log(before, Step.Hold(id));
      return r.value;
    }

    method FailForRetry(pk: Digest, at: Instant) returns (status: Status)
      requires Valid() && Me() == Failing(pk)
      modifies this, store
      ensures Valid() && old(trace) <= trace && puts == old(puts) && Me().Idle?
      ensures pk in old(store.transfers) && pk in store.transfers && status == store.transfers[pk].status
      ensures status == if Exhausted(old(store.transfers)[pk]) then Failed else Authorized
    {
      hide Next, Inv;
      ghost var before := Now();
      var r := store.FailClaimedBackupTransfer(pk, id, RETRY_SECONDS, at);
      Log(before, Step.Fail(id, at));
      return r.value;
    }

    method Complete(pk: Digest, receipt: UploadReceipt, at: Instant) returns (ok: bool)
      requires Valid() && Me() == Receipted(pk, receipt)
      modifies this, store
      ensures Valid() && old(trace) <= trace && puts == old(puts)
      ensures Me() == if ok then Idle else Holding(pk)
      ensures ok <==> TransferCompletes(store.checks, old(store.View()), pk, id, receipt, at)
      ensures ok ==> pk in store.transfers && store.transfers[pk].status.Completed?
    {
      hide Next, Inv;
      ghost var before := Now();
      var r := store.CompleteClaimedBackupTransfer(pk, id, receipt, at);
      Log(before, Finish(id, at));
      return r.Ok?;
    }

    /**
     At most one exact authorized transfer: the first claimable row, unless the kill switch is on. It
     always comes back to idle, returns the status it left the row in, which is the one the script
     determines, and made a put exactly when that status is COMPLETED or RECONCILIATION_REQUIRED.
     */
    method ProcessBackupTransferOnce(s: Script) returns (claimed: Option<Digest>, status: Option<Status>)
      requires Valid() && Me().Idle?
      modifies this, store, bucket
      ensures Valid() && old(trace) <= trace && Me().Idle?
      ensures claimed ==
        if old(store.killSwitch) then None
        else First(old(store.transfers), TransferClaimable(old(store.transfers), s.claimAt))
      ensures claimed.Some? <==> status.Some?
      ensures claimed.None? ==> puts == old(puts)
      ensures claimed.Some? ==>
        && claimed.value in old(store.transfers) && claimed.value in store.transfers
        && store.transfers[claimed.value].status == status.value
        && status.value == StatusLeft(store.checks, old(bucket.objects), old(store.transfers)[claimed.value], s,
                                      s.claimAt + LEASE_SECONDS)
        && (status.value in {Completed, ReconciliationRequired} ==>
              puts == old(puts)[claimed.value := 1] && old(PutsOf(Now(), claimed.value)) == 0)
        && (status.value in {Authorized, Failed} ==>
              puts == old(puts) && PutsOf(Now(), claimed.value) == 0)
    {
      hide Next, Inv, NextWorld, RunSteps, SoloInv, TransferClaimable, ReachesPut, PutCompletes, UploadReceiptOk;
      ghost var before := store.View();
      claimed := Claim(s.claimAt);
      if claimed.None? { return None, None; }
      var pk := claimed.value;
      ghost var row, until := before.transfers[pk], s.claimAt + LEASE_SECONDS;
      var result := ExecuteClaimedBackupTransfer(pk, s, row, until);
      var left := Settle(pk, result, s, row, until);
      PutCountSettled(store.checks, Now(), id, pk);
      return claimed, Some(left);
    }

    /** The answer to how the execution ended: complete or hold a receipt, hold after a put, else retry. */
    method Settle(pk: Digest, result: Execution, s: Script, ghost row: TransferRow, ghost until: Instant)
      returns (status: Status)
      requires Valid() && Leased(pk, row, until)
      requires Me() == match result {
        case Receipt(receipt) => Receipted(pk, receipt)
        case Ambiguous => Holding(pk)
        case Raised => Failing(pk) }
      requires result.Receipt? ==> !store.killSwitch && UploadReceiptOk(store.checks, result.receipt, row.plan)
      modifies this, store
      ensures Valid() && old(trace) <= trace && Me().Idle? && puts == old(puts)
      ensures pk in store.transfers && store.transfers[pk].status == status
      ensures status ==
        if result.Raised? then (if row.attempts + 1 >= row.maxAttempts then Failed else Authorized)
        else if result.Receipt? && s.flipBeforeCompletion != Some(true) && s.finishAt < until then Completed
        else ReconciliationRequired
    {
      hide Next, Inv, NextWorld, RunSteps, SoloInv, Worker.Valid, UploadReceiptOk;
      var uploadReceiptReady := false;
      if result.Receipt? {
        uploadReceiptReady := true;
        Interfere(s.flipBeforeCompletion);
        var ok := Complete(pk, result.receipt, s.finishAt);
        if ok { return Completed; }
      }
      if result.Ambiguous? || uploadReceiptReady {
        status := HoldForReconciliation(pk);
      } else {
        status := FailForRetry(pk, s.failAt);
      }
    }
  }

  /** The row that a claim picks, once it is claimed. */
  lemma ClaimedRow(c: Checks, db: Db, me: string, at: Instant, k: Digest)
    requires Inv(c, db) && me != "" && !db.killSwitch
    requires First(db.transfers, TransferClaimable(db.transfers, at)) == Some(k)
    ensures k in Next(c, db, ClaimTransfer(me, LEASE_SECONDS, at)).transfers
    ensures var row, row' := db.transfers[k], Next(c, db, ClaimTransfer(me, LEASE_SECONDS, at)).transfers[k];
      && row'.plan == row.plan && HeldBy(row', me) && row'.lease.value.expiresAt == at + LEASE_SECONDS
      && row'.approval.Some? && row'.attempts == row.attempts + 1 && row'.maxAttempts == row.maxAttempts
      && !Next(c, db, ClaimTransfer(me, LEASE_SECONDS, at)).killSwitch
  {
    AuthorizedIsApproved(c, db, k);
    hide Inv;
    NextTransferRow(c, db, ClaimTransfer(me, LEASE_SECONDS, at), k);
    PickedEvent(c, db, me, at, k);
    hide Next, TransferEvent, TransferSwept;
  }

  lemma AuthorizedIsApproved(c: Checks, db: Db, k: Digest)
    requires Inv(c, db) && k in db.transfers
    ensures db.transfers[k].status.Authorized? ==> db.transfers[k].approval.Some?
  {
    assert TransferOk(c, db, k);
  }

  lemma PickedEvent(c: Checks, db: Db, me: string, at: Instant, k: Digest)
    requires me != "" && !db.killSwitch && First(db.transfers, TransferClaimable(db.transfers, at)) == Some(k)
    ensures k in db.transfers
    ensures TransferEvent(c, db, ClaimTransfer(me, LEASE_SECONDS, at), k) == RowEvent.Claim(me, at, at + LEASE_SECONDS)
    ensures !Next(c, db, ClaimTransfer(me, LEASE_SECONDS, at)).killSwitch
  {
  }

  /** What the single-worker invariant says of a row when the worker is idle. */
  lemma PutCountSettled(c: Checks, w: World, me: string, k: Digest)
    requires SoloInv(c, w, me) && PcOf(w, me).Idle? && k in w.db.transfers
    ensures PutsOf(w, k) == if Settled(w.db.transfers[k]) then 1 else 0
  {
    assert PutOk(w, me, k);
  }
}
