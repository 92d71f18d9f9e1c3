/**
 The two approval-gated outboxes, the approvals they consume and the kill switch, as one
 transactional store (sean_os/store.py:310-1350). `Next` is the effect of one committed
 transaction; `Run` is any sequence of them, by any actors, in any order, at any clock readings.
 */
module Store {
  import opened Basics
  import opened Evidence
  import opened Outbox

  datatype Scope = PERSONAL | IAC | SHARED

  datatype ApprovalStatus = Pending | Approved | Denied | Expired | Consumed

  /** The exact action plan an approval is bound to. */
  datatype Conditions =
    | NoConditions
    | TransferConditions(
        planSha: Digest, proposalSha: Digest, backupSha: Digest, destinationRef: string,
        dataRegion: string, endpoint: string, writerRef: string, keyRef: string, objectRef: string,
        retentionDays: int, windowStart: Instant, windowEnd: Instant, maxCost: real)
    | RestoreConditions(restorePlanSha: Digest, identity: RestoreIdentity)

  datatype Approval = Approval(
    action: string, target: string, scope: Scope, conditions: Conditions,
    status: ApprovalStatus, expiresAt: Instant, reusable: bool)

  type Approvals = map<string, Approval>

  const TRANSFER_ACTION := "RUN_INDEPENDENT_BACKUP_RESTORE_DRILL"
  const RESTORE_ACTION := "RUN_ISOLATED_BACKUP_RESTORE"

  type TransferRow = Row<UploadPlan, UploadReceipt>
  type RestoreRow = Row<RestorePlan, RestoreReceipt>

  /** The approved proposal a transfer plan must repeat. */
  datatype ApprovalPackage = ApprovalPackage(
    contract: Contract, approvalTarget: string, proposalSha: Digest, destinationRef: string,
    dataRegion: string, retentionDays: int, windowStart: Instant, windowEnd: Instant, maxCost: real)

  datatype RestoreEvidence = RestoreEvidence(
    upload: UploadPlan, receipt: UploadReceipt, package: KeyPackage)

  /** `evidence` only records what each restore was staged from; no transaction reads it. */
  datatype Db = Db(
    transfers: Table<UploadPlan, UploadReceipt>,
    restores: Table<RestorePlan, RestoreReceipt>,
    approvals: Approvals,
    killSwitch: bool,
    evidence: map<Digest, RestoreEvidence>)

  datatype Event =
    | CreateApproval(id: string, approval: Approval)
    | DecideApproval(id: string, approve: bool, at: Instant)
    | ExpirePending(id: string)
    | ConsumeForAction(id: string, action: string, target: string, scope: Scope, at: Instant)
    | SetKillSwitch(on: bool)
    | StageTransfer(plan: UploadPlan, package: ApprovalPackage, at: Instant)
    | ValidateTransfer(pk: Digest, preflight: Preflight)
    | AuthorizeTransfer(pk: Digest, id: string, isSean: bool, at: Instant)
    | ClaimTransfer(worker: string, leaseSeconds: int, at: Instant)
    | FailTransfer(pk: Digest, worker: string, retrySeconds: int, at: Instant)
    | HoldTransfer(pk: Digest, worker: string)
    | CompleteTransfer(pk: Digest, worker: string, receipt: UploadReceipt, at: Instant)
    | StageRestore(restorePlan: RestorePlan, staged: RestoreEvidence, at: Instant)
    | ValidateRestore(pk: Digest, preflight: Preflight)
    | AuthorizeRestore(pk: Digest, id: string, isSean: bool, at: Instant)
    | ClaimRestore(worker: string, leaseSeconds: int, at: Instant)
    | FailRestore(pk: Digest, worker: string, retrySeconds: int, at: Instant)
    | HoldRestore(pk: Digest, worker: string)
    | CompleteRestore(pk: Digest, worker: string, done: RestoreReceipt, at: Instant)

  // ---------------------------------------------------------------- approvals

  function TransferConditionsOf(plan: UploadPlan): Conditions {
    var b := plan.body;
    TransferConditions(plan.sha, b.proposalSha, b.backupSha, b.destinationRef, b.dataRegion,
                       b.endpoint, b.writerRef, b.keyRef, b.objectRef, b.retentionDays,
                       b.windowStart, b.windowEnd, b.maxCost)
  }

  function RestoreConditionsOf(plan: RestorePlan): Conditions {
    RestoreConditions(plan.sha, plan.body.identity)
  }

  predicate Consumable(
    approvals: Approvals, id: string, action: string, target: string, scope: Scope,
    conditions: Option<Conditions>, at: Instant)
  {
    && id in approvals
    && var a := approvals[id];
       && a.scope == scope && a.status.Approved? && a.action == action && a.target == target
       && (conditions.Some? ==> a.conditions == conditions.value)
       && at < a.expiresAt
  }

  function ConsumeOf(approvals: Approvals, id: string): Approvals
    requires id in approvals
  {
    if approvals[id].reusable then approvals else approvals[id := approvals[id].(status := Consumed)]
  }

  predicate TransferAuthorizable(db: Db, pk: Digest, id: string, isSean: bool, at: Instant) {
    && isSean && pk in db.transfers && db.transfers[pk].status.PreflightValidated?
    && var plan := db.transfers[pk].plan;
       Consumable(db.approvals, id, TRANSFER_ACTION, plan.body.approvalTarget, IAC,
                  Some(TransferConditionsOf(plan)), at)
  }

  predicate RestoreAuthorizable(db: Db, pk: Digest, id: string, isSean: bool, at: Instant) {
    && isSean && pk in db.restores && db.restores[pk].status.PreflightValidated?
    && var plan := db.restores[pk].plan;
       && plan.body.identity.windowStart <= at <= plan.body.identity.windowEnd
       && Consumable(db.approvals, id, RESTORE_ACTION, plan.body.approvalTarget, IAC,
                     Some(RestoreConditionsOf(plan)), at)
  }

  function NextApprovals(db: Db, e: Event): Approvals {
    var all := db.approvals;
    match e
    case CreateApproval(id, a) =>
      if id !in all && ((a.status.Pending? && !a.reusable) || a.status.Approved?) then all[id := a] else all
    case DecideApproval(id, approve, at) =>
      if id in all && all[id].status.Pending? then
        all[id := all[id].(status := if all[id].expiresAt <= at then Expired
                                     else if approve then Approved else Denied)]
      else all
    case ExpirePending(id) =>
      if id in all && all[id].status.Pending? then all[id := all[id].(status := Expired)] else all
    case ConsumeForAction(id, action, target, scope, at) =>
      if Consumable(all, id, action, target, scope, None, at) then ConsumeOf(all, id) else all
    case AuthorizeTransfer(pk, id, isSean, at) =>
      if TransferAuthorizable(db, pk, id, isSean, at) then ConsumeOf(all, id) else all
    case AuthorizeRestore(pk, id, isSean, at) =>
      if RestoreAuthorizable(db, pk, id, isSean, at) then ConsumeOf(all, id) else all
    case _ => all
  }

  // ---------------------------------------------------------------- claims

  predicate ClaimArgumentsOk(worker: string, leaseSeconds: int) {
    worker != "" && 1 <= leaseSeconds <= 900
  }

  /** Rows a transfer claim gives up on: every unleased authorized row without attempts left. */
  function TransferSwept(t: Table<UploadPlan, UploadReceipt>, at: Instant): set<Digest> {
    set k | k in t && t[k].status.Authorized? && Exhausted(t[k]) && LeaseFree(t[k], at)
  }

  function TransferClaimable(t: Table<UploadPlan, UploadReceipt>, at: Instant): set<Digest> {
    set k | k in t && t[k].status.Authorized? && t[k].availableAt <= at && !Exhausted(t[k])
            && LeaseFree(t[k], at)
  }

  /** Rows the restore claim scans: authorized, available and unleased. */
  function RestoreDue(t: Table<RestorePlan, RestoreReceipt>, at: Instant): set<Digest> {
    set k | k in t && t[k].status.Authorized? && t[k].availableAt <= at && LeaseFree(t[k], at)
  }

  predicate Closed(row: RestoreRow, at: Instant) {
    Exhausted(row) || at >= row.plan.body.identity.windowEnd
  }

  predicate Open(row: RestoreRow, at: Instant) {
    !Closed(row, at) && at >= row.plan.body.identity.windowStart
  }

  ghost function RestorePick(t: Table<RestorePlan, RestoreReceipt>, at: Instant): (k: Option<Digest>)
    ensures k.Some? ==> k.value in RestoreDue(t, at) && Open(t[k.value], at)
  {
    First(t, set k | k in RestoreDue(t, at) && Open(t[k], at))
  }

  /** The closed due rows scanned before the picked row; all of them when none is picked. */
  ghost function RestoreSwept(t: Table<RestorePlan, RestoreReceipt>, at: Instant): set<Digest> {
    var pick := RestorePick(t, at);
    set k | k in RestoreDue(t, at) && Closed(t[k], at) && (pick.None? || Before(t, k, pick.value))
  }

  // ---------------------------------------------------------------- one transaction

  /** What a transaction does to one transfer row. */
  ghost function TransferEvent(c: Checks, db: Db, e: Event, k: Digest): RowEvent<UploadReceipt>
    requires k in db.transfers
  {
    match e
    case ValidateTransfer(pk, p) =>
      if k == pk && PreflightOk(c, p) && p.body.planSha == pk && p.body.uploadReceiptSha.None?
      then Validate(p.sha) else Untouched
    case AuthorizeTransfer(pk, id, isSean, at) =>
      if k == pk && TransferAuthorizable(db, pk, id, isSean, at) then Authorize(id) else Untouched
    case ClaimTransfer(worker, leaseSeconds, at) =>
      if db.killSwitch || !ClaimArgumentsOk(worker, leaseSeconds) then Untouched
      else if k in TransferSwept(db.transfers, at) then Exhaust(at)
      else if First(db.transfers, TransferClaimable(db.transfers, at)) == Some(k)
      then Claim(worker, at, at + leaseSeconds) else Untouched
    case FailTransfer(pk, worker, retrySeconds, at) =>
      if k == pk && 0 <= retrySeconds <= 3600 then Fail(worker, at + retrySeconds) else Untouched
    case HoldTransfer(pk, worker) => if k == pk then Hold(worker) else Untouched
    case CompleteTransfer(pk, worker, receipt, at) =>
      if k == pk && !db.killSwitch && UploadReceiptOk(c, receipt, db.transfers[k].plan)
      then Complete(worker, at, receipt) else Untouched
    case _ => Untouched
  }

  /** What a transaction does to one restore row; a lease is clipped to the restore window. */
  ghost function RestoreEvent(c: Checks, db: Db, e: Event, k: Digest): RowEvent<RestoreReceipt>
    requires k in db.restores
  {
    match e
    case ValidateRestore(pk, p) =>
      if k == pk && PreflightOk(c, p) && p.body.planSha == pk
         && p.body.uploadReceiptSha == Some(db.restores[k].plan.body.identity.uploadReceiptSha)
      then Validate(p.sha) else Untouched
    case AuthorizeRestore(pk, id, isSean, at) =>
      if k == pk && RestoreAuthorizable(db, pk, id, isSean, at) then Authorize(id) else Untouched
    case ClaimRestore(worker, leaseSeconds, at) =>
      if db.killSwitch || !ClaimArgumentsOk(worker, leaseSeconds) then Untouched
      else if k in RestoreSwept(db.restores, at) then Exhaust(at)
      else if RestorePick(db.restores, at) == Some(k)
      then Claim(worker, at, Min(at + leaseSeconds, db.restores[k].plan.body.identity.windowEnd))
      else Untouched
    case FailRestore(pk, worker, retrySeconds, at) =>
      if k == pk && 0 <= retrySeconds <= 3600 then Fail(worker, at + retrySeconds) else Untouched
    case HoldRestore(pk, worker) => if k == pk then Hold(worker) else Untouched
    case CompleteRestore(pk, worker, done, at) =>
      if k == pk && !db.killSwitch && RestoreReceiptOk(c, done, db.restores[k].plan)
      then Complete(worker, at, done) else Untouched
    case _ => Untouched
  }

  /** Whether complete_claimed_backup_transfer returns rather than raises. */
  predicate TransferCompletes(c: Checks, db: Db, pk: Digest, worker: string, receipt: UploadReceipt, at: Instant) {
    && !db.killSwitch && pk in db.transfers
    && var row := db.transfers[pk];
       && UploadReceiptOk(c, receipt, row.plan)
       && if HeldBy(row, worker) && at < row.lease.value.expiresAt then true
          else row.status.Completed? && row.receipt == Some(receipt)
  }

  predicate RestoreCompletes(c: Checks, db: Db, pk: Digest, worker: string, done: RestoreReceipt, at: Instant) {
    && !db.killSwitch && pk in db.restores
    && var row := db.restores[pk];
       && RestoreReceiptOk(c, done, row.plan)
       && if HeldBy(row, worker) && at < row.lease.value.expiresAt then true
          else row.status.Completed? && row.receipt == Some(done)
  }

  predicate PackageMatches(plan: UploadPlan, package: ApprovalPackage) {
    var b := plan.body;
    package == ApprovalPackage(Exact, b.approvalTarget, b.proposalSha, b.destinationRef, b.dataRegion,
                               b.retentionDays, b.windowStart, b.windowEnd, b.maxCost)
  }

  function StagedTransfers(c: Checks, db: Db, e: Event): Table<UploadPlan, UploadReceipt> {
    if e.StageTransfer? && StoredUploadPlanOk(c, e.plan) && PackageMatches(e.plan, e.package)
       && e.plan.sha !in db.transfers
    then map[e.plan.sha := NewRow(e.plan, e.at)] else map[]
  }

  predicate Stageable(c: Checks, plan: RestorePlan, s: RestoreEvidence) {
    RestorePlanMatchesEvidence(c, plan, s.upload, s.receipt, s.package)
  }

  predicate StagesRestore(c: Checks, db: Db, e: Event) {
    e.StageRestore? && Stageable(c, e.restorePlan, e.staged) && e.restorePlan.sha !in db.restores
  }

  ghost function NextTransfers(c: Checks, db: Db, e: Event): Table<UploadPlan, UploadReceipt> {
    (map k | k in db.transfers :: Apply(db.transfers[k], TransferEvent(c, db, e, k))) + StagedTransfers(c, db, e)
  }

  ghost function NextRestores(c: Checks, db: Db, e: Event): Table<RestorePlan, RestoreReceipt> {
    (map k | k in db.restores :: Apply(db.restores[k], RestoreEvent(c, db, e, k)))
    + (if StagesRestore(c, db, e) then map[e.restorePlan.sha := NewRow(e.restorePlan, e.at)] else map[])
  }

  /** One committed transaction. */
  ghost function Next(c: Checks, db: Db, e: Event): Db {
    Db(NextTransfers(c, db, e), NextRestores(c, db, e), NextApprovals(db, e),
       if e.SetKillSwitch? then e.on else db.killSwitch,
       if StagesRestore(c, db, e) then db.evidence[e.restorePlan.sha := e.staged] else db.evidence)
  }

  ghost function Run(c: Checks, db: Db, events: seq<Event>): Db
    decreases |events|
  {
    if events == [] then db else Run(c, Next(c, db, events[0]), events[1..])
  }

  const EMPTY := Db(map[], map[], map[], false, map[])

  // ---------------------------------------------------------------- invariant

  /** The approval a row carries is exactly the one its own plan demands, and it is spent. */
  ghost predicate CarriesApproval<P, R>(
    approvals: Approvals, row: Row<P, R>, action: string, target: string, conditions: Conditions)
  {
    row.approval.Some? ==>
      && row.approval.value in approvals
      && var a := approvals[row.approval.value];
         && a.action == action && a.target == target && a.scope.IAC? && a.conditions == conditions
         && a.status == if a.reusable then Approved else Consumed
  }

  ghost predicate TransferOk(c: Checks, db: Db, k: Digest)
    requires k in db.transfers
  {
    var row := db.transfers[k];
    && RowInv(row) && row.plan.sha == k && StoredUploadPlanOk(c, row.plan)
    && CarriesApproval(db.approvals, row, TRANSFER_ACTION, row.plan.body.approvalTarget,
                       TransferConditionsOf(row.plan))
    && (row.receipt.Some? ==> UploadReceiptOk(c, row.receipt.value, row.plan))
  }

  ghost predicate RestoreOk(c: Checks, db: Db, k: Digest)
    requires k in db.restores
  {
    var row := db.restores[k];
    && RowInv(row) && row.plan.sha == k
    && k in db.evidence && Stageable(c, row.plan, db.evidence[k])
    && CarriesApproval(db.approvals, row, RESTORE_ACTION, row.plan.body.approvalTarget,
                       RestoreConditionsOf(row.plan))
    && (row.lease.Some? ==> row.lease.value.expiresAt <= row.plan.body.identity.windowEnd)
    && (row.receipt.Some? ==> RestoreReceiptOk(c, row.receipt.value, row.plan))
  }

  ghost predicate Inv(c: Checks, db: Db) {
    && (forall k | k in db.transfers :: TransferOk(c, db, k))
    && (forall k | k in db.restores :: RestoreOk(c, db, k))
  }

  /** A spent or standing approval is never altered; no approval changes what it approves. */
  lemma ApprovalsEvolve(db: Db, e: Event, id: string)
    requires id in db.approvals
    ensures id in NextApprovals(db, e)
    ensures var a, a' := db.approvals[id], NextApprovals(db, e)[id];
      && a' == a.(status := a'.status)
      && (a.status.Consumed? || (a.status.Approved? && a.reusable) ==> a' == a)
  {
  }

  lemma NextTransferRow(c: Checks, db: Db, e: Event, k: Digest)
    requires k in db.transfers
    ensures k in Next(c, db, e).transfers
    ensures Next(c, db, e).transfers[k] == Apply(db.transfers[k], TransferEvent(c, db, e, k))
  {
  }

  lemma NextRestoreRow(c: Checks, db: Db, e: Event, k: Digest)
    requires k in db.restores
    ensures k in Next(c, db, e).restores
    ensures Next(c, db, e).restores[k] == Apply(db.restores[k], RestoreEvent(c, db, e, k))
  {
  }

  /** A row that gained its approval in this transaction carries the one just spent on its plan. */
  lemma TransferApprovalKept(c: Checks, db: Db, e: Event, k: Digest)
    requires k in db.transfers && TransferOk(c, db, k)
    ensures var row := Apply(db.transfers[k], TransferEvent(c, db, e, k));
      CarriesApproval(NextApprovals(db, e), row, TRANSFER_ACTION, row.plan.body.approvalTarget,
                      TransferConditionsOf(row.plan))
  {
    var row, ev := db.transfers[k], TransferEvent(c, db, e, k);
    ApplyKeepsInv(row, ev);
    if row.approval.Some? {
      ApprovalsEvolve(db, e, row.approval.value);
    }
  }

  lemma RestoreApprovalKept(c: Checks, db: Db, e: Event, k: Digest)
    requires k in db.restores && RestoreOk(c, db, k)
    ensures var row := Apply(db.restores[k], RestoreEvent(c, db, e, k));
      CarriesApproval(NextApprovals(db, e), row, RESTORE_ACTION, row.plan.body.approvalTarget,
                      RestoreConditionsOf(row.plan))
  {
    var row, ev := db.restores[k], RestoreEvent(c, db, e, k);
    ApplyKeepsInv(row, ev);
    if row.approval.Some? {
      ApprovalsEvolve(db, e, row.approval.value);
    }
  }

  /** A lease never outlives the restore window, and a stored receipt is the verified one. */
  lemma RestoreLeaseAndReceiptKept(c: Checks, db: Db, e: Event, k: Digest)
    requires k in db.restores && RestoreOk(c, db, k)
    ensures var row := Apply(db.restores[k], RestoreEvent(c, db, e, k));
      && (row.lease.Some? ==> row.lease.value.expiresAt <= row.plan.body.identity.windowEnd)
      && (row.receipt.Some? ==> RestoreReceiptOk(c, row.receipt.value, row.plan))
  {
    ApplyKeepsInv(db.restores[k], RestoreEvent(c, db, e, k));
  }

  /** A transfer row's stored receipt is the verified one. */
  lemma TransferReceiptKept(c: Checks, db: Db, e: Event, k: Digest)
    requires k in db.transfers && TransferOk(c, db, k)
    ensures var row := Apply(db.transfers[k], TransferEvent(c, db, e, k));
      && row.plan == db.transfers[k].plan
      && (row.receipt.Some? ==> UploadReceiptOk(c, row.receipt.value, row.plan))
  {
    hide UploadReceiptOk, StoredUploadPlanOk, CarriesApproval, RowInv;
  }

  lemma NewTransferOk(c: Checks, db: Db, e: Event, k: Digest)
    requires k in Next(c, db, e).transfers && k !in db.transfers
    ensures TransferOk(c, Next(c, db, e), k)
  {
    hide UploadReceiptOk;
  }

  lemma NextApprovalsAre(c: Checks, db: Db, e: Event)
    ensures Next(c, db, e).approvals == NextApprovals(db, e)
  {
  }

  lemma NextTransferOk(c: Checks, db: Db, e: Event, k: Digest)
    requires Inv(c, db) && k in Next(c, db, e).transfers
    ensures TransferOk(c, Next(c, db, e), k)
  {
    if k in db.transfers {
      assert TransferOk(c, db, k);
      NextTransferRow(c, db, e, k);
      NextApprovalsAre(c, db, e);
      ApplyKeepsInv(db.transfers[k], TransferEvent(c, db, e, k));
      TransferApprovalKept(c, db, e, k);
      TransferReceiptKept(c, db, e, k);
    } else {
      NewTransferOk(c, db, e, k);
    }
    hide Next, NextApprovals, Inv, UploadReceiptOk, StoredUploadPlanOk, CarriesApproval, RowInv, Apply;
  }

  lemma NextRestoreOk(c: Checks, db: Db, e: Event, k: Digest)
    requires Inv(c, db) && k in Next(c, db, e).restores
    ensures RestoreOk(c, Next(c, db, e), k)
  {
    if k in db.restores {
      assert RestoreOk(c, db, k);
      NextRestoreRow(c, db, e, k);
      ApplyKeepsInv(db.restores[k], RestoreEvent(c, db, e, k));
      RestoreApprovalKept(c, db, e, k);
      RestoreLeaseAndReceiptKept(c, db, e, k);
      assert Next(c, db, e).evidence[k] == db.evidence[k];
    } else {
      NewRestoreOk(c, db, e, k);
    }
  }

  lemma NewRestoreOk(c: Checks, db: Db, e: Event, k: Digest)
    requires k in Next(c, db, e).restores && k !in db.restores
    ensures RestoreOk(c, Next(c, db, e), k)
  {
    NewRowInv<RestorePlan, RestoreReceipt>(e.restorePlan, e.at);
  }

  lemma NextKeepsInv(c: Checks, db: Db, e: Event)
    requires Inv(c, db)
    ensures Inv(c, Next(c, db, e))
  {
    forall k | k in Next(c, db, e).transfers ensures TransferOk(c, Next(c, db, e), k) {
      NextTransferOk(c, db, e, k);
    }
    forall k | k in Next(c, db, e).restores ensures RestoreOk(c, Next(c, db, e), k) {
      NextRestoreOk(c, db, e, k);
    }
  }

  lemma {:induction false} RunKeepsInv(c: Checks, db: Db, events: seq<Event>)
    requires Inv(c, db)
    ensures Inv(c, Run(c, db, events))
    decreases |events|
  {
    if events != [] {
      NextKeepsInv(c, db, events[0]);
      RunKeepsInv(c, Next(c, db, events[0]), events[1..]);
    }
  }
}
