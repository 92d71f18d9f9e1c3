/**
 SeanOSStore: the object whose methods read, check and update the outbox tables in place
 (sean_os/store.py:310-1350). Each method is proved to have exactly the effect of its transaction
 in module Store, and says when it raises.
 */
module StoreClass {
  import opened Basics
  import opened Evidence
  import opened Outbox
  import opened Store

  /** The transactions that address one transfer row. */
  predicate AddressesTransfer(e: Event, pk: Digest) {
    match e
    case ValidateTransfer(k, _) => k == pk
    case AuthorizeTransfer(k, _, _, _) => k == pk
    case FailTransfer(k, _, _, _) => k == pk
    case HoldTransfer(k, _) => k == pk
    case CompleteTransfer(k, _, _, _) => k == pk
    case _ => false
  }

  predicate AddressesRestore(e: Event, pk: Digest) {
    match e
    case ValidateRestore(k, _) => k == pk
    case AuthorizeRestore(k, _, _, _) => k == pk
    case FailRestore(k, _, _, _) => k == pk
    case HoldRestore(k, _) => k == pk
    case CompleteRestore(k, _, _, _) => k == pk
    case _ => false
  }

  /** A transaction that addresses one row leaves every other row of its table untouched. */
  lemma OtherTransferUntouched(c: Checks, db: Db, e: Event, pk: Digest, k: Digest)
    requires AddressesTransfer(e, pk) && k in db.transfers && k != pk
    ensures TransferEvent(c, db, e, k) == Untouched
  {
    hide PreflightOk, TransferAuthorizable, UploadReceiptOk;
  }

  lemma OtherRestoreUntouched(c: Checks, db: Db, e: Event, pk: Digest, k: Digest)
    requires AddressesRestore(e, pk) && k in db.restores && k != pk
    ensures RestoreEvent(c, db, e, k) == Untouched
  {
    hide PreflightOk, RestoreAuthorizable, RestoreReceiptOk;
  }

  /** A row that waits for a preflight receipt, or already has this very one and nothing later. */
  predicate Recordable<P, R>(row: Row<P, R>, p: Preflight) {
    row.status.Staged? || (row.status.PreflightValidated? && row.preflight == Some(p.sha))
  }

  predicate LeavesRestores(e: Event) {
    !e.ValidateRestore? && !e.AuthorizeRestore? && !e.ClaimRestore? && !e.FailRestore? && !e.HoldRestore?
    && !e.CompleteRestore?
  }

  predicate LeavesTransfers(e: Event) {
    !e.ValidateTransfer? && !e.AuthorizeTransfer? && !e.ClaimTransfer? && !e.FailTransfer? && !e.HoldTransfer?
    && !e.CompleteTransfer?
  }

  lemma UnaddressedTransfers(c: Checks, db: Db, e: Event)
    requires LeavesTransfers(e)
    ensures (map k | k in db.transfers :: Apply(db.transfers[k], TransferEvent(c, db, e, k))) == db.transfers
  {
    forall k | k in db.transfers ensures Apply(db.transfers[k], TransferEvent(c, db, e, k)) == db.transfers[k] {
      assert TransferEvent(c, db, e, k) == Untouched;
    }
  }

  lemma UnaddressedRestores(c: Checks, db: Db, e: Event)
    requires LeavesRestores(e)
    ensures (map k | k in db.restores :: Apply(db.restores[k], RestoreEvent(c, db, e, k))) == db.restores
  {
    forall k | k in db.restores ensures Apply(db.restores[k], RestoreEvent(c, db, e, k)) == db.restores[k] {
      assert RestoreEvent(c, db, e, k) == Untouched;
    }
  }

  /** A transaction that stages nothing and leaves the restores alone. */
  lemma TransferTableOnly(c: Checks, db: Db, e: Event)
    requires LeavesRestores(e) && !e.StageRestore? && !e.StageTransfer? && !e.SetKillSwitch?
    ensures Next(c, db, e) == db.(
      transfers := map k | k in db.transfers :: Apply(db.transfers[k], TransferEvent(c, db, e, k)),
      approvals := NextApprovals(db, e))
  {
    UnaddressedRestores(c, db, e);
    hide TransferEvent, RestoreEvent, Apply, NextApprovals;
  }

  lemma RestoreTableOnly(c: Checks, db: Db, e: Event)
    requires LeavesTransfers(e) && !e.StageRestore? && !e.StageTransfer? && !e.SetKillSwitch?
    ensures Next(c, db, e) == db.(
      restores := map k | k in db.restores :: Apply(db.restores[k], RestoreEvent(c, db, e, k)),
      approvals := NextApprovals(db, e))
  {
    UnaddressedTransfers(c, db, e);
    hide TransferEvent, RestoreEvent, Apply, NextApprovals;
  }

  lemma SameApprovals(db: Db, e: Event, pk: Digest)
    ensures AddressesTransfer(e, pk) && pk !in db.transfers ==> NextApprovals(db, e) == db.approvals
    ensures AddressesRestore(e, pk) && pk !in db.restores ==> NextApprovals(db, e) == db.approvals
  {
    hide Consumable;
  }

  /** Two maps that agree but for one key. */
  lemma OnlyAt<K, V>(m: map<K, V>, f: map<K, V>, pk: K)
    requires f.Keys == m.Keys && forall k | k in m && k != pk :: f[k] == m[k]
    ensures f == if pk in m then m[pk := f[pk]] else m
  {
  }

  lemma OneTransferRowTable(c: Checks, db: Db, e: Event, pk: Digest)
    requires AddressesTransfer(e, pk)
    ensures (map k | k in db.transfers :: Apply(db.transfers[k], TransferEvent(c, db, e, k))) ==
      if pk in db.transfers then db.transfers[pk := Apply(db.transfers[pk], TransferEvent(c, db, e, pk))]
      else db.transfers
  {
    hide TransferEvent, AddressesTransfer;
    var f := map k | k in db.transfers :: Apply(db.transfers[k], TransferEvent(c, db, e, k));
    forall k | k in db.transfers && k != pk ensures f[k] == db.transfers[k] {
      OtherTransferUntouched(c, db, e, pk, k);
    }
    OnlyAt(db.transfers, f, pk);
  }

  lemma OneTransferRow(c: Checks, db: Db, e: Event, pk: Digest)
    requires AddressesTransfer(e, pk)
    ensures Next(c, db, e) ==
      if pk in db.transfers
      then db.(transfers := db.transfers[pk := Apply(db.transfers[pk], TransferEvent(c, db, e, pk))],
               approvals := NextApprovals(db, e))
      else db
  {
    TransferTableOnly(c, db, e);
    SameApprovals(db, e, pk);
    hide Next, TransferEvent, Apply, NextApprovals, AddressesTransfer;
    OneTransferRowTable(c, db, e, pk);
  }

  lemma OneRestoreRowTable(c: Checks, db: Db, e: Event, pk: Digest)
    requires AddressesRestore(e, pk)
    ensures (map k | k in db.restores :: Apply(db.restores[k], RestoreEvent(c, db, e, k))) ==
      if pk in db.restores then db.restores[pk := Apply(db.restores[pk], RestoreEvent(c, db, e, pk))]
      else db.restores
  {
    hide RestoreEvent, AddressesRestore;
    var f := map k | k in db.restores :: Apply(db.restores[k], RestoreEvent(c, db, e, k));
    forall k | k in db.restores && k != pk ensures f[k] == db.restores[k] {
      OtherRestoreUntouched(c, db, e, pk, k);
    }
    OnlyAt(db.restores, f, pk);
  }

  lemma OneRestoreRow(c: Checks, db: Db, e: Event, pk: Digest)
    requires AddressesRestore(e, pk)
    ensures Next(c, db, e) ==
      if pk in db.restores
      then db.(restores := db.restores[pk := Apply(db.restores[pk], RestoreEvent(c, db, e, pk))],
               approvals := NextApprovals(db, e))
      else db
  {
    RestoreTableOnly(c, db, e);
    SameApprovals(db, e, pk);
    hide Next, RestoreEvent, Apply, NextApprovals, AddressesRestore;
    OneRestoreRowTable(c, db, e, pk);
  }

  /** Adding one row as a map of one entry. */
  lemma PlusOne<K, V>(m: map<K, V>, k: K, v: V)
    ensures m + map[k := v] == m[k := v] && m + map[] == m
  {
  }

  predicate StagesTransfer(c: Checks, db: Db, e: Event) {
    && e.StageTransfer? && StoredUploadPlanOk(c, e.plan) && PackageMatches(e.plan, e.package)
    && e.plan.sha !in db.transfers
  }

  /** What a staging transaction leaves as it is. */
  lemma StagingParts(c: Checks, db: Db, e: Event)
    requires e.StageTransfer? || e.StageRestore?
    ensures var n := Next(c, db, e);
      && n.approvals == db.approvals && n.killSwitch == db.killSwitch
      && n.transfers == db.transfers + StagedTransfers(c, db, e)
      && (e.StageTransfer? ==> n.restores == db.restores && n.evidence == db.evidence)
  {
    UnaddressedTransfers(c, db, e);
    UnaddressedRestores(c, db, e);
    hide TransferEvent, RestoreEvent, Apply, StagedTransfers, NextApprovals;
    assert NextApprovals(db, e) == db.approvals by { StagingApprovals(db, e); }
  }

  lemma StagingApprovals(db: Db, e: Event)
    requires e.StageTransfer? || e.StageRestore?
    ensures NextApprovals(db, e) == db.approvals
  {
  }

  lemma TransferStaging(c: Checks, db: Db, e: Event)
    requires e.StageTransfer?
    ensures Next(c, db, e) ==
      if StagesTransfer(c, db, e) then db.(transfers := db.transfers[e.plan.sha := NewRow(e.plan, e.at)]) else db
  {
    StagingParts(c, db, e);
    hide Next, StoredUploadPlanOk, PackageMatches;
    PlusOne(db.transfers, e.plan.sha, NewRow(e.plan, e.at));
    hide NewRow;
  }

  lemma RestoreStaging(c: Checks, db: Db, e: Event)
    requires e.StageRestore?
    ensures Next(c, db, e) ==
      if StagesRestore(c, db, e) then
        db.(restores := db.restores[e.restorePlan.sha := NewRow(e.restorePlan, e.at)],
            evidence := db.evidence[e.restorePlan.sha := e.staged])
      else db
  {
    StagingParts(c, db, e);
    StagedRestores(c, db, e);
    hide Next, StagesRestore;
  }

  lemma StagedRestores(c: Checks, db: Db, e: Event)
    requires e.StageRestore?
    ensures var n := Next(c, db, e);
      && n.restores == (if StagesRestore(c, db, e)
                        then db.restores[e.restorePlan.sha := NewRow(e.restorePlan, e.at)] else db.restores)
      && n.evidence == (if StagesRestore(c, db, e) then db.evidence[e.restorePlan.sha := e.staged] else db.evidence)
  {
    UnaddressedRestores(c, db, e);
    PlusOne(db.restores, e.restorePlan.sha, NewRow(e.restorePlan, e.at));
    hide TransferEvent, RestoreEvent, Apply, StagesRestore, StagedTransfers, NextApprovals, NewRow;
  }

  lemma KillSwitchOnly(c: Checks, db: Db, on: bool)
    ensures Next(c, db, Event.SetKillSwitch(on)) == db.(killSwitch := on)
  {
    UnaddressedTransfers(c, db, Event.SetKillSwitch(on));
    UnaddressedRestores(c, db, Event.SetKillSwitch(on));
    hide TransferEvent, RestoreEvent, Apply;
  }

  function Swept<P, R>(t: Table<P, R>, s: set<Digest>): (r: Table<P, R>) {
    map k | k in t :: if k in s then t[k].(status := Failed, lease := None) else t[k]
  }

  function Leased<P, R>(row: Row<P, R>, worker: string, expiresAt: Instant): Row<P, R> {
    row.(lease := Some(Lease(worker, expiresAt)), attempts := row.attempts + 1)
  }

  predicate ClaimProceeds(db: Db, worker: string, leaseSeconds: int) {
    !db.killSwitch && ClaimArgumentsOk(worker, leaseSeconds)
  }

  /** The transfer table after a claim that got past the kill switch and the argument checks. */
  ghost function ClaimedTransfers(db: Db, e: Event): Table<UploadPlan, UploadReceipt>
    requires e.ClaimTransfer?
  {
    var pick := First(db.transfers, TransferClaimable(db.transfers, e.at));
    var swept := Swept(db.transfers, TransferSwept(db.transfers, e.at));
    if !ClaimProceeds(db, e.worker, e.leaseSeconds) then db.transfers
    else if pick.None? then swept
    else swept[pick.value := Leased(db.transfers[pick.value], e.worker, e.at + e.leaseSeconds)]
  }

  lemma TransferClaimRow(c: Checks, db: Db, e: Event, k: Digest)
    requires e.ClaimTransfer? && k in db.transfers
    ensures Apply(db.transfers[k], TransferEvent(c, db, e, k)) == ClaimedTransfers(db, e)[k]
  {
  }

  lemma TransferClaimTable(c: Checks, db: Db, e: Event)
    requires e.ClaimTransfer?
    ensures (map k | k in db.transfers :: Apply(db.transfers[k], TransferEvent(c, db, e, k)))
            == ClaimedTransfers(db, e)
  {
    assert ClaimedTransfers(db, e).Keys == db.transfers.Keys;
    forall k | k in db.transfers
      ensures Apply(db.transfers[k], TransferEvent(c, db, e, k)) == ClaimedTransfers(db, e)[k]
    {
      TransferClaimRow(c, db, e, k);
    }
  }

  lemma TransferClaimEffect(c: Checks, db: Db, e: Event)
    requires e.ClaimTransfer?
    ensures Next(c, db, e) == db.(transfers := ClaimedTransfers(db, e))
  {
    TransferTableOnly(c, db, e);
    TransferClaimTable(c, db, e);
    hide Next, ClaimedTransfers, TransferEvent, Apply;
  }

  /** The effect of a transfer claim that goes ahead, by what it picks. */
  lemma TransferClaimed(c: Checks, db: Db, e: Event)
    requires e.ClaimTransfer? && ClaimProceeds(db, e.worker, e.leaseSeconds)
    ensures var pick := First(db.transfers, TransferClaimable(db.transfers, e.at));
      var swept := Swept(db.transfers, TransferSwept(db.transfers, e.at));
      Next(c, db, e) == db.(transfers :=
        if pick.None? then swept
        else swept[pick.value := Leased(db.transfers[pick.value], e.worker, e.at + e.leaseSeconds)])
  {
    TransferClaimEffect(c, db, e);
    hide Next, TransferClaimable, TransferSwept, Leased, Swept;
  }

  lemma ClaimRefused(c: Checks, db: Db, e: Event)
    requires (e.ClaimTransfer? || e.ClaimRestore?) && !ClaimProceeds(db, e.worker, e.leaseSeconds)
    ensures Next(c, db, e) == db
  {
    if e.ClaimTransfer? { TransferClaimEffect(c, db, e); } else { RestoreClaimEffect(c, db, e); }
    hide Next, TransferClaimable, TransferSwept, RestorePick, RestoreSwept, Leased, Swept;
  }

  lemma RestoreClaimed(c: Checks, db: Db, e: Event)
    requires e.ClaimRestore? && ClaimProceeds(db, e.worker, e.leaseSeconds)
    ensures var pick := RestorePick(db.restores, e.at);
      var swept := Swept(db.restores, RestoreSwept(db.restores, e.at));
      Next(c, db, e) == db.(restores :=
        if pick.None? then swept
        else swept[pick.value := Leased(db.restores[pick.value], e.worker,
          Min(e.at + e.leaseSeconds, db.restores[pick.value].plan.body.identity.windowEnd))])
  {
    RestoreClaimEffect(c, db, e);
    hide Next, RestorePick, RestoreSwept, Leased, Swept;
  }

  /** The picked row is not among the rows that the scan fails. */
  lemma PickNotSwept(t: Table<RestorePlan, RestoreReceipt>, at: Instant)
    ensures var swept := Swept(t, RestoreSwept(t, at));
      swept.Keys == t.Keys
      && var pick := RestorePick(t, at);
        pick.Some? ==> pick.value in t && swept[pick.value] == t[pick.value] && t[pick.value].status.Authorized?
  {
  }

  ghost function ClaimedRestores(db: Db, e: Event): Table<RestorePlan, RestoreReceipt>
    requires e.ClaimRestore?
  {
    var pick := RestorePick(db.restores, e.at);
    var swept := Swept(db.restores, RestoreSwept(db.restores, e.at));
    if !ClaimProceeds(db, e.worker, e.leaseSeconds) then db.restores
    else if pick.None? then swept
    else swept[pick.value := Leased(
      db.restores[pick.value], e.worker,
      Min(e.at + e.leaseSeconds, db.restores[pick.value].plan.body.identity.windowEnd))]
  }

  lemma RestoreClaimRow(c: Checks, db: Db, e: Event, k: Digest)
    requires e.ClaimRestore? && k in db.restores
    ensures Apply(db.restores[k], RestoreEvent(c, db, e, k)) == ClaimedRestores(db, e)[k]
  {
  }

  lemma RestoreClaimTable(c: Checks, db: Db, e: Event)
    requires e.ClaimRestore?
    ensures (map k | k in db.restores :: Apply(db.restores[k], RestoreEvent(c, db, e, k)))
            == ClaimedRestores(db, e)
  {
    assert ClaimedRestores(db, e).Keys == db.restores.Keys;
    forall k | k in db.restores
      ensures Apply(db.restores[k], RestoreEvent(c, db, e, k)) == ClaimedRestores(db, e)[k]
    {
      RestoreClaimRow(c, db, e, k);
    }
  }

  lemma RestoreClaimEffect(c: Checks, db: Db, e: Event)
    requires e.ClaimRestore?
    ensures Next(c, db, e) == db.(restores := ClaimedRestores(db, e))
  {
    RestoreTableOnly(c, db, e);
    RestoreClaimTable(c, db, e);
    hide Next, ClaimedRestores, RestoreEvent, Apply;
  }

  class SeanOSStore {
    const checks: Checks
    var transfers: Table<UploadPlan, UploadReceipt>
    var restores: Table<RestorePlan, RestoreReceipt>
    var approvals: Approvals
    var killSwitch: bool
    ghost var evidence: map<Digest, RestoreEvidence>

    ghost function View(): Db
      reads this
    {
      Db(transfers, restores, approvals, killSwitch, evidence)
    }

    constructor (checks: Checks)
      ensures View() == EMPTY && this.checks == checks
    {
      this.checks := checks;
      transfers, restores, approvals := map[], map[], map[];
      killSwitch, evidence := false, map[];
    }

    method SetKillSwitch(on: bool)
      modifies this
      ensures View() == Next(checks, old(View()), Event.SetKillSwitch(on))
      ensures View() == old(View()).(killSwitch := on)
    {
      KillSwitchOnly(checks, View(), on);
      hide Next;
      killSwitch := on;
    }

    // -------------------------------------------------------------- approvals

    /** consume_approval with commit=False: the caller's transaction decides whether it stays. */
    method ConsumeApproval(
      id: string, action: string, target: string, scope: Scope, conditions: Option<Conditions>, at: Instant)
      returns (ok: bool)
      modifies this`approvals
      ensures ok <==> Consumable(old(approvals), id, action, target, scope, conditions, at)
      ensures approvals == if ok then ConsumeOf(old(approvals), id) else old(approvals)
    {
      if id !in approvals { return false; }
      var row := approvals[id];
      if row.scope != scope || !row.status.Approved? || row.action != action || row.target != target {
        return false;
      }
      if conditions.Some? && row.conditions != conditions.value { return false; }
      if at >= row.expiresAt { return false; }
      if !row.reusable {
        approvals := approvals[id := row.(status := Consumed)];
      }
      return true;
    }

    // -------------------------------------------------------------- transfers

    /** The insert of stage_backup_transfer; staging the same plan again changes nothing. */
    method StageBackupTransfer(plan: UploadPlan, package: ApprovalPackage, at: Instant) returns (r: Result<Digest>)
      modifies this
      ensures View() == Next(checks, old(View()), StageTransfer(plan, package, at))
      ensures r.Ok? ==> plan.sha in transfers && transfers[plan.sha].plan == plan
      ensures r.Err? ==> View() == old(View())
    {
      TransferStaging(checks, View(), StageTransfer(plan, package, at));
      hide Next, StoredUploadPlanOk, PackageMatches;
      if !StoredUploadPlanOk(checks, plan) || !PackageMatches(plan, package) {
        return Err("plan does not verify");
      }
      if plan.sha in transfers {
        if transfers[plan.sha].plan != plan { return Err("hash bound to different evidence"); }
        return Ok(plan.sha);
      }
      transfers := transfers[plan.sha := NewRow(plan, at)];
      return Ok(plan.sha);
    }

    method RecordBackupTransferPreflight(pk: Digest, p: Preflight) returns (r: Result<()>)
      modifies this
      ensures View() == Next(checks, old(View()), ValidateTransfer(pk, p))
      ensures r.Ok? <==>
        && PreflightOk(checks, p) && p.body.planSha == pk && p.body.uploadReceiptSha.None?
        && pk in old(transfers) && Recordable(old(transfers)[pk], p)
      ensures r.Ok? ==> pk in transfers && transfers[pk].preflight == Some(p.sha)
      ensures r.Err? ==> View() == old(View())
    {
      OneTransferRow(checks, View(), ValidateTransfer(pk, p), pk);
      hide Next;
      if !PreflightOk(checks, p) || p.body.planSha != pk || p.body.uploadReceiptSha.Some? {
        return Err("preflight does not match");
      }
      if pk !in transfers { return Err("plan not found"); }
      var row := transfers[pk];
      if row.status.PreflightValidated? {
        return if row.preflight == Some(p.sha) then Ok(()) else Err("different preflight");
      }
      if !row.status.Staged? { return Err("not staged"); }
      transfers := transfers[pk := row.(status := PreflightValidated, preflight := Some(p.sha))];
      return Ok(());
    }

    /**
     The transaction consumes the approval and then updates the row; `seen` is the row as it was
     read before the transaction began, so another connection may have moved the row since. A
     refused or raced authorization rolls everything back.
     */
    method AuthorizeBackupTransfer(
      pk: Digest, id: string, isSean: bool, seen: Option<TransferRow>, at: Instant)
      returns (r: Result<()>)
      requires seen.Some? ==> pk in transfers && transfers[pk].plan == seen.value.plan
      modifies this
      ensures r.Err? ==> View() == old(View())
      ensures View() == old(View()) || View() == Next(checks, old(View()), AuthorizeTransfer(pk, id, isSean, at))
      ensures pk in old(transfers) && seen == Some(old(transfers[pk])) ==>
        && View() == Next(checks, old(View()), AuthorizeTransfer(pk, id, isSean, at))
        && (r.Ok? <==> TransferAuthorizable(old(View()), pk, id, isSean, at)
                       || (isSean && seen.value.status.Authorized? && seen.value.approval == Some(id)))
    {
      OneTransferRow(checks, View(), AuthorizeTransfer(pk, id, isSean, at), pk);
      hide Next;
      if !isSean { return Err("only Sean may authorize"); }
      if seen.None? { return Err("plan not found"); }
      var row := seen.value;
      if row.status.Authorized? && row.approval == Some(id) { return Ok(()); }
      if !row.status.PreflightValidated? { return Err("not awaiting approval"); }
      var saved := approvals;
      var ok := ConsumeApproval(id, TRANSFER_ACTION, row.plan.body.approvalTarget, IAC,
                                Some(TransferConditionsOf(row.plan)), at);
      if !ok { return Err("approval refused"); }
      if !transfers[pk].status.PreflightValidated? {
        approvals := saved;
        return Err("authorization raced with another update");
      }
      transfers := transfers[pk := transfers[pk].(status := Authorized, approval := Some(id))];
      return Ok(());
    }

    method ClaimAuthorizedBackupTransfer(worker: string, leaseSeconds: int, at: Instant)
      returns (r: Result<Option<Digest>>)
      modifies this
      ensures View() == Next(checks, old(View()), ClaimTransfer(worker, leaseSeconds, at))
      ensures r.Ok? <==> ClaimArgumentsOk(worker, leaseSeconds)
      ensures r.Ok? ==> r.value == if old(killSwitch) then None
                                   else First(old(transfers), TransferClaimable(old(transfers), at))
      ensures r.Ok? && r.value.Some? ==>
        && r.value.value in old(transfers) && r.value.value in transfers
        && transfers[r.value.value].lease == Some(Lease(worker, at + leaseSeconds))
        && transfers[r.value.value].status.Authorized?
        && transfers[r.value.value].plan == old(transfers)[r.value.value].plan
    {
      ghost var e := ClaimTransfer(worker, leaseSeconds, at);
      if !ClaimProceeds(View(), worker, leaseSeconds) {
        ClaimRefused(checks, View(), e);
      } else {
        TransferClaimed(checks, View(), e);
      }
      hide Next, TransferSwept, TransferClaimable, Swept;
      if worker == "" || leaseSeconds < 1 || leaseSeconds > 900 {
        return Err("claim arguments");
      }
      if killSwitch {
        return Ok(None);
      }
      var terminal := TransferSwept(transfers, at);
      var claimable := TransferClaimable(transfers, at);
      ghost var before := transfers;
      transfers := Swept(transfers, terminal);
      var picked := FirstClaimable(claimable, at, before);
      if picked.None? { return Ok(None); }
      transfers := transfers[picked.value := Leased(transfers[picked.value], worker, at + leaseSeconds)];
      return Ok(picked);
    }

    /** The select of the claim: the first claimable row; sweeping has not touched the claimable ones. */
    method FirstClaimable(claimable: set<Digest>, at: Instant, ghost before: Table<UploadPlan, UploadReceipt>)
      returns (picked: Option<Digest>)
      requires claimable == TransferClaimable(before, at) && transfers == Swept(before, TransferSwept(before, at))
      ensures picked == First(before, TransferClaimable(before, at))
      ensures picked.Some? ==>
        && picked.value in before && picked.value in transfers && transfers[picked.value] == before[picked.value]
        && before[picked.value].status.Authorized?
    {
      if claimable == {} { return None; }
      assert forall k | k in claimable :: transfers[k] == before[k];
      FirstExists(transfers, claimable);
      var first :| IsFirst(transfers, claimable, first);
      assert IsFirst(before, claimable, first);
      FirstIsUnique(before, claimable, first);
      return Some(first);
    }

    /** Rechecks the kill switch and the lease before an irreversible stage. */
    method AssertBackupTransferExecutionAllowed(pk: Digest, worker: string, at: Instant) returns (ok: bool)
      ensures ok <==> && !killSwitch && pk in transfers && HeldBy(transfers[pk], worker)
                      && transfers[pk].approval.Some? && at < transfers[pk].lease.value.expiresAt
    {
      if killSwitch || pk !in transfers { return false; }
      var row := transfers[pk];
      if !row.status.Authorized? || row.approval.None? { return false; }
      if row.lease.None? || row.lease.value.owner != worker { return false; }
      return at < row.lease.value.expiresAt;
    }

    method FailClaimedBackupTransfer(pk: Digest, worker: string, retrySeconds: int, at: Instant)
      returns (r: Result<Status>)
      modifies this
      ensures View() == Next(checks, old(View()), FailTransfer(pk, worker, retrySeconds, at))
      ensures r.Ok? <==> 0 <= retrySeconds <= 3600 && pk in old(transfers) && HeldBy(old(transfers)[pk], worker)
      ensures r.Ok? ==> && pk in transfers && r.value == transfers[pk].status
                        && r.value == if Exhausted(old(transfers)[pk]) then Failed else Authorized
    {
      OneTransferRow(checks, View(), FailTransfer(pk, worker, retrySeconds, at), pk);
      hide Next;
      if retrySeconds < 0 || retrySeconds > 3600 { return Err("retry delay"); }
      if pk !in transfers || !HeldBy(transfers[pk], worker) { return Err("lease not held"); }
      var row := transfers[pk];
      var status := if row.attempts >= row.maxAttempts then Failed else Authorized;
      transfers := transfers[pk := row.(status := status, availableAt := at + retrySeconds, lease := None)];
      return Ok(status);
    }

    method HoldClaimedBackupTransferForReconciliation(pk: Digest, worker: string) returns (r: Result<Status>)
      modifies this
      ensures View() == Next(checks, old(View()), HoldTransfer(pk, worker))
      ensures r.Ok? <==> pk in old(transfers) && HeldBy(old(transfers)[pk], worker)
      ensures r.Ok? ==> pk in transfers && r.value == transfers[pk].status == ReconciliationRequired
    {
      OneTransferRow(checks, View(), HoldTransfer(pk, worker), pk);
      hide Next;
      if pk !in transfers || !HeldBy(transfers[pk], worker) { return Err("lease not held"); }
      transfers := transfers[pk := transfers[pk].(status := ReconciliationRequired, lease := None)];
      return Ok(ReconciliationRequired);
    }

    method CompleteClaimedBackupTransfer(pk: Digest, worker: string, receipt: UploadReceipt, at: Instant)
      returns (r: Result<()>)
      modifies this
      ensures View() == Next(checks, old(View()), CompleteTransfer(pk, worker, receipt, at))
      ensures r.Ok? <==> TransferCompletes(checks, old(View()), pk, worker, receipt, at)
      ensures r.Ok? ==> pk in transfers && transfers[pk].status.Completed?
      ensures r.Err? ==> View() == old(View())
    {
      OneTransferRow(checks, View(), CompleteTransfer(pk, worker, receipt, at), pk);
      hide Next;
      if killSwitch { return Err("kill switch"); }
      if pk !in transfers { return Err("lease not held"); }
      var row := transfers[pk];
      if !HeldBy(row, worker) || at >= row.lease.value.expiresAt {
        if row.status.Completed? && UploadReceiptOk(checks, receipt, row.plan) && row.receipt == Some(receipt) {
          return Ok(());
        }
        return Err("lease not held");
      }
      if !UploadReceiptOk(checks, receipt, row.plan) { return Err("receipt does not verify"); }
      transfers := transfers[pk := row.(status := Completed, receipt := Some(receipt), lease := None)];
      return Ok(());
    }

    // -------------------------------------------------------------- restores

    method StageBackupRestore(plan: RestorePlan, staged: RestoreEvidence, at: Instant) returns (r: Result<Digest>)
      modifies this
      ensures View() == Next(checks, old(View()), StageRestore(plan, staged, at))
      ensures r.Ok? ==> plan.sha in restores && restores[plan.sha].plan == plan
      ensures r.Err? ==> View() == old(View())
    {
      RestoreStaging(checks, View(), StageRestore(plan, staged, at));
      hide Next, RestorePlanMatchesEvidence;
      if !RestorePlanMatchesEvidence(checks, plan, staged.upload, staged.receipt, staged.package) {
        return Err("plan does not match its evidence");
      }
      if plan.sha in restores {
        if restores[plan.sha].plan != plan { return Err("hash bound to different evidence"); }
        return Ok(plan.sha);
      }
      restores := restores[plan.sha := NewRow(plan, at)];
      evidence := evidence[plan.sha := staged];
      return Ok(plan.sha);
    }

    method RecordBackupRestorePreflight(pk: Digest, p: Preflight) returns (r: Result<()>)
      modifies this
      ensures View() == Next(checks, old(View()), ValidateRestore(pk, p))
      ensures r.Ok? <==>
        && PreflightOk(checks, p) && p.body.planSha == pk && pk in old(restores)
        && p.body.uploadReceiptSha == Some(old(restores)[pk].plan.body.identity.uploadReceiptSha)
        && Recordable(old(restores)[pk], p)
      ensures r.Ok? ==> pk in restores && restores[pk].preflight == Some(p.sha)
      ensures r.Err? ==> View() == old(View())
    {
      OneRestoreRow(checks, View(), ValidateRestore(pk, p), pk);
      hide Next;
      if !PreflightOk(checks, p) || p.body.planSha != pk { return Err("preflight does not match"); }
      if pk !in restores { return Err("plan not found"); }
      var row := restores[pk];
      if p.body.uploadReceiptSha != Some(row.plan.body.identity.uploadReceiptSha) {
        return Err("preflight does not match upload evidence");
      }
      if row.status.PreflightValidated? {
        return if row.preflight == Some(p.sha) then Ok(()) else Err("different preflight");
      }
      if !row.status.Staged? { return Err("not staged"); }
      restores := restores[pk := row.(status := PreflightValidated, preflight := Some(p.sha))];
      return Ok(());
    }

    method AuthorizeBackupRestore(
      pk: Digest, id: string, isSean: bool, seen: Option<RestoreRow>, at: Instant)
      returns (r: Result<()>)
      requires seen.Some? ==> pk in restores && restores[pk].plan == seen.value.plan
      modifies this
      ensures r.Err? ==> View() == old(View())
      ensures View() == old(View()) || View() == Next(checks, old(View()), AuthorizeRestore(pk, id, isSean, at))
      ensures pk in old(restores) && seen == Some(old(restores[pk])) ==>
        && View() == Next(checks, old(View()), AuthorizeRestore(pk, id, isSean, at))
        && (r.Ok? <==> RestoreAuthorizable(old(View()), pk, id, isSean, at)
                       || (isSean && seen.value.status.Authorized? && seen.value.approval == Some(id)))
    {
      OneRestoreRow(checks, View(), AuthorizeRestore(pk, id, isSean, at), pk);
      hide Next;
      if !isSean { return Err("only Sean may authorize"); }
      if seen.None? { return Err("plan not found"); }
      var row := seen.value;
      if row.status.Authorized? && row.approval == Some(id) { return Ok(()); }
      if !row.status.PreflightValidated? { return Err("not awaiting approval"); }
      var i := row.plan.body.identity;
      if !(i.windowStart <= at <= i.windowEnd) { return Err("outside the exact window"); }
      var saved := approvals;
      var ok := ConsumeApproval(id, RESTORE_ACTION, row.plan.body.approvalTarget, IAC,
                                Some(RestoreConditionsOf(row.plan)), at);
      if !ok { return Err("approval refused"); }
      if !restores[pk].status.PreflightValidated? {
        approvals := saved;
        return Err("authorization raced with another update");
      }
      restores := restores[pk := restores[pk].(status := Authorized, approval := Some(id))];
      return Ok(());
    }

    /** SELECT of the due rows, ORDER BY created_at, hash. */
    method SelectDueRestores(at: Instant) returns (rows: seq<Digest>)
      ensures forall k :: k in rows <==> k in RestoreDue(restores, at)
      ensures forall i | 0 <= i < |rows| :: rows[i] in restores
      ensures forall i, j | 0 <= i < j < |rows| :: Before(restores, rows[i], rows[j])
    {
      rows := [];
      var rest := RestoreDue(restores, at);
      while rest != {}
        invariant rest <= restores.Keys
        invariant forall k :: k in RestoreDue(restores, at) <==> k in rest || k in rows
        invariant forall k | k in rows :: k in restores && k !in rest
        invariant forall i, j | 0 <= i < j < |rows| :: Before(restores, rows[i], rows[j])
        invariant forall i, k | 0 <= i < |rows| && k in rest :: Before(restores, rows[i], k)
        decreases |rest|
      {
        FirstExists(restores, rest);
        var next :| IsFirst(restores, rest, next);
        rows, rest := rows + [next], rest - {next};
      }
    }

    /** The claim's scan: closed rows met before the first open one, and that row. */
    method ScanDueRestores(at: Instant) returns (selected: Option<Digest>, terminal: set<Digest>)
      ensures selected == RestorePick(restores, at)
      ensures terminal == RestoreSwept(restores, at)
    {
      var rows := SelectDueRestores(at);
      selected, terminal := None, {};
      var i := 0;
      while i < |rows| && selected.None?
        invariant 0 <= i <= |rows|
        invariant selected.None? ==> forall j | 0 <= j < i :: !Open(restores[rows[j]], at)
        invariant selected.Some? ==> i > 0 && selected.value == rows[i - 1] && Open(restores[rows[i - 1]], at)
                                     && forall j | 0 <= j < i - 1 :: !Open(restores[rows[j]], at)
        invariant forall j | 0 <= j < i :: rows[j] in terminal <==> Closed(restores[rows[j]], at)
        invariant forall k | k in terminal :: k in rows[..i]
        decreases |rows| - i
      {
        var row := restores[rows[i]];
        if row.attempts >= row.maxAttempts {
          terminal := terminal + {rows[i]};
        } else if at >= row.plan.body.identity.windowEnd {
          terminal := terminal + {rows[i]};
        } else if at >= row.plan.body.identity.windowStart {
          selected := Some(rows[i]);
        }
        i := i + 1;
      }
      ScanPicksFirst(restores, rows, at, i, selected, terminal);
    }

    /** Takes the lease the scan found; closed rows scanned on the way become FAILED. */
    method ClaimAuthorizedBackupRestore(worker: string, leaseSeconds: int, at: Instant)
      returns (r: Result<Option<Digest>>)
      modifies this
      ensures View() == Next(checks, old(View()), ClaimRestore(worker, leaseSeconds, at))
      ensures r.Ok? <==> ClaimArgumentsOk(worker, leaseSeconds)
      ensures r.Ok? ==> r.value == if old(killSwitch) then None else RestorePick(old(restores), at)
      ensures r.Ok? && r.value.Some? ==>
        && r.value.value in old(restores) && r.value.value in restores
        && HeldBy(restores[r.value.value], worker)
        && restores[r.value.value].plan == old(restores)[r.value.value].plan
    {
      ghost var e := ClaimRestore(worker, leaseSeconds, at);
      if !ClaimProceeds(View(), worker, leaseSeconds) {
        ClaimRefused(checks, View(), e);
      } else {
        RestoreClaimed(checks, View(), e);
      }
      hide Next;
      if worker == "" || leaseSeconds < 1 || leaseSeconds > 900 { return Err("claim arguments"); }
      if killSwitch { return Ok(None); }
      var selected, terminal := ScanDueRestores(at);
      PickNotSwept(restores, at);
      hide RestoreSwept, RestorePick, Swept;
      restores := Swept(restores, terminal);
      if selected.None? { return Ok(None); }
      var pk := selected.value;
      var lease := Min(at + leaseSeconds, restores[pk].plan.body.identity.windowEnd);
      restores := restores[pk := Leased(restores[pk], worker, lease)];
      return Ok(Some(pk));
    }

    method AssertBackupRestoreExecutionAllowed(pk: Digest, worker: string, at: Instant) returns (ok: bool)
      ensures ok <==> && !killSwitch && pk in restores && HeldBy(restores[pk], worker)
                      && restores[pk].approval.Some? && at < restores[pk].lease.value.expiresAt
                      && RestorePlanOk(checks, restores[pk].plan)
                      && restores[pk].plan.body.identity.windowStart <= at
                      && at <= restores[pk].plan.body.identity.windowEnd
    {
      if killSwitch || pk !in restores { return false; }
      var row := restores[pk];
      if !row.status.Authorized? || row.approval.None? { return false; }
      if row.lease.None? || row.lease.value.owner != worker { return false; }
      if row.lease.value.expiresAt <= at { return false; }
      if !RestorePlanOk(checks, row.plan) { return false; }
      return row.plan.body.identity.windowStart <= at <= row.plan.body.identity.windowEnd;
    }

    method FailClaimedBackupRestore(pk: Digest, worker: string, retrySeconds: int, at: Instant)
      returns (r: Result<Status>)
      modifies this
      ensures View() == Next(checks, old(View()), FailRestore(pk, worker, retrySeconds, at))
      ensures r.Ok? <==> 0 <= retrySeconds <= 3600 && pk in old(restores) && HeldBy(old(restores)[pk], worker)
      ensures r.Ok? ==> && pk in restores && r.value == restores[pk].status
                        && r.value == if Exhausted(old(restores)[pk]) then Failed else Authorized
    {
      OneRestoreRow(checks, View(), FailRestore(pk, worker, retrySeconds, at), pk);
      hide Next;
      if retrySeconds < 0 || retrySeconds > 3600 { return Err("retry delay"); }
      if pk !in restores || !HeldBy(restores[pk], worker) { return Err("lease not held"); }
      var row := restores[pk];
      var status := if row.attempts >= row.maxAttempts then Failed else Authorized;
      restores := restores[pk := row.(status := status, availableAt := at + retrySeconds, lease := None)];
      return Ok(status);
    }

    method HoldClaimedBackupRestoreForReconciliation(pk: Digest, worker: string) returns (r: Result<Status>)
      modifies this
      ensures View() == Next(checks, old(View()), HoldRestore(pk, worker))
      ensures r.Ok? <==> pk in old(restores) && HeldBy(old(restores)[pk], worker)
      ensures r.Ok? ==> pk in restores && r.value == restores[pk].status == ReconciliationRequired
    {
      OneRestoreRow(checks, View(), HoldRestore(pk, worker), pk);
      hide Next;
      if pk !in restores || !HeldBy(restores[pk], worker) { return Err("lease not held"); }
      restores := restores[pk := restores[pk].(status := ReconciliationRequired, lease := None)];
      return Ok(ReconciliationRequired);
    }

    method CompleteClaimedBackupRestore(pk: Digest, worker: string, done: RestoreReceipt, at: Instant)
      returns (r: Result<()>)
      modifies this
      ensures View() == Next(checks, old(View()), CompleteRestore(pk, worker, done, at))
      ensures r.Ok? <==> RestoreCompletes(checks, old(View()), pk, worker, done, at)
      ensures r.Ok? ==> pk in restores && restores[pk].status.Completed?
      ensures r.Err? ==> View() == old(View())
    {
      OneRestoreRow(checks, View(), CompleteRestore(pk, worker, done, at), pk);
      hide Next;
      if killSwitch { return Err("kill switch"); }
      if pk !in restores { return Err("lease not held"); }
      var row := restores[pk];
      if !HeldBy(row, worker) || at >= row.lease.value.expiresAt {
        if row.status.Completed? && RestoreReceiptOk(checks, done, row.plan) && row.receipt == Some(done) {
          return Ok(());
        }
        return Err("lease not held");
      }
      if !RestoreReceiptOk(checks, done, row.plan) { return Err("receipt does not verify"); }
      restores := restores[pk := row.(status := Completed, receipt := Some(done), lease := None)];
      return Ok(());
    }
  }

  lemma FirstIsUnique<P, R>(t: Table<P, R>, s: set<Digest>, k: Digest)
    requires s <= t.Keys && IsFirst(t, s, k)
    ensures First(t, s) == Some(k)
  {
  }

  /** What an ordered scan that stops at the first open row has found. */
  lemma ScanPicksFirst(
    t: Table<RestorePlan, RestoreReceipt>, rows: seq<Digest>, at: Instant, stop: nat,
    selected: Option<Digest>, terminal: set<Digest>)
    requires stop <= |rows|
    requires forall k :: k in rows <==> k in RestoreDue(t, at)
    requires forall i | 0 <= i < |rows| :: rows[i] in t
    requires forall i, j | 0 <= i < j < |rows| :: Before(t, rows[i], rows[j])
    requires if selected.None? then stop == |rows| && forall j | 0 <= j < stop :: !Open(t[rows[j]], at)
             else && stop > 0 && selected.value == rows[stop - 1] && Open(t[rows[stop - 1]], at)
                  && forall j | 0 <= j < stop - 1 :: !Open(t[rows[j]], at)
    requires forall j | 0 <= j < stop :: rows[j] in terminal <==> Closed(t[rows[j]], at)
    requires forall k | k in terminal :: k in rows[..stop]
    ensures RestorePick(t, at) == selected
    ensures RestoreSwept(t, at) == terminal
  {
    var open := set k | k in RestoreDue(t, at) && Open(t[k], at);
    forall k | k in open ensures exists j :: 0 <= j < |rows| && rows[j] == k {
      assert k in rows;
    }
    if selected.None? {
      assert open == {};
    } else {
      var pk := selected.value;
      assert pk in rows;
      forall other | other in open && other != pk ensures Before(t, pk, other) {
        var j :| 0 <= j < |rows| && rows[j] == other;
        assert j >= stop;
      }
      assert IsFirst(t, open, pk);
      FirstIsUnique(t, open, pk);
    }
    forall k | k in RestoreDue(t, at) && Closed(t[k], at)
      ensures k in terminal <==> selected.None? || Before(t, k, selected.value)
    {
      assert k in rows;
      var j :| 0 <= j < |rows| && rows[j] == k;
      if j < stop {
        assert k in terminal;
      } else {
        assert Before(t, selected.value, k);
      }
    }
    forall k | k in terminal ensures k in RestoreDue(t, at) && Closed(t[k], at) {
      var j :| 0 <= j < stop && rows[j] == k;
      assert k in rows;
    }
  }
}
