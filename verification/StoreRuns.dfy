/**
 What holds over whole runs of the store: the invariant from an empty database, the life of every
 row, single use of approvals, and the evidence chain of a finished restore.
 */
module StoreRuns {
  import opened Basics
  import opened Evidence
  import opened Outbox
  import opened Store

  lemma ReachableInv(c: Checks, events: seq<Event>)
    ensures Inv(c, Run(c, EMPTY, events))
  {
    RunKeepsInv(c, EMPTY, events);
  }

  // ---------------------------------------------------------------- lives of rows

  ghost function TransferLife(c: Checks, db: Db, events: seq<Event>, k: Digest): seq<RowEvent<UploadReceipt>>
    requires k in db.transfers
    decreases |events|
  {
    if events == [] then [] else
      NextTransferRow(c, db, events[0], k);
      [TransferEvent(c, db, events[0], k)] + TransferLife(c, Next(c, db, events[0]), events[1..], k)
  }

  ghost function RestoreLife(c: Checks, db: Db, events: seq<Event>, k: Digest): seq<RowEvent<RestoreReceipt>>
    requires k in db.restores
    decreases |events|
  {
    if events == [] then [] else
      NextRestoreRow(c, db, events[0], k);
      [RestoreEvent(c, db, events[0], k)] + RestoreLife(c, Next(c, db, events[0]), events[1..], k)
  }

  lemma {:induction false} TransferProjects(c: Checks, db: Db, events: seq<Event>, k: Digest)
    requires k in db.transfers
    ensures k in Run(c, db, events).transfers
    ensures Run(c, db, events).transfers[k] == Live(db.transfers[k], TransferLife(c, db, events, k))
    decreases |events|
  {
    if events != [] {
      NextTransferRow(c, db, events[0], k);
      TransferProjects(c, Next(c, db, events[0]), events[1..], k);
    }
  }

  lemma {:induction false} RestoreProjects(c: Checks, db: Db, events: seq<Event>, k: Digest)
    requires k in db.restores
    ensures k in Run(c, db, events).restores
    ensures Run(c, db, events).restores[k] == Live(db.restores[k], RestoreLife(c, db, events, k))
    decreases |events|
  {
    if events != [] {
      NextRestoreRow(c, db, events[0], k);
      RestoreProjects(c, Next(c, db, events[0]), events[1..], k);
    }
  }

  /**
   Over every run: attempts are counted exactly and never exceed the maximum, so no row is ever
   claimed more often; the plan is never rewritten; a terminal row is never touched again.
   */
  lemma TransferRowLife(c: Checks, db: Db, events: seq<Event>, k: Digest)
    requires Inv(c, db) && k in db.transfers
    ensures k in Run(c, db, events).transfers
    ensures var row, row' := db.transfers[k], Run(c, db, events).transfers[k];
      && row'.plan == row.plan
      && row'.attempts == row.attempts + Claims(row, TransferLife(c, db, events, k))
      && row'.attempts <= row'.maxAttempts == row.maxAttempts
      && (Terminal(row.status) ==> row' == row)
  {
    assert TransferOk(c, db, k);
    TransferProjects(c, db, events, k);
    LifeKeeps(db.transfers[k], TransferLife(c, db, events, k));
    if Terminal(db.transfers[k].status) {
      TerminalForEver(db.transfers[k], TransferLife(c, db, events, k));
    }
  }

  lemma RestoreRowLife(c: Checks, db: Db, events: seq<Event>, k: Digest)
    requires Inv(c, db) && k in db.restores
    ensures k in Run(c, db, events).restores
    ensures var row, row' := db.restores[k], Run(c, db, events).restores[k];
      && row'.plan == row.plan
      && row'.attempts == row.attempts + Claims(row, RestoreLife(c, db, events, k))
      && row'.attempts <= row'.maxAttempts == row.maxAttempts
      && (Terminal(row.status) ==> row' == row)
  {
    assert RestoreOk(c, db, k);
    RestoreProjects(c, db, events, k);
    LifeKeeps(db.restores[k], RestoreLife(c, db, events, k));
    if Terminal(db.restores[k].status) {
      TerminalForEver(db.restores[k], RestoreLife(c, db, events, k));
    }
  }

  /** Fencing in the store: whichever transaction follows any run, every row is fenced against it. */
  lemma TransferFencing(c: Checks, db: Db, events: seq<Event>, e: Event, k: Digest)
    requires k in db.transfers && db.transfers[k].lease.None?
    ensures k in Run(c, db, events).transfers
    ensures var now := Run(c, db, events);
      Fenced(now.transfers[k], TransferEvent(c, now, e, k),
             LatestClaimer(db.transfers[k], TransferLife(c, db, events, k), None))
  {
    TransferProjects(c, db, events, k);
    Fencing(db.transfers[k], TransferLife(c, db, events, k), TransferEvent(c, Run(c, db, events), e, k));
  }

  /** The same for restores, whose leases moreover never outlive the restore window. */
  lemma RestoreFencing(c: Checks, db: Db, events: seq<Event>, e: Event, k: Digest)
    requires Inv(c, db) && k in db.restores && db.restores[k].lease.None?
    ensures k in Run(c, db, events).restores
    ensures var now := Run(c, db, events);
      && Fenced(now.restores[k], RestoreEvent(c, now, e, k),
                LatestClaimer(db.restores[k], RestoreLife(c, db, events, k), None))
      && (now.restores[k].lease.Some? ==>
            now.restores[k].lease.value.expiresAt <= now.restores[k].plan.body.identity.windowEnd)
  {
    RunKeepsInv(c, db, events);
    RestoreProjects(c, db, events, k);
    assert RestoreOk(c, Run(c, db, events), k);
    Fencing(db.restores[k], RestoreLife(c, db, events, k), RestoreEvent(c, Run(c, db, events), e, k));
  }

  // ---------------------------------------------------------------- approvals

  /** No approval, reusable or not, ever stands behind two rows. */
  lemma ApprovalNeverShared(c: Checks, db: Db)
    requires Inv(c, db)
    ensures forall j, k | j in db.transfers && k in db.transfers
                          && db.transfers[j].approval.Some? ::
              db.transfers[j].approval == db.transfers[k].approval ==> j == k
    ensures forall j, k | j in db.restores && k in db.restores
                          && db.restores[j].approval.Some? ::
              db.restores[j].approval == db.restores[k].approval ==> j == k
    ensures forall j, k | j in db.transfers && k in db.restores
                          && db.transfers[j].approval.Some? :: db.transfers[j].approval != db.restores[k].approval
  {
    forall j, k | j in db.transfers && k in db.transfers && db.transfers[j].approval.Some?
                  && db.transfers[j].approval == db.transfers[k].approval
      ensures j == k
    {
      assert TransferOk(c, db, j) && TransferOk(c, db, k);
    }
    forall j, k | j in db.restores && k in db.restores && db.restores[j].approval.Some?
                  && db.restores[j].approval == db.restores[k].approval
      ensures j == k
    {
      assert RestoreOk(c, db, j) && RestoreOk(c, db, k);
    }
    forall j, k | j in db.transfers && k in db.restores && db.transfers[j].approval.Some?
      ensures db.transfers[j].approval != db.restores[k].approval
    {
      assert TransferOk(c, db, j) && RestoreOk(c, db, k);
    }
  }

  /** Every row AUTHORIZED or later, in every reachable database, carries its own spent approval. */
  lemma AuthorizedRowsAreApproved(c: Checks, events: seq<Event>, k: Digest)
    ensures var db := Run(c, EMPTY, events);
      k in db.transfers && (db.transfers[k].status.Authorized? || Terminal(db.transfers[k].status)) ==>
        && db.transfers[k].approval.Some? && db.transfers[k].approval.value in db.approvals
        && var a := db.approvals[db.transfers[k].approval.value];
           && a.action == TRANSFER_ACTION && a.target == db.transfers[k].plan.body.approvalTarget
           && a.scope == IAC && a.conditions == TransferConditionsOf(db.transfers[k].plan)
           && (a.status.Consumed? || a.reusable)
    ensures var db := Run(c, EMPTY, events);
      k in db.restores && (db.restores[k].status.Authorized? || Terminal(db.restores[k].status)) ==>
        && db.restores[k].approval.Some? && db.restores[k].approval.value in db.approvals
        && var a := db.approvals[db.restores[k].approval.value];
           && a.action == RESTORE_ACTION && a.target == db.restores[k].plan.body.approvalTarget
           && a.scope == IAC && a.conditions == RestoreConditionsOf(db.restores[k].plan)
           && (a.status.Consumed? || a.reusable)
  {
    ReachableInv(c, events);
    var db := Run(c, EMPTY, events);
    if k in db.transfers { assert TransferOk(c, db, k); }
    if k in db.restores { assert RestoreOk(c, db, k); }
  }

  // ---------------------------------------------------------------- evidence chain

  /**
   Every row that is RESTORED in any reachable database satisfies the whole evidence chain back to
   the transfer plan and upload receipt it was staged from.
   */
  lemma RestoredRowsProveTheChain(c: Checks, events: seq<Event>, k: Digest)
    requires k in Run(c, EMPTY, events).restores
    requires Run(c, EMPTY, events).restores[k].status.Completed?
    ensures var db := Run(c, EMPTY, events);
      && db.restores[k].receipt.Some? && k in db.evidence
      && ChainHolds(db.evidence[k].upload, db.evidence[k].receipt, db.restores[k].plan, db.restores[k].receipt.value)
  {
    ReachableInv(c, events);
    var db := Run(c, EMPTY, events);
    assert RestoreOk(c, db, k);
    var row, s := db.restores[k], db.evidence[k];
    VerifiersCompose(c, s.upload, s.receipt, s.package, row.plan, row.receipt.value);
  }

  /** The same back to any verified evidence whose digests the row's plan records, short of a collision. */
  lemma DigestsProveTheChain(c: Checks, events: seq<Event>, k: Digest, upload: UploadPlan, receipt: UploadReceipt)
    requires k in Run(c, EMPTY, events).restores
    requires Run(c, EMPTY, events).restores[k].status.Completed?
    requires var i := Run(c, EMPTY, events).restores[k].plan.body.identity;
      && StoredUploadPlanOk(c, upload) && upload.sha == i.uploadPlanSha
      && UploadReceiptOk(c, receipt, upload) && receipt.sha == i.uploadReceiptSha
    ensures var db := Run(c, EMPTY, events);
      && db.restores[k].receipt.Some? && k in db.evidence
      && var s := db.evidence[k];
        && Distinguished(c, UploadPlanText(upload.body), UploadPlanText(s.upload.body))
        && Distinguished(c, UploadReceiptText(receipt.body), UploadReceiptText(s.receipt.body))
        ==> upload == s.upload && receipt == s.receipt
            && ChainHolds(upload, receipt, db.restores[k].plan, db.restores[k].receipt.value)
  {
    RestoredRowsProveTheChain(c, events, k);
    ReachableInv(c, events);
    var db := Run(c, EMPTY, events);
    assert RestoreOk(c, db, k);
    var s := db.evidence[k];
    hide Run, Inv;
    if Distinguished(c, UploadPlanText(upload.body), UploadPlanText(s.upload.body))
       && Distinguished(c, UploadReceiptText(receipt.body), UploadReceiptText(s.receipt.body)) {
      DigestsNameEvidence(c, s.upload, s.receipt, s.package, db.restores[k].plan, upload, receipt);
    }
  }

  /** The evidence that the last lemma speaks of exists for every restore row ever staged. */
  lemma RestoreEvidenceExists(c: Checks, events: seq<Event>, k: Digest)
    requires k in Run(c, EMPTY, events).restores
    ensures var db := Run(c, EMPTY, events);
      var i := db.restores[k].plan.body.identity;
      exists s: RestoreEvidence ::
           && StoredUploadPlanOk(c, s.upload) && s.upload.sha == i.uploadPlanSha
           && UploadReceiptOk(c, s.receipt, s.upload) && s.receipt.sha == i.uploadReceiptSha
           && RestorePlanMatchesEvidence(c, db.restores[k].plan, s.upload, s.receipt, s.package)
  {
    ReachableInv(c, events);
    hide Run, Inv;
    StagedEvidence(c, Run(c, EMPTY, events), k);
  }

  lemma StagedEvidence(c: Checks, db: Db, k: Digest)
    requires Inv(c, db) && k in db.restores
    ensures var i := db.restores[k].plan.body.identity;
      exists s: RestoreEvidence ::
           && StoredUploadPlanOk(c, s.upload) && s.upload.sha == i.uploadPlanSha
           && UploadReceiptOk(c, s.receipt, s.upload) && s.receipt.sha == i.uploadReceiptSha
           && RestorePlanMatchesEvidence(c, db.restores[k].plan, s.upload, s.receipt, s.package)
  {
    assert RestoreOk(c, db, k);
    var s := db.evidence[k];
    RebuiltFrom(c, db.restores[k].plan, s);
    hide RestorePlanMatchesEvidence, StoredUploadPlanOk, UploadReceiptOk;
    assert Stageable(c, db.restores[k].plan, s);
  }

  lemma RebuiltFrom(c: Checks, plan: RestorePlan, s: RestoreEvidence)
    requires Stageable(c, plan, s)
    ensures StoredUploadPlanOk(c, s.upload) && s.upload.sha == plan.body.identity.uploadPlanSha
    ensures UploadReceiptOk(c, s.receipt, s.upload) && s.receipt.sha == plan.body.identity.uploadReceiptSha
  {
    hide RestorePlanOk, KeyPackageOk;
  }
}
