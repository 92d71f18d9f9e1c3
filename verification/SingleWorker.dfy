/**
 One transfer worker that never crashes, interleaved with anything else the store does: each plan
 sees at most one put in its whole life, a put always ends in COMPLETED or RECONCILIATION_REQUIRED,
 and retries happen only where no put was made. Crashes are exactly what this excludes.
 */
module SingleWorker {
  import opened Basics
  import opened Evidence
  import opened Outbox
  import opened Store
  import opened TransferProtocol
  import StoreClass

  /** Steps of worker `me`, without crashes, and transactions that belong to no transfer worker. */
  ghost predicate Mine(s: Step, me: string) {
    !s.Crash? && (s.Other? || s.worker == me)
  }

  ghost predicate AllMine(steps: seq<Step>, me: string) {
    forall s | s in steps :: Mine(s, me)
  }

  /** Between a put and its settlement. */
  predicate AfterPut(pc: Pc, k: Digest) {
    (pc.Uploaded? || pc.Receipted? || pc.Holding?) && pc.pk == k
  }

  ghost predicate Settled(row: TransferRow) {
    row.status.Completed? || row.status.ReconciliationRequired?
  }

  /** A put is either settled for ever, or its worker still holds the row and is settling it. */
  ghost predicate PutOk(w: World, me: string, k: Digest)
    requires k in w.db.transfers
  {
    && PutsOf(w, k) <= 1
    && (PutsOf(w, k) == 1 <==> Settled(w.db.transfers[k]) || AfterPut(PcOf(w, me), k))
  }

  ghost predicate HoldsLease(w: World, me: string) {
    var pc := PcOf(w, me);
    !pc.Idle? ==> pc.pk in w.db.transfers && HeldBy(w.db.transfers[pc.pk], me)
  }

  ghost predicate SoloInv(c: Checks, w: World, me: string) {
    && Inv(c, w.db) && HoldsLease(w, me)
    && (forall k | k in w.db.transfers :: PutOk(w, me, k))
    && (forall k | k in w.puts :: k in w.db.transfers)
  }

  /** A transaction of anyone else leaves a leased row alone, and never settles a row. */
  lemma OthersLeaveLease(c: Checks, db: Db, e: Event, k: Digest)
    requires k in db.transfers && IsOther(e)
    ensures k in Next(c, db, e).transfers
    ensures var row, row' := db.transfers[k], Next(c, db, e).transfers[k];
      && (row.status.Authorized? ==> row' == row)
      && (Settled(row') <==> Settled(row))
  {
    NextTransferRow(c, db, e, k);
  }

  lemma NewRowUnsettled(c: Checks, db: Db, e: Event, k: Digest)
    requires k in Next(c, db, e).transfers && k !in db.transfers
    ensures !Settled(Next(c, db, e).transfers[k])
  {
  }

  lemma OtherKeepsPut(c: Checks, w: World, me: string, e: Event, k: Digest)
    requires SoloInv(c, w, me) && IsOther(e) && k in Next(c, w.db, e).transfers
    ensures PutOk(NextWorld(c, w, Other(e)), me, k)
  {
    hide Next, Inv;
    OtherMove(c, w, e);
    hide NextWorld;
    if k in w.db.transfers {
      OthersLeaveLease(c, w.db, e, k);
      assert PutOk(w, me, k);
    } else {
      NewRowUnsettled(c, w.db, e, k);
      NoPutYet(c, w, me, k);
    }
  }

  lemma OtherMove(c: Checks, w: World, e: Event)
    requires IsOther(e)
    ensures NextWorld(c, w, Other(e)) == w.(db := Next(c, w.db, e))
  {
    hide Next;
  }

  lemma NoPutYet(c: Checks, w: World, me: string, k: Digest)
    requires SoloInv(c, w, me) && k !in w.db.transfers
    ensures PutsOf(w, k) == 0 && !AfterPut(PcOf(w, me), k)
  {
    hide Inv, PutOk;
  }

  lemma OtherKeepsSolo(c: Checks, w: World, me: string, e: Event)
    requires SoloInv(c, w, me) && IsOther(e)
    ensures SoloInv(c, NextWorld(c, w, Other(e)), me)
  {
    hide Next, Inv, PutOk, IsOther;
    var w' := NextWorld(c, w, Other(e));
    assert w' == w.(db := Next(c, w.db, e));
    NextKeepsInv(c, w.db, e);
    if !PcOf(w, me).Idle? {
      OthersLeaveLease(c, w.db, e, PcOf(w, me).pk);
    }
    forall k | k in w'.db.transfers ensures PutOk(w', me, k) { OtherKeepsPut(c, w, me, e, k); }
    forall k | k in w'.puts ensures k in w'.db.transfers {
      OthersLeaveLease(c, w.db, e, k);
    }
  }

  /** A step without a transaction moves the worker on within the same row; only a put counts. */
  lemma QuietMove(c: Checks, w: World, me: string, s: Step)
    requires HoldsLease(w, me) && Mine(s, me) && !s.Other? && Transaction(w, s).None?
    ensures var w' := NextWorld(c, w, s);
      var pc, pc' := PcOf(w, me), PcOf(w', me);
      && w'.db == w.db
      && (w'.pcs == w.pcs || (!pc.Idle? && !pc'.Idle? && pc'.pk == pc.pk))
      && if s.Put? && pc.MayUpload? then
           && (pc'.Uploaded? || pc'.Holding?)
           && w'.puts == w.puts[pc.pk := PutsOf(w, pc.pk) + 1]
         else
           && w'.puts == w.puts
           && ((pc.Uploaded? || pc.Receipted? || pc.Holding?) <==> (pc'.Uploaded? || pc'.Receipted? || pc'.Holding?))
  {
    hide Next, Guard, ResponseOk, StoredUploadPlanOk, UploadReceiptOk;
  }

  lemma QuietKeepsPut(c: Checks, w: World, me: string, s: Step, k: Digest)
    requires SoloInv(c, w, me) && Mine(s, me) && !s.Other? && Transaction(w, s).None? && k in w.db.transfers
    ensures NextWorld(c, w, s).db == w.db && PutOk(NextWorld(c, w, s), me, k)
  {
    hide Inv, Transaction, Mine;
    QuietMove(c, w, me, s);
    hide NextWorld;
    assert PutOk(w, me, k);
  }

  lemma QuietKeepsSolo(c: Checks, w: World, me: string, s: Step)
    requires SoloInv(c, w, me) && Mine(s, me) && !s.Other? && Transaction(w, s).None?
    ensures SoloInv(c, NextWorld(c, w, s), me)
  {
    hide NextWorld, Inv, Transaction, Mine, PutOk;
    QuietMove(c, w, me, s);
    var w' := NextWorld(c, w, s);
    forall k | k in w.db.transfers ensures PutOk(w', me, k) { QuietKeepsPut(c, w, me, s, k); }
  }

  lemma ClaimRow(c: Checks, db: Db, me: string, leaseSeconds: int, at: Instant, k: Digest)
    requires k in db.transfers
    ensures k in Next(c, db, ClaimTransfer(me, leaseSeconds, at)).transfers
    ensures var row' := Next(c, db, ClaimTransfer(me, leaseSeconds, at)).transfers[k];
      var pick := First(db.transfers, TransferClaimable(db.transfers, at));
      && (Settled(row') <==> Settled(db.transfers[k]))
      && (StoreClass.ClaimProceeds(db, me, leaseSeconds) && pick == Some(k) ==> HeldBy(row', me))
  {
    NextTransferRow(c, db, ClaimTransfer(me, leaseSeconds, at), k);
  }

  lemma HoldRow(c: Checks, db: Db, me: string, pk: Digest, k: Digest)
    requires k in db.transfers && pk in db.transfers && HeldBy(db.transfers[pk], me)
    ensures k in Next(c, db, HoldTransfer(pk, me)).transfers
    ensures var row' := Next(c, db, HoldTransfer(pk, me)).transfers[k];
      if k == pk then row'.status.ReconciliationRequired? else row' == db.transfers[k]
  {
    NextTransferRow(c, db, HoldTransfer(pk, me), k);
  }

  lemma FailRow(c: Checks, db: Db, me: string, pk: Digest, at: Instant, k: Digest)
    requires k in db.transfers && pk in db.transfers && HeldBy(db.transfers[pk], me)
    ensures k in Next(c, db, FailTransfer(pk, me, RETRY_SECONDS, at)).transfers
    ensures var row' := Next(c, db, FailTransfer(pk, me, RETRY_SECONDS, at)).transfers[k];
      if k == pk then !Settled(row') else row' == db.transfers[k]
  {
    NextTransferRow(c, db, FailTransfer(pk, me, RETRY_SECONDS, at), k);
  }

  lemma FinishRow(c: Checks, db: Db, me: string, pk: Digest, receipt: UploadReceipt, at: Instant, k: Digest)
    requires k in db.transfers && pk in db.transfers && HeldBy(db.transfers[pk], me)
    ensures k in Next(c, db, CompleteTransfer(pk, me, receipt, at)).transfers
    ensures var row' := Next(c, db, CompleteTransfer(pk, me, receipt, at)).transfers[k];
      if k == pk && TransferCompletes(c, db, pk, me, receipt, at) then row'.status.Completed?
      else row' == db.transfers[k]
  {
    NextTransferRow(c, db, CompleteTransfer(pk, me, receipt, at), k);
  }

  lemma NoNewTransfers(c: Checks, db: Db, e: Event)
    requires !e.StageTransfer?
    ensures Next(c, db, e).transfers.Keys == db.transfers.Keys
  {
  }

  lemma ClaimKeepsSolo(c: Checks, w: World, me: string, s: Step)
    requires SoloInv(c, w, me) && s.Claim? && s.worker == me && PcOf(w, me).Idle?
    ensures SoloInv(c, NextWorld(c, w, s), me)
  {
    hide Next, Inv;
    var e := ClaimTransfer(me, s.leaseSeconds, s.at);
    var pick := First(w.db.transfers, TransferClaimable(w.db.transfers, s.at));
    var pc' := if StoreClass.ClaimProceeds(w.db, me, s.leaseSeconds) && pick.Some? then Claimed(pick.value) else Idle;
    var db' := Next(c, w.db, e);
    assert NextWorld(c, w, s) == At(w.(db := db'), me, pc');
    NextKeepsInv(c, w.db, e);
    NoNewTransfers(c, w.db, e);
    forall k | k in w.db.transfers
      ensures Settled(db'.transfers[k]) <==> Settled(w.db.transfers[k])
      ensures pc' == Claimed(k) ==> HeldBy(db'.transfers[k], me)
    {
      ClaimRow(c, w.db, me, s.leaseSeconds, s.at, k);
    }
    ReassembleSolo(c, w, At(w.(db := db'), me, pc'), me);
  }

  /** The invariant from its parts, when neither the rows nor the put counts gained a key. */
  lemma ReassembleSolo(c: Checks, w: World, w': World, me: string)
    requires SoloInv(c, w, me) && Inv(c, w'.db) && HoldsLease(w', me)
    requires w'.puts == w.puts && w'.db.transfers.Keys == w.db.transfers.Keys
    requires forall k | k in w.db.transfers ::
      (Settled(w'.db.transfers[k]) || AfterPut(PcOf(w', me), k)) ==
      (Settled(w.db.transfers[k]) || AfterPut(PcOf(w, me), k))
    ensures SoloInv(c, w', me)
  {
    forall k | k in w'.db.transfers ensures PutOk(w', me, k) {
      assert PutOk(w, me, k);
    }
  }

  lemma HoldKeepsSolo(c: Checks, w: World, me: string)
    requires SoloInv(c, w, me) && PcOf(w, me).Holding?
    ensures SoloInv(c, NextWorld(c, w, Step.Hold(me)), me)
  {
    hide Next, Inv;
    var pk := PcOf(w, me).pk;
    var e := HoldTransfer(pk, me);
    NextKeepsInv(c, w.db, e);
    NoNewTransfers(c, w.db, e);
    forall k | k in w.db.transfers
      ensures Settled(Next(c, w.db, e).transfers[k]) <==> Settled(w.db.transfers[k]) || k == pk
    {
      HoldRow(c, w.db, me, pk, k);
    }
    ReassembleSolo(c, w, At(w.(db := Next(c, w.db, e)), me, Idle), me);
  }

  lemma FailKeepsSolo(c: Checks, w: World, me: string, at: Instant)
    requires SoloInv(c, w, me) && PcOf(w, me).Failing?
    ensures SoloInv(c, NextWorld(c, w, Step.Fail(me, at)), me)
  {
    hide Next, Inv;
    var pk := PcOf(w, me).pk;
    var e := FailTransfer(pk, me, RETRY_SECONDS, at);
    NextKeepsInv(c, w.db, e);
    NoNewTransfers(c, w.db, e);
    forall k | k in w.db.transfers
      ensures Settled(Next(c, w.db, e).transfers[k]) <==> Settled(w.db.transfers[k])
    {
      FailRow(c, w.db, me, pk, at, k);
    }
    ReassembleSolo(c, w, At(w.(db := Next(c, w.db, e)), me, Idle), me);
  }

  lemma FinishKeepsSolo(c: Checks, w: World, me: string, at: Instant)
    requires SoloInv(c, w, me) && PcOf(w, me).Receipted?
    ensures SoloInv(c, NextWorld(c, w, Finish(me, at)), me)
  {
    hide Next, Inv;
    var pc := PcOf(w, me);
    var e := CompleteTransfer(pc.pk, me, pc.receipt, at);
    var ok := TransferCompletes(c, w.db, pc.pk, me, pc.receipt, at);
    NextKeepsInv(c, w.db, e);
    NoNewTransfers(c, w.db, e);
    forall k | k in w.db.transfers
      ensures Settled(Next(c, w.db, e).transfers[k]) <==> Settled(w.db.transfers[k]) || (k == pc.pk && ok)
      ensures !ok ==> Next(c, w.db, e).transfers[k] == w.db.transfers[k]
    {
      FinishRow(c, w.db, me, pc.pk, pc.receipt, at, k);
    }
    var w' := At(w.(db := Next(c, w.db, e)), me, if ok then Idle else Holding(pc.pk));
    assert NextWorld(c, w, Finish(me, at)) == w';
    ReassembleSolo(c, w, w', me);
  }

  lemma StepKeepsSolo(c: Checks, w: World, me: string, s: Step)
    requires SoloInv(c, w, me) && Mine(s, me)
    ensures SoloInv(c, NextWorld(c, w, s), me)
  {
    if s.Other? {
      if IsOther(s.e) { OtherKeepsSolo(c, w, me, s.e); }
    } else if Transaction(w, s).Some? {
      match s
      case Claim(_, _, _) => ClaimKeepsSolo(c, w, me, s);
      case Finish(_, at) => FinishKeepsSolo(c, w, me, at);
      case Hold(_) => HoldKeepsSolo(c, w, me);
      case Fail(_, at) => FailKeepsSolo(c, w, me, at);
    } else {
      QuietKeepsSolo(c, w, me, s);
    }
  }

  lemma {:induction false} RunKeepsSolo(c: Checks, w: World, me: string, steps: seq<Step>)
    requires SoloInv(c, w, me) && AllMine(steps, me)
    ensures SoloInv(c, RunSteps(c, w, steps), me)
  {
    if steps != [] {
      RunKeepsSolo(c, w, me, steps[..|steps| - 1]);
      StepKeepsSolo(c, RunSteps(c, w, steps[..|steps| - 1]), me, steps[|steps| - 1]);
    }
  }

  /**
   Crash-free single-worker runs of any length: at most one put per plan ever; whenever the worker
   is idle again, a plan that saw a put is COMPLETED or RECONCILIATION_REQUIRED, and one that is
   still AUTHORIZED, or FAILED, saw none.
   */
  lemma OnePutPerPlan(c: Checks, me: string, steps: seq<Step>, k: Digest)
    requires AllMine(steps, me)
    ensures var w := RunSteps(c, START, steps);
      && PutsOf(w, k) <= 1
      && (PutsOf(w, k) > 0 ==> k in w.db.transfers)
      && (k in w.db.transfers && PcOf(w, me).Idle? ==>
            && (PutsOf(w, k) == 1 <==> Settled(w.db.transfers[k]))
            && (w.db.transfers[k].status.Authorized? || w.db.transfers[k].status.Failed? ==> PutsOf(w, k) == 0))
  {
    RunKeepsSolo(c, START, me, steps);
    var w := RunSteps(c, START, steps);
    if k in w.db.transfers { assert PutOk(w, me, k); }
  }

  lemma LastLeaseSwept(c: Checks, db: Db, worker: string, at: Instant, pk: Digest)
    requires !db.killSwitch && worker != "" && pk in db.transfers
    requires db.transfers[pk].status.Authorized? && Exhausted(db.transfers[pk]) && LeaseFree(db.transfers[pk], at)
    ensures pk in Next(c, db, ClaimTransfer(worker, 300, at)).transfers
    ensures Next(c, db, ClaimTransfer(worker, 300, at)).transfers[pk].status.Failed?
  {
    NextTransferRow(c, db, ClaimTransfer(worker, 300, at), pk);
  }

  /**
   The crash-freedom is needed: a worker on its last attempt that dies right after its accepted put
   leaves an object at the provider and, once the lease expires, a FAILED row.
   */
  lemma CrashAfterPutFails(
    c: Checks, w: World, me: string, other: string, response: Response, at: Instant)
    requires WorldInv(c, w) && PcOf(w, me).MayUpload? && PcOf(w, other).Idle? && other != me && other != ""
    requires !w.db.killSwitch
    requires var pk := PcOf(w, me).pk; var row := w.db.transfers[pk];
      && pk in w.db.transfers && HeldBy(row, me) && Exhausted(row) && row.lease.value.expiresAt <= at
      && KeyOf(row.plan) !in w.objects && ResponseOk(c, row.plan, response)
    ensures var pk := PcOf(w, me).pk;
      var after := RunSteps(c, w, [Put(me, Answered(response)), Crash(me), Step.Claim(other, 300, at)]);
      && pk in after.db.transfers && after.db.transfers[pk].status.Failed?
      && PutsOf(after, pk) > 0 && KeyOf(w.db.transfers[pk].plan) in after.objects
  {
    var pk := PcOf(w, me).pk;
    var s1, s2, s3 := Put(me, Answered(response)), Crash(me), Step.Claim(other, 300, at);
    ThreeSteps(c, w, s1, s2, s3);
    AcceptedPutThenCrash(c, w, me, response);
    LastLeaseSwept(c, w.db, other, at, pk);
    hide NextWorld, Next, RunSteps, WorldInv, ResponseOk;
    ClaimsFromIdle(c, NextWorld(c, NextWorld(c, w, s1), s2), other, at);
  }

  lemma ThreeSteps(c: Checks, w: World, s1: Step, s2: Step, s3: Step)
    ensures RunSteps(c, w, [s1, s2, s3]) == NextWorld(c, NextWorld(c, NextWorld(c, w, s1), s2), s3)
  {
    hide NextWorld;
    assert RunSteps(c, w, []) == w;
    RunSnoc(c, w, [], s1);
    RunSnoc(c, w, [s1], s2);
    RunSnoc(c, w, [s1, s2], s3);
    assert [] + [s1] == [s1] && [s1] + [s2] == [s1, s2] && [s1, s2] + [s3] == [s1, s2, s3];
  }

  lemma AcceptedPutThenCrash(c: Checks, w: World, me: string, response: Response)
    requires PcOf(w, me).MayUpload? && PcOf(w, me).pk in w.db.transfers
    requires KeyOf(w.db.transfers[PcOf(w, me).pk].plan) !in w.objects
    ensures var pk := PcOf(w, me).pk;
      var w2 := NextWorld(c, NextWorld(c, w, Put(me, Answered(response))), Crash(me));
      && w2.db == w.db && PutsOf(w2, pk) > 0 && KeyOf(w.db.transfers[pk].plan) in w2.objects
      && forall other | other != me :: PcOf(w2, other) == PcOf(w, other)
  {
  }

  lemma ClaimsFromIdle(c: Checks, w: World, other: string, at: Instant)
    requires PcOf(w, other).Idle?
    ensures var w' := NextWorld(c, w, Step.Claim(other, 300, at));
      w'.db == Next(c, w.db, ClaimTransfer(other, 300, at)) && w'.objects == w.objects && w'.puts == w.puts
  {
  }
}
