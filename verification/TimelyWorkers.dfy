/**
 Any number of transfer workers that do not crash: as long as no claim comes after the end of a lease
 that its worker is still working under, each plan sees at most one put, and a put is always settled.
 Without that condition, or with a crash, an object can be left behind by a FAILED row: both runs are
 given from the empty store on.
 */
module TimelyWorkers {
  import opened Basics
  import opened Evidence
  import opened Outbox
  import opened Store
  import opened TransferProtocol
  import opened SingleWorker
  import StoreClass

  /** No worker dies, and a claim finds every lease that is being worked under unexpired. */
  ghost predicate Timely(w: World, s: Step) {
    && !s.Crash?
    && (s.Claim? && PcOf(w, s.worker).Idle? ==> forall x | x in w.pcs && Working(w, x) ::
          s.at < w.db.transfers[w.pcs[x].pk].lease.value.expiresAt)
  }

  ghost predicate Working(w: World, x: string)
    requires x in w.pcs
  {
    !w.pcs[x].Idle? && w.pcs[x].pk in w.db.transfers && HeldBy(w.db.transfers[w.pcs[x].pk], x)
  }

  ghost predicate AllTimely(c: Checks, start: World, steps: seq<Step>) {
    steps == [] || (AllTimely(c, start, steps[..|steps| - 1])
                    && Timely(RunSteps(c, start, steps[..|steps| - 1]), steps[|steps| - 1]))
  }

  /** Some worker is between a put for this plan and its settlement. */
  ghost predicate AnyAfterPut(w: World, k: Digest) {
    exists x :: x in w.pcs && AfterPut(w.pcs[x], k)
  }

  ghost predicate TeamPutOk(w: World, k: Digest)
    requires k in w.db.transfers
  {
    && PutsOf(w, k) <= 1
    && (PutsOf(w, k) == 1 <==> Settled(w.db.transfers[k]) || AnyAfterPut(w, k))
  }

  ghost predicate TeamInv(c: Checks, w: World) {
    && Inv(c, w.db)
    && (forall x | x in w.pcs :: HoldsLease(w, x))
    && (forall k | k in w.db.transfers :: TeamPutOk(w, k))
    && (forall k | k in w.puts :: k in w.db.transfers)
  }

  /** Every worker but one is where it was, and still holds the lease it works under. */
  ghost predicate OthersSame(w: World, w': World, me: string) {
    forall x | x != me :: PcOf(w', x) == PcOf(w, x) && (x in w'.pcs ==> x in w.pcs) && HoldsLease(w', x)
  }

  /** The invariant from its parts, when no put was made and the rows are the same ones. */
  lemma ReassembleTeam(c: Checks, w: World, w': World, me: string)
    requires TeamInv(c, w) && Inv(c, w'.db) && HoldsLease(w', me) && OthersSame(w, w', me)
    requires w'.puts == w.puts && w'.db.transfers.Keys == w.db.transfers.Keys
    requires forall k | k in w.db.transfers ::
      (Settled(w'.db.transfers[k]) || AfterPut(PcOf(w', me), k)) ==
      (Settled(w.db.transfers[k]) || AfterPut(PcOf(w, me), k))
    ensures TeamInv(c, w')
  {
    hide Inv, HoldsLease, Settled;
    forall k | k in w'.db.transfers ensures TeamPutOk(w', k) {
      assert TeamPutOk(w, k);
      AfterPutSplit(w, k, me);
      AfterPutSplit(w', k, me);
      assert (exists x :: x != me && AfterPut(PcOf(w', x), k)) <==> (exists x :: x != me && AfterPut(PcOf(w, x), k));
    }
    forall x | x in w'.pcs ensures HoldsLease(w', x) {
      assert x != me ==> PcOf(w', x) == PcOf(w, x);
    }
  }

  lemma AfterPutSplit(w: World, k: Digest, me: string)
    ensures AnyAfterPut(w, k) <==> AfterPut(PcOf(w, me), k) || exists x :: x != me && AfterPut(PcOf(w, x), k)
  {
    if AnyAfterPut(w, k) {
      var x :| x in w.pcs && AfterPut(w.pcs[x], k);
      assert x != me ==> AfterPut(PcOf(w, x), k);
    }
    if AfterPut(PcOf(w, me), k) { assert me in w.pcs; }
    if x :| x != me && AfterPut(PcOf(w, x), k) { assert x in w.pcs; }
  }

  /** Workers hold the leases of different rows. */
  lemma LeasesApart(w: World, x: string, y: string)
    requires HoldsLease(w, x) && HoldsLease(w, y) && x != y && !PcOf(w, x).Idle? && !PcOf(w, y).Idle?
    ensures PcOf(w, x).pk != PcOf(w, y).pk
  {
  }

  lemma AllHoldLeases(c: Checks, w: World, x: string)
    requires TeamInv(c, w)
    ensures HoldsLease(w, x)
  {
    hide Inv, TeamPutOk;
  }

  // ---------------------------------------------------------------- one step

  lemma OtherKeepsTeam(c: Checks, w: World, e: Event)
    requires TeamInv(c, w) && IsOther(e)
    ensures TeamInv(c, NextWorld(c, w, Other(e)))
  {
    hide Next, Inv, IsOther, NextWorld, TeamPutOk;
    var w' := w.(db := Next(c, w.db, e));
    OtherMove(c, w, e);
    NextKeepsInv(c, w.db, e);
    forall x | x in w'.pcs ensures HoldsLease(w', x) {
      if !w.pcs[x].Idle? { OthersLeaveLease(c, w.db, e, w.pcs[x].pk); }
    }
    forall k | k in w'.db.transfers ensures TeamPutOk(w', k) { OtherKeepsTeamPut(c, w, e, k); }
    forall k | k in w'.puts ensures k in w'.db.transfers { OthersLeaveLease(c, w.db, e, k); }
  }

  lemma OtherKeepsTeamPut(c: Checks, w: World, e: Event, k: Digest)
    requires TeamInv(c, w) && IsOther(e) && k in Next(c, w.db, e).transfers
    ensures TeamPutOk(w.(db := Next(c, w.db, e)), k)
  {
    hide Next, Inv, IsOther;
    if k in w.db.transfers {
      OthersLeaveLease(c, w.db, e, k);
      assert TeamPutOk(w, k);
    } else {
      NewRowUnsettled(c, w.db, e, k);
      assert forall x | x in w.pcs :: HoldsLease(w, x);
    }
  }

  lemma QuietKeepsTeam(c: Checks, w: World, s: Step)
    requires TeamInv(c, w) && !s.Crash? && !s.Other? && Transaction(w, s).None?
    ensures TeamInv(c, NextWorld(c, w, s))
  {
    var me, w' := s.worker, NextWorld(c, w, s);
    AllHoldLeases(c, w, me);
    QuietMove(c, w, me, s);
    forall x | x != me ensures PcOf(w', x) == PcOf(w, x) && (x in w'.pcs ==> x in w.pcs) { OnlyOneMoves(c, w, s, x); }
    hide NextWorld, Inv, Transaction, TeamPutOk;
    forall x | x in w'.pcs ensures HoldsLease(w', x) {
      if x != me { AllHoldLeases(c, w, x); }
    }
    forall k | k in w'.db.transfers ensures TeamPutOk(w', k) { QuietKeepsTeamPut(c, w, s, k); }
  }

  lemma OnlyOneMoves(c: Checks, w: World, s: Step, x: string)
    requires !s.Other? && x != s.worker
    ensures PcOf(NextWorld(c, w, s), x) == PcOf(w, x) && (x in NextWorld(c, w, s).pcs ==> x in w.pcs)
  {
    hide Next, Guard, ResponseOk, StoredUploadPlanOk, UploadReceiptOk, TransferClaimable, TransferCompletes;
  }

  lemma QuietKeepsTeamPut(c: Checks, w: World, s: Step, k: Digest)
    requires TeamInv(c, w) && !s.Crash? && !s.Other? && Transaction(w, s).None? && k in w.db.transfers
    ensures NextWorld(c, w, s).db == w.db && TeamPutOk(NextWorld(c, w, s), k)
  {
    hide NextWorld, Inv, Transaction, HoldsLease, TeamPutOk, AnyAfterPut;
    var me, w' := s.worker, NextWorld(c, w, s);
    AllHoldLeases(c, w, me);
    QuietMove(c, w, me, s);
    forall x | x != me ensures PcOf(w', x) == PcOf(w, x) { OnlyOneMoves(c, w, s, x); }
    assert TeamPutOk(w, k);
    NoOneElseAt(c, w, me);
    QuietPutCounts(w, w', me, k, s.Put? && PcOf(w, me).MayUpload?);
  }

  lemma NoOneElseAt(c: Checks, w: World, me: string)
    requires TeamInv(c, w)
    ensures !PcOf(w, me).Idle? ==>
      PcOf(w, me).pk in w.db.transfers && !Settled(w.db.transfers[PcOf(w, me).pk])
      && forall x | x != me :: !AfterPut(PcOf(w, x), PcOf(w, me).pk)
  {
    hide Inv, TeamPutOk;
    AllHoldLeases(c, w, me);
    forall x | x != me && !PcOf(w, me).Idle? ensures !AfterPut(PcOf(w, x), PcOf(w, me).pk) {
      AllHoldLeases(c, w, x);
      if !PcOf(w, x).Idle? { LeasesApart(w, x, me); }
    }
  }

  /** The count of one plan over a step without a transaction, which is a put or not. */
  lemma QuietPutCounts(w: World, w': World, me: string, k: Digest, put: bool)
    requires k in w.db.transfers && w'.db == w.db && TeamPutOk(w, k)
    requires forall x | x != me :: PcOf(w', x) == PcOf(w, x)
    requires !PcOf(w, me).Idle? ==>
      PcOf(w, me).pk in w.db.transfers && !Settled(w.db.transfers[PcOf(w, me).pk])
      && forall x | x != me :: !AfterPut(PcOf(w, x), PcOf(w, me).pk)
    requires w'.pcs == w.pcs || (!PcOf(w, me).Idle? && !PcOf(w', me).Idle? && PcOf(w', me).pk == PcOf(w, me).pk)
    requires
      if put then
        && PcOf(w, me).MayUpload? && AfterPut(PcOf(w', me), PcOf(w, me).pk)
        && w'.puts == w.puts[PcOf(w, me).pk := PutsOf(w, PcOf(w, me).pk) + 1]
      else w'.puts == w.puts && (AfterPut(PcOf(w, me), k) <==> AfterPut(PcOf(w', me), k))
    ensures TeamPutOk(w', k)
  {
    AfterPutSplit(w, k, me);
    AfterPutSplit(w', k, me);
    hide Settled, AnyAfterPut;
    assert (exists x :: x != me && AfterPut(PcOf(w', x), k)) <==> (exists x :: x != me && AfterPut(PcOf(w, x), k));
  }

  /** A claim in time leaves every row alone that is being worked on. */
  lemma ClaimLeavesLeased(c: Checks, db: Db, worker: string, leaseSeconds: int, at: Instant, k: Digest)
    requires k in db.transfers && db.transfers[k].lease.Some? && at < db.transfers[k].lease.value.expiresAt
    ensures k in Next(c, db, ClaimTransfer(worker, leaseSeconds, at)).transfers
    ensures Next(c, db, ClaimTransfer(worker, leaseSeconds, at)).transfers[k] == db.transfers[k]
  {
    NextTransferRow(c, db, ClaimTransfer(worker, leaseSeconds, at), k);
  }

  /** Where a claim leaves its worker. */
  ghost function ClaimPc(w: World, s: Step): Pc
    requires s.Claim?
  {
    var pick := First(w.db.transfers, TransferClaimable(w.db.transfers, s.at));
    if StoreClass.ClaimProceeds(w.db, s.worker, s.leaseSeconds) && pick.Some? then Claimed(pick.value) else Idle
  }

  lemma ClaimIs(c: Checks, w: World, s: Step)
    requires s.Claim? && PcOf(w, s.worker).Idle?
    ensures var db' := Next(c, w.db, ClaimTransfer(s.worker, s.leaseSeconds, s.at));
      && NextWorld(c, w, s) == At(w.(db := db'), s.worker, ClaimPc(w, s))
      && (ClaimPc(w, s).Idle? || ClaimPc(w, s).Claimed?)
  {
    hide Next;
  }

  lemma ClaimRows(c: Checks, w: World, s: Step, k: Digest)
    requires s.Claim? && k in w.db.transfers
    ensures var db' := Next(c, w.db, ClaimTransfer(s.worker, s.leaseSeconds, s.at));
      && k in db'.transfers && (Settled(db'.transfers[k]) <==> Settled(w.db.transfers[k]))
      && (ClaimPc(w, s) == Claimed(k) ==> HeldBy(db'.transfers[k], s.worker))
  {
    ClaimRow(c, w.db, s.worker, s.leaseSeconds, s.at, k);
    hide Next, TransferClaimable, Settled;
  }

  lemma ClaimPicksRow(w: World, s: Step)
    requires s.Claim? && ClaimPc(w, s).Claimed?
    ensures ClaimPc(w, s).pk in w.db.transfers
  {
  }

  lemma ClaimKeepsTeam(c: Checks, w: World, s: Step)
    requires TeamInv(c, w) && s.Claim? && PcOf(w, s.worker).Idle? && Timely(w, s)
    ensures TeamInv(c, NextWorld(c, w, s))
  {
    hide Next, Inv, ClaimPc, NextWorld, TeamPutOk, Settled;
    var me, e, w' := s.worker, ClaimTransfer(s.worker, s.leaseSeconds, s.at), NextWorld(c, w, s);
    ClaimIs(c, w, s);
    NextKeepsInv(c, w.db, e);
    NoNewTransfers(c, w.db, e);
    forall k | k in w.db.transfers
      ensures Settled(w'.db.transfers[k]) <==> Settled(w.db.transfers[k])
      ensures ClaimPc(w, s) == Claimed(k) ==> HeldBy(w'.db.transfers[k], me)
    {
      ClaimRows(c, w, s, k);
    }
    if ClaimPc(w, s).Claimed? { ClaimPicksRow(w, s); }
    forall x | x != me ensures PcOf(w', x) == PcOf(w, x) && HoldsLease(w', x) {
      AllHoldLeases(c, w, x);
      if !PcOf(w, x).Idle? {
        assert Working(w, x);
        ClaimLeavesLeased(c, w.db, me, s.leaseSeconds, s.at, PcOf(w, x).pk);
      }
    }
    ReassembleTeam(c, w, w', me);
  }

  /** Settling a row changes no row that someone else works on. */
  lemma SettlementKeepsTeam(c: Checks, w: World, s: Step, e: Event, pc': Pc)
    requires TeamInv(c, w) && !s.Other? && !s.Claim? && Transaction(w, s) == Some(e) && !e.StageTransfer?
    requires var me := s.worker;
      && !PcOf(w, me).Idle? && NextWorld(c, w, s) == At(w.(db := Next(c, w.db, e)), me, pc')
      && (!pc'.Idle? ==> pc'.pk == PcOf(w, me).pk)
    requires forall k | k in w.db.transfers ::
      && k in Next(c, w.db, e).transfers
      && (k != PcOf(w, s.worker).pk || !pc'.Idle? ==> Next(c, w.db, e).transfers[k] == w.db.transfers[k])
      && (Settled(Next(c, w.db, e).transfers[k]) || AfterPut(pc', k)
          <==> Settled(w.db.transfers[k]) || AfterPut(PcOf(w, s.worker), k))
    ensures TeamInv(c, NextWorld(c, w, s))
  {
    hide Next, Inv, NextWorld, Transaction, TeamPutOk;
    var me, w' := s.worker, NextWorld(c, w, s);
    NextKeepsInv(c, w.db, e);
    NoNewTransfers(c, w.db, e);
    AllHoldLeases(c, w, me);
    forall x | x != me ensures PcOf(w', x) == PcOf(w, x) && HoldsLease(w', x) {
      AllHoldLeases(c, w, x);
      if !PcOf(w, x).Idle? { LeasesApart(w, x, me); }
    }
    ReassembleTeam(c, w, w', me);
  }

  lemma HoldKeepsTeam(c: Checks, w: World, me: string)
    requires TeamInv(c, w) && PcOf(w, me).Holding?
    ensures TeamInv(c, NextWorld(c, w, Step.Hold(me)))
  {
    hide Next, Inv, TeamPutOk;
    AllHoldLeases(c, w, me);
    var pk := PcOf(w, me).pk;
    forall k | k in w.db.transfers
      ensures k in Next(c, w.db, HoldTransfer(pk, me)).transfers
      ensures k != pk ==> Next(c, w.db, HoldTransfer(pk, me)).transfers[k] == w.db.transfers[k]
      ensures Settled(Next(c, w.db, HoldTransfer(pk, me)).transfers[k]) <==> Settled(w.db.transfers[k]) || k == pk
    {
      HoldRow(c, w.db, me, pk, k);
    }
    SettlementKeepsTeam(c, w, Step.Hold(me), HoldTransfer(pk, me), Idle);
  }

  lemma FailKeepsTeam(c: Checks, w: World, me: string, at: Instant)
    requires TeamInv(c, w) && PcOf(w, me).Failing?
    ensures TeamInv(c, NextWorld(c, w, Step.Fail(me, at)))
  {
    hide Next, Inv, TeamPutOk;
    AllHoldLeases(c, w, me);
    var pk := PcOf(w, me).pk;
    var e := FailTransfer(pk, me, RETRY_SECONDS, at);
    forall k | k in w.db.transfers
      ensures k in Next(c, w.db, e).transfers
      ensures k != pk ==> Next(c, w.db, e).transfers[k] == w.db.transfers[k]
      ensures Settled(Next(c, w.db, e).transfers[k]) <==> Settled(w.db.transfers[k])
    {
      FailRow(c, w.db, me, pk, at, k);
    }
    SettlementKeepsTeam(c, w, Step.Fail(me, at), e, Idle);
  }

  lemma FinishKeepsTeam(c: Checks, w: World, me: string, at: Instant)
    requires TeamInv(c, w) && PcOf(w, me).Receipted?
    ensures TeamInv(c, NextWorld(c, w, Finish(me, at)))
  {
    hide Next, Inv, TeamPutOk, TransferCompletes;
    AllHoldLeases(c, w, me);
    var pc := PcOf(w, me);
    var e := CompleteTransfer(pc.pk, me, pc.receipt, at);
    var ok := TransferCompletes(c, w.db, pc.pk, me, pc.receipt, at);
    forall k | k in w.db.transfers
      ensures k in Next(c, w.db, e).transfers
      ensures k != pc.pk || !ok ==> Next(c, w.db, e).transfers[k] == w.db.transfers[k]
      ensures Settled(Next(c, w.db, e).transfers[k]) <==> Settled(w.db.transfers[k]) || (k == pc.pk && ok)
    {
      FinishRow(c, w.db, me, pc.pk, pc.receipt, at, k);
    }
    SettlementKeepsTeam(c, w, Finish(me, at), e, if ok then Idle else Holding(pc.pk));
  }

  lemma StepKeepsTeam(c: Checks, w: World, s: Step)
    requires TeamInv(c, w) && Timely(w, s)
    ensures TeamInv(c, NextWorld(c, w, s))
  {
    if s.Other? {
      if IsOther(s.e) { OtherKeepsTeam(c, w, s.e); }
    } else if Transaction(w, s).Some? {
      match s
      case Claim(_, _, _) => ClaimKeepsTeam(c, w, s);
      case Finish(me, at) => FinishKeepsTeam(c, w, me, at);
      case Hold(me) => HoldKeepsTeam(c, w, me);
      case Fail(me, at) => FailKeepsTeam(c, w, me, at);
    } else {
      QuietKeepsTeam(c, w, s);
    }
  }

  lemma {:induction false} RunKeepsTeam(c: Checks, steps: seq<Step>)
    requires AllTimely(c, START, steps)
    ensures TeamInv(c, RunSteps(c, START, steps))
  {
    hide NextWorld, Timely;
    if steps != [] {
      RunKeepsTeam(c, steps[..|steps| - 1]);
      StepKeepsTeam(c, RunSteps(c, START, steps[..|steps| - 1]), steps[|steps| - 1]);
    }
  }

  /**
   Timely runs of any number of workers: at most one put per plan ever; whenever no worker is at a
   plan, it saw a put exactly if it is COMPLETED or RECONCILIATION_REQUIRED, and an AUTHORIZED or
   FAILED one saw none.
   */
  lemma TimelyOnePut(c: Checks, steps: seq<Step>, k: Digest)
    requires AllTimely(c, START, steps)
    ensures var w := RunSteps(c, START, steps);
      && PutsOf(w, k) <= 1
      && (PutsOf(w, k) > 0 ==> k in w.db.transfers)
      && (k in w.db.transfers && (forall x | x in w.pcs && !w.pcs[x].Idle? :: w.pcs[x].pk != k) ==>
            && (PutsOf(w, k) == 1 <==> Settled(w.db.transfers[k]))
            && (w.db.transfers[k].status.Authorized? || w.db.transfers[k].status.Failed? ==> PutsOf(w, k) == 0))
  {
    RunKeepsTeam(c, steps);
    var w := RunSteps(c, START, steps);
    if k in w.db.transfers { assert TeamPutOk(w, k); }
  }

  /** One worker alone is always in time: it claims only when it holds nothing. */
  lemma {:induction false} SoloIsTimely(c: Checks, me: string, steps: seq<Step>)
    requires AllMine(steps, me)
    ensures AllTimely(c, START, steps)
    ensures forall x | x != me :: PcOf(RunSteps(c, START, steps), x).Idle?
  {
    hide NextWorld;
    if steps != [] {
      var before, last := steps[..|steps| - 1], steps[|steps| - 1];
      SoloIsTimely(c, me, before);
      var w := RunSteps(c, START, before);
      assert Mine(last, me);
      forall x | x != me ensures PcOf(NextWorld(c, w, last), x).Idle? {
        assert PcOf(w, x).Idle?;
        if last.Other? { OtherMovesNobody(c, w, last); } else { OnlyOneMoves(c, w, last, x); }
      }
      assert forall x | x in w.pcs :: w.pcs[x] == PcOf(w, x);
    }
  }

  lemma OtherMovesNobody(c: Checks, w: World, s: Step)
    requires s.Other?
    ensures NextWorld(c, w, s).pcs == w.pcs
  {
    hide Next;
  }
}
