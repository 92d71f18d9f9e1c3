/**
 Any number of restore workers that do not crash: as long as no claim comes after the end of a lease
 that its worker is still working under, every file at a destination belongs to a row that is RESTORED
 or held for reconciliation, or to a worker that is about to settle it. One worker alone is always in
 time, so over its runs an AUTHORIZED or FAILED row has no file.
 */
module TimelyRestores {
  import opened Basics
  import opened Evidence
  import opened Outbox
  import opened Store
  import opened RestoreProtocol
  import StoreClass

  /** No worker dies, and a claim finds every lease that is being worked under unexpired. */
  ghost predicate Timely(w: World, s: Step) {
    && !s.Crash?
    && (s.Claim? && PcOf(w, s.worker).Idle? ==> forall x | x in w.pcs && Working(w, x) ::
          s.at < w.db.restores[w.pcs[x].pk].lease.value.expiresAt)
  }

  ghost predicate Working(w: World, x: string)
    requires x in w.pcs
  {
    !w.pcs[x].Idle? && w.pcs[x].pk in w.db.restores && HeldBy(w.db.restores[w.pcs[x].pk], x)
  }

  ghost predicate AllTimely(c: Checks, start: World, steps: seq<Step>) {
    steps == [] || (AllTimely(c, start, steps[..|steps| - 1])
                    && Timely(RunSteps(c, start, steps[..|steps| - 1]), steps[|steps| - 1]))
  }

  ghost predicate Settled(row: RestoreRow) {
    row.status.Completed? || row.status.ReconciliationRequired?
  }

  ghost predicate HoldsLease(w: World, x: string) {
    var pc := PcOf(w, x);
    !pc.Idle? ==> pc.pk in w.db.restores && HeldBy(w.db.restores[pc.pk], x)
  }

  /** A worker at the file of its row: it owns it, or is about to say what became of it. */
  predicate AtFile(pc: Pc, d: string, k: Digest) {
    (Owns(pc) || pc.Holding? || pc.Failing?) && pc.destination == d && pc.pk == k
  }

  ghost predicate MadeOk(w: World, d: string) {
    && d in w.made && w.made[d] in w.db.restores
    && (Settled(w.db.restores[w.made[d]]) || exists x :: AtFile(PcOf(w, x), d, w.made[d]))
  }

  ghost predicate TeamInv(c: Checks, w: World) {
    && Inv(c, w.db)
    && (forall x :: HoldsLease(w, x))
    && (forall d | d in w.files :: MadeOk(w, d))
  }

  // ---------------------------------------------------------------- rows under a transaction

  /** A transaction of anyone else leaves a leased row alone; a settled row stays so under all of them. */
  lemma OthersLeaveLease(c: Checks, db: Db, e: Event, k: Digest)
    requires k in db.restores
    ensures k in Next(c, db, e).restores
    ensures var row, row' := db.restores[k], Next(c, db, e).restores[k];
      && (IsOther(e) && row.status.Authorized? ==> row' == row)
      && (Settled(row) ==> Settled(row'))
  {
    NextRestoreRow(c, db, e, k);
  }

  /** Settling a row is the business of its own events. */
  lemma OtherRowStays(c: Checks, db: Db, e: Event, k: Digest)
    requires k in db.restores && (e.FailRestore? || e.HoldRestore? || e.CompleteRestore?) && e.pk != k
    ensures k in Next(c, db, e).restores && Next(c, db, e).restores[k] == db.restores[k]
  {
    NextRestoreRow(c, db, e, k);
  }

  lemma HeldRow(c: Checks, db: Db, me: string, k: Digest)
    requires k in db.restores && HeldBy(db.restores[k], me)
    ensures k in Next(c, db, HoldRestore(k, me)).restores
    ensures Next(c, db, HoldRestore(k, me)).restores[k].status.ReconciliationRequired?
  {
    NextRestoreRow(c, db, HoldRestore(k, me), k);
  }

  lemma FinishedRow(c: Checks, db: Db, me: string, k: Digest, done: RestoreReceipt, at: Instant)
    requires k in db.restores && HeldBy(db.restores[k], me)
    ensures k in Next(c, db, CompleteRestore(k, me, done, at)).restores
    ensures var row' := Next(c, db, CompleteRestore(k, me, done, at)).restores[k];
      if RestoreCompletes(c, db, k, me, done, at) then row'.status.Completed? else row' == db.restores[k]
  {
    NextRestoreRow(c, db, CompleteRestore(k, me, done, at), k);
  }

  /** A claim in time leaves every row alone that is being worked on. */
  lemma ClaimLeavesLeased(c: Checks, db: Db, worker: string, leaseSeconds: int, at: Instant, k: Digest)
    requires k in db.restores && db.restores[k].lease.Some? && at < db.restores[k].lease.value.expiresAt
    ensures k in Next(c, db, ClaimRestore(worker, leaseSeconds, at)).restores
    ensures Next(c, db, ClaimRestore(worker, leaseSeconds, at)).restores[k] == db.restores[k]
  {
    NextRestoreRow(c, db, ClaimRestore(worker, leaseSeconds, at), k);
  }

  lemma ClaimedRow(c: Checks, w: World, s: Step)
    requires s.Claim? && PcOf(w, s.worker).Idle? && !ClaimPc(w, s).Idle?
    ensures var k, e := ClaimPc(w, s).pk, ClaimRestore(s.worker, s.leaseSeconds, s.at);
      k in Next(c, w.db, e).restores && HeldBy(Next(c, w.db, e).restores[k], s.worker)
  {
    var k := ClaimPc(w, s).pk;
    NextRestoreRow(c, w.db, ClaimRestore(s.worker, s.leaseSeconds, s.at), k);
    StoreClass.PickNotSwept(w.db.restores, s.at);
  }

  // ---------------------------------------------------------------- one step

  lemma OtherKeepsTeam(c: Checks, w: World, e: Event)
    requires TeamInv(c, w)
    ensures TeamInv(c, NextWorld(c, w, Other(e)))
  {
    hide Next, Inv, IsOther, Settled;
    var w' := NextWorld(c, w, Other(e));
    assert w' == if IsOther(e) then w.(db := Next(c, w.db, e)) else w;
    if IsOther(e) {
      NextKeepsInv(c, w.db, e);
      forall x ensures HoldsLease(w', x) {
        assert HoldsLease(w, x);
        if !PcOf(w, x).Idle? { OthersLeaveLease(c, w.db, e, PcOf(w, x).pk); }
      }
      forall d | d in w'.files ensures MadeOk(w', d) {
        assert MadeOk(w, d);
        OthersLeaveLease(c, w.db, e, w.made[d]);
        hide NextWorld;
        assert forall x :: PcOf(w', x) == PcOf(w, x);
      }
    }
  }

  /** The rows that others work on are not touched by this worker's transaction. */
  lemma OthersRowStays(c: Checks, w: World, s: Step, x: string)
    requires TeamInv(c, w) && Timely(w, s) && !s.Other? && x != s.worker && !PcOf(w, x).Idle?
    ensures var k, db' := PcOf(w, x).pk, NextWorld(c, w, s).db;
      k in w.db.restores && k in db'.restores && db'.restores[k] == w.db.restores[k]
  {
    hide Next, Inv, MadeOk, NextPc, NextFiles, Publishes;
    assert HoldsLease(w, x) && HoldsLease(w, s.worker);
    var k := PcOf(w, x).pk;
    if Transaction(w, s).Some? {
      if s.Claim? {
        assert Working(w, x);
        ClaimLeavesLeased(c, w.db, s.worker, s.leaseSeconds, s.at, k);
      } else {
        OtherRowStays(c, w.db, Transaction(w, s).value, k);
      }
    }
  }

  /** The worker that moved holds the lease of its row. */
  lemma MoverHolds(c: Checks, w: World, s: Step)
    requires TeamInv(c, w) && Timely(w, s) && !s.Other? && !NextPc(c, w, s).Idle?
    ensures var k, db' := NextPc(c, w, s).pk, NextWorld(c, w, s).db;
      k in db'.restores && HeldBy(db'.restores[k], s.worker)
  {
    hide Next, Inv, MadeOk, NextFiles, Publishes, RestoreCompletes, BuildRestoreReceipt, InTime, Guard, ClaimPc;
    hide PlannedObject, Published, Links;
    var me, pc := s.worker, PcOf(w, s.worker);
    assert HoldsLease(w, me);
    MoverKeeps(c, w, s);
    if s.Claim? && pc.Idle? {
      ClaimedRow(c, w, s);
      ClaimIsFree(w, s);
    } else if s.Finish? && pc.Receipted? {
      FinishedRow(c, w.db, me, pc.pk, pc.receipt, s.at);
    }
  }

  lemma ClaimIsFree(w: World, s: Step)
    requires s.Claim? && PcOf(w, s.worker).Idle? && !ClaimPc(w, s).Idle?
    ensures Transaction(w, s) == Some(ClaimRestore(s.worker, s.leaseSeconds, s.at))
  {
    hide RestorePick;
  }

  /** A worker at its file stays there until the row is settled or the file is gone. */
  lemma MoverLeaves(c: Checks, w: World, s: Step, d: string, k: Digest)
    requires TeamInv(c, w) && !s.Other? && !s.Crash? && AtFile(PcOf(w, s.worker), d, k)
    requires d in w.files && d in NextFiles(w, s)
    ensures k in NextWorld(c, w, s).db.restores
    ensures AtFile(NextPc(c, w, s), d, k) || Settled(NextWorld(c, w, s).db.restores[k])
  {
    hide Next, Inv, MadeOk, Publishes, RestoreCompletes, BuildRestoreReceipt, InTime, Guard, ClaimPc, PlannedObject;
    hide Published, Links;
    var me, pc := s.worker, PcOf(w, s.worker);
    assert HoldsLease(w, me);
    RowMoves(c, w, s, k);
    MoverKeeps(c, w, s);
    if s.Finish? && pc.Receipted? {
      FinishedRow(c, w.db, me, k, pc.receipt, s.at);
    } else if (s.Hold? && pc.Holding?) || (s.Fail? && pc.Failing?) {
      HeldRow(c, w.db, me, k);
    }
  }

  lemma MadeStays(c: Checks, w: World, s: Step, d: string)
    requires TeamInv(c, w) && Timely(w, s) && !s.Other? && d in NextWorld(c, w, s).files
    ensures MadeOk(NextWorld(c, w, s), d)
  {
    hide Next, Inv, MadeOk, Publishes, NextPc, Transaction, HoldsLease;
    var w' := NextWorld(c, w, s);
    forall x | x != s.worker ensures PcOf(w', x) == PcOf(w, x) {}
    assert PcOf(w', s.worker) == NextPc(c, w, s);
    if Links(w, s) && d == PcOf(w, s.worker).destination {
      LinkedNow(c, w, s);
    } else {
      MadeIs(c, w, d);
      var k := w.made[d];
      OldFileStays(c, w, s, d, k);
    }
  }

  lemma MadeIs(c: Checks, w: World, d: string)
    requires TeamInv(c, w) && d in w.files
    ensures d in w.made && w.made[d] in w.db.restores
  {
    hide Inv, HoldsLease;
  }

  lemma LinkedNow(c: Checks, w: World, s: Step)
    requires TeamInv(c, w) && Links(w, s)
    ensures MadeOk(NextWorld(c, w, s), PcOf(w, s.worker).destination)
  {
    hide Next, Inv, Publishes;
    var w', pc := NextWorld(c, w, s), PcOf(w, s.worker);
    assert HoldsLease(w, s.worker);
    assert AtFile(PcOf(w', s.worker), pc.destination, pc.pk);
  }

  lemma OldFileStays(c: Checks, w: World, s: Step, d: string, k: Digest)
    requires TeamInv(c, w) && Timely(w, s) && !s.Other? && d in w.files && d in NextFiles(w, s)
    requires d in w.made && w.made[d] == k && !(Links(w, s) && d == PcOf(w, s.worker).destination)
    ensures MadeOk(NextWorld(c, w, s), d)
  {
    hide Next, Inv, Publishes, NextPc, Transaction, HoldsLease, NextFiles;
    var w' := NextWorld(c, w, s);
    assert MadeOk(w, d);
    RowMoves(c, w, s, k);
    if Settled(w.db.restores[k]) {
      SettledStays(c, w, s, k);
    } else {
      var x :| AtFile(PcOf(w, x), d, k);
      if x == s.worker {
        MoverLeaves(c, w, s, d, k);
      }
      assert AtFile(PcOf(w', x), d, k) || Settled(w'.db.restores[k]);
    }
  }

  lemma SettledStays(c: Checks, w: World, s: Step, k: Digest)
    requires k in w.db.restores && Settled(w.db.restores[k])
    ensures k in NextWorld(c, w, s).db.restores && Settled(NextWorld(c, w, s).db.restores[k])
  {
    hide Next, NextPc, NextFiles, Publishes;
    if Transaction(w, s).Some? { OthersLeaveLease(c, w.db, Transaction(w, s).value, k); }
  }

  lemma WhereIs(c: Checks, w: World, s: Step, x: string)
    requires !s.Other?
    ensures PcOf(NextWorld(c, w, s), x) == if x == s.worker then NextPc(c, w, s) else PcOf(w, x)
  {
    hide Next, NextPc, Transaction, NextFiles, Links, Publishes;
  }

  lemma StepKeepsInv(c: Checks, w: World, s: Step)
    requires Inv(c, w.db)
    ensures Inv(c, NextWorld(c, w, s).db)
  {
    hide Next, Inv, NextPc, Transaction, NextFiles, Links, Publishes;
    if Transaction(w, s).Some? { NextKeepsInv(c, w.db, Transaction(w, s).value); }
  }

  lemma LeaseStays(c: Checks, w: World, s: Step, x: string)
    requires TeamInv(c, w) && Timely(w, s) && !s.Other?
    ensures HoldsLease(NextWorld(c, w, s), x)
  {
    hide NextWorld, Inv, MadeOk, NextPc, Timely;
    WhereIs(c, w, s, x);
    assert HoldsLease(w, x);
    if x == s.worker {
      if !NextPc(c, w, s).Idle? { MoverHolds(c, w, s); }
    } else if !PcOf(w, x).Idle? {
      OthersRowStays(c, w, s, x);
    }
  }

  lemma StepKeepsTeam(c: Checks, w: World, s: Step)
    requires TeamInv(c, w) && Timely(w, s)
    ensures TeamInv(c, NextWorld(c, w, s))
  {
    hide NextWorld, Inv, MadeOk, HoldsLease, Timely;
    if s.Other? {
      OtherKeepsTeam(c, w, s.e);
    } else {
      StepKeepsInv(c, w, s);
      forall x ensures HoldsLease(NextWorld(c, w, s), x) { LeaseStays(c, w, s, x); }
      forall d | d in NextWorld(c, w, s).files ensures MadeOk(NextWorld(c, w, s), d) { MadeStays(c, w, s, d); }
    }
  }

  lemma {:induction false} RunKeepsTeam(c: Checks, steps: seq<Step>)
    requires AllTimely(c, START, steps)
    ensures TeamInv(c, RunSteps(c, START, steps))
  {
    hide NextWorld, Timely;
    if steps != [] {
      RunKeepsTeam(c, steps[..|steps| - 1]);
      StepKeepsTeam(c, RunSteps(c, START, steps[..|steps| - 1]), steps[|steps| - 1]);
    }
  }

  /**
   Timely runs of any number of workers: a file at a destination is known with its row, and once no
   worker is at that row it is RESTORED or RECONCILIATION_REQUIRED. So an AUTHORIZED or FAILED row
   that nobody works on has no file.
   */
  lemma TimelyFilesSettled(c: Checks, steps: seq<Step>, d: string)
    requires AllTimely(c, START, steps) && d in RunSteps(c, START, steps).files
    ensures var w := RunSteps(c, START, steps);
      && d in w.made && w.made[d] in w.db.restores
      && ((forall x | x in w.pcs && !w.pcs[x].Idle? :: w.pcs[x].pk != w.made[d]) ==>
            Settled(w.db.restores[w.made[d]]))
  {
    hide RunSteps, Inv, HoldsLease, AllTimely;
    RunKeepsTeam(c, steps);
    assert MadeOk(RunSteps(c, START, steps), d);
  }

  // ---------------------------------------------------------------- one worker

  /** Steps of worker `me`, without crashes, and transactions that belong to no restore worker. */
  ghost predicate AllMine(steps: seq<Step>, me: string) {
    forall s | s in steps :: !s.Crash? && (s.Other? || s.worker == me)
  }

  /** One worker alone is always in time: it claims only when it holds nothing. */
  lemma {:induction false} SoloIsTimely(c: Checks, me: string, steps: seq<Step>)
    requires AllMine(steps, me)
    ensures AllTimely(c, START, steps)
    ensures forall x | x != me :: PcOf(RunSteps(c, START, steps), x).Idle?
  {
    hide NextPc, Transaction, NextFiles, Publishes, Links, Next;
    if steps != [] {
      var before, last := steps[..|steps| - 1], steps[|steps| - 1];
      SoloIsTimely(c, me, before);
      var w := RunSteps(c, START, before);
      forall x | x != me ensures PcOf(NextWorld(c, w, last), x).Idle? { assert PcOf(w, x).Idle?; }
      assert forall x | x in w.pcs :: w.pcs[x] == PcOf(w, x);
    }
  }

  /**
   Single-worker runs without crashes, of any length and interleaved with anything else: whenever the
   worker is idle, every file at a destination belongs to a RESTORED or RECONCILIATION_REQUIRED row, an
   AUTHORIZED or FAILED row has none, and a RESTORED row's file is the planned backup.
   */
  lemma SoloRestores(c: Checks, me: string, steps: seq<Step>)
    requires AllMine(steps, me) && PcOf(RunSteps(c, START, steps), me).Idle?
    ensures var w := RunSteps(c, START, steps);
      && (forall d | d in w.files ::
            d in w.made && w.made[d] in w.db.restores && Settled(w.db.restores[w.made[d]]))
      && (forall k, d | k in w.db.restores && (w.db.restores[k].status.Authorized? || w.db.restores[k].status.Failed?)
            && d in w.files && d in w.made :: w.made[d] != k)
      && (forall k | k in w.db.restores && w.db.restores[k].status.Completed? ::
            k in w.published && Published(c, w.files, w.db.restores[k].plan, w.published[k]))
  {
    SoloIsTimely(c, me, steps);
    var w := RunSteps(c, START, steps);
    assert forall x | x in w.pcs :: w.pcs[x] == PcOf(w, x);
    hide RunSteps, AllTimely, Published;
    forall d | d in w.files ensures d in w.made && w.made[d] in w.db.restores && Settled(w.db.restores[w.made[d]]) {
      TimelyFilesSettled(c, steps, d);
    }
    forall k | k in w.db.restores && w.db.restores[k].status.Completed?
      ensures k in w.published && Published(c, w.files, w.db.restores[k].plan, w.published[k])
    {
      RestoredMeansPublished(c, steps, k);
    }
  }
}
