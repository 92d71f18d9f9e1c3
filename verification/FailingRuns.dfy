/**
 Runs from the empty store on at whose end the provider holds the object and the row is FAILED: one
 with a crash after the put, and one without any crash, in which a second worker's claim finds the
 lease of the last attempt expired while its worker is between the put and the receipt
 (scripts/worker.py:94-159, sean_os/store.py:560-720).
 */
module FailingRuns {
  import opened Basics
  import opened Evidence
  import opened Outbox
  import opened Store
  import opened TransferProtocol
  import opened SingleWorker
  import opened TimelyWorkers
  import StoreClass

  /** One approved upload: its documents, its approval, what is uploaded, and when it is staged. */
  datatype Upload = Upload(
    plan: UploadPlan, package: ApprovalPackage, preflight: Preflight, approvalId: string, approval: Approval,
    artifact: seq<Byte>, response: Response, at: Instant)

  /** The documents verify and belong together; the window is open two retries after the staging. */
  predicate Ready(c: Checks, u: Upload) {
    && StoredUploadPlanOk(c, u.plan) && PackageMatches(u.plan, u.package)
    && PreflightOk(c, u.preflight) && u.preflight.body.planSha == u.plan.sha && u.preflight.body.uploadReceiptSha.None?
    && u.approval.action == TRANSFER_ACTION && u.approval.target == u.plan.body.approvalTarget
    && u.approval.scope.IAC? && u.approval.conditions == TransferConditionsOf(u.plan)
    && u.approval.status.Approved? && u.at < u.approval.expiresAt
    && u.artifact != [] && ResponseOk(c, u.plan, u.response)
    && u.plan.body.windowStart <= u.at + 2 * RETRY_SECONDS <= u.plan.body.windowEnd
  }

  /** The store holds this one transfer, and the kill switch is off. */
  ghost predicate Sole(w: World, k: Digest, row: TransferRow) {
    w.db.transfers == map[k := row] && !w.db.killSwitch
  }

  function Approving(u: Upload): seq<Step> {
    [Other(StageTransfer(u.plan, u.package, u.at)), Other(ValidateTransfer(u.plan.sha, u.preflight)),
     Other(CreateApproval(u.approvalId, u.approval)), Other(AuthorizeTransfer(u.plan.sha, u.approvalId, true, u.at))]
  }

  function FailedAttempt(me: string, at: Instant): seq<Step> {
    [Step.Claim(me, 300, at), Step.Validate(me, false, at), Step.Fail(me, at)]
  }

  function LastAttempt(u: Upload, me: string, at: Instant): seq<Step> {
    [Step.Claim(me, 300, at), Step.Validate(me, true, at), GuardEncrypt(me, at), Encrypt(me, Some(u.artifact)),
     GuardUpload(me, at), Put(me, Answered(u.response))]
  }

  /** Two attempts that fail early, and a third one up to its accepted put. */
  function FirstFailure(u: Upload, me: string): seq<Step> {
    Approving(u) + FailedAttempt(me, u.at)
  }

  function SecondFailure(u: Upload, me: string): seq<Step> {
    FirstFailure(u, me) + FailedAttempt(me, u.at + RETRY_SECONDS)
  }

  function UpToPut(u: Upload, me: string): seq<Step> {
    SecondFailure(u, me) + LastAttempt(u, me, u.at + 2 * RETRY_SECONDS)
  }

  function Crashing(u: Upload, me: string, other: string): seq<Step> {
    [Crash(me), Step.Claim(other, 300, u.at + 2 * RETRY_SECONDS + 300)]
  }

  function Overtaken(u: Upload, me: string, other: string): seq<Step> {
    var late := u.at + 2 * RETRY_SECONDS + 300;
    [Step.Claim(other, 300, late), GuardReceipt(me, late), Step.Hold(me)]
  }

  lemma {:induction false} RunConcat(c: Checks, w: World, a: seq<Step>, b: seq<Step>)
    ensures RunSteps(c, w, a + b) == RunSteps(c, RunSteps(c, w, a), b)
    decreases |b|
  {
    hide NextWorld;
    if b == [] {
      assert a + b == a;
    } else {
      assert (a + b)[..|a + b| - 1] == a + b[..|b| - 1];
      RunConcat(c, w, a, b[..|b| - 1]);
    }
  }

  lemma FirstStep(c: Checks, w: World, steps: seq<Step>)
    requires steps != []
    ensures RunSteps(c, w, steps) == RunSteps(c, NextWorld(c, w, steps[0]), steps[1..])
  {
    assert steps == [steps[0]] + steps[1..];
    RunConcat(c, w, [steps[0]], steps[1..]);
    OneStep(c, w, steps[0]);
    hide NextWorld, RunSteps;
  }

  lemma OneStep(c: Checks, w: World, s: Step)
    ensures RunSteps(c, w, [s]) == NextWorld(c, w, s)
  {
    assert [s][..0] == [];
    assert RunSteps(c, w, []) == w;
    hide NextWorld;
  }

  lemma ThreeOf(c: Checks, w: World, steps: seq<Step>)
    requires |steps| == 3
    ensures RunSteps(c, w, steps) == NextWorld(c, NextWorld(c, NextWorld(c, w, steps[0]), steps[1]), steps[2])
  {
    hide NextWorld;
    assert steps == [steps[0], steps[1], steps[2]];
    ThreeSteps(c, w, steps[0], steps[1], steps[2]);
  }

  // ---------------------------------------------------------------- one transaction on one row

  lemma SoleNext(c: Checks, db: Db, e: Event, k: Digest, row: TransferRow)
    requires db.transfers == map[k := row] && !e.StageTransfer?
    ensures k in db.transfers
    ensures Next(c, db, e).transfers == map[k := Apply(row, TransferEvent(c, db, e, k))]
  {
    NextTransferRow(c, db, e, k);
    NoNewTransfers(c, db, e);
    hide Next, TransferEvent;
    assert Next(c, db, e).transfers.Keys == {k};
  }

  lemma SoleClaimable(k: Digest, row: TransferRow, at: Instant)
    requires row.status.Authorized? && row.availableAt <= at && !Exhausted(row) && LeaseFree(row, at)
    ensures var t: Table<UploadPlan, UploadReceipt> := map[k := row];
      First(t, TransferClaimable(t, at)) == Some(k) && k !in TransferSwept(t, at)
  {
    var t: Table<UploadPlan, UploadReceipt> := map[k := row];
    assert TransferClaimable(t, at) == {k};
  }

  function Taken(row: TransferRow, me: string, at: Instant): TransferRow {
    row.(lease := Some(Lease(me, at + 300)), attempts := row.attempts + 1)
  }

  lemma SoleClaimed(c: Checks, w: World, me: string, at: Instant, k: Digest, row: TransferRow)
    requires Sole(w, k, row) && me != "" && PcOf(w, me).Idle?
    requires row.status.Authorized? && row.availableAt <= at && !Exhausted(row) && LeaseFree(row, at)
    ensures var w' := NextWorld(c, w, Step.Claim(me, 300, at));
      && Sole(w', k, Taken(row, me, at)) && w'.pcs == w.pcs[me := Claimed(k)]
      && w'.objects == w.objects && w'.puts == w.puts
  {
    var e := ClaimTransfer(me, 300, at);
    SoleClaimable(k, row, at);
    SoleNext(c, w.db, e, k, row);
    assert TransferEvent(c, w.db, e, k) == RowEvent.Claim(me, at, at + 300) by { hide Next; }
    KillSwitchStays(c, w.db, e);
    hide Next, TransferEvent, TransferClaimable, TransferSwept;
  }

  lemma KillSwitchStays(c: Checks, db: Db, e: Event)
    requires !e.SetKillSwitch?
    ensures Next(c, db, e).killSwitch == db.killSwitch
  {
  }

  /** The claim of another worker gives up a spent row whose lease has expired. */
  lemma SoleSwept(c: Checks, w: World, other: string, at: Instant, k: Digest, row: TransferRow)
    requires Sole(w, k, row) && other != "" && PcOf(w, other).Idle?
    requires row.status.Authorized? && Exhausted(row) && LeaseFree(row, at)
    ensures var w' := NextWorld(c, w, Step.Claim(other, 300, at));
      && Sole(w', k, row.(status := Failed, lease := None))
      && w'.pcs == w.pcs[other := Idle] && w'.objects == w.objects && w'.puts == w.puts
  {
    var e := ClaimTransfer(other, 300, at);
    var t := w.db.transfers;
    assert TransferClaimable(t, at) == {};
    assert k in TransferSwept(t, at);
    SoleNext(c, w.db, e, k, row);
    assert TransferEvent(c, w.db, e, k) == Exhaust(at) by { hide Next; }
    KillSwitchStays(c, w.db, e);
    hide Next, TransferEvent, TransferSwept;
  }

  // ---------------------------------------------------------------- the stages of the runs

  function ApprovedRow(u: Upload): TransferRow {
    NewRow<UploadPlan, UploadReceipt>(u.plan, u.at).(
      status := Authorized, preflight := Some(u.preflight.sha), approval := Some(u.approvalId))
  }

  lemma Approved(c: Checks, u: Upload)
    requires Ready(c, u)
    ensures var w := RunSteps(c, START, Approving(u));
      Sole(w, u.plan.sha, ApprovedRow(u)) && w.pcs == map[] && w.objects == map[] && w.puts == map[]
  {
    var steps, k := Approving(u), u.plan.sha;
    var w1 := NextWorld(c, START, steps[0]);
    var w2 := NextWorld(c, w1, steps[1]);
    var w3 := NextWorld(c, w2, steps[2]);
    var w4 := NextWorld(c, w3, steps[3]);
    FirstStep(c, START, steps);
    assert steps[1..] == [steps[1], steps[2], steps[3]];
    ThreeSteps(c, w1, steps[1], steps[2], steps[3]);
    StagedAlone(c, u);
    ValidatedAlone(c, u, w1.db);
    hide NextWorld, RunSteps;
    OtherMove(c, START, steps[0].e);
    OtherMove(c, w1, steps[1].e);
    OtherMove(c, w2, steps[2].e);
    OtherMove(c, w3, steps[3].e);
    ApprovedAlone(c, u, w2.db);
  }

  lemma StagedAlone(c: Checks, u: Upload)
    requires Ready(c, u)
    ensures var db := Next(c, EMPTY, StageTransfer(u.plan, u.package, u.at));
      db.transfers == map[u.plan.sha := NewRow(u.plan, u.at)] && !db.killSwitch && db.approvals == map[]
  {
  }

  lemma ValidatedAlone(c: Checks, u: Upload, db: Db)
    requires Ready(c, u) && db.transfers == map[u.plan.sha := NewRow(u.plan, u.at)]
    requires !db.killSwitch && db.approvals == map[]
    ensures var db' := Next(c, db, ValidateTransfer(u.plan.sha, u.preflight));
      && db'.transfers == map[u.plan.sha := NewRow<UploadPlan, UploadReceipt>(u.plan, u.at).(
           status := PreflightValidated, preflight := Some(u.preflight.sha))]
      && !db'.killSwitch && db'.approvals == map[]
  {
    var e := ValidateTransfer(u.plan.sha, u.preflight);
    SoleNext(c, db, e, u.plan.sha, NewRow(u.plan, u.at));
    KillSwitchStays(c, db, e);
    NextApprovalsAre(c, db, e);
    hide Next;
  }

  lemma ApprovedAlone(c: Checks, u: Upload, db: Db)
    requires Ready(c, u) && !db.killSwitch && db.approvals == map[]
    requires db.transfers == map[u.plan.sha := NewRow<UploadPlan, UploadReceipt>(u.plan, u.at).(
      status := PreflightValidated, preflight := Some(u.preflight.sha))]
    ensures var db1 := Next(c, db, CreateApproval(u.approvalId, u.approval));
      var db2 := Next(c, db1, AuthorizeTransfer(u.plan.sha, u.approvalId, true, u.at));
      db2.transfers == map[u.plan.sha := ApprovedRow(u)] && !db2.killSwitch
  {
    var k, create := u.plan.sha, CreateApproval(u.approvalId, u.approval);
    var authorize := AuthorizeTransfer(k, u.approvalId, true, u.at);
    SoleNext(c, db, create, k, db.transfers[k]);
    KillSwitchStays(c, db, create);
    NextApprovalsAre(c, db, create);
    var db1 := Next(c, db, create);
    hide Next;
    assert TransferEvent(c, db, create, k).Untouched?;
    SoleNext(c, db1, authorize, k, db.transfers[k]);
    KillSwitchStays(c, db1, authorize);
    assert TransferAuthorizable(db1, k, u.approvalId, true, u.at);
  }

  /** A claim whose configuration does not match is failed again, and costs an attempt. */
  lemma AttemptFails(c: Checks, w: World, me: string, at: Instant, k: Digest, row: TransferRow)
    requires Sole(w, k, row) && me != "" && PcOf(w, me).Idle?
    requires row.status.Authorized? && row.availableAt <= at && row.lease.None? && row.attempts + 1 < row.maxAttempts
    ensures var w' := RunSteps(c, w, FailedAttempt(me, at));
      && Sole(w', k, row.(attempts := row.attempts + 1, availableAt := at + RETRY_SECONDS))
      && w'.pcs == w.pcs[me := Idle] && w'.objects == w.objects && w'.puts == w.puts
  {
    hide RunSteps, Next, NextWorld;
    var steps := FailedAttempt(me, at);
    ThreeOf(c, w, steps);
    SoleClaimed(c, w, me, at, k, row);
    var w1 := NextWorld(c, w, steps[0]);
    Refused(c, w1, me, at, k);
    SoleFailed(c, At(w1, me, Failing(k)), me, at, k, Taken(row, me, at));
  }

  lemma Refused(c: Checks, w: World, me: string, at: Instant, k: Digest)
    requires PcOf(w, me) == Claimed(k) && k in w.db.transfers
    ensures NextWorld(c, w, Step.Validate(me, false, at)) == At(w, me, Failing(k))
  {
  }

  lemma SoleFailed(c: Checks, w: World, me: string, at: Instant, k: Digest, row: TransferRow)
    requires Sole(w, k, row) && PcOf(w, me) == Failing(k) && HeldBy(row, me) && !Exhausted(row)
    ensures var w' := NextWorld(c, w, Step.Fail(me, at));
      && Sole(w', k, row.(availableAt := at + RETRY_SECONDS, lease := None))
      && w'.pcs == w.pcs[me := Idle] && w'.objects == w.objects && w'.puts == w.puts
  {
    var e := FailTransfer(k, me, RETRY_SECONDS, at);
    SoleNext(c, w.db, e, k, row);
    KillSwitchStays(c, w.db, e);
    hide Next;
  }

  /** A validated claim whose lease is fresh passes both guards and puts its artifact. */
  lemma StagesPass(c: Checks, w: World, me: string, at: Instant, k: Digest, artifact: seq<Byte>)
    requires PcOf(w, me) == Claimed(k) && k in w.db.transfers && artifact != []
    requires var plan := w.db.transfers[k].plan;
      StoredUploadPlanOk(c, plan) && plan.body.windowStart <= at <= plan.body.windowEnd
    requires Guard(w.db, k, me, at)
    ensures var w1 := NextWorld(c, w, Step.Validate(me, true, at));
      var w2 := NextWorld(c, w1, GuardEncrypt(me, at));
      && w1 == At(w, me, Validated(k)) && w2 == At(w1, me, MayEncrypt(k))
      && NextWorld(c, w2, Encrypt(me, Some(artifact))) == At(w2, me, Encrypted(k, artifact))
  {
    hide StoredUploadPlanOk, Guard;
  }

  lemma UploadPasses(c: Checks, w: World, me: string, at: Instant, k: Digest, artifact: seq<Byte>, response: Response)
    requires PcOf(w, me) == Encrypted(k, artifact) && k in w.db.transfers && Guard(w.db, k, me, at)
    requires var plan := w.db.transfers[k].plan; KeyOf(plan) !in w.objects && ResponseOk(c, plan, response)
    ensures var w' := NextWorld(c, NextWorld(c, w, GuardUpload(me, at)), Put(me, Answered(response)));
      var plan := w.db.transfers[k].plan;
      && w'.db == w.db && w'.pcs == w.pcs[me := Uploaded(k, artifact, response)]
      && w'.objects == w.objects[KeyOf(plan) := StoredObject(artifact, plan.sha)]
      && w'.puts == w.puts[k := PutsOf(w, k) + 1]
  {
    hide Guard, ResponseOk;
    var w1 := NextWorld(c, w, GuardUpload(me, at));
    assert w1 == At(w, me, MayUpload(k, artifact));
  }

  /** The third attempt, up to a put that is accepted and answered. */
  lemma AttemptPuts(c: Checks, u: Upload, w: World, me: string, at: Instant, row: TransferRow)
    requires Ready(c, u) && me != "" && Sole(w, u.plan.sha, row) && PcOf(w, me).Idle?
    requires row.plan == u.plan && row.approval.Some? && at == u.at + 2 * RETRY_SECONDS
    requires row.status.Authorized? && row.availableAt <= at && row.lease.None? && !Exhausted(row)
    requires KeyOf(u.plan) !in w.objects
    ensures var w' := RunSteps(c, w, LastAttempt(u, me, at));
      && Sole(w', u.plan.sha, Taken(row, me, at))
      && w'.pcs == w.pcs[me := Uploaded(u.plan.sha, u.artifact, u.response)]
      && w'.objects == w.objects[KeyOf(u.plan) := StoredObject(u.artifact, u.plan.sha)]
      && w'.puts == w.puts[u.plan.sha := PutsOf(w, u.plan.sha) + 1]
  {
    hide RunSteps, NextWorld, Next, StoredUploadPlanOk, ResponseOk;
    var steps, k := LastAttempt(u, me, at), u.plan.sha;
    SixOf(c, w, steps);
    SoleClaimed(c, w, me, at, k, row);
    var w1 := NextWorld(c, w, steps[0]);
    StagesPass(c, w1, me, at, k, u.artifact);
    UploadPasses(c, NextWorld(c, NextWorld(c, NextWorld(c, w1, steps[1]), steps[2]), steps[3]), me, at, k,
      u.artifact, u.response);
  }

  lemma SixOf(c: Checks, w: World, steps: seq<Step>)
    requires |steps| == 6
    ensures var w3 := NextWorld(c, NextWorld(c, NextWorld(c, w, steps[0]), steps[1]), steps[2]);
      RunSteps(c, w, steps) == NextWorld(c, NextWorld(c, NextWorld(c, w3, steps[3]), steps[4]), steps[5])
  {
    hide NextWorld, RunSteps;
    assert steps == steps[..3] + steps[3..];
    RunConcat(c, w, steps[..3], steps[3..]);
    ThreeOf(c, w, steps[..3]);
    ThreeOf(c, RunSteps(c, w, steps[..3]), steps[3..]);
  }

  /** The row after its third claim. */
  function SpentRow(u: Upload, me: string): TransferRow {
    var at := u.at + 2 * RETRY_SECONDS;
    ApprovedRow(u).(attempts := 3, availableAt := at, lease := Some(Lease(me, at + 300)))
  }

  /** The row alone in its world, nobody at it and nothing stored. */
  ghost predicate Waiting(w: World, u: Upload, me: string, attempts: nat, at: Instant) {
    && Sole(w, u.plan.sha, ApprovedRow(u).(attempts := attempts, availableAt := at))
    && PcOf(w, me).Idle? && w.pcs.Keys <= {me} && w.objects == map[] && w.puts == map[]
  }

  lemma FirstFails(c: Checks, u: Upload, me: string)
    requires Ready(c, u) && me != ""
    ensures Waiting(RunSteps(c, START, FirstFailure(u, me)), u, me, 1, u.at + RETRY_SECONDS)
  {
    hide RunSteps, NextWorld, Next, Ready, Approving, FailedAttempt;
    RunConcat(c, START, Approving(u), FailedAttempt(me, u.at));
    Approved(c, u);
    AttemptFails(c, RunSteps(c, START, Approving(u)), me, u.at, u.plan.sha, ApprovedRow(u));
  }

  lemma SecondFails(c: Checks, u: Upload, me: string)
    requires Ready(c, u) && me != ""
    ensures Waiting(RunSteps(c, START, SecondFailure(u, me)), u, me, 2, u.at + 2 * RETRY_SECONDS)
  {
    hide RunSteps, NextWorld, Next, Ready, FirstFailure, FailedAttempt;
    RunConcat(c, START, FirstFailure(u, me), FailedAttempt(me, u.at + RETRY_SECONDS));
    FirstFails(c, u, me);
    var row := ApprovedRow(u).(attempts := 1, availableAt := u.at + RETRY_SECONDS);
    AttemptFails(c, RunSteps(c, START, FirstFailure(u, me)), me, u.at + RETRY_SECONDS, u.plan.sha, row);
  }

  lemma PutReached(c: Checks, u: Upload, me: string)
    requires Ready(c, u) && me != ""
    ensures var w := RunSteps(c, START, UpToPut(u, me));
      && Sole(w, u.plan.sha, SpentRow(u, me))
      && w.pcs == map[me := Uploaded(u.plan.sha, u.artifact, u.response)]
      && w.objects == map[KeyOf(u.plan) := StoredObject(u.artifact, u.plan.sha)] && w.puts == map[u.plan.sha := 1]
  {
    hide RunSteps, NextWorld, Next, Ready, SecondFailure, LastAttempt;
    var at := u.at + 2 * RETRY_SECONDS;
    RunConcat(c, START, SecondFailure(u, me), LastAttempt(u, me, at));
    SecondFails(c, u, me);
    var row := ApprovedRow(u).(attempts := 2, availableAt := at);
    AttemptPuts(c, u, RunSteps(c, START, SecondFailure(u, me)), me, at, row);
  }

  /** The object is at the provider, and the row says FAILED. */
  ghost predicate FailedButStored(w: World, u: Upload) {
    && u.plan.sha in w.db.transfers && w.db.transfers[u.plan.sha].status.Failed?
    && PutsOf(w, u.plan.sha) == 1
    && KeyOf(u.plan) in w.objects && w.objects[KeyOf(u.plan)] == StoredObject(u.artifact, u.plan.sha)
  }

  /**
   From the empty store on: a worker on its last attempt that dies right after its accepted put leaves
   an object at the provider and, once the lease has expired and another worker claims, a FAILED row.
   */
  lemma CrashLeavesObject(c: Checks, u: Upload, me: string, other: string)
    requires Ready(c, u) && me != "" && other != "" && me != other
    ensures FailedButStored(RunSteps(c, START, UpToPut(u, me) + Crashing(u, me, other)), u)
  {
    hide RunSteps, NextWorld, Next, Ready, UpToPut, Crashing, Sole;
    RunConcat(c, START, UpToPut(u, me), Crashing(u, me, other));
    PutReached(c, u, me);
    CrashThenClaim(c, u, RunSteps(c, START, UpToPut(u, me)), me, other);
  }

  lemma CrashThenClaim(c: Checks, u: Upload, w: World, me: string, other: string)
    requires Sole(w, u.plan.sha, SpentRow(u, me)) && me != other && other != ""
    requires w.pcs == map[me := Uploaded(u.plan.sha, u.artifact, u.response)]
    requires w.objects == map[KeyOf(u.plan) := StoredObject(u.artifact, u.plan.sha)] && w.puts == map[u.plan.sha := 1]
    ensures FailedButStored(RunSteps(c, w, Crashing(u, me, other)), u)
  {
    hide RunSteps, Next;
    var late := u.at + 2 * RETRY_SECONDS + 300;
    FirstStep(c, w, Crashing(u, me, other));
    assert Crashing(u, me, other)[1..] == [Step.Claim(other, 300, late)];
    OneStep(c, NextWorld(c, w, Crash(me)), Step.Claim(other, 300, late));
    assert NextWorld(c, w, Crash(me)) == At(w, me, Idle);
    hide NextWorld;
    SoleSwept(c, At(w, me, Idle), other, late, u.plan.sha, SpentRow(u, me));
  }

  /**
   From the empty store on, and without a crash: the other worker's claim finds the last attempt's
   lease expired while its worker is between its put and the receipt. That worker is then refused,
   and its hold changes nothing.
   */
  lemma OvertakenLeavesObject(c: Checks, u: Upload, me: string, other: string)
    requires Ready(c, u) && me != "" && other != "" && me != other
    ensures var steps := UpToPut(u, me) + Overtaken(u, me, other);
      && (forall s | s in steps :: !s.Crash?)
      && FailedButStored(RunSteps(c, START, steps), u)
      && (forall x :: PcOf(RunSteps(c, START, steps), x).Idle?)
      && !AllTimely(c, START, steps)
  {
    hide RunSteps, NextWorld, Next, Ready, UpToPut, Overtaken, Sole;
    RunConcat(c, START, UpToPut(u, me), Overtaken(u, me, other));
    PutReached(c, u, me);
    NoCrash(u, me, other);
    ClaimThenHold(c, u, RunSteps(c, START, UpToPut(u, me)), me, other);
    FailedIsLate(c, u, UpToPut(u, me) + Overtaken(u, me, other));
  }

  /** A run that ends like this was not timely. */
  lemma FailedIsLate(c: Checks, u: Upload, steps: seq<Step>)
    requires FailedButStored(RunSteps(c, START, steps), u)
    requires forall x :: PcOf(RunSteps(c, START, steps), x).Idle?
    ensures !AllTimely(c, START, steps)
  {
    hide RunSteps, AllTimely;
    var w := RunSteps(c, START, steps);
    assert forall x | x in w.pcs :: w.pcs[x] == PcOf(w, x);
    if AllTimely(c, START, steps) { TimelyOnePut(c, steps, u.plan.sha); }
  }

  lemma NoCrash(u: Upload, me: string, other: string)
    ensures forall s | s in UpToPut(u, me) + Overtaken(u, me, other) :: !s.Crash?
  {
    assert forall s | s in Approving(u) :: !s.Crash?;
    assert forall s | s in FailedAttempt(me, u.at) :: !s.Crash?;
    assert forall s | s in FailedAttempt(me, u.at + RETRY_SECONDS) :: !s.Crash?;
    assert forall s | s in LastAttempt(u, me, u.at + 2 * RETRY_SECONDS) :: !s.Crash?;
    assert forall s | s in Overtaken(u, me, other) :: !s.Crash?;
    hide Approving, FailedAttempt, LastAttempt, Overtaken;
  }

  lemma ClaimThenHold(c: Checks, u: Upload, w: World, me: string, other: string)
    requires Sole(w, u.plan.sha, SpentRow(u, me)) && me != other && other != ""
    requires w.pcs == map[me := Uploaded(u.plan.sha, u.artifact, u.response)]
    requires w.objects == map[KeyOf(u.plan) := StoredObject(u.artifact, u.plan.sha)] && w.puts == map[u.plan.sha := 1]
    ensures var w' := RunSteps(c, w, Overtaken(u, me, other));
      FailedButStored(w', u) && forall x :: PcOf(w', x).Idle?
  {
    hide RunSteps, Next, NextWorld;
    var late := u.at + 2 * RETRY_SECONDS + 300;
    var row := SpentRow(u, me).(status := Failed, lease := None);
    ThreeOf(c, w, Overtaken(u, me, other));
    SoleSwept(c, w, other, late, u.plan.sha, SpentRow(u, me));
    TooLate(c, NextWorld(c, w, Step.Claim(other, 300, late)), me, late, u.plan.sha, row, u.artifact, u.response);
  }

  /** A worker whose row was swept gets no receipt, and holding the row does nothing. */
  lemma TooLate(
    c: Checks, w: World, me: string, at: Instant, k: Digest, row: TransferRow, artifact: seq<Byte>, response: Response)
    requires Sole(w, k, row) && row.status.Failed? && PcOf(w, me) == Uploaded(k, artifact, response)
    ensures var w' := NextWorld(c, NextWorld(c, w, GuardReceipt(me, at)), Step.Hold(me));
      && Sole(w', k, row) && w'.objects == w.objects && w'.puts == w.puts && w'.pcs == w.pcs[me := Idle]
  {
    hide Next, BuildReceipt, UploadReceiptOk;
    var w1 := NextWorld(c, w, GuardReceipt(me, at));
    assert w1 == At(w, me, Holding(k));
    SoleNext(c, w1.db, HoldTransfer(k, me), k, row);
    KillSwitchStays(c, w1.db, HoldTransfer(k, me));
  }

  /** There are such uploads. */
  lemma SomeUpload() returns (c: Checks, u: Upload)
    ensures Ready(c, u)
  {
    c := Checks(x => 0, x => true, x => true, x => true, x => true, (x, y) => true, x => true, x => "");
    var body := UploadPlanBody(
      Exact, "target", 0, "bucket", "CA_EAST", "endpoint", "writer", "key", "object", 0, 1, SCHEMA_VERSION, 7,
      0, 3600, 0.0);
    var plan := UploadPlan(body, 0);
    var package := ApprovalPackage(Exact, "target", 0, "bucket", "CA_EAST", 7, 0, 3600, 0.0);
    var preflight := Preflight(PreflightBody(Exact, 0, None), 0);
    var approval := Approval(
      TRANSFER_ACTION, "target", IAC, TransferConditionsOf(plan), ApprovalStatus.Approved, 1, false);
    u := Upload(plan, package, preflight, "approval", approval, [0], Response("", "", 0, 7 * DAY), 0);
  }
}
