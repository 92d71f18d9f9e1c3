/**
 Restore runs from the empty store on at whose end a destination holds the restored backup and the row
 is FAILED: one with a crash after the link, and one without any crash, in which a second worker's
 claim finds the lease of the last attempt expired (scripts/restore_worker.py:60-124,
 sean_os/store.py:1113-1196).
 */
module FailingRestores {
  import opened Basics
  import opened Evidence
  import opened Outbox
  import opened Store
  import opened RestoreProtocol
  import opened TimelyRestores
  import StoreClass

  const LEASE_SECONDS := 900

  /** One approved restore: its documents, its approval, the object and the backup in it, and when it is staged. */
  datatype Restore = Restore(
    plan: RestorePlan, evidence: RestoreEvidence, preflight: Preflight, approvalId: string, approval: Approval,
    served: Bytes, backup: Bytes, at: Instant)

  /** The documents verify and belong together; the window is open from the staging to two retries later. */
  predicate Ready(c: Checks, r: Restore) {
    var i := r.plan.body.identity;
    && Stageable(c, r.plan, r.evidence)
    && PreflightOk(c, r.preflight) && r.preflight.body.planSha == r.plan.sha
    && r.preflight.body.uploadReceiptSha == Some(i.uploadReceiptSha)
    && r.approval.action == RESTORE_ACTION && r.approval.target == r.plan.body.approvalTarget
    && r.approval.scope.IAC? && r.approval.conditions == RestoreConditionsOf(r.plan)
    && r.approval.status.Approved? && r.at < r.approval.expiresAt
    && PlannedObject(c, r.plan, r.served) && PlannedBackup(c, r.plan, r.backup)
    && i.windowStart <= r.at && r.at + 2 * RETRY_SECONDS < i.windowEnd
  }

  /** The store holds this one restore, and the kill switch is off. */
  ghost predicate Sole(w: World, k: Digest, row: RestoreRow) {
    w.db.restores == map[k := row] && !w.db.killSwitch
  }

  function Approving(r: Restore): seq<Step> {
    [Other(StageRestore(r.plan, r.evidence, r.at)), Other(ValidateRestore(r.plan.sha, r.preflight)),
     Other(CreateApproval(r.approvalId, r.approval)), Other(AuthorizeRestore(r.plan.sha, r.approvalId, true, r.at))]
  }

  function FailedAttempt(me: string, d: string, at: Instant): seq<Step> {
    [Step.Claim(me, d, LEASE_SECONDS, at), Step.Validate(me, false, at), Step.Fail(me, at)]
  }

  function LastAttempt(r: Restore, me: string, d: string, at: Instant): seq<Step> {
    [Step.Claim(me, d, LEASE_SECONDS, at), Step.Validate(me, true, at), GuardDownload(me, at),
     Download(me, Some(r.served)), GuardDecrypt(me, at), Link(me, Some(r.backup))]
  }

  /** Two attempts that fail early, and a third one up to its link. */
  function FirstFailure(r: Restore, me: string, d: string): seq<Step> {
    Approving(r) + FailedAttempt(me, d, r.at)
  }

  function SecondFailure(r: Restore, me: string, d: string): seq<Step> {
    FirstFailure(r, me, d) + FailedAttempt(me, d, r.at + RETRY_SECONDS)
  }

  function UpToLink(r: Restore, me: string, d: string): seq<Step> {
    SecondFailure(r, me, d) + LastAttempt(r, me, d, r.at + 2 * RETRY_SECONDS)
  }

  /** When the lease of the third attempt ends. */
  function Late(r: Restore): Instant {
    LeaseEnd(ApprovedRow(r), LEASE_SECONDS, r.at + 2 * RETRY_SECONDS)
  }

  function Crashing(r: Restore, me: string, other: string, e: string): seq<Step> {
    [Crash(me), Step.Claim(other, e, LEASE_SECONDS, Late(r))]
  }

  function Overtaken(r: Restore, me: string, other: string, e: string): seq<Step> {
    [Step.Claim(other, e, LEASE_SECONDS, Late(r)), UnlinkPartial(me, true), Verify(me, true),
     GuardReceipt(me, Late(r)), Step.Hold(me)]
  }

  lemma {:induction false} RunConcat(c: Checks, w: World, a: seq<Step>, b: seq<Step>)
    ensures RunSteps(c, w, a + b) == RunSteps(c, RunSteps(c, w, a), b)
    decreases |b|
  {
    hide NextWorld;
    if b == [] {
      assert a + b == a;
    } else {
      assert (a + b)[..|a + b| - 1] == a + b[..|b| - 1];
      RunConcat(c, w, a, b[..|b| - 1]);
    }
  }

  lemma FirstStep(c: Checks, w: World, steps: seq<Step>)
    requires steps != []
    ensures RunSteps(c, w, steps) == RunSteps(c, NextWorld(c, w, steps[0]), steps[1..])
  {
    hide NextWorld;
    assert [steps[0]][..0] == [];
    assert RunSteps(c, w, []) == w;
    assert RunSteps(c, w, [steps[0]]) == NextWorld(c, w, steps[0]);
    hide RunSteps;
    assert steps == [steps[0]] + steps[1..];
    RunConcat(c, w, [steps[0]], steps[1..]);
  }

  lemma ThreeSteps(c: Checks, w: World, steps: seq<Step>)
    requires |steps| == 3
    ensures RunSteps(c, w, steps) == NextWorld(c, NextWorld(c, NextWorld(c, w, steps[0]), steps[1]), steps[2])
  {
    hide NextWorld, RunSteps;
    FirstStep(c, w, steps);
    var w1 := NextWorld(c, w, steps[0]);
    FirstStep(c, w1, steps[1..]);
    var w2 := NextWorld(c, w1, steps[1]);
    FirstStep(c, w2, steps[2..]);
    assert steps[1..][1..] == steps[2..] && steps[2..][1..] == [];
    NoSteps(c, NextWorld(c, w2, steps[2]));
  }

  lemma NoSteps(c: Checks, w: World)
    ensures RunSteps(c, w, []) == w
  {
  }

  // ---------------------------------------------------------------- one transaction on one row

  lemma SoleNext(c: Checks, db: Db, e: Event, k: Digest, row: RestoreRow)
    requires db.restores == map[k := row] && !e.StageRestore?
    ensures k in db.restores
    ensures Next(c, db, e).restores == map[k := Apply(row, RestoreEvent(c, db, e, k))]
  {
    NextRestoreRow(c, db, e, k);
    assert Next(c, db, e).restores.Keys == {k};
  }

  lemma KillSwitchStays(c: Checks, db: Db, e: Event)
    requires !e.SetKillSwitch?
    ensures Next(c, db, e).killSwitch == db.killSwitch
  {
  }

  lemma SoleDue(k: Digest, row: RestoreRow, at: Instant)
    requires row.status.Authorized? && row.availableAt <= at && LeaseFree(row, at)
    ensures var t: Table<RestorePlan, RestoreReceipt> := map[k := row];
      && (Open(row, at) ==> RestorePick(t, at) == Some(k) && k !in RestoreSwept(t, at))
      && (Closed(row, at) ==> RestorePick(t, at).None? && k in RestoreSwept(t, at))
  {
    var t: Table<RestorePlan, RestoreReceipt> := map[k := row];
    assert RestoreDue(t, at) == {k};
    var open := set j | j in RestoreDue(t, at) && Open(t[j], at);
    assert RestorePick(t, at) == First(t, open);
    if Open(row, at) {
      assert k in open;
      assert First(t, open).Some?;
    }
  }

  function Taken(row: RestoreRow, me: string, at: Instant): RestoreRow {
    row.(lease := Some(Lease(me, LeaseEnd(row, LEASE_SECONDS, at))), attempts := row.attempts + 1)
  }

  lemma SoleClaimed(c: Checks, w: World, me: string, d: string, at: Instant, k: Digest, row: RestoreRow)
    requires Sole(w, k, row) && me != "" && PcOf(w, me).Idle? && d !in w.files
    requires row.status.Authorized? && row.availableAt <= at && LeaseFree(row, at) && Open(row, at)
    ensures var w' := NextWorld(c, w, Step.Claim(me, d, LEASE_SECONDS, at));
      && Sole(w', k, Taken(row, me, at)) && w'.files == w.files && w'.made == w.made
      && w'.pcs == w.pcs[me := Claimed(k, d, LeaseEnd(row, LEASE_SECONDS, at))]
  {
    hide Next, RestorePick, RestoreSwept, RestoreDue;
    var e := ClaimRestore(me, LEASE_SECONDS, at);
    SoleDue(k, row, at);
    SoleNext(c, w.db, e, k, row);
    KillSwitchStays(c, w.db, e);
  }

  /** The claim of another worker gives up a spent row whose lease has expired. */
  lemma SoleSwept(c: Checks, w: World, other: string, d: string, at: Instant, k: Digest, row: RestoreRow)
    requires Sole(w, k, row) && other != "" && PcOf(w, other).Idle? && d !in w.files
    requires row.status.Authorized? && row.availableAt <= at && LeaseFree(row, at) && Exhausted(row)
    ensures var w' := NextWorld(c, w, Step.Claim(other, d, LEASE_SECONDS, at));
      && Sole(w', k, row.(status := Failed, lease := None)) && w'.files == w.files && w'.made == w.made
      && w'.pcs == w.pcs[other := PcOf(w, other)]
  {
    hide Next, RestorePick, RestoreSwept, RestoreDue;
    var e := ClaimRestore(other, LEASE_SECONDS, at);
    SoleDue(k, row, at);
    SoleNext(c, w.db, e, k, row);
    KillSwitchStays(c, w.db, e);
  }

  // ---------------------------------------------------------------- the stages of the runs

  function ApprovedRow(r: Restore): RestoreRow {
    NewRow<RestorePlan, RestoreReceipt>(r.plan, r.at).(
      status := Authorized, preflight := Some(r.preflight.sha), approval := Some(r.approvalId))
  }

  lemma OtherMove(c: Checks, w: World, e: Event)
    requires IsOther(e)
    ensures NextWorld(c, w, Other(e)) == w.(db := Next(c, w.db, e))
  {
    hide Next;
  }

  lemma StagedAlone(c: Checks, r: Restore)
    requires Ready(c, r)
    ensures var db := Next(c, EMPTY, StageRestore(r.plan, r.evidence, r.at));
      db.restores == map[r.plan.sha := NewRow(r.plan, r.at)] && !db.killSwitch && db.approvals == map[]
  {
    hide Stageable, PlannedObject, PlannedBackup;
  }

  lemma ValidatedAlone(c: Checks, r: Restore, db: Db)
    requires Ready(c, r) && db.restores == map[r.plan.sha := NewRow(r.plan, r.at)]
    requires !db.killSwitch && db.approvals == map[]
    ensures var db' := Next(c, db, ValidateRestore(r.plan.sha, r.preflight));
      && db'.restores == map[r.plan.sha := NewRow<RestorePlan, RestoreReceipt>(r.plan, r.at).(
           status := PreflightValidated, preflight := Some(r.preflight.sha))]
      && !db'.killSwitch && db'.approvals == map[]
  {
    hide Next, Stageable, PlannedObject, PlannedBackup;
    var e := ValidateRestore(r.plan.sha, r.preflight);
    SoleNext(c, db, e, r.plan.sha, NewRow(r.plan, r.at));
    KillSwitchStays(c, db, e);
    NextApprovalsAre(c, db, e);
  }

  lemma ApprovedAlone(c: Checks, r: Restore, db: Db)
    requires Ready(c, r) && !db.killSwitch && db.approvals == map[]
    requires db.restores == map[r.plan.sha := NewRow<RestorePlan, RestoreReceipt>(r.plan, r.at).(
      status := PreflightValidated, preflight := Some(r.preflight.sha))]
    ensures var db1 := Next(c, db, CreateApproval(r.approvalId, r.approval));
      var db2 := Next(c, db1, AuthorizeRestore(r.plan.sha, r.approvalId, true, r.at));
      db2.restores == map[r.plan.sha := ApprovedRow(r)] && !db2.killSwitch
  {
    hide Next, Stageable, PlannedObject, PlannedBackup;
    var k, create := r.plan.sha, CreateApproval(r.approvalId, r.approval);
    var authorize := AuthorizeRestore(k, r.approvalId, true, r.at);
    SoleNext(c, db, create, k, db.restores[k]);
    KillSwitchStays(c, db, create);
    NextApprovalsAre(c, db, create);
    var db1 := Next(c, db, create);
    assert RestoreEvent(c, db, create, k).Untouched?;
    SoleNext(c, db1, authorize, k, db.restores[k]);
    KillSwitchStays(c, db1, authorize);
    assert RestoreAuthorizable(db1, k, r.approvalId, true, r.at);
  }

  lemma Approved(c: Checks, r: Restore)
    requires Ready(c, r)
    ensures var w := RunSteps(c, START, Approving(r));
      Sole(w, r.plan.sha, ApprovedRow(r)) && w.pcs == map[] && w.files == map[]
  {
    hide NextWorld, RunSteps, Next, Stageable, PlannedObject, PlannedBackup;
    var steps, k := Approving(r), r.plan.sha;
    var w1 := NextWorld(c, START, steps[0]);
    var w2 := NextWorld(c, w1, steps[1]);
    var w3 := NextWorld(c, w2, steps[2]);
    FirstStep(c, START, steps);
    ThreeSteps(c, w1, steps[1..]);
    OtherMove(c, START, steps[0].e);
    OtherMove(c, w1, steps[1].e);
    OtherMove(c, w2, steps[2].e);
    OtherMove(c, w3, steps[3].e);
    StagedAlone(c, r);
    ValidatedAlone(c, r, w1.db);
    ApprovedAlone(c, r, w2.db);
  }

  lemma Refused(c: Checks, w: World, me: string, at: Instant, k: Digest)
    requires PcOf(w, me).Claimed? && PcOf(w, me).pk == k && k in w.db.restores
    ensures NextWorld(c, w, Step.Validate(me, false, at)) == At(w, me, Failing(k, PcOf(w, me).destination))
  {
    hide InTime;
  }

  lemma SoleFailed(c: Checks, w: World, me: string, at: Instant, k: Digest, d: string, row: RestoreRow)
    requires Sole(w, k, row) && PcOf(w, me) == Failing(k, d) && d !in w.files && HeldBy(row, me) && !Exhausted(row)
    ensures var w' := NextWorld(c, w, Step.Fail(me, at));
      && Sole(w', k, row.(availableAt := at + RETRY_SECONDS, lease := None))
      && w'.pcs == w.pcs[me := Idle] && w'.files == w.files
  {
    hide Next;
    var e := FailRestore(k, me, RETRY_SECONDS, at);
    SoleNext(c, w.db, e, k, row);
    KillSwitchStays(c, w.db, e);
  }

  /** A claim whose configuration does not match is failed again, and costs an attempt. */
  lemma AttemptFails(c: Checks, w: World, me: string, d: string, at: Instant, k: Digest, row: RestoreRow)
    requires Sole(w, k, row) && me != "" && PcOf(w, me).Idle? && d !in w.files
    requires row.status.Authorized? && row.availableAt <= at && row.lease.None? && row.attempts + 1 < row.maxAttempts
    requires row.plan.body.identity.windowStart <= at < row.plan.body.identity.windowEnd
    ensures var w' := RunSteps(c, w, FailedAttempt(me, d, at));
      && Sole(w', k, row.(attempts := row.attempts + 1, availableAt := at + RETRY_SECONDS))
      && w'.pcs == w.pcs[me := Idle] && w'.files == w.files
  {
    hide RunSteps, Next, NextWorld;
    var steps := FailedAttempt(me, d, at);
    ThreeSteps(c, w, steps);
    SoleClaimed(c, w, me, d, at, k, row);
    var w1 := NextWorld(c, w, steps[0]);
    Refused(c, w1, me, at, k);
    SoleFailed(c, At(w1, me, Failing(k, d)), me, at, k, d, Taken(row, me, at));
  }

  /** The row alone in its world, nobody at it and no file there. */
  ghost predicate Waiting(w: World, r: Restore, me: string, attempts: nat, at: Instant) {
    && Sole(w, r.plan.sha, ApprovedRow(r).(attempts := attempts, availableAt := at))
    && PcOf(w, me).Idle? && w.pcs.Keys <= {me} && w.files == map[]
  }

  lemma FirstFails(c: Checks, r: Restore, me: string, d: string)
    requires Ready(c, r) && me != ""
    ensures Waiting(RunSteps(c, START, FirstFailure(r, me, d)), r, me, 1, r.at + RETRY_SECONDS)
  {
    hide RunSteps, NextWorld, Next, Approving, FailedAttempt, Stageable, PlannedObject, PlannedBackup;
    RunConcat(c, START, Approving(r), FailedAttempt(me, d, r.at));
    Approved(c, r);
    AttemptFails(c, RunSteps(c, START, Approving(r)), me, d, r.at, r.plan.sha, ApprovedRow(r));
  }

  lemma SecondFails(c: Checks, r: Restore, me: string, d: string)
    requires Ready(c, r) && me != ""
    ensures Waiting(RunSteps(c, START, SecondFailure(r, me, d)), r, me, 2, r.at + 2 * RETRY_SECONDS)
  {
    hide RunSteps, NextWorld, Next, FirstFailure, FailedAttempt, Stageable, PlannedObject, PlannedBackup;
    RunConcat(c, START, FirstFailure(r, me, d), FailedAttempt(me, d, r.at + RETRY_SECONDS));
    FirstFails(c, r, me, d);
    var row := ApprovedRow(r).(attempts := 1, availableAt := r.at + RETRY_SECONDS);
    AttemptFails(c, RunSteps(c, START, FirstFailure(r, me, d)), me, d, r.at + RETRY_SECONDS, r.plan.sha, row);
  }

  /** A claimed restore in time passes its checks and guards and has its object. */
  lemma StagesPass(c: Checks, w: World, me: string, at: Instant, k: Digest, served: Bytes)
    requires PcOf(w, me).Claimed? && PcOf(w, me).pk == k && PcOf(w, me).destination !in w.files && k in w.db.restores
    requires Guard(c, w.db, k, me, at) && at < PcOf(w, me).until && PlannedObject(c, w.db.restores[k].plan, served)
    ensures var d := PcOf(w, me).destination;
      var w1 := NextWorld(c, w, Step.Validate(me, true, at));
      var w2 := NextWorld(c, w1, GuardDownload(me, at));
      && w1 == At(w, me, Validated(k, d, at)) && w2 == At(w1, me, MayDownload(k, d, at))
      && NextWorld(c, w2, Download(me, Some(served))) == At(w2, me, Downloaded(k, d, at))
  {
    hide PlannedObject, RestorePlanOk;
  }

  lemma LinkPasses(c: Checks, w: World, me: string, at: Instant, k: Digest, d: string, backup: Bytes)
    requires PcOf(w, me) == Downloaded(k, d, at) && d !in w.files && k in w.db.restores && Guard(c, w.db, k, me, at)
    ensures var w' := NextWorld(c, NextWorld(c, w, GuardDecrypt(me, at)), Link(me, Some(backup)));
      && w'.db == w.db && w'.pcs == w.pcs[me := Linked(k, d, at)]
      && w'.files == w.files[d := backup] && w'.made == w.made[d := k]
  {
    hide Guard;
    assert NextWorld(c, w, GuardDecrypt(me, at)) == At(w, me, MayDecrypt(k, d, at));
  }

  lemma SixSteps(c: Checks, w: World, steps: seq<Step>)
    requires |steps| == 6
    ensures var w3 := NextWorld(c, NextWorld(c, NextWorld(c, w, steps[0]), steps[1]), steps[2]);
      RunSteps(c, w, steps) == NextWorld(c, NextWorld(c, NextWorld(c, w3, steps[3]), steps[4]), steps[5])
  {
    hide NextWorld, RunSteps;
    assert steps == steps[..3] + steps[3..];
    RunConcat(c, w, steps[..3], steps[3..]);
    ThreeSteps(c, w, steps[..3]);
    ThreeSteps(c, RunSteps(c, w, steps[..3]), steps[3..]);
  }

  /** The row after its third claim. */
  function SpentRow(r: Restore, me: string): RestoreRow {
    ApprovedRow(r).(attempts := 3, availableAt := r.at + 2 * RETRY_SECONDS, lease := Some(Lease(me, Late(r))))
  }

  /** The third attempt, up to its link. */
  lemma AttemptLinks(c: Checks, r: Restore, w: World, me: string, d: string)
    requires Ready(c, r) && me != "" && Waiting(w, r, me, 2, r.at + 2 * RETRY_SECONDS)
    ensures var at := r.at + 2 * RETRY_SECONDS;
      LinkedAlone(RunSteps(c, w, LastAttempt(r, me, d, at)), r, me, d)
  {
    hide RunSteps, NextWorld, Next, PlannedObject, PlannedBackup, Stageable, Guard;
    var at, k := r.at + 2 * RETRY_SECONDS, r.plan.sha;
    var steps, row := LastAttempt(r, me, d, at), ApprovedRow(r).(attempts := 2, availableAt := at);
    SixSteps(c, w, steps);
    SoleClaimed(c, w, me, d, at, k, row);
    var w1 := NextWorld(c, w, steps[0]);
    GuardOpen(c, r, w1, me);
    StagesPass(c, w1, me, at, k, r.served);
    LinkPasses(c, NextWorld(c, NextWorld(c, NextWorld(c, w1, steps[1]), steps[2]), steps[3]), me, at, k, d, r.backup);
  }

  lemma GuardOpen(c: Checks, r: Restore, w: World, me: string)
    requires Ready(c, r) && Sole(w, r.plan.sha, SpentRow(r, me))
    ensures Guard(c, w.db, r.plan.sha, me, r.at + 2 * RETRY_SECONDS) && r.at + 2 * RETRY_SECONDS < Late(r)
  {
    hide PlannedObject, PlannedBackup, BuildRestorePlan;
  }

  /** The worker has just linked the backup to its destination, on its last attempt. */
  ghost predicate LinkedAlone(w: World, r: Restore, me: string, d: string) {
    && Sole(w, r.plan.sha, SpentRow(r, me))
    && w.pcs.Keys == {me} && w.pcs[me] == Linked(r.plan.sha, d, r.at + 2 * RETRY_SECONDS)
    && w.files == map[d := r.backup] && d in w.made && w.made[d] == r.plan.sha
  }

  lemma LinkReached(c: Checks, r: Restore, me: string, d: string)
    requires Ready(c, r) && me != ""
    ensures LinkedAlone(RunSteps(c, START, UpToLink(r, me, d)), r, me, d)
  {
    hide RunSteps, NextWorld, Next, Ready, SecondFailure, LastAttempt, Waiting, LinkedAlone;
    RunConcat(c, START, SecondFailure(r, me, d), LastAttempt(r, me, d, r.at + 2 * RETRY_SECONDS));
    SecondFails(c, r, me, d);
    AttemptLinks(c, r, RunSteps(c, START, SecondFailure(r, me, d)), me, d);
  }

  /** The planned backup is at the destination, linked for this row, and the row says FAILED. */
  ghost predicate FailedButPublished(c: Checks, w: World, r: Restore, d: string) {
    && r.plan.sha in w.db.restores && w.db.restores[r.plan.sha].status.Failed?
    && w.db.restores[r.plan.sha].plan == r.plan
    && d in w.made && w.made[d] == r.plan.sha && Published(c, w.files, r.plan, d)
  }

  lemma CrashThenClaim(c: Checks, r: Restore, w: World, me: string, d: string, other: string, e: string)
    requires LinkedAlone(w, r, me, d) && me != other && other != "" && d != e && PlannedBackup(c, r.plan, r.backup)
    requires r.at + 2 * RETRY_SECONDS <= Late(r)
    ensures FailedButPublished(c, RunSteps(c, w, Crashing(r, me, other, e)), r, d)
  {
    hide RunSteps, Next, PlannedBackup;
    var s := Step.Claim(other, e, LEASE_SECONDS, Late(r));
    FirstStep(c, w, Crashing(r, me, other, e));
    assert Crashing(r, me, other, e)[1..] == [s] && [s][1..] == [];
    assert NextWorld(c, w, Crash(me)) == At(w, me, Idle);
    hide NextWorld;
    FirstStep(c, At(w, me, Idle), [s]);
    NoSteps(c, NextWorld(c, At(w, me, Idle), s));
    SoleSwept(c, At(w, me, Idle), other, e, Late(r), r.plan.sha, SpentRow(r, me));
  }

  /**
   From the empty store on: a worker on its last attempt that dies right after its link leaves the
   backup at the destination and, once the lease has expired and another worker claims, a FAILED row.
   */
  lemma CrashLeavesFile(c: Checks, r: Restore, me: string, d: string, other: string, e: string)
    requires Ready(c, r) && me != "" && other != "" && me != other && d != e
    ensures FailedButPublished(c, RunSteps(c, START, UpToLink(r, me, d) + Crashing(r, me, other, e)), r, d)
  {
    hide RunSteps, NextWorld, Next, UpToLink, Crashing, LinkedAlone, Stageable, PlannedObject, PlannedBackup;
    RunConcat(c, START, UpToLink(r, me, d), Crashing(r, me, other, e));
    LinkReached(c, r, me, d);
    CrashThenClaim(c, r, RunSteps(c, START, UpToLink(r, me, d)), me, d, other, e);
  }

  lemma VerifiesStill(c: Checks, w: World, me: string, d: string, k: Digest, startedAt: Instant)
    requires PcOf(w, me) == Linked(k, d, startedAt) && k in w.db.restores
    requires Published(c, w.files, w.db.restores[k].plan, d)
    ensures var w1 := NextWorld(c, w, UnlinkPartial(me, true));
      && w1 == At(w, me, Decrypted(k, d, startedAt))
      && NextWorld(c, w1, Verify(me, true)) == At(w1, me, Verified(k, d, startedAt))
  {
    hide Published;
    assert NextWorld(c, w, UnlinkPartial(me, true)) == At(w, me, Decrypted(k, d, startedAt));
  }

  lemma NoReceipt(c: Checks, w: World, me: string, d: string, k: Digest, startedAt: Instant, at: Instant)
    requires PcOf(w, me) == Verified(k, d, startedAt) && k in w.db.restores && !w.db.restores[k].status.Authorized?
    ensures NextWorld(c, w, GuardReceipt(me, at)) == At(w, me, Holding(k, d))
  {
    hide BuildRestoreReceipt, InTime;
  }

  lemma HoldDoesNothing(c: Checks, w: World, me: string, d: string, k: Digest, row: RestoreRow)
    requires Sole(w, k, row) && row.status.Failed? && PcOf(w, me) == Holding(k, d)
    ensures var w' := NextWorld(c, w, Step.Hold(me));
      Sole(w', k, row) && w'.files == w.files && w'.made == w.made && w'.pcs == w.pcs[me := Idle]
  {
    hide Next;
    SoleNext(c, w.db, HoldRestore(k, me), k, row);
    KillSwitchStays(c, w.db, HoldRestore(k, me));
  }

  /** The worker unlinks and verifies, gets no receipt any more, and holding the row does nothing. */
  lemma TooLate(
    c: Checks, w: World, me: string, d: string, r: Restore, at: Instant, startedAt: Instant, row: RestoreRow)
    requires Sole(w, r.plan.sha, row) && row.status.Failed? && row.plan == r.plan
    requires PcOf(w, me) == Linked(r.plan.sha, d, startedAt) && Published(c, w.files, r.plan, d)
    ensures var w2 := NextWorld(c, NextWorld(c, w, UnlinkPartial(me, true)), Verify(me, true));
      var w' := NextWorld(c, NextWorld(c, w2, GuardReceipt(me, at)), Step.Hold(me));
      && Sole(w', r.plan.sha, row) && w'.files == w.files && w'.made == w.made && w'.pcs == w.pcs[me := Idle]
  {
    hide NextWorld, Published;
    var k := r.plan.sha;
    VerifiesStill(c, w, me, d, k, startedAt);
    var w2 := NextWorld(c, NextWorld(c, w, UnlinkPartial(me, true)), Verify(me, true));
    NoReceipt(c, w2, me, d, k, startedAt, at);
    HoldDoesNothing(c, NextWorld(c, w2, GuardReceipt(me, at)), me, d, k, row);
  }

  lemma ClaimThenHold(c: Checks, r: Restore, w: World, me: string, d: string, other: string, e: string)
    requires LinkedAlone(w, r, me, d) && me != other && other != "" && d != e && PlannedBackup(c, r.plan, r.backup)
    requires r.at + 2 * RETRY_SECONDS <= Late(r)
    ensures var w' := RunSteps(c, w, Overtaken(r, me, other, e));
      FailedButPublished(c, w', r, d) && forall x :: PcOf(w', x).Idle?
  {
    hide RunSteps, Next, NextWorld, PlannedBackup;
    var steps, row := Overtaken(r, me, other, e), SpentRow(r, me).(status := Failed, lease := None);
    FiveSteps(c, w, steps);
    SoleSwept(c, w, other, e, Late(r), r.plan.sha, SpentRow(r, me));
    TooLate(c, NextWorld(c, w, steps[0]), me, d, r, Late(r), r.at + 2 * RETRY_SECONDS, row);
  }

  lemma FiveSteps(c: Checks, w: World, steps: seq<Step>)
    requires |steps| == 5
    ensures var w3 := NextWorld(c, NextWorld(c, NextWorld(c, w, steps[0]), steps[1]), steps[2]);
      RunSteps(c, w, steps) == NextWorld(c, NextWorld(c, w3, steps[3]), steps[4])
  {
    hide NextWorld, RunSteps;
    FirstStep(c, w, steps);
    FirstStep(c, NextWorld(c, w, steps[0]), steps[1..]);
    assert steps[1..][1..] == steps[2..];
    ThreeSteps(c, NextWorld(c, NextWorld(c, w, steps[0]), steps[1]), steps[2..]);
  }

  /**
   From the empty store on, and without a crash: the other worker's claim finds the last attempt's
   lease expired after the link. The first worker gets no receipt, its hold changes nothing, and the
   run is not timely.
   */
  lemma OvertakenLeavesFile(c: Checks, r: Restore, me: string, d: string, other: string, e: string)
    requires Ready(c, r) && me != "" && other != "" && me != other && d != e
    ensures var steps := UpToLink(r, me, d) + Overtaken(r, me, other, e);
      && (forall s | s in steps :: !s.Crash?)
      && FailedButPublished(c, RunSteps(c, START, steps), r, d)
      && !AllTimely(c, START, steps)
  {
    hide RunSteps, NextWorld, Next, UpToLink, Overtaken, LinkedAlone, Stageable, PlannedObject, PlannedBackup;
    hide AllTimely;
    RunConcat(c, START, UpToLink(r, me, d), Overtaken(r, me, other, e));
    LinkReached(c, r, me, d);
    ClaimThenHold(c, r, RunSteps(c, START, UpToLink(r, me, d)), me, d, other, e);
    NoCrash(r, me, d, other, e);
    FailedIsLate(c, r, d, UpToLink(r, me, d) + Overtaken(r, me, other, e));
  }

  lemma NoCrash(r: Restore, me: string, d: string, other: string, e: string)
    ensures forall s | s in UpToLink(r, me, d) + Overtaken(r, me, other, e) :: !s.Crash?
  {
    assert forall s | s in Approving(r) :: !s.Crash?;
    assert forall s | s in FailedAttempt(me, d, r.at) :: !s.Crash?;
    assert forall s | s in FailedAttempt(me, d, r.at + RETRY_SECONDS) :: !s.Crash?;
    assert forall s | s in LastAttempt(r, me, d, r.at + 2 * RETRY_SECONDS) :: !s.Crash?;
    assert forall s | s in Overtaken(r, me, other, e) :: !s.Crash?;
    hide Approving, FailedAttempt, LastAttempt, Overtaken;
  }

  /** A run that leaves a file behind a FAILED row, with nobody at it, was not timely. */
  lemma FailedIsLate(c: Checks, r: Restore, d: string, steps: seq<Step>)
    requires FailedButPublished(c, RunSteps(c, START, steps), r, d)
    requires forall x :: PcOf(RunSteps(c, START, steps), x).Idle?
    ensures !AllTimely(c, START, steps)
  {
    hide RunSteps, AllTimely, PlannedBackup;
    var w := RunSteps(c, START, steps);
    assert forall x | x in w.pcs :: w.pcs[x] == PcOf(w, x);
    if AllTimely(c, START, steps) { TimelyFilesSettled(c, steps, d); }
  }

  /** There are such restores. */
  lemma SomeRestore() returns (c: Checks, r: Restore)
    ensures Ready(c, r)
  {
    c := Checks(x => 0, x => true, x => true, x => true, x => true, (x, y) => true, x => true, x => "approve");
    var upload := UploadPlan(UploadPlanBody(
      Exact, "target", 0, "backblaze-b2-bucket:b", "CA_EAST", "endpoint", "writer", "key", "object", 0, 1,
      SCHEMA_VERSION, 7, 0, 3600, 0.0), 0);
    var receipt := UploadReceipt(UploadReceiptBody(
      Exact, "CA_EAST", "endpoint", "writer", 0, "backblaze-b2-bucket:b", "object", 0, 1, 0, 1, "AES_256_GCM", "key",
      "request", "version", 7, 0, 7 * DAY), 0);
    var package := KeyPackage(Exact, KeyProposal(Exact, "endpoint", "CA_EAST", "b", "name", "reader", 3600), 0);
    assert "backblaze-b2-bucket:b" == "backblaze-b2-bucket:" + package.proposal.bucketRef;
    assert "reader" != "writer" by { assert "reader"[0] != "writer"[0]; }
    assert "restore-target" != "backblaze-b2-bucket:b" && "restore-target" != "object" by {
      assert "restore-target"[0] != "backblaze-b2-bucket:b"[0] && "restore-target"[0] != "object"[0];
    }
    var built := BuildRestorePlan(c, upload, receipt, package, "restore-target", 0, 3600, 0.0);
    assert built.Ok?;
    var plan := built.value;
    var preflight := Preflight(PreflightBody(Exact, 0, Some(0)), 0);
    var approval := Approval(
      RESTORE_ACTION, "approve", IAC, RestoreConditionsOf(plan), ApprovalStatus.Approved, 1, false);
    r := Restore(plan, RestoreEvidence(upload, receipt, package), preflight, "approval", approval, [0], [0], 0);
  }
}
