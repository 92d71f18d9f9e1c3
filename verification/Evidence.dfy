/**
 The evidence chain of an independent backup and its isolated restore: transfer plan, upload
 receipt, restore-key package, restore plan, restore receipt, with their builders and verifiers.
 Models sean_os/backup_adapter.py and sean_os/backup_restore.py. Fields that a verifier compares
 with one constant are folded into a single `contract` field.
 */
module Evidence {
  import opened Basics

  /** Either every constant-valued field has its required value, or some field was altered. */
  datatype Contract = Exact | Altered

  const SCHEMA_VERSION := 18
  const DAY := 24 * 60 * 60
  const TRANSFER_WINDOW := 4 * 60 * 60
  const RESTORE_WINDOW := 14400
  const DATA_REGIONS: set<string> := {"US_EAST", "US_WEST", "EU_CENTRAL", "CA_EAST"}

  datatype UploadPlanBody = UploadPlanBody(
    contract: Contract, approvalTarget: string, proposalSha: Digest,
    destinationRef: string, dataRegion: string, endpoint: string, writerRef: string,
    keyRef: string, objectRef: string, backupSha: Digest, backupBytes: int,
    schemaVersion: int, retentionDays: int, windowStart: Instant, windowEnd: Instant,
    maxCost: real)

  datatype UploadPlan = UploadPlan(body: UploadPlanBody, sha: Digest)

  datatype UploadReceiptBody = UploadReceiptBody(
    contract: Contract, region: string, endpoint: string, writerRef: string, planSha: Digest,
    destinationRef: string, objectRef: string, backupSha: Digest, backupBytes: int,
    ciphertextSha: Digest, ciphertextBytes: int, algorithm: string, keyRef: string,
    requestRef: string, versionRef: string, retentionDays: int,
    uploadedAt: Instant, retainUntil: Instant)

  datatype UploadReceipt = UploadReceipt(body: UploadReceiptBody, sha: Digest)

  datatype KeyProposal = KeyProposal(
    contract: Contract, endpoint: string, dataRegion: string, bucketRef: string,
    keyNameRef: string, credentialRef: string, durationSeconds: int)

  datatype KeyPackage = KeyPackage(contract: Contract, proposal: KeyProposal, proposalSha: Digest)

  /** Every restore-plan field that its approval target is derived from. */
  datatype RestoreIdentity = RestoreIdentity(
    contract: Contract, dataRegion: string, endpoint: string, destinationRef: string,
    objectRef: string, versionRef: string, writerRef: string, restoreRef: string,
    keyRef: string, uploadPlanSha: Digest, uploadReceiptSha: Digest,
    ciphertextSha: Digest, ciphertextBytes: int, plaintextSha: Digest, plaintextBytes: int,
    schemaVersion: int, restoreTarget: string, windowStart: Instant, windowEnd: Instant,
    retainUntil: Instant, maxCost: real, keyProposalSha: Digest)

  datatype RestorePlanBody = RestorePlanBody(identity: RestoreIdentity, approvalTarget: string)

  datatype RestorePlan = RestorePlan(body: RestorePlanBody, sha: Digest)

  /** Completion evidence of one restore, as the receipt repeats it. */
  datatype RestoreFacts = RestoreFacts(
    region: string, endpoint: string, restoreRef: string, objectRef: string, versionRef: string,
    ciphertextSha: Digest, ciphertextBytes: int, keyRef: string, plaintextSha: Digest,
    plaintextBytes: int, schemaVersion: int, restoreTarget: string, retainUntil: Instant)

  datatype RestoreReceiptBody = RestoreReceiptBody(
    contract: Contract, planSha: Digest, uploadReceiptSha: Digest, facts: RestoreFacts,
    restoredAt: Instant)

  datatype RestoreReceipt = RestoreReceipt(body: RestoreReceiptBody, sha: Digest)

  /** A no-action preflight receipt; a transfer's receipt carries no upload receipt digest. */
  datatype PreflightBody = PreflightBody(
    contract: Contract, planSha: Digest, uploadReceiptSha: Option<Digest>)

  datatype Preflight = Preflight(body: PreflightBody, sha: Digest)

  /** What is digested: the canonical text of one kind of document, or the bytes of a file. */
  datatype Content =
    | FileBytes(bytes: seq<Byte>)
    | UploadPlanText(uploadPlan: UploadPlanBody)
    | UploadReceiptText(uploadReceipt: UploadReceiptBody)
    | KeyProposalText(keyProposal: KeyProposal)
    | RestorePlanText(restorePlan: RestorePlanBody)
    | RestoreReceiptText(restoreReceipt: RestoreReceiptBody)
    | PreflightText(preflight: PreflightBody)

  /** SHA-256 and the pattern checks, which the model leaves uninterpreted. */
  datatype Checks = Checks(
    sha: Content -> Digest,
    clean: Content -> bool,
    looseRef: string -> bool,
    strictRef: string -> bool,
    objectRef: string -> bool,
    endpoint: (string, string) -> bool,
    bucket: string -> bool,
    restoreTarget: RestoreIdentity -> string)

  /** These two documents do not collide. */
  predicate Distinguished(c: Checks, x: Content, y: Content) {
    c.sha(x) == c.sha(y) ==> x == y
  }

  predicate CostOk(cost: real) {
    0.0 <= cost <= 15.0
  }

  predicate StoredUploadPlanOk(c: Checks, plan: UploadPlan) {
    var b := plan.body;
    && b.contract.Exact? && c.clean(UploadPlanText(b))
    && b.dataRegion in DATA_REGIONS
    && c.looseRef(b.destinationRef) && c.looseRef(b.endpoint) && c.endpoint(b.endpoint, b.dataRegion)
    && c.looseRef(b.writerRef) && c.looseRef(b.keyRef) && c.objectRef(b.objectRef)
    && b.backupBytes > 0
    && b.schemaVersion == SCHEMA_VERSION
    && 7 <= b.retentionDays <= 3650
    && b.windowStart < b.windowEnd <= b.windowStart + TRANSFER_WINDOW
    && CostOk(b.maxCost)
    && plan.sha == c.sha(UploadPlanText(b))
  }

  predicate UploadReceiptOk(c: Checks, receipt: UploadReceipt, plan: UploadPlan) {
    var r, p := receipt.body, plan.body;
    && StoredUploadPlanOk(c, plan)
    && r.contract.Exact? && c.clean(UploadReceiptText(r))
    && r.region == p.dataRegion && r.endpoint == p.endpoint && r.writerRef == p.writerRef
    && r.planSha == plan.sha
    && r.destinationRef == p.destinationRef && r.objectRef == p.objectRef
    && r.backupSha == p.backupSha && r.backupBytes == p.backupBytes
    && r.retentionDays == p.retentionDays
    && c.looseRef(r.requestRef) && c.looseRef(r.versionRef)
    && r.keyRef == p.keyRef
    && r.ciphertextBytes > 0
    && r.algorithm in {"AES_256_GCM", "XCHACHA20_POLY1305"}
    && p.windowStart <= r.uploadedAt <= p.windowEnd
    && r.retainUntil - r.uploadedAt >= p.retentionDays * DAY
    && receipt.sha == c.sha(UploadReceiptText(r))
  }

  predicate KeyPackageOk(c: Checks, package: KeyPackage) {
    var k := package.proposal;
    && package.contract.Exact? && k.contract.Exact? && c.clean(KeyProposalText(k))
    && k.dataRegion == "CA_EAST"
    && c.looseRef(k.endpoint) && c.endpoint(k.endpoint, k.dataRegion)
    && c.bucket(k.bucketRef) && c.strictRef(k.keyNameRef) && c.strictRef(k.credentialRef)
    && 300 <= k.durationSeconds <= 14400
    && package.proposalSha == c.sha(KeyProposalText(k))
  }

  /** Binds one uploaded object version to a separate, still-disabled restore. */
  function BuildRestorePlan(
    c: Checks, upload: UploadPlan, receipt: UploadReceipt, package: KeyPackage,
    target: string, start: Instant, end: Instant, maxCost: real): (r: Result<RestorePlan>)
  {
    var u, r, k := upload.body, receipt.body, package.proposal;
    if !UploadReceiptOk(c, receipt, upload) then Err("upload evidence")
    else if !KeyPackageOk(c, package) then Err("restore key package")
    else if u.destinationRef != "backblaze-b2-bucket:" + k.bucketRef then Err("bucket")
    else if k.endpoint != u.endpoint || k.dataRegion != u.dataRegion then Err("endpoint")
    else if k.credentialRef == u.writerRef then Err("restore identity is the writer")
    else if !c.strictRef(target) || target == u.destinationRef || target == u.objectRef then Err("target")
    else if end <= start || end - start > k.durationSeconds then Err("window")
    else if start < r.uploadedAt || end > r.retainUntil then Err("window outside retention")
    else if !CostOk(maxCost) then Err("cost")
    else
      var identity := RestoreIdentity(
        Exact, u.dataRegion, u.endpoint, u.destinationRef, u.objectRef, r.versionRef, u.writerRef,
        k.credentialRef, r.keyRef, upload.sha, receipt.sha, r.ciphertextSha, r.ciphertextBytes,
        r.backupSha, r.backupBytes, u.schemaVersion, target, start, end, r.retainUntil, maxCost,
        package.proposalSha);
      var body := RestorePlanBody(identity, c.restoreTarget(identity));
      Ok(RestorePlan(body, c.sha(RestorePlanText(body))))
  }

  /** The references a restore plan holds to the stricter pattern of backup_restore.py. */
  predicate StrictReferences(c: Checks, body: RestorePlanBody) {
    var i := body.identity;
    && c.strictRef(i.destinationRef) && c.strictRef(i.objectRef) && c.strictRef(i.versionRef)
    && c.strictRef(i.writerRef) && c.strictRef(i.restoreRef) && c.strictRef(i.keyRef)
    && c.strictRef(i.restoreTarget) && c.strictRef(body.approvalTarget)
  }

  predicate RestorePlanOk(c: Checks, plan: RestorePlan) {
    var i := plan.body.identity;
    && i.contract.Exact? && c.clean(RestorePlanText(plan.body))
    && i.dataRegion == "CA_EAST"
    && c.looseRef(i.endpoint) && c.endpoint(i.endpoint, i.dataRegion)
    && StrictReferences(c, plan.body)
    && i.ciphertextBytes > 0 && i.plaintextBytes > 0 && i.schemaVersion > 0
    && i.windowStart < i.windowEnd <= i.windowStart + RESTORE_WINDOW
    && i.windowEnd <= i.retainUntil
    && CostOk(i.maxCost)
    && i.restoreRef != i.writerRef
    && plan.body.approvalTarget == c.restoreTarget(i)
    && plan.sha == c.sha(RestorePlanText(plan.body))
  }

  /** Rebuilds the plan from the evidence it names and compares the two. */
  predicate RestorePlanMatchesEvidence(
    c: Checks, plan: RestorePlan, upload: UploadPlan, receipt: UploadReceipt, package: KeyPackage)
  {
    var i := plan.body.identity;
    && RestorePlanOk(c, plan)
    && BuildRestorePlan(c, upload, receipt, package, i.restoreTarget, i.windowStart, i.windowEnd,
                        i.maxCost) == Ok(plan)
  }

  function FactsOf(i: RestoreIdentity): RestoreFacts {
    RestoreFacts(i.dataRegion, i.endpoint, i.restoreRef, i.objectRef, i.versionRef, i.ciphertextSha,
                 i.ciphertextBytes, i.keyRef, i.plaintextSha, i.plaintextBytes, i.schemaVersion,
                 i.restoreTarget, i.retainUntil)
  }

  predicate RestoreReceiptOk(c: Checks, receipt: RestoreReceipt, plan: RestorePlan) {
    var r, i := receipt.body, plan.body.identity;
    && RestorePlanOk(c, plan)
    && r.contract.Exact? && c.clean(RestoreReceiptText(r))
    && r.planSha == plan.sha && r.uploadReceiptSha == i.uploadReceiptSha
    && r.facts == FactsOf(i)
    && i.windowStart <= r.restoredAt <= i.windowEnd
    && receipt.sha == c.sha(RestoreReceiptText(r))
  }

  function BuildRestoreReceipt(
    c: Checks, plan: RestorePlan, facts: RestoreFacts, restoredAt: Instant): (r: Result<RestoreReceipt>)
  {
    var i := plan.body.identity;
    var body := RestoreReceiptBody(Exact, plan.sha, i.uploadReceiptSha, facts, restoredAt);
    var receipt := RestoreReceipt(body, c.sha(RestoreReceiptText(body)));
    if !RestorePlanOk(c, plan) then Err("restore plan")
    else if facts != FactsOf(i) then Err("completion evidence")
    else if !(i.windowStart <= restoredAt <= i.windowEnd) then Err("outside the window")
    else if !RestoreReceiptOk(c, receipt, plan) then Err("receipt")
    else Ok(receipt)
  }

  predicate PreflightOk(c: Checks, p: Preflight) {
    p.body.contract.Exact? && c.clean(PreflightText(p.body)) && p.sha == c.sha(PreflightText(p.body))
  }

  /** Everything a finished restore is supposed to prove about the backup it came from. */
  ghost predicate ChainHolds(
    upload: UploadPlan, receipt: UploadReceipt, plan: RestorePlan, done: RestoreReceipt)
  {
    var u, r, d := upload.body, receipt.body, done.body;
    var i := plan.body.identity;
    && i.windowStart <= d.restoredAt <= i.windowEnd
    && r.uploadedAt <= i.windowStart < i.windowEnd <= r.retainUntil
    && u.windowStart <= r.uploadedAt <= u.windowEnd
    && r.retainUntil >= r.uploadedAt + u.retentionDays * DAY
    && d.facts.plaintextSha == u.backupSha && d.facts.plaintextBytes == u.backupBytes
    && d.facts.ciphertextSha == r.ciphertextSha && d.facts.ciphertextBytes == r.ciphertextBytes
    && d.facts.objectRef == u.objectRef == r.objectRef
    && d.facts.versionRef == r.versionRef
    && d.facts.keyRef == u.keyRef
    && d.facts.restoreRef != u.writerRef
    && d.facts.restoreTarget !in {u.destinationRef, u.objectRef}
    && r.planSha == upload.sha && d.planSha == plan.sha && d.uploadReceiptSha == receipt.sha
  }

  /** The five verifiers compose: what each accepts fixes all that the next one relies on. */
  lemma VerifiersCompose(
    c: Checks, upload: UploadPlan, receipt: UploadReceipt, package: KeyPackage, plan: RestorePlan, done: RestoreReceipt)
    requires RestorePlanMatchesEvidence(c, plan, upload, receipt, package)
    requires RestoreReceiptOk(c, done, plan)
    ensures ChainHolds(upload, receipt, plan, done)
  {
  }

  /** Verified evidence with the digests a plan records is the plan's own, unless it collides with it. */
  lemma DigestsNameEvidence(
    c: Checks, upload: UploadPlan, receipt: UploadReceipt, package: KeyPackage, plan: RestorePlan,
    upload': UploadPlan, receipt': UploadReceipt)
    requires RestorePlanMatchesEvidence(c, plan, upload, receipt, package)
    requires StoredUploadPlanOk(c, upload') && upload'.sha == plan.body.identity.uploadPlanSha
    requires UploadReceiptOk(c, receipt', upload') && receipt'.sha == plan.body.identity.uploadReceiptSha
    requires Distinguished(c, UploadPlanText(upload'.body), UploadPlanText(upload.body))
    requires Distinguished(c, UploadReceiptText(receipt'.body), UploadReceiptText(receipt.body))
    ensures upload' == upload && receipt' == receipt
  {
    assert c.sha(UploadPlanText(upload'.body)) == c.sha(UploadPlanText(upload.body));
    assert c.sha(UploadReceiptText(receipt'.body)) == c.sha(UploadReceiptText(receipt.body));
  }

  /** The verifier accepts exactly the builder's results that are Canadian and strictly named. */
  lemma BuiltPlanVerifies(
    c: Checks, upload: UploadPlan, receipt: UploadReceipt, package: KeyPackage,
    target: string, start: Instant, end: Instant, maxCost: real)
    requires BuildRestorePlan(c, upload, receipt, package, target, start, end, maxCost).Ok?
    ensures
      var plan := BuildRestorePlan(c, upload, receipt, package, target, start, end, maxCost).value;
      RestorePlanMatchesEvidence(c, plan, upload, receipt, package)
      <==> StrictReferences(c, plan.body) && c.clean(RestorePlanText(plan.body))
  {
  }

  /** A built restore receipt verifies, and only its own plan's facts at a time in its window build. */
  lemma BuiltReceiptVerifies(c: Checks, plan: RestorePlan, facts: RestoreFacts, at: Instant)
    ensures
      var i := plan.body.identity;
      var body := RestoreReceiptBody(Exact, plan.sha, i.uploadReceiptSha, facts, at);
      BuildRestoreReceipt(c, plan, facts, at).Ok?
      <==> RestoreReceiptOk(c, RestoreReceipt(body, c.sha(RestoreReceiptText(body))), plan)
    ensures BuildRestoreReceipt(c, plan, facts, at).Ok?
            ==> RestoreReceiptOk(c, BuildRestoreReceipt(c, plan, facts, at).value, plan)
  {
  }
}
