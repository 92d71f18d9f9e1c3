/**
 process_backup_restore_once: at most one isolated restore, into a destination that must be new
 (scripts/restore_worker.py:60-124, sean_os/backup_restore_execution.py:190-391). The download and
 the decryption are those of modules Download and DecryptFiles, in one directory of full paths. A
 destination file is left behind only by a row that is RESTORED or held for reconciliation.
 */
module RestoreWorker {
  import opened Basics
  import opened Evidence
  import opened Outbox
  import opened Store
  import opened StoreClass
  import Header
  import Envelope
  import Files = EnvelopeFiles
  import DecryptFiles
  import Download
  import Protocol = RestoreProtocol

  type Bytes = seq<Byte>

  datatype Execution = Receipt(done: RestoreReceipt) | Ambiguous | Raised

  /** The file the run is to make, and the two names with random parts that it uses on the way. */
  datatype Paths = Paths(destination: string, target: string, partial: string)

  predicate PathsOk(p: Paths) {
    p.destination != p.target && p.destination != p.partial && p.target != p.partial
  }

  /** Everything the outside world decides during one run. */
  datatype Script = Script(
    claimAt: Instant, portsResolved: bool, startedAt: Instant,
    config: Download.Config, configKeyRef: string, configMaxCost: real, port: Download.Port,
    flipBeforeDownload: Option<bool>, downloadAt: Instant, answers: Download.Answers, downloadFaults: Files.Faults,
    flipBeforeDecryption: Option<bool>, decryptAt: Instant, decryptFaults: Files.Faults, databaseOk: bool,
    flipAfterDecryption: Option<bool>, verifiedAt: Instant,
    flipBeforeCompletion: Option<bool>, finishAt: Instant, failAt: Instant)

  /** How texts and digests are spelled in an envelope header, the cipher, and the object-key pattern. */
  datatype Codec = Codec(
    crypto: Envelope.Crypto, text: string -> Header.Text, hex: Digest -> Header.Text, objectKey: string -> bool)

  ghost predicate Settled(row: RestoreRow) {
    row.status.Completed? || row.status.ReconciliationRequired?
  }

  /** Every file at a destination belongs to a settled row; `origin` records whose run was to make it. */
  ghost predicate PublishedOk(db: Db, files: map<string, Bytes>, origin: map<string, Digest>) {
    forall d | d in origin && d in files :: origin[d] in db.restores && Settled(db.restores[origin[d]])
  }

  /** No transaction of anyone can unsettle a row, so published files stay accounted for. */
  lemma SettledStays(c: Checks, db: Db, e: Event, files: map<string, Bytes>, origin: map<string, Digest>)
    requires PublishedOk(db, files, origin)
    ensures PublishedOk(Next(c, db, e), files, origin)
  {
    forall d | d in origin && d in files
      ensures origin[d] in Next(c, db, e).restores && Settled(Next(c, db, e).restores[origin[d]])
    {
      SettledRowStays(c, db, e, origin[d]);
    }
    hide Next, Settled;
  }

  lemma SettledRowStays(c: Checks, db: Db, e: Event, k: Digest)
    requires k in db.restores && Settled(db.restores[k])
    ensures k in Next(c, db, e).restores && Settled(Next(c, db, e).restores[k])
  {
    NextRestoreRow(c, db, e, k);
    hide Next, RestoreEvent;
  }

  /** Only this restore row and the kill switch differ. */
  ghost predicate SameBut(before: Db, after: Db, pk: Digest) {
    && after == before.(restores := after.restores, killSwitch := after.killSwitch)
    && after.restores.Keys == before.restores.Keys
    && forall k | k in before.restores && k != pk :: after.restores[k] == before.restores[k]
  }

  /** What a claim's scan does to the rows that it does not lease. */
  ghost function Scanned(db: Db, at: Instant): Db {
    if db.killSwitch then db else db.(restores := Swept(db.restores, RestoreSwept(db.restores, at)))
  }

  const LEASE_SECONDS := 900

  // ---------------------------------------------------------------- what decides the outcome

  /** The runtime configuration names exactly what the plan does. */
  predicate ConfigMatches(s: Script, plan: RestorePlan) {
    var i := plan.body.identity;
    && s.config.enabled && s.config.providerOk && s.config.dataRegion == i.dataRegion
    && s.config.endpoint == i.endpoint && s.config.destinationRef == i.destinationRef
    && s.config.restoreRef == i.restoreRef && s.configKeyRef == i.keyRef && s.configMaxCost == i.maxCost
    && i.ciphertextBytes <= if s.config.maxBytes.Some? then s.config.maxBytes.value else 0
  }

  /** The planned object is served, and the guards before and after its download pass. */
  predicate Fetches(c: Checks, codec: Codec, plan: RestorePlan, s: Script, served: Bytes, until: Instant) {
    && s.portsResolved && ConfigMatches(s, plan) && Protocol.InTime(c, plan, until, s.startedAt)
    && s.flipBeforeDownload != Some(true) && Protocol.InTime(c, plan, until, s.downloadAt)
    && Download.RequestOk(c, codec.objectKey, plan, s.config, s.port) && Download.AnswersOk(plan, s.answers)
    && Download.BodyPlanned(FileSha(c), plan, served)
    && s.flipBeforeDecryption != Some(true) && Protocol.InTime(c, plan, until, s.decryptAt)
  }

  function FileSha(c: Checks): Bytes -> Digest {
    (bytes: Bytes) => c.sha(FileBytes(bytes))
  }

  /** What the served object decrypts to under this key, for this plan. */
  function Decrypted(codec: Codec, plan: RestorePlan, served: Bytes, key: Bytes): Option<Bytes> {
    var i := plan.body.identity;
    Envelope.Opened(codec.crypto, served, key, codec.text(i.keyRef), codec.hex(i.uploadPlanSha))
  }

  predicate EvidencePlanned(codec: Codec, plan: RestorePlan, evidence: DecryptFiles.DecryptedEvidence) {
    var i := plan.body.identity;
    && evidence.planSha == codec.hex(i.uploadPlanSha) && evidence.plaintextSha == codec.hex(i.plaintextSha)
    && evidence.plaintextBytes == i.plaintextBytes && evidence.keyRef == codec.text(i.keyRef)
  }

  /** The decrypted file is the planned one, by its header, by its own digest, and as a database. */
  predicate PlannedFile(c: Checks, codec: Codec, plan: RestorePlan, plaintext: Bytes, databaseOk: bool) {
    var i := plan.body.identity;
    && databaseOk && codec.crypto.sha(plaintext) == codec.hex(i.plaintextSha)
    && Protocol.PlannedBackup(c, plan, plaintext)
  }

  /** After the publication: the file is the planned one, the receipt builds, the lease still holds. */
  predicate PublicationCompletes(
    c: Checks, codec: Codec, plan: RestorePlan, plaintext: Bytes, s: Script, until: Instant)
  {
    && PlannedFile(c, codec, plan, plaintext, s.databaseOk)
    && s.flipAfterDecryption != Some(true) && Protocol.InTime(c, plan, until, s.verifiedAt)
    && BuildRestoreReceipt(c, plan, FactsOf(plan.body.identity), s.startedAt).Ok?
    && s.flipBeforeCompletion != Some(true) && s.finishAt < until
  }

  /** No call fails before the publication. */
  ghost predicate QuietRun(s: Script) {
    Files.QuietUntilLink(s.downloadFaults) && Files.QuietUntilLink(s.decryptFaults)
  }

  function RetryStatus(row: RestoreRow): Status {
    if row.attempts + 1 >= row.maxAttempts then Failed else Authorized
  }

  /** The status that a run leaves its row in, when no call fails before the publication. */
  function StatusLeft(
    c: Checks, codec: Codec, row: RestoreRow, s: Script, served: Bytes, key: Bytes, until: Instant): Status
  {
    var plaintext := Decrypted(codec, row.plan, served, key);
    var f := s.decryptFaults;
    if !Fetches(c, codec, row.plan, s, served, until) || plaintext.None? || f.link then RetryStatus(row)
    else if f.unlink then
      if f.cleanPartial || f.cleanDestination then ReconciliationRequired else RetryStatus(row)
    else if PublicationCompletes(c, codec, row.plan, plaintext.value, s, until) then Completed
    else ReconciliationRequired
  }

  class Worker {
    const store: SeanOSStore
    const directory: Files.Directory
    const id: string
    const codec: Codec
    ghost var origin: map<string, Digest>

    /** Holds whenever the worker is idle, whatever else the store has done meanwhile. */
    ghost predicate Valid()
      reads this, store, directory
    {
      id != "" && Inv(store.checks, store.View()) && PublishedOk(store.View(), directory.files, origin)
    }

    ghost predicate Holding(pk: Digest)
      reads store
    {
      pk in store.restores && HeldBy(store.restores[pk], id)
    }

    /** The row is leased to this worker until then. */
    ghost predicate Leased(pk: Digest, row: RestoreRow, until: Instant)
      reads store
    {
      && Holding(pk) && store.restores[pk].plan == row.plan
      && store.restores[pk].lease.value.expiresAt == until && store.restores[pk].approval.Some?
      && store.restores[pk].attempts == row.attempts + 1 && store.restores[pk].maxAttempts == row.maxAttempts
    }

    constructor (store: SeanOSStore, directory: Files.Directory, id: string, codec: Codec)
      requires id != "" && Inv(store.checks, store.View())
      ensures Valid() && this.store == store && this.directory == directory && this.id == id && this.codec == codec
      ensures origin == map[]
    {
      this.store, this.directory, this.id, this.codec, origin := store, directory, id, codec, map[];
    }

    method Interfere(flip: Option<bool>)
      requires Inv(store.checks, store.View())
      modifies store
      ensures Inv(store.checks, store.View())
      ensures store.View() == old(store.View()).(killSwitch := if flip.Some? then flip.value else old(store.killSwitch))
    {
      hide Next, Inv;
      if flip.Some? {
        NextKeepsInv(store.checks, store.View(), Event.SetKillSwitch(flip.value));
        store.SetKillSwitch(flip.value);
      }
    }

    /** validate_claimed_backup_restore: configuration, window and lease. */
    method ValidateClaimed(pk: Digest, s: Script) returns (ok: bool)
      requires Holding(pk)
      ensures ok <==>
        && ConfigMatches(s, store.restores[pk].plan)
        && Protocol.InTime(store.checks, store.restores[pk].plan, store.restores[pk].lease.value.expiresAt, s.startedAt)
    {
      var row := store.restores[pk];
      ok := ConfigMatches(s, row.plan)
            && Protocol.InTime(store.checks, row.plan, row.lease.value.expiresAt, s.startedAt);
    }

    /** The recheck before each stage, as the kill switch and the clock are then. */
    method GuardStage(pk: Digest, flip: Option<bool>, at: Instant, ghost row: RestoreRow, ghost until: Instant)
      returns (ok: bool)
      requires Leased(pk, row, until) && Inv(store.checks, store.View())
      modifies store
      ensures store.View() == old(store.View()).(killSwitch := store.killSwitch) && Leased(pk, row, until)
      ensures Inv(store.checks, store.View())
      ensures !old(store.killSwitch) ==>
        (ok <==> flip != Some(true) && Protocol.InTime(store.checks, row.plan, until, at))
      ensures ok ==> !store.killSwitch
    {
      hide Inv;
      Interfere(flip);
      ok := store.AssertBackupRestoreExecutionAllowed(pk, id, at);
    }

    /** _verify_download: the file's size and hash once more. */
    method VerifyDownload(plan: RestorePlan, target: string) returns (ok: bool)
      ensures ok <==>
        target in directory.files && Download.BodyPlanned(FileSha(store.checks), plan, directory.files[target])
    {
      if target !in directory.files { return false; }
      return Download.BodyPlanned(FileSha(store.checks), plan, directory.files[target]);
    }

    /** _verify_decrypted: the evidence, the file's hash and size, and the restored database itself. */
    method VerifyDecrypted(
      plan: RestorePlan, evidence: DecryptFiles.DecryptedEvidence, destination: string, databaseOk: bool)
      returns (ok: bool)
      ensures ok <==>
        && EvidencePlanned(codec, plan, evidence) && databaseOk && destination in directory.files
        && Protocol.PlannedBackup(store.checks, plan, directory.files[destination])
    {
      if !EvidencePlanned(codec, plan, evidence) || destination !in directory.files { return false; }
      return databaseOk && Protocol.PlannedBackup(store.checks, plan, directory.files[destination]);
    }

    /** From the claim to the second guard: the planned ciphertext is in its new file, or a plain error. */
    method FetchObject(
      pk: Digest, paths: Paths, s: Script, body: Files.Reader, ghost row: RestoreRow, ghost until: Instant)
      returns (ok: bool)
      requires Leased(pk, row, until) && !store.killSwitch && PathsOk(paths)
      requires paths.destination !in directory.files && paths.target !in directory.files
      requires body.Valid() && body.pos == 0 && Inv(store.checks, store.View())
      modifies store, directory, body
      ensures Inv(store.checks, store.View())
      ensures store.View() == old(store.View()).(killSwitch := store.killSwitch) && Leased(pk, row, until)
      ensures directory.files - {paths.target} == old(directory.files)
      ensures ok ==>
        && Fetches(store.checks, codec, row.plan, s, body.content, until) && !store.killSwitch
        && directory.files == old(directory.files)[paths.target := body.content]
      ensures Files.QuietUntilLink(s.downloadFaults) ==>
        (ok <==> Fetches(store.checks, codec, row.plan, s, body.content, until))
    {
      hide Inv, Protocol.InTime, ConfigMatches, Download.RequestOk, Download.AnswersOk, Download.BodyPlanned, FileSha;
      if !s.portsResolved { return false; }
      ok := ValidateClaimed(pk, s);
      if !ok || paths.destination in directory.files { return false; }
      ok := GuardStage(pk, s.flipBeforeDownload, s.downloadAt, row, until);
      if !ok { return; }
      var plan := store.restores[pk].plan;
      ghost var before := directory.files;
      ok := Download.DownloadExact(store.checks, FileSha(store.checks), codec.objectKey, directory, paths.target, plan,
        s.config, s.port, s.answers, body, s.downloadFaults);
      if !ok { return; }
      ok := VerifyDownload(plan, paths.target);
      if !ok { return; }
      ok := GuardStage(pk, s.flipBeforeDecryption, s.decryptAt, row, until);
    }

    /** The destination, after a decryption: published, absent, or left behind by a failing clean-up. */
    method ExecuteClaimedBackupRestore(
      pk: Digest, paths: Paths, s: Script, body: Files.Reader, resolved: array<Byte>,
      ghost row: RestoreRow, ghost until: Instant)
      returns (r: Execution)
      requires Leased(pk, row, until) && !store.killSwitch && PathsOk(paths)
      requires paths.destination !in directory.files && paths.target !in directory.files
      requires paths.partial !in directory.files && body.Valid() && body.pos == 0
      requires Inv(store.checks, store.View())
      modifies store, directory, body, resolved
      ensures Inv(store.checks, store.View())
      ensures store.View() == old(store.View()).(killSwitch := store.killSwitch) && Leased(pk, row, until)
      ensures directory.files - {paths.destination, paths.target, paths.partial} == old(directory.files)
      ensures paths.partial in directory.files ==> s.decryptFaults.cleanPartial
      ensures !r.Raised? ==>
        && Fetches(store.checks, codec, row.plan, s, body.content, until)
        && paths.destination in directory.files
        && Decrypted(codec, row.plan, body.content, old(resolved[..])) == Some(directory.files[paths.destination])
        && !s.decryptFaults.link && !s.decryptFaults.unlink
      ensures !r.Raised? ==>
        (r.Receipt? && s.flipBeforeCompletion != Some(true) && s.finishAt < until <==>
           PublicationCompletes(store.checks, codec, row.plan, directory.files[paths.destination], s, until))
      ensures r.Receipt? ==>
        && !store.killSwitch && RestoreReceiptOk(store.checks, r.done, row.plan)
        && store.checks.sha(FileBytes(directory.files[paths.destination])) == r.done.body.facts.plaintextSha
      ensures r.Raised? && paths.destination in directory.files ==>
        && s.decryptFaults.unlink && (s.decryptFaults.cleanPartial || s.decryptFaults.cleanDestination)
        && Decrypted(codec, row.plan, body.content, old(resolved[..])) == Some(directory.files[paths.destination])
      ensures QuietRun(s) ==>
        var plaintext := Decrypted(codec, row.plan, body.content, old(resolved[..]));
        && (r.Raised? <==>
              || !Fetches(store.checks, codec, row.plan, s, body.content, until)
              || plaintext.None? || s.decryptFaults.link || s.decryptFaults.unlink)
        && (r.Raised? ==>
              (paths.destination in directory.files <==>
                 && Fetches(store.checks, codec, row.plan, s, body.content, until) && plaintext.Some?
                 && !s.decryptFaults.link && s.decryptFaults.unlink
                 && (s.decryptFaults.cleanPartial || s.decryptFaults.cleanDestination)))
    {
      hide Next, Inv, Fetches, RestoreReceiptOk, BuildRestoreReceipt, Envelope.Opened, RestorePlanOk;
      var ok := FetchObject(pk, paths, s, body, row, until);
      if !ok { return Raised; }
      var plan, i := store.restores[pk].plan, store.restores[pk].plan.body.identity;
      var source := new Files.Reader(directory.files[paths.target]);
      var artifact := DecryptFiles.DecryptTo(codec.crypto, directory, source, paths.destination, paths.partial,
        codec.text(i.keyRef), codec.hex(i.uploadPlanSha), resolved, s.decryptFaults);
      if artifact.None? { return Raised; }
      r := VerifyAndReceipt(pk, paths.destination, artifact.value, s, row, until);
    }

    /** Once a file is published, every failure means reconciliation. */
    method VerifyAndReceipt(
      pk: Digest, destination: string, evidence: DecryptFiles.DecryptedEvidence, s: Script,
      ghost row: RestoreRow, ghost until: Instant)
      returns (r: Execution)
      requires Leased(pk, row, until) && !store.killSwitch && destination in directory.files
      requires evidence == DecryptFiles.DecryptedEvidence(
        codec.hex(row.plan.body.identity.uploadPlanSha), codec.crypto.sha(directory.files[destination]),
        |directory.files[destination]|, codec.text(row.plan.body.identity.keyRef))
      requires Inv(store.checks, store.View())
      modifies store
      ensures Inv(store.checks, store.View())
      ensures store.View() == old(store.View()).(killSwitch := store.killSwitch) && Leased(pk, row, until)
      ensures !r.Raised?
      ensures r.Receipt? && s.flipBeforeCompletion != Some(true) && s.finishAt < until <==>
        PublicationCompletes(store.checks, codec, row.plan, directory.files[destination], s, until)
      ensures r.Receipt? ==>
        && !store.killSwitch && RestoreReceiptOk(store.checks, r.done, row.plan)
        && store.checks.sha(FileBytes(directory.files[destination])) == r.done.body.facts.plaintextSha
    {
      hide Next, Inv, RestorePlanOk;
      var plan := store.restores[pk].plan;
      var ok := VerifyDecrypted(plan, evidence, destination, s.databaseOk);
      if !ok { return Ambiguous; }
      ok := GuardStage(pk, s.flipAfterDecryption, s.verifiedAt, row, until);
      if !ok { return Ambiguous; }
      var built := BuildRestoreReceipt(store.checks, plan, FactsOf(plan.body.identity), s.startedAt);
      if built.Err? { return Ambiguous; }
      return Receipt(built.value);
    }

    /** The worker's answer to an exception: hold if a file may have been published, else retry. */
    method SettleAfterError(pk: Digest, destination: string, published: bool, failAt: Instant)
      returns (status: Status)
      requires Holding(pk) && id != ""
      requires OthersSettled(destination) && Inv(store.checks, store.View())
      requires destination in origin && origin[destination] == pk
      modifies store
      ensures Valid() && pk in store.restores && status == store.restores[pk].status
      ensures SameBut(old(store.View()), store.View(), pk)
      ensures status == if published || destination in directory.files then ReconciliationRequired
                        else if Exhausted(old(store.restores)[pk]) then Failed else Authorized
    {
      hide Next, Inv;
      ghost var before := store.View();
      ghost var others := directory.files - {destination};
      if published || destination in directory.files {
        NextKeepsInv(store.checks, before, HoldRestore(pk, id));
        OnlyItsRow(store.checks, before, HoldRestore(pk, id), pk);
        var held := store.HoldClaimedBackupRestoreForReconciliation(pk, id);
        SettledStays(store.checks, before, HoldRestore(pk, id), others, origin);
        return held.value;
      }
      NextKeepsInv(store.checks, before, FailRestore(pk, id, Protocol.RETRY_SECONDS, failAt));
      OnlyItsRow(store.checks, before, FailRestore(pk, id, Protocol.RETRY_SECONDS, failAt), pk);
      var failed := store.FailClaimedBackupRestore(pk, id, Protocol.RETRY_SECONDS, failAt);
      SettledStays(store.checks, before, FailRestore(pk, id, Protocol.RETRY_SECONDS, failAt), others, origin);
      return failed.value;
    }

    /** Everything else the store does while the worker is idle. */
    ghost method Observe(before: Db, e: Event)
      requires id != "" && Inv(store.checks, before) && PublishedOk(before, directory.files, origin)
      requires store.View() == Next(store.checks, before, e)
      ensures Valid()
    {
      hide Next, Inv;
      NextKeepsInv(store.checks, before, e);
      SettledStays(store.checks, before, e, directory.files, origin);
    }

    ghost predicate OthersSettled(destination: string)
      reads this, store, directory
    {
      PublishedOk(store.View(), directory.files - {destination}, origin)
    }

    /** The claim, noted under the destination; the names with random parts are no one's destinations. */
    method ClaimFor(paths: Paths, at: Instant) returns (claimed: Option<Digest>)
      requires Valid() && PathsOk(paths) && paths.destination !in directory.files
      requires paths.target !in directory.files && paths.partial !in directory.files
      modifies this, store
      ensures Valid()
      ensures claimed == if old(store.killSwitch) then None else RestorePick(old(store.restores), at)
      ensures claimed.None? ==> store.View() == Scanned(old(store.View()), at)
      ensures claimed.Some? ==> SameBut(Scanned(old(store.View()), at), store.View(), claimed.value)
      ensures claimed.Some? ==>
        && paths.destination in origin && origin[paths.destination] == claimed.value
        && paths.target !in origin && paths.partial !in origin
        && claimed.value in old(store.restores) && !store.killSwitch
        && var row := old(store.restores)[claimed.value];
          Leased(claimed.value, row, Protocol.LeaseEnd(row, LEASE_SECONDS, at))
    {
      hide Next, Inv, Scanned;
      ghost var before := store.View();
      NextKeepsInv(store.checks, before, ClaimRestore(id, LEASE_SECONDS, at));
      OnlyScanned(store.checks, before, id, at);
      var r := store.ClaimAuthorizedBackupRestore(id, LEASE_SECONDS, at);
      SettledStays(store.checks, before, ClaimRestore(id, LEASE_SECONDS, at), directory.files, origin);
      if r.value.Some? {
        ClaimedRow(store.checks, before, id, at, r.value.value);
        origin := (origin - {paths.target, paths.partial})[paths.destination := r.value.value];
      }
      return r.value;
    }

    /** Completion either leaves the row RESTORED or raises and leaves everything as it was. */
    method Complete(pk: Digest, destination: string, done: RestoreReceipt, at: Instant) returns (ok: bool)
      requires Holding(pk) && OthersSettled(destination) && Inv(store.checks, store.View())
      modifies store
      ensures OthersSettled(destination) && Inv(store.checks, store.View())
      ensures SameBut(old(store.View()), store.View(), pk)
      ensures ok <==> RestoreCompletes(store.checks, old(store.View()), pk, id, done, at)
      ensures !ok ==> store.View() == old(store.View())
      ensures ok ==> && pk in store.restores && store.restores[pk].status.Completed?
                     && store.restores[pk].plan == old(store.restores[pk].plan)
    {
      hide Next, Inv;
      ghost var before := store.View();
      NextKeepsInv(store.checks, before, CompleteRestore(pk, id, done, at));
      OnlyItsRow(store.checks, before, CompleteRestore(pk, id, done, at), pk);
      var r := store.CompleteClaimedBackupRestore(pk, id, done, at);
      NextRestoreRow(store.checks, before, CompleteRestore(pk, id, done, at), pk);
      ApplyKeepsPlan(before.restores[pk], RestoreEvent(store.checks, before, CompleteRestore(pk, id, done, at), pk));
      SettledStays(store.checks, before, CompleteRestore(pk, id, done, at), directory.files - {destination}, origin);
      return r.Ok?;
    }

    /** The answer to how the execution ended: complete or hold a receipt, hold a publication, else retry. */
    method Settle(
      pk: Digest, destination: string, result: Execution, s: Script, ghost row: RestoreRow, ghost until: Instant)
      returns (status: Status)
      requires Leased(pk, row, until) && id != "" && OthersSettled(destination) && Inv(store.checks, store.View())
      requires destination in origin && origin[destination] == pk
      requires !result.Raised? ==> destination in directory.files
      requires result.Receipt? ==>
        && !store.killSwitch && RestoreReceiptOk(store.checks, result.done, row.plan)
        && store.checks.sha(FileBytes(directory.files[destination])) == result.done.body.facts.plaintextSha
      modifies store
      ensures Valid() && pk in store.restores && store.restores[pk].status == status
      ensures SameBut(old(store.View()), store.View(), pk)
      ensures status ==
        if result.Receipt? && s.flipBeforeCompletion != Some(true) && s.finishAt < until then Completed
        else if !result.Raised? || destination in directory.files then ReconciliationRequired
        else RetryStatus(row)
      ensures status.Completed? ==>
        && store.restores[pk].plan == row.plan && destination in directory.files
        && store.checks.sha(FileBytes(directory.files[destination])) == row.plan.body.identity.plaintextSha
    {
      hide Next, Inv, RestorePlanOk;
      if result.Receipt? {
        Interfere(s.flipBeforeCompletion);
        var done := Complete(pk, destination, result.done, s.finishAt);
        if done { return Completed; }
      }
      status := SettleAfterError(pk, destination, !result.Raised?, s.failAt);
    }

    /**
     A destination that exists is refused before anything is claimed. Otherwise the due row is
     claimed, unless the kill switch is on, and the returned status is the one it was left in: a file
     is at the destination only if that status is RESTORED or RECONCILIATION_REQUIRED, a row left
     AUTHORIZED or FAILED has none, and a RESTORED row's file has the planned hash. No file that was
     there changes; beside the destination only the download's file is added, and the decryption's
     partial file when its removal fails. When no call fails before the publication, the script
     determines the status.
     */
    method ProcessBackupRestoreOnce(paths: Paths, s: Script, body: Files.Reader, resolved: array<Byte>)
      returns (claimed: Option<Digest>, status: Option<Status>)
      requires Valid() && PathsOk(paths)
      requires paths.target !in directory.files && paths.partial !in directory.files
      requires body.Valid() && body.pos == 0
      modifies this, store, directory, body, resolved
      ensures Valid()
      ensures claimed ==
        if paths.destination in old(directory.files) || old(store.killSwitch) then None
        else RestorePick(old(store.restores), s.claimAt)
      ensures claimed.Some? <==> status.Some?
      ensures paths.destination in old(directory.files) ==> store.View() == old(store.View())
      ensures paths.destination !in old(directory.files) ==>
        if claimed.None? then store.View() == Scanned(old(store.View()), s.claimAt)
        else SameBut(Scanned(old(store.View()), s.claimAt), store.View(), claimed.value)
      ensures claimed.None? ==> directory.files == old(directory.files)
      ensures directory.files - {paths.destination, paths.target, paths.partial} ==
              old(directory.files) - {paths.destination}
      ensures paths.destination in old(directory.files) ==> directory.files == old(directory.files)
      ensures paths.partial in directory.files ==> s.decryptFaults.cleanPartial
      ensures claimed.Some? ==>
        && claimed.value in old(store.restores) && claimed.value in store.restores
        && store.restores[claimed.value].status == status.value
        && status.value in {Completed, ReconciliationRequired, Authorized, Failed}
        && (status.value in {Completed, ReconciliationRequired} <==> paths.destination in directory.files)
        && (status.value.Completed? ==>
              && store.checks.sha(FileBytes(directory.files[paths.destination]))
                 == store.restores[claimed.value].plan.body.identity.plaintextSha)
      ensures claimed.Some? ==>
        var row := old(store.restores)[claimed.value];
        var until := Protocol.LeaseEnd(row, LEASE_SECONDS, s.claimAt);
        var plaintext := Decrypted(codec, row.plan, body.content, old(resolved[..]));
        && (status.value.Completed? ==>
              && Fetches(store.checks, codec, row.plan, s, body.content, until) && plaintext.Some?
              && directory.files[paths.destination] == plaintext.value
              && PublicationCompletes(store.checks, codec, row.plan, plaintext.value, s, until))
        && (QuietRun(s) ==>
              status.value == StatusLeft(store.checks, codec, row, s, body.content, old(resolved[..]), until))
    {
      hide Next, Inv, SameBut, RestorePick, Scanned, Fetches, PublicationCompletes, Envelope.Opened, RestoreReceiptOk;
      if paths.destination in directory.files { return None, None; }
      ghost var before := store.View();
      claimed := ClaimFor(paths, s.claimAt);
      if claimed.None? { return None, None; }
      var pk := claimed.value;
      ghost var row, until := before.restores[pk], Protocol.LeaseEnd(before.restores[pk], LEASE_SECONDS, s.claimAt);
      ghost var leased := store.View();
      var result := ExecuteClaimedBackupRestore(pk, paths, s, body, resolved, row, until);
      ghost var ready := store.View();
      var left := Settle(pk, paths.destination, result, s, row, until);
      SameButThrough(Scanned(before, s.claimAt), leased, ready, store.View(), pk);
      return claimed, Some(left);
    }
  }

  lemma SameButThrough(a: Db, b: Db, ready: Db, d: Db, pk: Digest)
    requires SameBut(a, b, pk) && ready == b.(killSwitch := ready.killSwitch) && SameBut(ready, d, pk)
    ensures SameBut(a, d, pk)
  {
  }

  /** A settling transaction changes its own row and nothing else. */
  lemma OnlyItsRow(c: Checks, db: Db, e: Event, pk: Digest)
    requires (e.FailRestore? || e.HoldRestore? || e.CompleteRestore?) && e.pk == pk
    ensures SameBut(db, Next(c, db, e), pk)
  {
    OneRestoreRow(c, db, e, pk);
    hide Next, RestoreEvent, Apply;
  }

  /** A claim fails the rows its scan gives up, leases one, and changes nothing else. */
  lemma OnlyScanned(c: Checks, db: Db, me: string, at: Instant)
    requires me != ""
    ensures var after := Next(c, db, ClaimRestore(me, LEASE_SECONDS, at));
      var pick := RestorePick(db.restores, at);
      if db.killSwitch || pick.None? then after == Scanned(db, at) else SameBut(Scanned(db, at), after, pick.value)
  {
    var e := ClaimRestore(me, LEASE_SECONDS, at);
    PickNotSwept(db.restores, at);
    if db.killSwitch { ClaimRefused(c, db, e); } else { RestoreClaimed(c, db, e); }
    hide Next, RestorePick, RestoreSwept, Swept;
  }

  lemma ApplyKeepsPlan<P, R>(row: Row<P, R>, e: RowEvent<R>)
    ensures Apply(row, e).plan == row.plan
  {
  }

  /** The row that a claim picks, once it is claimed. */
  lemma ClaimedRow(c: Checks, db: Db, me: string, at: Instant, k: Digest)
    requires Inv(c, db) && me != "" && !db.killSwitch && RestorePick(db.restores, at) == Some(k)
    ensures k in Next(c, db, ClaimRestore(me, LEASE_SECONDS, at)).restores
    ensures var row, row' := db.restores[k], Next(c, db, ClaimRestore(me, LEASE_SECONDS, at)).restores[k];
      && row'.plan == row.plan && HeldBy(row', me)
      && row'.lease.value.expiresAt == Protocol.LeaseEnd(row, LEASE_SECONDS, at)
      && row'.approval.Some? && row'.attempts == row.attempts + 1 && row'.maxAttempts == row.maxAttempts
      && !Next(c, db, ClaimRestore(me, LEASE_SECONDS, at)).killSwitch
  {
    AuthorizedIsApproved(c, db, k);
    hide Inv;
    NextRestoreRow(c, db, ClaimRestore(me, LEASE_SECONDS, at), k);
    PickedEvent(c, db, me, at, k);
    hide Next, RestoreEvent, RestoreSwept;
  }

  lemma AuthorizedIsApproved(c: Checks, db: Db, k: Digest)
    requires Inv(c, db) && k in db.restores
    ensures db.restores[k].status.Authorized? ==> db.restores[k].approval.Some?
  {
    assert RestoreOk(c, db, k);
  }

  lemma PickedEvent(c: Checks, db: Db, me: string, at: Instant, k: Digest)
    requires me != "" && !db.killSwitch && RestorePick(db.restores, at) == Some(k)
    ensures k in db.restores
    ensures RestoreEvent(c, db, ClaimRestore(me, LEASE_SECONDS, at), k) ==
      RowEvent.Claim(me, at, Protocol.LeaseEnd(db.restores[k], LEASE_SECONDS, at))
    ensures !Next(c, db, ClaimRestore(me, LEASE_SECONDS, at)).killSwitch
  {
    PickNotSwept(db.restores, at);
  }
}
