/**
 The whole way of a backup: encrypted, uploaded, restored. The parts are proved in their own modules;
 here their contracts are joined (scripts/worker.py:94-159, scripts/restore_worker.py:56-124,
 sean_os/backup_encryption.py:183-401).
 */
module EndToEnd {
  import opened Basics
  import opened Evidence
  import opened Outbox
  import opened Store
  import opened RestoreWorker
  import EnvelopeHeader
  import Header
  import Restores = RestoreProtocol
  import Transfers = TransferProtocol

  /**
   In every run of the restore workers, the file of a RESTORED row is the very backup that the upload
   plan it was staged from was made for, unless the two collide.
   */
  lemma RestoredIsSource(c: Checks, steps: seq<Restores.Step>, k: Digest, source: Bytes)
    requires k in Restores.RunSteps(c, Restores.START, steps).db.restores
    requires Restores.RunSteps(c, Restores.START, steps).db.restores[k].status.Completed?
    ensures var w := Restores.RunSteps(c, Restores.START, steps);
      && k in w.db.evidence && k in w.published && w.published[k] in w.files
      && (&& c.sha(FileBytes(source)) == w.db.evidence[k].upload.body.backupSha
          && Distinguished(c, FileBytes(w.files[w.published[k]]), FileBytes(source)) ==>
            w.files[w.published[k]] == source)
  {
    hide Restores.RunSteps, Restores.WorldInv;
    Restores.RestoredMeansPublished(c, steps, k);
    Restores.RunKeepsWorldInv(c, steps);
    var w := Restores.RunSteps(c, Restores.START, steps);
    RowEvidence(c, w, k);
    hide Stageable, RestoreReceiptOk;
  }

  lemma RowEvidence(c: Checks, w: Restores.World, k: Digest)
    requires Restores.WorldInv(c, w) && k in w.db.restores
    ensures k in w.db.evidence
    ensures w.db.restores[k].plan.body.identity.plaintextSha == w.db.evidence[k].upload.body.backupSha
  {
    assert RestoreOk(c, w.db, k);
    hide Inv, RestorePlanMatchesEvidence;
    var s := w.db.evidence[k];
    EvidenceTies(c, s.upload, s.receipt, s.package, w.db.restores[k].plan);
  }

  /** What encrypt leaves for a plan: its source, planned by size and digest, sealed under a fresh nonce. */
  ghost predicate SealedFor(
    c: Checks, codec: Codec, plan: UploadPlan, source: Bytes, key: Bytes, nonce: Bytes, content: Bytes)
  {
    var b := plan.body;
    && |nonce| == EnvelopeHeader.NONCE_BYTES && c.sha(FileBytes(source)) == b.backupSha
    && Files.Encryptable(codec.crypto, source, codec.hex(plan.sha), codec.hex(b.backupSha), b.backupBytes,
                         codec.text(b.keyRef), nonce, key)
    && var header := EnvelopeHeader.HeaderFromPlan(
         codec.crypto.text, codec.hex(plan.sha), codec.hex(b.backupSha), b.backupBytes, codec.text(b.keyRef), nonce);
      content == Envelope.Seal(codec.crypto, header.value, key, nonce, source)
  }

  /**
   A COMPLETED transfer of a sealed backup, a restore plan that its evidence rebuilds, and an object
   served as planned that does not collide with the stored one: it is the stored one, it decrypts to
   the source exactly if the key reference has no split surrogate pair, and the source passes the
   checks of a decrypted file.
   */
  lemma SealedComesBack(
    c: Checks, codec: Codec, steps: seq<Transfers.Step>, k: Digest, package: KeyPackage, plan: RestorePlan,
    source: Bytes, key: Bytes, nonce: Bytes, served: Bytes)
    requires Envelope.TagsSized(codec.crypto)
    requires var w := Transfers.RunSteps(c, Transfers.START, steps);
      && k in w.db.transfers && w.db.transfers[k].status.Completed? && w.db.transfers[k].receipt.Some?
      && var row := w.db.transfers[k];
        && RestorePlanMatchesEvidence(c, plan, row.plan, row.receipt.value, package)
        && Transfers.KeyOf(row.plan) in w.objects
        && var content := w.objects[Transfers.KeyOf(row.plan)].content;
          && SealedFor(c, codec, row.plan, source, key, nonce, content)
          && Restores.PlannedObject(c, plan, served) && Distinguished(c, FileBytes(served), FileBytes(content))
    ensures var w := Transfers.RunSteps(c, Transfers.START, steps);
      served == w.objects[Transfers.KeyOf(w.db.transfers[k].plan)].content
    ensures Decrypted(codec, plan, served, key) ==
      if Header.NoSplitPair(codec.text(plan.body.identity.keyRef)) then Some(source) else None
    ensures PlannedFile(c, codec, plan, source, true)
  {
    Transfers.CompletedMeansStored(c, steps, k);
    var w := Transfers.RunSteps(c, Transfers.START, steps);
    var row := w.db.transfers[k];
    hide Transfers.RunSteps;
    EvidenceTies(c, row.plan, row.receipt.value, package, plan);
    hide RestorePlanMatchesEvidence, UploadReceiptOk, Header.NoSplitPair, Envelope.Opened, Envelope.Seal;
    Envelope.SealRoundTrip(codec.crypto, codec.hex(row.plan.sha), codec.text(row.plan.body.keyRef), key, nonce, source);
  }

  /** What a restore plan repeats of the transfer it restores. */
  lemma EvidenceTies(c: Checks, upload: UploadPlan, receipt: UploadReceipt, package: KeyPackage, plan: RestorePlan)
    requires RestorePlanMatchesEvidence(c, plan, upload, receipt, package)
    ensures var i := plan.body.identity;
      && i.ciphertextSha == receipt.body.ciphertextSha && i.keyRef == upload.body.keyRef
      && i.uploadPlanSha == upload.sha && i.plaintextSha == upload.body.backupSha
      && i.plaintextBytes == upload.body.backupBytes
  {
    hide RestorePlanOk, KeyPackageOk;
  }
}
