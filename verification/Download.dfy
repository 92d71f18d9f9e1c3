/**
 download_exact: one exact object version into a new private file, or nothing
 (sean_os/backup_restore_provider.py:109-245).
 */
module Download {
  import opened Basics
  import opened Header
  import opened Evidence
  import opened Envelope
  import opened EnvelopeFiles

  datatype Config = Config(
    enabled: bool, providerOk: bool, dataRegion: string, endpoint: string, destinationRef: string,
    restoreRef: string, maxBytes: Option<nat>)

  /** The client's own settings. */
  datatype Port = Port(endpoint: string, destinationRef: string, restoreRef: string)

  datatype Retention = Retention(compliance: bool, until: Option<Instant>)

  datatype ObjectHead = ObjectHead(
    version: string, encrypted: bool, length: int, planSha: Digest, contentSha: Digest, otherMetadata: bool)

  /** Answers of the provider: absent when the call raised or answered with an error. */
  datatype Answers = Answers(retention: Option<Retention>, head: Option<ObjectHead>, hasBody: bool)

  predicate RequestOk(c: Checks, objectKey: string -> bool, plan: RestorePlan, config: Config, port: Port) {
    var i := plan.body.identity;
    && RestorePlanOk(c, plan)
    && config.enabled && config.providerOk && config.dataRegion == "CA_EAST"
    && config.endpoint == port.endpoint == i.endpoint
    && config.destinationRef == port.destinationRef == i.destinationRef
    && config.restoreRef == port.restoreRef == i.restoreRef
    && objectKey(i.objectRef)
    && i.ciphertextBytes <= if config.maxBytes.Some? then config.maxBytes.value else 0
  }

  predicate AnswersOk(plan: RestorePlan, a: Answers) {
    var i := plan.body.identity;
    && a.retention.Some? && a.retention.value.compliance && a.retention.value.until == Some(i.retainUntil)
    && a.head.Some? && a.head.value.version == i.versionRef && a.head.value.encrypted
    && a.head.value.length == i.ciphertextBytes
    && a.head.value.planSha == i.uploadPlanSha && a.head.value.contentSha == i.ciphertextSha
    && !a.head.value.otherMetadata && a.hasBody
  }

  /**
   The bounded loop: what is written is what was read, never more than asked for; it fails on a
   body that is too short or too long.
   */
  method ReadBody(dir: Directory, target: string, body: Reader, wanted: nat, f: Faults)
    returns (done: bool, seen: Bytes)
    requires body.Valid() && body.pos == 0 && target in dir.files && dir.files[target] == []
    modifies dir, body
    ensures target in dir.files && dir.files == old(dir.files)[target := dir.files[target]]
    ensures done ==> seen == body.content && |seen| == wanted && dir.files[target] == seen
    ensures QuietUntilLink(f) ==> (done <==> |body.content| == wanted)
  {
    var remaining, k := wanted, 0;
    done, seen := false, [];
    while remaining > 0
      invariant body.Valid() && body.pos == wanted - remaining && 0 <= remaining <= wanted
      invariant seen == body.content[..body.pos]
      invariant target in dir.files && dir.files[target] == seen
      invariant dir.files == old(dir.files)[target := dir.files[target]]
      decreases remaining
    {
      if f.read(k) {
        return;
      }
      var chunk := body.ReadSome(Min(1024 * 1024, remaining));
      if chunk == [] {
        return;
      }
      remaining := remaining - |chunk|;
      seen := seen + chunk;
      var ok := dir.Append(target, chunk, f.write(k));
      if !ok {
        return;
      }
      k := k + 1;
    }
    if f.read(k) {
      return;
    }
    var extra := body.ReadSome(1);
    if extra != [] || f.close {
      return;
    }
    assert body.content[..body.pos] == body.content;
    done := true;
  }

  /** Whether the body served is the planned object. */
  predicate BodyPlanned(sha: Bytes -> Digest, plan: RestorePlan, content: Bytes) {
    |content| == plan.body.identity.ciphertextBytes && sha(content) == plan.body.identity.ciphertextSha
  }

  /**
   From the created file to the verified hash. A name that already exists makes creation fail, and
   the handler then removes that file; a fresh name ends either complete or absent.
   */
  method Fetch(sha: Bytes -> Digest, dir: Directory, target: string, plan: RestorePlan, body: Reader, f: Faults)
    returns (ok: bool)
    requires body.Valid() && body.pos == 0 && plan.body.identity.ciphertextBytes > 0
    modifies dir, body
    ensures ok ==>
      && target !in old(dir.files) && BodyPlanned(sha, plan, body.content)
      && dir.files == old(dir.files)[target := body.content]
    ensures !ok && !f.cleanPartial ==> dir.files == old(dir.files) - {target}
    ensures dir.files - {target} == old(dir.files) - {target}
    ensures QuietUntilLink(f) && target !in old(dir.files) ==> (ok <==> BodyPlanned(sha, plan, body.content))
  {
    ok := false;
    var created := dir.Create(target, f.create);
    var done, seen := false, [];
    if created {
      done, seen := ReadBody(dir, target, body, plan.body.identity.ciphertextBytes, f);
    }
    if !done || !BodyPlanned(sha, plan, seen) {
      var gone := dir.Unlink(target, f.cleanPartial);
      return;
    }
    ok := true;
  }

  /**
   download_exact: given a fresh name, exactly the planned bytes of the planned object version
   under its planned retention, or no file.
   */
  method DownloadExact(
    c: Checks, sha: Bytes -> Digest, objectKey: string -> bool, dir: Directory, target: string, plan: RestorePlan,
    config: Config, port: Port, answers: Answers, body: Reader, f: Faults)
    returns (ok: bool)
    requires body.Valid() && body.pos == 0
    modifies dir, body
    ensures ok ==>
      && RequestOk(c, objectKey, plan, config, port) && AnswersOk(plan, answers)
      && BodyPlanned(sha, plan, body.content)
      && dir.files == old(dir.files)[target := body.content]
    ensures !ok && target !in old(dir.files) && !f.cleanPartial ==> dir.files == old(dir.files)
    ensures dir.files - {target} == old(dir.files) - {target}
    ensures target !in old(dir.files) && QuietUntilLink(f) ==>
      (ok <==> RequestOk(c, objectKey, plan, config, port) && AnswersOk(plan, answers)
               && BodyPlanned(sha, plan, body.content))
    ensures target in old(dir.files) ==>
      && !ok
      && (!f.cleanPartial && RequestOk(c, objectKey, plan, config, port) && AnswersOk(plan, answers)
          ==> target !in dir.files)
  {
    if !RequestOk(c, objectKey, plan, config, port) || !AnswersOk(plan, answers) {
      return false;
    }
    ok := Fetch(sha, dir, target, plan, body, f);
  }
}
