/**
 Decryption into a private partial file, then publication by a link that never overwrites
 (sean_os/backup_encryption.py:278-401).
 */
module DecryptFiles {
  import opened Basics
  import opened Header
  import opened EnvelopeHeader
  import opened Envelope
  import opened EnvelopeFiles

  /** Reading the header: magic, length, header bytes, then the checks against request and size. */
  method ReadHeader(c: Crypto, source: Reader, keyRef: Text, planSha: Text)
    returns (head: Option<(Bytes, HeaderDoc, Bytes)>)
    requires source.Valid() && source.pos == 0
    modifies source
    ensures source.Valid() && head == OpenedHeader(c, source.content, keyRef, planSha)
    ensures head.Some? ==> source.pos == |head.value.0|
  {
    hide ParseHeader;
    ghost var raw := source.content;
    var magic := source.Read(8);
    if magic != MAGIC {
      return None;
    }
    var length := source.Read(4);
    if |length| != 4 {
      return None;
    }
    assert raw[..8] == MAGIC && raw[8..12] == length;
    var n := FromBigEndian4(length);
    if !(1 <= n <= MAX_HEADER_BYTES) {
      return None;
    }
    var header := source.Read(n);
    if |header| != n {
      return None;
    }
    assert raw[12..12 + n] == header;
    assert raw[..12 + n] == MAGIC + length + header;
    var parsed := ParseHeader(c.text, header);
    if parsed.None? {
      return None;
    }
    var (h, nonce) := parsed.value;
    if h.planSha != planSha || h.keyRef != keyRef {
      return None;
    }
    if |source.content| != |MAGIC + length + header| + h.plaintextBytes + TAG_BYTES {
      return None;
    }
    head := Some((MAGIC + length + header, h, nonce));
  }

  /** The loop: `remaining` counts down; the partial file holds the one-shot decryption. */
  method DecryptLoop(dir: Directory, partial: string, gcm: GcmContext, source: Reader, total: nat, f: Faults)
    returns (done: bool, seen: Bytes)
    requires source.Valid() && partial in dir.files && dir.files[partial] == []
    requires gcm.offset == 0 && gcm.ciphertext == [] && source.pos + total <= |source.content|
    modifies dir, source, gcm
    ensures partial in dir.files && dir.files == old(dir.files)[partial := dir.files[partial]]
    ensures done ==>
      && gcm.ciphertext == source.content[old(source.pos)..old(source.pos) + total]
      && seen == XorAt(gcm.c, gcm.key, gcm.nonce, 0, gcm.ciphertext)
      && dir.files[partial] == seen
    ensures QuietUntilLink(f) ==> done
  {
    hide XorAt;
    ghost var start := source.pos;
    var remaining, k := total, 0;
    done, seen := false, [];
    assert XorAt(gcm.c, gcm.key, gcm.nonce, 0, []) == [];
    while remaining > 0
      invariant source.Valid() && source.pos == start + (total - remaining) && 0 <= remaining <= total
      invariant gcm.ciphertext == source.content[start..source.pos] && gcm.offset == |gcm.ciphertext|
      invariant seen == XorAt(gcm.c, gcm.key, gcm.nonce, 0, gcm.ciphertext)
      invariant partial in dir.files && dir.files[partial] == seen
      invariant dir.files == old(dir.files)[partial := dir.files[partial]]
      decreases remaining
    {
      if f.read(k) {
        return;
      }
      var chunk := source.ReadSome(Min(CHUNK_BYTES, remaining));
      if chunk == [] {
        return;
      }
      remaining := remaining - |chunk|;
      XorSplit(gcm.c, gcm.key, gcm.nonce, 0, gcm.ciphertext, chunk);
      var plaintext := gcm.DecryptUpdate(chunk);
      var ok := dir.Append(partial, plaintext, f.write(k));
      if !ok {
        return;
      }
      seen := seen + plaintext;
      k := k + 1;
    }
    done := true;
  }

  /** From the resolved key to the closed partial file: everything inside the key context. */
  method OpenInto(
    c: Crypto, dir: Directory, partial: string, source: Reader, resolved: array<Byte>,
    prefix: Bytes, nonce: Bytes, total: nat, f: Faults)
    returns (created: bool, seen: Option<Bytes>)
    requires source.Valid() && source.pos == |prefix| && |source.content| == |prefix| + total + TAG_BYTES
    modifies dir, source, resolved
    ensures created <==> !f.resolve && resolved.Length == KEY_BYTES && !f.create && partial !in old(dir.files)
    ensures !created ==> dir.files == old(dir.files) && seen.None?
    ensures created ==> partial in dir.files && dir.files == old(dir.files)[partial := dir.files[partial]]
    ensures seen.Some? ==>
      && dir.files[partial] == seen.value
      && Authentic(c, source.content, old(resolved[..]), prefix, nonce, total) == seen
    ensures QuietUntilLink(f) && created ==>
      seen == Authentic(c, source.content, old(resolved[..]), prefix, nonce, total)
    ensures f.resolve || Wiped(resolved)
  {
    hide XorAt;
    created, seen := false, None;
    if f.resolve {
      return;
    }
    if resolved.Length == KEY_BYTES {
      source.Seek(|source.content| - TAG_BYTES);
      var tag := source.Read(TAG_BYTES);
      assert tag == source.content[|source.content| - TAG_BYTES..];
      source.Seek(|prefix|);
      var gcm := new GcmContext(c, resolved[..], nonce, prefix);
      created := dir.Create(partial, f.create);
      if created {
        var done, plaintext := DecryptLoop(dir, partial, gcm, source, total, f);
        if done {
          var expected := gcm.Tag();
          if expected == tag && !f.close {
            seen := Some(plaintext);
          }
        }
      }
    }
    WipeKey(resolved);
  }

  /** The decryption of a file's body, if its tag is right. */
  function Authentic(c: Crypto, raw: Bytes, key: Bytes, prefix: Bytes, nonce: Bytes, total: nat): (p: Option<Bytes>)
    requires |raw| == |prefix| + total + TAG_BYTES
    ensures p.Some? ==> |p.value| == total
  {
    var ciphertext := raw[|prefix|..|prefix| + total];
    if c.tag(key, nonce, prefix, ciphertext) != raw[|raw| - TAG_BYTES..] then None
    else Some(XorAt(c, key, nonce, 0, ciphertext))
  }

  /** The directory after a decryption whose file opened, by what then failed. */
  function Aftermath(
    files: map<string, Bytes>, destination: string, partial: string, plaintext: Bytes, f: Faults): map<string, Bytes>
  {
    if f.link then (if f.cleanPartial then files[partial := plaintext] else files)
    else if !f.unlink then files[destination := plaintext]
    else if f.cleanPartial then files[partial := plaintext][destination := plaintext]
    else if f.cleanDestination then files[destination := plaintext]
    else files
  }

  datatype DecryptedEvidence = DecryptedEvidence(
    planSha: Text, plaintextSha: Text, plaintextBytes: nat, keyRef: Text)

  /** The publication: link the partial file, then remove it; clean up what a failure leaves. */
  method Publish(dir: Directory, destination: string, partial: string, f: Faults) returns (ok: bool)
    requires partial in dir.files && destination !in dir.files && partial != destination
    modifies dir
    ensures ok <==> !f.link && !f.unlink
    ensures dir.files ==
      Aftermath(old(dir.files) - {partial}, destination, partial, old(dir.files)[partial], f)
  {
    ok := false;
    var linked := dir.Link(partial, destination, f.link);
    if linked {
      ok := dir.Unlink(partial, f.unlink);
    }
    if !ok {
      var gone := dir.Unlink(partial, f.cleanPartial);
      if gone && linked {
        gone := dir.Unlink(destination, f.cleanDestination);
      }
    }
  }

  /**
   decrypt_to: an existing file is never altered; success publishes exactly what was sealed; on
   failure the directory is as before unless a clean-up call fails as well; the key is wiped.
   */
  method DecryptTo(
    c: Crypto, dir: Directory, source: Reader, destination: string, partial: string, keyRef: Text, planSha: Text,
    resolved: array<Byte>, f: Faults)
    returns (r: Option<DecryptedEvidence>)
    requires source.Valid() && source.pos == 0 && partial != destination
    modifies dir, source, resolved
    ensures forall name | name in old(dir.files) :: name in dir.files && dir.files[name] == old(dir.files)[name]
    ensures forall name | name in dir.files && name !in old(dir.files) :: name == destination || name == partial
    ensures r.Some? ==>
      && destination !in old(dir.files) && !f.link && !f.unlink
      && var outcome := Opened(c, source.content, old(resolved[..]), keyRef, planSha);
        && outcome.Some? && dir.files == old(dir.files)[destination := outcome.value]
        && r.value == DecryptedEvidence(planSha, c.sha(outcome.value), |outcome.value|, keyRef)
    ensures r.None? && !f.cleanPartial && !f.cleanDestination ==> dir.files == old(dir.files)
    ensures r.None? && destination in dir.files && destination !in old(dir.files) ==>
      && f.unlink && (f.cleanPartial || f.cleanDestination)
      && Opened(c, source.content, old(resolved[..]), keyRef, planSha) == Some(dir.files[destination])
    ensures r.None? && partial in dir.files && partial !in old(dir.files) ==> f.cleanPartial
    ensures QuietUntilLink(f) && destination !in old(dir.files) && partial !in old(dir.files) ==>
      var outcome := Opened(c, source.content, old(resolved[..]), keyRef, planSha);
      && (r.Some? <==> outcome.Some? && !f.link && !f.unlink)
      && (outcome.Some? ==> dir.files == Aftermath(old(dir.files), destination, partial, outcome.value, f))
    ensures f.resolve || Wiped(resolved) || (r.None? && dir.files == old(dir.files))
  {
    hide XorAt, OpenedHeader, ParseHeader, Canonical;
    r := None;
    if destination in dir.files {
      return;
    }
    if !IsSha(planSha) || !SafeReference(c.text, keyRef) {
      UnsafeNeverOpens(c, source.content, keyRef, planSha);
      return;
    }
    var head := ReadHeader(c, source, keyRef, planSha);
    if head.None? {
      return;
    }
    OpenedHeaderParts(c, source.content, keyRef, planSha);
    var ok := Deliver(c, dir, source, destination, partial, resolved, head.value, f);
    if ok {
      var (prefix, h, nonce) := head.value;
      r := Some(DecryptedEvidence(h.planSha, h.plaintextSha, h.plaintextBytes, keyRef));
    }
  }

  /** What the body of a file with an accepted header decrypts to. */
  function OpenedBody(c: Crypto, raw: Bytes, key: Bytes, head: (Bytes, HeaderDoc, Bytes)): Option<Bytes>
    requires |raw| == |head.0| + head.1.plaintextBytes + TAG_BYTES
  {
    var plaintext := Authentic(c, raw, key, head.0, head.2, head.1.plaintextBytes);
    if |key| != KEY_BYTES || plaintext.None? || c.sha(plaintext.value) != head.1.plaintextSha then None else plaintext
  }

  /** Decryption, digest check and publication of a file whose header was accepted. */
  method Deliver(
    c: Crypto, dir: Directory, source: Reader, destination: string, partial: string, resolved: array<Byte>,
    head: (Bytes, HeaderDoc, Bytes), f: Faults)
    returns (ok: bool)
    requires source.Valid() && source.pos == |head.0| && destination !in dir.files && partial != destination
    requires |source.content| == |head.0| + head.1.plaintextBytes + TAG_BYTES
    modifies dir, source, resolved
    ensures forall name | name in old(dir.files) :: name in dir.files && dir.files[name] == old(dir.files)[name]
    ensures forall name | name in dir.files && name !in old(dir.files) :: name == destination || name == partial
    ensures var outcome := OpenedBody(c, source.content, old(resolved[..]), head);
      && (ok ==> outcome.Some? && !f.link && !f.unlink && dir.files == old(dir.files)[destination := outcome.value])
      && (!ok && !f.cleanPartial && !f.cleanDestination ==> dir.files == old(dir.files))
      && (!ok && destination in dir.files ==>
            f.unlink && (f.cleanPartial || f.cleanDestination) && outcome == Some(dir.files[destination]))
      && (!ok && partial in dir.files && partial !in old(dir.files) ==> f.cleanPartial)
      && (QuietUntilLink(f) && partial !in old(dir.files) ==>
            && (ok <==> outcome.Some? && !f.link && !f.unlink)
            && (outcome.Some? ==> dir.files == Aftermath(old(dir.files), destination, partial, outcome.value, f)))
    ensures f.resolve || Wiped(resolved)
  {
    hide XorAt, Authentic;
    var (prefix, h, nonce) := head;
    ok := false;
    var created, seen := OpenInto(c, dir, partial, source, resolved, prefix, nonce, h.plaintextBytes, f);
    if seen.None? || |seen.value| != h.plaintextBytes || c.sha(seen.value) != h.plaintextSha {
      if created {
        var gone := dir.Unlink(partial, f.cleanPartial);
      }
      return;
    }
    assert dir.files - {partial} == old(dir.files);
    ok := Publish(dir, destination, partial, f);
  }

  lemma UnsafeNeverOpens(c: Crypto, raw: Bytes, keyRef: Text, planSha: Text)
    requires !IsSha(planSha) || !SafeReference(c.text, keyRef)
    ensures OpenedHeader(c, raw, keyRef, planSha).None?
  {
    if OpenedHeader(c, raw, keyRef, planSha).Some? {
      OpenedHeaderParts(c, raw, keyRef, planSha);
    }
  }
}
