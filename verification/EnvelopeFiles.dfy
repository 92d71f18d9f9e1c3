/**
 The file side of the envelope: the encryption and decryption loops over open files, and the
 publication of a decrypted file without overwrite (sean_os/backup_encryption.py:183-401).
 */
module EnvelopeFiles {
  import opened Basics
  import opened Header
  import opened EnvelopeHeader
  import opened Envelope

  /** Which input and output calls fail; reads and writes are numbered within their loop. */
  datatype Faults = Faults(
    resolve: bool, create: bool, read: nat -> bool, write: nat -> bool, close: bool,
    link: bool, unlink: bool, cleanPartial: bool, cleanDestination: bool)

  ghost predicate QuietUntilLink(f: Faults) {
    !f.resolve && !f.create && !f.close && forall k :: !f.read(k) && !f.write(k)
  }

  /** An open file; `ReadSome` returns any non-empty piece up to its limit, or nothing at the end. */
  class Reader {
    const content: Bytes
    var pos: nat

    ghost predicate Valid() reads this { pos <= |content| }

    constructor (content: Bytes)
      ensures Valid() && this.content == content && pos == 0
    {
      this.content, pos := content, 0;
    }

    method Read(n: nat) returns (piece: Bytes)
      requires Valid()
      modifies this
      ensures Valid() && pos == Min(old(pos) + n, |content|)
      ensures piece == content[old(pos)..pos]
    {
      var end := Min(pos + n, |content|);
      piece := content[pos..end];
      pos := end;
    }

    method ReadSome(limit: nat) returns (piece: Bytes)
      requires Valid() && limit > 0
      modifies this
      ensures Valid() && old(pos) <= pos && piece == content[old(pos)..pos] && |piece| <= limit
      ensures piece == [] <==> old(pos) == |content|
    {
      if pos == |content| {
        return [];
      }
      var n :| 1 <= n <= limit && n <= |content| - pos;
      piece := content[pos..pos + n];
      pos := pos + n;
    }

    method Seek(to: nat)
      requires to <= |content|
      modifies this
      ensures Valid() && pos == to
    {
      pos := to;
    }
  }

  /** One directory of private files. */
  class Directory {
    var files: map<string, Bytes>

    constructor (files: map<string, Bytes>)
      ensures this.files == files
    {
      this.files := files;
    }

    /** Exclusive creation: never an existing name. */
    method Create(name: string, fails: bool) returns (ok: bool)
      modifies this
      ensures ok == (!fails && name !in old(files))
      ensures files == if ok then old(files)[name := []] else old(files)
    {
      ok := !fails && name !in files;
      if ok { files := files[name := []]; }
    }

    method Append(name: string, data: Bytes, fails: bool) returns (ok: bool)
      requires name in files
      modifies this
      ensures ok == !fails
      ensures files == if ok then old(files)[name := old(files)[name] + data] else old(files)
    {
      ok := !fails;
      if ok { files := files[name := files[name] + data]; }
    }

    /** A hard link under a new name. */
    method Link(name: string, other: string, fails: bool) returns (ok: bool)
      requires name in files
      modifies this
      ensures ok == (!fails && other !in old(files))
      ensures files == if ok then old(files)[other := old(files)[name]] else old(files)
    {
      ok := !fails && other !in files;
      if ok { files := files[other := files[name]]; }
    }

    method Unlink(name: string, fails: bool) returns (ok: bool)
      modifies this
      ensures ok == !fails
      ensures files == if ok then old(files) - {name} else old(files)
    {
      ok := !fails;
      if ok { files := files - {name}; }
    }
  }

  method WipeKey(key: array<Byte>)
    modifies key
    ensures forall i | 0 <= i < key.Length :: key[i] == 0
  {
    var i := 0;
    while i < key.Length
      invariant 0 <= i <= key.Length
      invariant forall j | 0 <= j < i :: key[j] == 0
    {
      key[i] := 0;
      i := i + 1;
    }
  }

  ghost predicate Wiped(key: array<Byte>) reads key {
    forall i | 0 <= i < key.Length :: key[i] == 0
  }

  // ---------------------------------------------------------------- encryption

  lemma SealedOutput(c: Crypto, key: Bytes, nonce: Bytes, prefix: Bytes, seen: Bytes)
    ensures var ciphertext := XorAt(c, key, nonce, 0, seen);
      prefix + ciphertext + c.tag(key, nonce, prefix, ciphertext) == prefix + Body(c, key, nonce, prefix, seen)
  {
  }

  /** The loop: what is appended is the one-shot ciphertext, however the source is cut into chunks. */
  method EncryptLoop(dir: Directory, target: string, gcm: GcmContext, source: Reader, f: Faults)
    returns (next: Option<nat>, seen: Bytes, written: Bytes)
    requires source.Valid() && source.pos == 0 && target in dir.files && gcm.offset == 0 && gcm.ciphertext == []
    modifies dir, source, gcm
    ensures target in dir.files && dir.files == old(dir.files)[target := dir.files[target]]
    ensures next.Some? ==>
      && seen == source.content
      && written == gcm.ciphertext == XorAt(gcm.c, gcm.key, gcm.nonce, 0, source.content)
      && dir.files[target] == old(dir.files[target]) + gcm.ciphertext
    ensures QuietUntilLink(f) ==> next.Some?
  {
    hide XorAt;
    ghost var first := dir.files[target];
    next, seen, written := None, [], [];
    var k, more := 1, true;
    assert XorAt(gcm.c, gcm.key, gcm.nonce, 0, seen) == [] && first + [] == first;
    while more
      invariant source.Valid() && seen == source.content[..source.pos]
      invariant !more ==> source.pos == |source.content|
      invariant gcm.offset == |seen| && written == gcm.ciphertext == XorAt(gcm.c, gcm.key, gcm.nonce, 0, seen)
      invariant target in dir.files && dir.files[target] == first + gcm.ciphertext
      invariant dir.files == old(dir.files)[target := dir.files[target]]
      decreases |source.content| - source.pos, more
    {
      if f.read(k) {
        return;
      }
      var chunk := source.ReadSome(CHUNK_BYTES);
      if chunk == [] {
        more := false;
      } else {
        XorSplit(gcm.c, gcm.key, gcm.nonce, 0, seen, chunk);
        seen := seen + chunk;
        var encrypted := gcm.EncryptUpdate(chunk);
        var ok := dir.Append(target, encrypted, f.write(k));
        if !ok {
          return;
        }
        written := written + encrypted;
      }
      k := k + 1;
    }
    assert source.content[..source.pos] == source.content;
    next := Some(k);
  }

  /** On success the target holds prefix, ciphertext and tag, and both digests saw all of it. */
  method SealInto(
    c: Crypto, dir: Directory, target: string, key: Bytes, nonce: Bytes, prefix: Bytes, source: Reader, f: Faults)
    returns (created: bool, digested: Option<(Bytes, Bytes)>)
    requires source.Valid() && source.pos == 0
    modifies dir, source
    ensures created <==> !f.create && target !in old(dir.files)
    ensures !created ==> dir.files == old(dir.files) && digested.None?
    ensures created ==> target in dir.files && dir.files == old(dir.files)[target := dir.files[target]]
    ensures digested.Some? ==>
      && digested.value.0 == source.content
      && digested.value.1 == prefix + Body(c, key, nonce, prefix, source.content)
      && dir.files[target] == digested.value.1
    ensures QuietUntilLink(f) && created && TagsSized(c) ==> digested.Some?
  {
    hide XorAt, Prefix, Body;
    digested := None;
    created := dir.Create(target, f.create);
    if created {
      digested := SealIntoNew(c, dir, target, key, nonce, prefix, source, f);
    }
  }

  /** The output, once its file is created: prefix, the loop, the tag, and closing. */
  method SealIntoNew(
    c: Crypto, dir: Directory, target: string, key: Bytes, nonce: Bytes, prefix: Bytes, source: Reader, f: Faults)
    returns (digested: Option<(Bytes, Bytes)>)
    requires source.Valid() && source.pos == 0 && target in dir.files && dir.files[target] == []
    modifies dir, source
    ensures target in dir.files && dir.files == old(dir.files)[target := dir.files[target]]
    ensures digested.Some? ==>
      && digested.value.0 == source.content
      && digested.value.1 == prefix + Body(c, key, nonce, prefix, source.content)
      && dir.files[target] == digested.value.1
    ensures QuietUntilLink(f) && TagsSized(c) ==> digested.Some?
  {
    hide XorAt, Prefix, Body;
    digested := None;
    var gcm := new GcmContext(c, key, nonce, prefix);
    var ok := dir.Append(target, prefix, f.write(0));
    if !ok {
      return;
    }
    assert [] + prefix == prefix;
    var next, seen, written := EncryptLoop(dir, target, gcm, source, f);
    if next.None? {
      return;
    }
    var tag := gcm.Tag();
    if |tag| != TAG_BYTES {
      return;
    }
    ok := dir.Append(target, tag, f.write(next.value));
    if !ok || f.close {
      return;
    }
    SealedOutput(c, key, nonce, prefix, source.content);
    digested := Some((seen, prefix + written + tag));
  }

  datatype EncryptedEvidence = EncryptedEvidence(
    planSha: Text, plaintextSha: Text, plaintextBytes: nat, ciphertextSha: Text, ciphertextBytes: nat, keyRef: Text)

  /** When an encryption without input or output faults succeeds. */
  ghost predicate Encryptable(
    c: Crypto, source: Bytes, planSha: Text, plaintextSha: Text, plaintextBytes: int, keyRef: Text, nonce: Bytes,
    key: Bytes)
    requires |nonce| == NONCE_BYTES
  {
    && |key| == KEY_BYTES && |source| == plaintextBytes && c.sha(source) == plaintextSha
    && var header := HeaderFromPlan(c.text, planSha, plaintextSha, plaintextBytes, keyRef, nonce);
      header.Some? && |Canonical(header.value)| <= MAX_HEADER_BYTES
  }

  /** The size check never refuses: any header the plan allows fits. */
  lemma EncryptableIff(
    c: Crypto, source: Bytes, planSha: Text, plaintextSha: Text, plaintextBytes: int, keyRef: Text, nonce: Bytes,
    key: Bytes)
    requires |nonce| == NONCE_BYTES
    ensures Encryptable(c, source, planSha, plaintextSha, plaintextBytes, keyRef, nonce, key) <==>
      && IsSha(planSha) && IsSha(plaintextSha) && SafeReference(c.text, keyRef) && |key| == KEY_BYTES
      && 1 <= |source| <= MAX_PLAINTEXT_BYTES && |source| == plaintextBytes && c.sha(source) == plaintextSha
  {
    if HeaderFromPlan(c.text, planSha, plaintextSha, plaintextBytes, keyRef, nonce).Some? {
      HeaderFits(c.text, planSha, plaintextSha, plaintextBytes, keyRef, nonce);
    }
    hide Canonical, IsSha, SafeReference;
  }

  /**
   encrypt: a new file holding exactly the sealed source, or, unless removing it fails too, no new
   file; the key bytes are zero afterwards in every case in which they were handed out.
   */
  method Encrypt(
    c: Crypto, dir: Directory, source: Reader, planSha: Text, plaintextSha: Text, plaintextBytes: int, keyRef: Text,
    nonce: Bytes, target: string, resolved: array<Byte>, f: Faults)
    returns (r: Option<EncryptedEvidence>)
    requires source.Valid() && source.pos == 0 && |nonce| == NONCE_BYTES
    modifies dir, source, resolved
    ensures r.Some? ==>
      && Encryptable(c, source.content, planSha, plaintextSha, plaintextBytes, keyRef, nonce, old(resolved[..]))
      && target !in old(dir.files)
      && var h := HeaderFromPlan(c.text, planSha, plaintextSha, plaintextBytes, keyRef, nonce).value;
        && dir.files == old(dir.files)[target := Seal(c, h, old(resolved[..]), nonce, source.content)]
        && r.value.ciphertextSha == c.sha(dir.files[target]) && r.value.ciphertextBytes == |dir.files[target]|
        && r.value.plaintextSha == plaintextSha && r.value.plaintextBytes == plaintextBytes
        && r.value.planSha == planSha && r.value.keyRef == keyRef
    ensures r.None? && !f.cleanPartial ==> dir.files == old(dir.files)
    ensures r.None? && dir.files != old(dir.files) ==>
      target !in old(dir.files) && dir.files - {target} == old(dir.files)
    ensures QuietUntilLink(f) && TagsSized(c) && target !in old(dir.files)
      && Encryptable(c, source.content, planSha, plaintextSha, plaintextBytes, keyRef, nonce, old(resolved[..]))
      ==> r.Some?
    ensures Wiped(resolved) || (r.None? && resolved[..] == old(resolved[..]) && dir.files == old(dir.files))
  {
    r := None;
    var header := HeaderFromPlan(c.text, planSha, plaintextSha, plaintextBytes, keyRef, nonce);
    if header.None? {
      return;
    }
    hide Canonical, HeaderFromPlan, XorAt, BigEndian4, Wiped, Prefix, Body;
    if |Canonical(header.value)| > MAX_HEADER_BYTES {
      return;
    }
    var output := SealChecked(c, dir, source, Prefix(Canonical(header.value)), plaintextSha, plaintextBytes, nonce,
      target, resolved, f);
    if output.None? {
      return;
    }
    r := Some(EncryptedEvidence(planSha, plaintextSha, plaintextBytes,
                                c.sha(output.value), |dir.files[target]|, keyRef));
  }

  /** The guarded part: the key is taken, used and wiped, the source compared with its plan. */
  method SealChecked(
    c: Crypto, dir: Directory, source: Reader, prefix: Bytes, plaintextSha: Text, plaintextBytes: int,
    nonce: Bytes, target: string, resolved: array<Byte>, f: Faults)
    returns (output: Option<Bytes>)
    requires source.Valid() && source.pos == 0
    modifies dir, source, resolved
    ensures output.Some? ==>
      && resolved.Length == KEY_BYTES && |source.content| == plaintextBytes && c.sha(source.content) == plaintextSha
      && target !in old(dir.files)
      && dir.files == old(dir.files)[target := output.value]
      && output.value == prefix + Body(c, old(resolved[..]), nonce, prefix, source.content)
    ensures output.None? && !f.cleanPartial ==> dir.files == old(dir.files)
    ensures output.None? && dir.files != old(dir.files) ==>
      target !in old(dir.files) && dir.files - {target} == old(dir.files)
    ensures QuietUntilLink(f) && TagsSized(c) && target !in old(dir.files) && resolved.Length == KEY_BYTES ==>
      |source.content| == plaintextBytes && c.sha(source.content) == plaintextSha ==> output.Some?
    ensures Wiped(resolved) || (output.None? && resolved[..] == old(resolved[..]) && dir.files == old(dir.files))
  {
    hide XorAt, Prefix, Body;
    output := None;
    if f.resolve {
      return;
    }
    var created, digested := false, None;
    if resolved.Length == KEY_BYTES {
      created, digested := SealInto(c, dir, target, resolved[..], nonce, prefix, source, f);
    }
    WipeKey(resolved);
    if digested.None? || |digested.value.0| != plaintextBytes || c.sha(digested.value.0) != plaintextSha {
      if created {
        var gone := dir.Unlink(target, f.cleanPartial);
      }
      return;
    }
    output := Some(digested.value.1);
  }
}
