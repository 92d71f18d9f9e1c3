/**
 The encrypted backup envelope: streaming encryption, authenticated decryption, and publication
 without overwrite (sean_os/backup_encryption.py:183-401). AES-GCM (sections 6.5, 7.1 and 7.2 of
 NIST SP 800-38D) is a keystream, XORed in by position, and a tag over nonce, prefix and ciphertext.
 */
module Envelope {
  import opened Basics
  import opened Header
  import opened EnvelopeHeader

  type Bytes = seq<Byte>

  const CHUNK_BYTES := 1024 * 1024
  const KEY_BYTES := 32
  const MAGIC: Bytes := [0x53, 0x45, 0x41, 0x4e, 0x4f, 0x53, 0x42, 0x31]

  datatype Crypto = Crypto(
    keystream: (Bytes, Bytes, nat) -> Byte,
    tag: (Bytes, Bytes, Bytes, Bytes) -> Bytes,
    sha: Bytes -> Text,
    text: TextChecks)

  ghost predicate TagsSized(c: Crypto) {
    forall key, nonce, aad, body :: |c.tag(key, nonce, aad, body)| == TAG_BYTES
  }

  // ---------------------------------------------------------------- the cipher

  function Power2(n: nat): (p: nat)
    ensures p >= 1
  {
    if n == 0 then 1 else 2 * Power2(n - 1)
  }

  /** Exclusive or of the last n bits. */
  function XorBits(a: nat, b: nat, n: nat): (x: nat)
    ensures x < Power2(n)
  {
    if n == 0 then 0 else XorBits(a / 2, b / 2, n - 1) * 2 + if a % 2 == b % 2 then 0 else 1
  }

  function XorOctet(a: Byte, b: Byte): (x: Byte) {
    assert Power2(8) == 256 by { assert Power2(4) == 16; }
    XorBits(a, b, 8)
  }

  lemma {:induction false} XorBitsTwice(a: nat, b: nat, n: nat)
    requires a < Power2(n)
    ensures XorBits(XorBits(a, b, n), b, n) == a
  {
    if n > 0 {
      XorBitsTwice(a / 2, b / 2, n - 1);
      var x := XorBits(a, b, n);
      assert x / 2 == XorBits(a / 2, b / 2, n - 1);
    }
  }

  lemma XorTwice(a: Byte, b: Byte)
    ensures XorOctet(XorOctet(a, b), b) == a
  {
    assert Power2(8) == 256 by { assert Power2(4) == 16; }
    XorBitsTwice(a, b, 8);
    hide XorBits;
  }

  /** Text XORed with the keystream from a given position on. */
  function XorAt(c: Crypto, key: Bytes, nonce: Bytes, offset: nat, text: Bytes): (out: Bytes)
    ensures |out| == |text|
  {
    seq(|text|, i requires 0 <= i < |text| => XorOctet(text[i], c.keystream(key, nonce, offset + i)))
  }

  /** Streaming equals one shot: the pieces of a text, each at its own offset, make the whole. */
  lemma XorSplit(c: Crypto, key: Bytes, nonce: Bytes, offset: nat, first: Bytes, more: Bytes)
    ensures XorAt(c, key, nonce, offset, first + more)
      == XorAt(c, key, nonce, offset, first) + XorAt(c, key, nonce, offset + |first|, more)
  {
    hide XorOctet;
    var whole := XorAt(c, key, nonce, offset, first + more);
    var parts := XorAt(c, key, nonce, offset, first) + XorAt(c, key, nonce, offset + |first|, more);
    forall i | 0 <= i < |whole| ensures whole[i] == parts[i] {
      if i >= |first| { assert offset + |first| + (i - |first|) == offset + i; }
    }
  }

  lemma XorInvolution(c: Crypto, key: Bytes, nonce: Bytes, text: Bytes)
    ensures XorAt(c, key, nonce, 0, XorAt(c, key, nonce, 0, text)) == text
  {
    hide XorOctet;
    var back := XorAt(c, key, nonce, 0, XorAt(c, key, nonce, 0, text));
    forall i | 0 <= i < |text| ensures back[i] == text[i] {
      XorTwice(text[i], c.keystream(key, nonce, i));
    }
  }

  /** One running GCM computation: how far the keystream is used, and the ciphertext so far. */
  class GcmContext {
    const c: Crypto
    const key: Bytes
    const nonce: Bytes
    const aad: Bytes
    var offset: nat
    var ciphertext: Bytes

    constructor (c: Crypto, key: Bytes, nonce: Bytes, aad: Bytes)
      ensures this.c == c && this.key == key && this.nonce == nonce && this.aad == aad
      ensures offset == 0 && ciphertext == []
    {
      this.c, this.key, this.nonce, this.aad := c, key, nonce, aad;
      offset, ciphertext := 0, [];
    }

    method EncryptUpdate(chunk: Bytes) returns (out: Bytes)
      modifies this
      ensures out == XorAt(c, key, nonce, old(offset), chunk)
      ensures offset == old(offset) + |chunk| && ciphertext == old(ciphertext) + out
    {
      out := XorAt(c, key, nonce, offset, chunk);
      offset, ciphertext := offset + |chunk|, ciphertext + out;
    }

    method DecryptUpdate(chunk: Bytes) returns (out: Bytes)
      modifies this
      ensures out == XorAt(c, key, nonce, old(offset), chunk)
      ensures offset == old(offset) + |chunk| && ciphertext == old(ciphertext) + chunk
    {
      out := XorAt(c, key, nonce, offset, chunk);
      offset, ciphertext := offset + |chunk|, ciphertext + chunk;
    }

    method Tag() returns (tag: Bytes)
      ensures tag == c.tag(key, nonce, aad, ciphertext)
    {
      tag := c.tag(key, nonce, aad, ciphertext);
    }
  }

  // ---------------------------------------------------------------- the format

  function BigEndian4(n: nat): (b: Bytes)
    requires n < 0x1_0000_0000
    ensures |b| == 4
  {
    [n / 256 / 256 / 256, n / 256 / 256 % 256, n / 256 % 256, n % 256]
  }

  function FromBigEndian4(b: Bytes): (n: nat)
    requires |b| == 4
  {
    ((b[0] as int * 256 + b[1]) * 256 + b[2]) * 256 + b[3]
  }

  lemma BigEndianRoundTrip(n: nat)
    requires n < 0x1_0000_0000
    ensures FromBigEndian4(BigEndian4(n)) == n
  {
  }

  lemma BigEndianCanonical(b: Bytes)
    requires |b| == 4
    ensures FromBigEndian4(b) < 0x1_0000_0000 && BigEndian4(FromBigEndian4(b)) == b
  {
    var n := FromBigEndian4(b);
    assert n % 256 == b[3] && n / 256 == (b[0] as int * 256 + b[1]) * 256 + b[2];
    assert n / 256 % 256 == b[2] && n / 256 / 256 == b[0] as int * 256 + b[1];
    assert n / 256 / 256 % 256 == b[1] && n / 256 / 256 / 256 == b[0];
  }

  /** Magic, header length and header: everything the tag authenticates besides the ciphertext. */
  function Prefix(header: Bytes): (p: Bytes)
    requires |header| <= MAX_HEADER_BYTES
    ensures |p| == 12 + |header|
  {
    MAGIC + BigEndian4(|header|) + header
  }

  function Body(c: Crypto, key: Bytes, nonce: Bytes, prefix: Bytes, plaintext: Bytes): Bytes {
    var ciphertext := XorAt(c, key, nonce, 0, plaintext);
    ciphertext + c.tag(key, nonce, prefix, ciphertext)
  }

  /** The whole envelope of a plaintext under a header. */
  function Seal(c: Crypto, h: HeaderDoc, key: Bytes, nonce: Bytes, plaintext: Bytes): Bytes
    requires |Canonical(h)| <= MAX_HEADER_BYTES
  {
    Prefix(Canonical(h)) + Body(c, key, nonce, Prefix(Canonical(h)), plaintext)
  }

  /** The header a file starts with, if it can be read, and matches the request and the file's size. */
  function OpenedHeader(c: Crypto, raw: Bytes, keyRef: Text, planSha: Text): (o: Option<(Bytes, HeaderDoc, Bytes)>)
    ensures o.Some? ==>
      |raw| == |o.value.0| + o.value.1.plaintextBytes + TAG_BYTES && o.value.0 == raw[..|o.value.0|]
  {
    if |raw| < 12 || raw[..8] != MAGIC then None else
    var length := FromBigEndian4(raw[8..12]);
    if !(1 <= length <= MAX_HEADER_BYTES) || |raw| < 12 + length then None else
    var parsed := ParseHeader(c.text, raw[12..12 + length]);
    if parsed.None? then None else
    var h := parsed.value.0;
    if h.planSha != planSha || h.keyRef != keyRef then None
    else if |raw| != 12 + length + h.plaintextBytes + TAG_BYTES then None
    else Some((raw[..12 + length], h, parsed.value.1))
  }

  /** What a file decrypts to: the plaintext, if the header is right, the tag and the digest match. */
  function Opened(c: Crypto, raw: Bytes, key: Bytes, keyRef: Text, planSha: Text): Option<Bytes> {
    var head := OpenedHeader(c, raw, keyRef, planSha);
    if head.None? || |key| != KEY_BYTES then None else
    var (prefix, h, nonce) := head.value;
    var ciphertext := raw[|prefix|..|prefix| + h.plaintextBytes];
    var plaintext := XorAt(c, key, nonce, 0, ciphertext);
    if c.tag(key, nonce, prefix, ciphertext) != raw[|raw| - TAG_BYTES..] then None
    else if c.sha(plaintext) != h.plaintextSha then None
    else Some(plaintext)
  }

  lemma SealParts(c: Crypto, h: HeaderDoc, key: Bytes, nonce: Bytes, plaintext: Bytes)
    requires |Canonical(h)| <= MAX_HEADER_BYTES && TagsSized(c)
    ensures var raw := Seal(c, h, key, nonce, plaintext);
      var prefix := Prefix(Canonical(h));
      var ciphertext := XorAt(c, key, nonce, 0, plaintext);
      var n := |Canonical(h)|;
      && |raw| == 12 + n + |plaintext| + TAG_BYTES
      && raw[..8] == MAGIC && raw[8..12] == BigEndian4(n) && raw[12..12 + n] == Canonical(h)
      && raw[..12 + n] == prefix && raw[12 + n..12 + n + |plaintext|] == ciphertext
      && raw[|raw| - TAG_BYTES..] == c.tag(key, nonce, prefix, ciphertext)
  {
    hide Canonical, XorAt, BigEndian4;
  }

  lemma PrefixParts(raw: Bytes)
    requires |raw| >= 12 && raw[..8] == MAGIC
    requires FromBigEndian4(raw[8..12]) <= MAX_HEADER_BYTES && |raw| >= 12 + FromBigEndian4(raw[8..12])
    ensures var n := FromBigEndian4(raw[8..12]); Prefix(raw[12..12 + n]) == raw[..12 + n]
  {
    var n := FromBigEndian4(raw[8..12]);
    BigEndianCanonical(raw[8..12]);
    hide BigEndian4, FromBigEndian4;
    assert raw[..12 + n] == raw[..8] + raw[8..12] + raw[12..12 + n];
  }

  /** Some header, in canonical form, starts any file whose header is accepted. */
  lemma OpenedHeaderParts(c: Crypto, raw: Bytes, keyRef: Text, planSha: Text)
    requires OpenedHeader(c, raw, keyRef, planSha).Some?
    ensures var (prefix, h, nonce) := OpenedHeader(c, raw, keyRef, planSha).value;
      && Readable(c.text, h, nonce) && h.keyRef == keyRef && h.planSha == planSha
      && 1 <= |Canonical(h)| <= MAX_HEADER_BYTES && prefix == Prefix(Canonical(h))
  {
    hide Canonical, ParseHeader, Readable, FromBigEndian4, Prefix;
    var n := FromBigEndian4(raw[8..12]);
    var (h, nonce) := ParseHeader(c.text, raw[12..12 + n]).value;
    AcceptedExactly(c.text, raw[12..12 + n], h, nonce);
    PrefixParts(raw);
  }

  lemma PrefixSlices(raw: Bytes, header: Bytes)
    requires |header| <= MAX_HEADER_BYTES && Prefix(header) <= raw
    ensures |raw| >= 12 + |header| && raw[..8] == MAGIC && FromBigEndian4(raw[8..12]) == |header|
    ensures raw[12..12 + |header|] == header && raw[..12 + |header|] == Prefix(header)
  {
    BigEndianRoundTrip(|header|);
    hide BigEndian4, FromBigEndian4;
    var prefix := Prefix(header);
    assert raw[..12 + |header|] == prefix;
    assert raw[..8] == prefix[..8];
    assert raw[8..12] == prefix[8..12];
    assert raw[12..12 + |header|] == prefix[12..];
  }

  lemma OpenedHeaderOfPrefix(c: Crypto, raw: Bytes, h: HeaderDoc, nonce: Bytes)
    requires 1 <= |Canonical(h)| <= MAX_HEADER_BYTES && Prefix(Canonical(h)) <= raw
    requires |raw| == 12 + |Canonical(h)| + h.plaintextBytes + TAG_BYTES && Readable(c.text, h, nonce)
    ensures OpenedHeader(c, raw, h.keyRef, h.planSha) == Some((Prefix(Canonical(h)), h, nonce))
  {
    hide Canonical, ParseHeader, Readable, FromBigEndian4, Prefix, MAGIC;
    AcceptedExactly(c.text, Canonical(h), h, nonce);
    PrefixSlices(raw, Canonical(h));
  }

  /** A file sealed for this request: under a readable header that describes its plaintext. */
  ghost predicate SealedBy(
    c: Crypto, raw: Bytes, key: Bytes, keyRef: Text, planSha: Text, plaintext: Bytes, h: HeaderDoc, nonce: Bytes)
  {
    && Readable(c.text, h, nonce) && 1 <= |Canonical(h)| <= MAX_HEADER_BYTES
    && h.keyRef == keyRef && h.planSha == planSha
    && |plaintext| == h.plaintextBytes && c.sha(plaintext) == h.plaintextSha && |key| == KEY_BYTES
    && raw == Seal(c, h, key, nonce, plaintext)
  }

  lemma SealedHeaderOpens(c: Crypto, h: HeaderDoc, key: Bytes, nonce: Bytes, plaintext: Bytes)
    requires TagsSized(c) && Readable(c.text, h, nonce) && 1 <= |Canonical(h)| <= MAX_HEADER_BYTES
    requires |plaintext| == h.plaintextBytes
    ensures OpenedHeader(c, Seal(c, h, key, nonce, plaintext), h.keyRef, h.planSha)
      == Some((Prefix(Canonical(h)), h, nonce))
  {
    hide Canonical, Readable, XorAt, OpenedHeader, Prefix;
    var raw := Seal(c, h, key, nonce, plaintext);
    OpenedHeaderOfPrefix(c, raw, h, nonce);
  }

  lemma SealedOpens(
    c: Crypto, raw: Bytes, key: Bytes, keyRef: Text, planSha: Text, plaintext: Bytes, h: HeaderDoc, nonce: Bytes)
    requires TagsSized(c) && SealedBy(c, raw, key, keyRef, planSha, plaintext, h, nonce)
    ensures Opened(c, raw, key, keyRef, planSha) == Some(plaintext)
  {
    hide Canonical, Readable, XorAt, OpenedHeader, Seal, Prefix, BigEndian4;
    SealedHeaderOpens(c, h, key, nonce, plaintext);
    SealParts(c, h, key, nonce, plaintext);
    XorInvolution(c, key, nonce, plaintext);
  }

  lemma SplitFile(raw: Bytes, at: nat, n: nat)
    requires |raw| == at + n + TAG_BYTES
    ensures raw == raw[..at] + (raw[at..at + n] + raw[|raw| - TAG_BYTES..])
  {
  }

  lemma OpenedWasSealed(
    c: Crypto, raw: Bytes, key: Bytes, keyRef: Text, planSha: Text, plaintext: Bytes)
    returns (h: HeaderDoc, nonce: Bytes)
    requires TagsSized(c) && Opened(c, raw, key, keyRef, planSha) == Some(plaintext)
    ensures SealedBy(c, raw, key, keyRef, planSha, plaintext, h, nonce)
  {
    hide Canonical, Readable, XorAt, OpenedHeader, Prefix;
    OpenedHeaderParts(c, raw, keyRef, planSha);
    var head := OpenedHeader(c, raw, keyRef, planSha).value;
    h, nonce := head.1, head.2;
    var at := |head.0|;
    XorInvolution(c, key, nonce, raw[at..at + h.plaintextBytes]);
    SplitFile(raw, at, h.plaintextBytes);
  }

  /** The files that open are exactly the sealed ones, and each opens to what was sealed in it. */
  lemma OpensExactlySeals(c: Crypto, raw: Bytes, key: Bytes, keyRef: Text, planSha: Text, plaintext: Bytes)
    requires TagsSized(c)
    ensures Opened(c, raw, key, keyRef, planSha) == Some(plaintext)
      <==> (exists h, nonce :: SealedBy(c, raw, key, keyRef, planSha, plaintext, h, nonce))
  {
    hide SealedBy, Opened;
    if Opened(c, raw, key, keyRef, planSha) == Some(plaintext) {
      var h, nonce := OpenedWasSealed(c, raw, key, keyRef, planSha, plaintext);
    }
    if h, nonce :| SealedBy(c, raw, key, keyRef, planSha, plaintext, h, nonce) {
      SealedOpens(c, raw, key, keyRef, planSha, plaintext, h, nonce);
    }
  }

  /** A header as the encryptor builds it, for this plaintext. */
  ghost predicate BuiltFor(c: Crypto, h: HeaderDoc, nonce: Bytes, plaintext: Bytes) {
    && |nonce| == NONCE_BYTES && h.nonceB64 == EncodeBase64(nonce)
    && h.plaintextBytes == |plaintext| && h.plaintextSha == c.sha(plaintext)
    && h.tag == JInt(TAG_BYTES) && FieldsOk(c.text, h) && 1 <= |Canonical(h)| <= MAX_HEADER_BYTES
  }

  lemma BuiltOpens(c: Crypto, h: HeaderDoc, key: Bytes, nonce: Bytes, plaintext: Bytes)
    requires TagsSized(c) && |key| == KEY_BYTES && BuiltFor(c, h, nonce, plaintext) && NoSplitPair(h.keyRef)
    ensures Opened(c, Seal(c, h, key, nonce, plaintext), key, h.keyRef, h.planSha) == Some(plaintext)
  {
    hide Canonical, XorAt, Seal, Opened, EncodeBase64, NoSplitPair, SafeReference, IsSha, Prefix;
    SealedOpens(c, Seal(c, h, key, nonce, plaintext), key, h.keyRef, h.planSha, plaintext, h, nonce);
  }

  lemma BuiltRefused(c: Crypto, h: HeaderDoc, key: Bytes, nonce: Bytes, plaintext: Bytes)
    requires TagsSized(c) && BuiltFor(c, h, nonce, plaintext) && !NoSplitPair(h.keyRef)
    ensures Opened(c, Seal(c, h, key, nonce, plaintext), key, h.keyRef, h.planSha).None?
  {
    hide Canonical, XorAt, Seal, OpenedHeader, EncodeBase64, NoSplitPair, SafeReference, IsSha, Prefix, ParseHeader;
    PrintedRoundTrip(c.text, h, nonce);
    UnreadHeader(c, h, key, nonce, plaintext);
  }

  /** Decryption returns what was encrypted exactly when the key reference has no split pair. */
  lemma SealRoundTrip(c: Crypto, planSha: Text, keyRef: Text, key: Bytes, nonce: Bytes, plaintext: Bytes)
    requires TagsSized(c) && |nonce| == NONCE_BYTES && |key| == KEY_BYTES
    requires HeaderFromPlan(c.text, planSha, c.sha(plaintext), |plaintext|, keyRef, nonce).Some?
    ensures var h := HeaderFromPlan(c.text, planSha, c.sha(plaintext), |plaintext|, keyRef, nonce).value;
      && 1 <= |Canonical(h)| <= MAX_HEADER_BYTES
      && |Seal(c, h, key, nonce, plaintext)| == |Prefix(Canonical(h))| + |plaintext| + TAG_BYTES
      && Opened(c, Seal(c, h, key, nonce, plaintext), key, keyRef, planSha)
        == (if NoSplitPair(keyRef) then Some(plaintext) else None)
  {
    HeaderFits(c.text, planSha, c.sha(plaintext), |plaintext|, keyRef, nonce);
    hide Canonical, XorAt, Opened, EncodeBase64, NoSplitPair, SafeReference, IsSha;
    var h := HeaderFromPlan(c.text, planSha, c.sha(plaintext), |plaintext|, keyRef, nonce).value;
    if NoSplitPair(keyRef) {
      BuiltOpens(c, h, key, nonce, plaintext);
    } else {
      BuiltRefused(c, h, key, nonce, plaintext);
    }
  }

  /** A file whose header reads back with another key reference does not open under its own. */
  lemma UnreadHeader(c: Crypto, h: HeaderDoc, key: Bytes, nonce: Bytes, plaintext: Bytes)
    requires TagsSized(c) && 1 <= |Canonical(h)| <= MAX_HEADER_BYTES
    requires var read := ParseHeader(c.text, Canonical(h)); read.Some? ==> read.value.0.keyRef != h.keyRef
    ensures OpenedHeader(c, Seal(c, h, key, nonce, plaintext), h.keyRef, h.planSha).None?
  {
    hide Canonical, XorAt, ParseHeader, FromBigEndian4, Prefix, MAGIC;
    PrefixSlices(Seal(c, h, key, nonce, plaintext), Canonical(h));
  }
}
