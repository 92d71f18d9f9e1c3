/**
 The nine fields of an envelope header, built from a plan, printed canonically and parsed back
 (sean_os/backup_encryption.py:135-180).
 */
module EnvelopeHeader {
  import opened Basics
  import opened Header

  const NONCE_BYTES := 12
  const TAG_BYTES := 16
  const MAX_HEADER_BYTES := 4096
  const MAX_PLAINTEXT_BYTES := 10 * 1024 * 1024 * 1024

  // ---------------------------------------------------------------- base64

  function SextetChar(v: int): Code
    requires 0 <= v < 64
  {
    if v < 26 then 0x41 + v else if v < 52 then 0x61 + v - 26 else if v < 62 then 0x30 + v - 52
    else if v == 62 then 0x2b else 0x2f
  }

  function CharSextet(c: Code): (v: int)
    ensures -1 <= v < 64
  {
    if 0x41 <= c <= 0x5a then c - 0x41
    else if 0x61 <= c <= 0x7a then c - 0x61 + 26
    else if 0x30 <= c <= 0x39 then c - 0x30 + 52
    else if c == 0x2b then 62
    else if c == 0x2f then 63
    else -1
  }

  function EncodeGroup(a: Byte, b: Byte, c: Byte): (t: Text)
    ensures |t| == 4
  {
    [SextetChar(a / 4), SextetChar(a % 4 * 16 + b / 16), SextetChar(b % 16 * 4 + c / 64), SextetChar(c % 64)]
  }

  function DecodeGroup(t: Text): (o: Option<seq<Byte>>)
    requires |t| == 4
    ensures o.Some? ==> |o.value| == 3
  {
    var w, x, y, z := CharSextet(t[0]), CharSextet(t[1]), CharSextet(t[2]), CharSextet(t[3]);
    if w < 0 || x < 0 || y < 0 || z < 0 then None
    else Some([w * 4 + x / 16, x % 16 * 16 + y / 4, y % 4 * 64 + z])
  }

  /** Encodes a whole number of three-octet groups, as a nonce is; no padding arises. */
  function EncodeBase64(o: seq<Byte>): (t: Text)
    requires |o| % 3 == 0
    ensures |t| == |o| / 3 * 4
  {
    if o == [] then [] else EncodeGroup(o[0], o[1], o[2]) + EncodeBase64(o[3..])
  }

  /** Decodes unpadded text; text that is malformed, or padded, never decodes to a nonce. */
  function DecodeBase64(t: Text): (o: Option<seq<Byte>>)
    ensures o.Some? ==> |t| % 4 == 0 && |o.value| == |t| / 4 * 3
  {
    if t == [] then Some([])
    else if |t| < 4 || DecodeGroup(t[..4]).None? then None
    else
      var more := DecodeBase64(t[4..]);
      if more.None? then None else Some(DecodeGroup(t[..4]).value + more.value)
  }

  lemma SextetRoundTrip(v: int)
    requires 0 <= v < 64
    ensures CharSextet(SextetChar(v)) == v && Plain(SextetChar(v))
  {
  }

  lemma CharRoundTrip(c: Code)
    requires CharSextet(c) >= 0
    ensures SextetChar(CharSextet(c)) == c
  {
  }

  /** Three octets and four sextets carry the same 24 bits. */
  lemma SameBits(a: int, b: int, c: int)
    requires 0 <= a < 256 && 0 <= b < 256 && 0 <= c < 256
    ensures var w, x, y, z := a / 4, a % 4 * 16 + b / 16, b % 16 * 4 + c / 64, c % 64;
      && 0 <= w < 64 && 0 <= x < 64 && 0 <= y < 64 && 0 <= z < 64
      && w * 4 + x / 16 == a && x % 16 * 16 + y / 4 == b && y % 4 * 64 + z == c
  {
    assert (a % 4 * 16 + b / 16) / 16 == a % 4 && (a % 4 * 16 + b / 16) % 16 == b / 16;
    assert (b % 16 * 4 + c / 64) / 4 == b % 16 && (b % 16 * 4 + c / 64) % 4 == c / 64;
  }

  lemma DecodeSextets(w: int, x: int, y: int, z: int)
    requires 0 <= w < 64 && 0 <= x < 64 && 0 <= y < 64 && 0 <= z < 64
    ensures DecodeGroup([SextetChar(w), SextetChar(x), SextetChar(y), SextetChar(z)])
      == Some([w * 4 + x / 16, x % 16 * 16 + y / 4, y % 4 * 64 + z])
  {
    SextetRoundTrip(w);
    SextetRoundTrip(x);
    SextetRoundTrip(y);
    SextetRoundTrip(z);
    hide SextetChar, CharSextet, Plain;
  }

  lemma GroupPlain(a: Byte, b: Byte, c: Byte)
    ensures forall x | x in EncodeGroup(a, b, c) :: Plain(x)
  {
    SameBits(a, b, c);
    SextetRoundTrip(a / 4);
    SextetRoundTrip(a % 4 * 16 + b / 16);
    SextetRoundTrip(b % 16 * 4 + c / 64);
    SextetRoundTrip(c % 64);
    hide SextetChar, CharSextet, Plain;
  }

  lemma GroupRoundTrip(a: Byte, b: Byte, c: Byte)
    ensures DecodeGroup(EncodeGroup(a, b, c)) == Some([a, b, c])
    ensures forall x | x in EncodeGroup(a, b, c) :: Plain(x)
  {
    GroupPlain(a, b, c);
    SameBits(a, b, c);
    hide SextetChar, CharSextet, Plain, DecodeGroup;
    DecodeSextets(a / 4, a % 4 * 16 + b / 16, b % 16 * 4 + c / 64, c % 64);
  }

  lemma GroupCanonical(t: Text)
    requires |t| == 4 && DecodeGroup(t).Some?
    ensures var o := DecodeGroup(t).value; EncodeGroup(o[0], o[1], o[2]) == t
  {
    CharRoundTrip(t[0]);
    CharRoundTrip(t[1]);
    CharRoundTrip(t[2]);
    CharRoundTrip(t[3]);
    hide SextetChar, CharSextet;
    var w, x, y, z := CharSextet(t[0]), CharSextet(t[1]), CharSextet(t[2]), CharSextet(t[3]);
    var o := DecodeGroup(t).value;
    assert o[0] / 4 == w && o[0] % 4 * 16 + o[1] / 16 == x && o[1] % 16 * 4 + o[2] / 64 == y && o[2] % 64 == z;
  }

  lemma {:induction false} Base64RoundTrip(o: seq<Byte>)
    requires |o| % 3 == 0
    ensures DecodeBase64(EncodeBase64(o)) == Some(o)
    ensures forall x | x in EncodeBase64(o) :: Plain(x)
  {
    if o != [] {
      GroupRoundTrip(o[0], o[1], o[2]);
      Base64RoundTrip(o[3..]);
      hide EncodeGroup, DecodeGroup, Plain;
      var t := EncodeBase64(o);
      assert t[..4] == EncodeGroup(o[0], o[1], o[2]) && t[4..] == EncodeBase64(o[3..]);
      assert o == [o[0], o[1], o[2]] + o[3..];
    }
  }

  lemma EncodeBase64Step(g: seq<Byte>, more: seq<Byte>)
    requires |g| == 3 && |more| % 3 == 0
    ensures EncodeBase64(g + more) == EncodeGroup(g[0], g[1], g[2]) + EncodeBase64(more)
  {
    hide EncodeGroup;
    var o := g + more;
    assert o[0] == g[0] && o[1] == g[1] && o[2] == g[2] && o[3..] == more;
  }

  /** No two texts decode to the same octets: whatever decodes is the encoding of its result. */
  lemma {:induction false} Base64Canonical(t: Text)
    requires DecodeBase64(t).Some?
    ensures |DecodeBase64(t).value| % 3 == 0 && EncodeBase64(DecodeBase64(t).value) == t
  {
    if t != [] {
      Base64Canonical(t[4..]);
      GroupCanonical(t[..4]);
      EncodeBase64Step(DecodeGroup(t[..4]).value, DecodeBase64(t[4..]).value);
      hide EncodeGroup, DecodeGroup, EncodeBase64;
      assert t == t[..4] + t[4..];
    }
  }

  // ---------------------------------------------------------------- the header

  function Ascii(s: string): (t: Text)
    ensures |t| == |s|
  {
    seq(|s|, i requires 0 <= i < |s| => s[i] as int)
  }

  datatype HeaderDoc = HeaderDoc(
    planSha: Text, plaintextSha: Text, plaintextBytes: nat, keyRef: Text, nonceB64: Text, tag: JValue)

  /** The text checks left uninterpreted: strip, secret patterns, and which floats equal 16. */
  datatype TextChecks = TextChecks(trimmed: Text -> bool, clean: Text -> bool, sixteen: Text -> bool)

  predicate IsSha(t: Text) {
    |t| == 64 && forall c | c in t :: 0x30 <= c <= 0x39 || 0x61 <= c <= 0x66
  }

  predicate SafeReference(c: TextChecks, ref: Text) {
    1 <= |ref| <= 200 && c.trimmed(ref) && c.clean(ref) && forall x | x in ref :: x >= 32
  }

  predicate FieldsOk(c: TextChecks, h: HeaderDoc) {
    && IsSha(h.planSha) && IsSha(h.plaintextSha) && 1 <= h.plaintextBytes <= MAX_PLAINTEXT_BYTES
    && SafeReference(c, h.keyRef)
    && (h.tag == JInt(TAG_BYTES) || (h.tag.JFloat? && c.sixteen(h.tag.token)))
  }

  const ALGORITHM_KEY := Ascii("algorithm")
  const FORMAT_KEY := Ascii("format")
  const OWNER_KEY := Ascii("key_owner")
  const REF_KEY := Ascii("key_ref")
  const NONCE_KEY := Ascii("nonce_b64")
  const BYTES_KEY := Ascii("plaintext_bytes")
  const PLAINTEXT_KEY := Ascii("plaintext_sha256")
  const PLAN_KEY := Ascii("plan_sha256")
  const TAG_KEY := Ascii("tag_bytes")

  const ALGORITHM := Ascii("AES_256_GCM")
  const FORMAT := Ascii("sean-os-client-") + Ascii("encrypted-backup-") + Ascii("envelope/v1")
  const OWNER := Ascii("IAC")

  const HEADER_FIELDS: set<Text> := {
    ALGORITHM_KEY, FORMAT_KEY, OWNER_KEY, REF_KEY, NONCE_KEY, BYTES_KEY, PLAINTEXT_KEY, PLAN_KEY, TAG_KEY}

  /** The fields in the order of their names. */
  function MembersOf(h: HeaderDoc): (ms: Members)
    ensures |ms| == 9
  {
    [(ALGORITHM_KEY, JString(ALGORITHM)), (FORMAT_KEY, JString(FORMAT)), (OWNER_KEY, JString(OWNER)),
     (REF_KEY, JString(h.keyRef)), (NONCE_KEY, JString(h.nonceB64)), (BYTES_KEY, JInt(h.plaintextBytes)),
     (PLAINTEXT_KEY, JString(h.plaintextSha)), (PLAN_KEY, JString(h.planSha)), (TAG_KEY, h.tag)]
  }

  function Canonical(h: HeaderDoc): (raw: seq<Byte>) {
    PrintedObjectAscii(MembersOf(h));
    PrintObject(MembersOf(h))
  }

  /** _header_from_plan: the header of one encryption. */
  function HeaderFromPlan(
    c: TextChecks, planSha: Text, plaintextSha: Text, plaintextBytes: int, keyRef: Text, nonce: seq<Byte>)
    : Option<HeaderDoc>
    requires |nonce| == NONCE_BYTES
  {
    if !IsSha(planSha) || !IsSha(plaintextSha) || !(1 <= plaintextBytes <= MAX_PLAINTEXT_BYTES)
       || !SafeReference(c, keyRef)
    then None
    else Some(HeaderDoc(planSha, plaintextSha, plaintextBytes, keyRef, EncodeBase64(nonce), JInt(TAG_BYTES)))
  }

  /** A Python dict keeps the last of several equal keys. */
  function Find(ms: Members, key: Text): Option<JValue> {
    if ms == [] then None
    else if ms[|ms| - 1].0 == key then Some(ms[|ms| - 1].1)
    else Find(ms[..|ms| - 1], key)
  }

  function Names(ms: Members): set<Text> {
    set i | 0 <= i < |ms| :: ms[i].0
  }

  /** The fields of a parsed object, if they are the header's and have the right kinds. */
  function FieldsOf(ms: Members): Option<HeaderDoc> {
    if Names(ms) != HEADER_FIELDS then None
    else if Find(ms, ALGORITHM_KEY) != Some(JString(ALGORITHM)) || Find(ms, FORMAT_KEY) != Some(JString(FORMAT))
            || Find(ms, OWNER_KEY) != Some(JString(OWNER)) then None
    else
      var ref, nonce, bytes := Find(ms, REF_KEY), Find(ms, NONCE_KEY), Find(ms, BYTES_KEY);
      var plaintext, plan, tag := Find(ms, PLAINTEXT_KEY), Find(ms, PLAN_KEY), Find(ms, TAG_KEY);
      if ref.Some? && ref.value.JString? && nonce.Some? && nonce.value.JString? && bytes.Some? && bytes.value.JInt?
         && plaintext.Some? && plaintext.value.JString? && plan.Some? && plan.value.JString? && tag.Some?
      then Some(HeaderDoc(plan.value.s, plaintext.value.s, bytes.value.n, ref.value.s, nonce.value.s, tag.value))
      else None
  }

  function ParseHeader(c: TextChecks, raw: seq<Byte>): Option<(HeaderDoc, seq<Byte>)> {
    if exists i | 0 <= i < |raw| :: raw[i] >= 128 then None else
    var ms := ParseObject(raw);
    if ms.None? then None else
    var h := FieldsOf(ms.value);
    if h.None? || !FieldsOk(c, h.value) then None else
    var nonce := DecodeBase64(h.value.nonceB64);
    if nonce.None? || |nonce.value| != NONCE_BYTES then None
    else if Canonical(h.value) != raw then None
    else Some((h.value, nonce.value))
  }

  // ---------------------------------------------------------------- printing and parsing are inverse

  lemma KeysDiffer()
    ensures forall i, j | 0 <= i < j < 9 :: KeyAt(i) != KeyAt(j)
  {
    assert ALGORITHM_KEY[0] == 0x61 && OWNER_KEY[0] == 0x6b && NONCE_KEY[0] == 0x6e && TAG_KEY[0] == 0x74;
  }

  lemma AsciiPlain(s: string)
    requires forall i | 0 <= i < |s| :: ' ' <= s[i] <= '~' && s[i] != '"' && s[i] != '\\'
    ensures forall c | c in Ascii(s) :: Plain(c)
  {
    assert '"' as int == 0x22 && '\\' as int == 0x5c && ' ' as int == 0x20 && '~' as int == 0x7e;
  }

  lemma KeyPlain(i: int)
    requires 0 <= i < 9
    ensures forall c | c in KeyAt(i) :: Plain(c)
  {
    AsciiPlain("algorithm");
    AsciiPlain("format");
    AsciiPlain("key_owner");
    AsciiPlain("key_ref");
    AsciiPlain("nonce_b64");
    AsciiPlain("plaintext_bytes");
    AsciiPlain("plaintext_sha256");
    AsciiPlain("plan_sha256");
    AsciiPlain("tag_bytes");
    hide Ascii, Plain;
  }

  lemma NamesDiffer()
    ensures forall i, j | 0 <= i < j < 9 :: KeyAt(i) != KeyAt(j)
    ensures forall i | 0 <= i < 9 :: forall c | c in KeyAt(i) :: Plain(c)
  {
    KeysDiffer();
    forall i | 0 <= i < 9 ensures forall c | c in KeyAt(i) :: Plain(c) { KeyPlain(i); }
  }

  function KeyAt(i: int): Text
    requires 0 <= i < 9
  {
    [ALGORITHM_KEY, FORMAT_KEY, OWNER_KEY, REF_KEY, NONCE_KEY, BYTES_KEY, PLAINTEXT_KEY, PLAN_KEY, TAG_KEY][i]
  }

  lemma {:induction false} FindAt(ms: Members, i: nat)
    requires i < |ms| && forall j | i < j < |ms| :: ms[j].0 != ms[i].0
    ensures Find(ms, ms[i].0) == Some(ms[i].1)
  {
    if i < |ms| - 1 {
      FindAt(ms[..|ms| - 1], i);
    }
  }

  lemma FieldsOfMembers(h: HeaderDoc)
    ensures FieldsOf(MembersOf(h)) == Some(h)
  {
    var ms := MembersOf(h);
    NamesDiffer();
    assert forall i | 0 <= i < 9 :: ms[i].0 == KeyAt(i);
    forall i | 0 <= i < 9 ensures Find(ms, KeyAt(i)) == Some(ms[i].1) {
      FindAt(ms, i);
    }
    assert Names(ms) == HEADER_FIELDS by {
      assert ms[0].0 in Names(ms) && ms[1].0 in Names(ms) && ms[2].0 in Names(ms) && ms[3].0 in Names(ms)
        && ms[4].0 in Names(ms) && ms[5].0 in Names(ms) && ms[6].0 in Names(ms) && ms[7].0 in Names(ms)
        && ms[8].0 in Names(ms);
    }
    assert Find(ms, KeyAt(0)).Some? && Find(ms, KeyAt(1)).Some? && Find(ms, KeyAt(2)).Some?;
    assert Find(ms, KeyAt(3)) == Some(JString(h.keyRef)) && Find(ms, KeyAt(4)) == Some(JString(h.nonceB64));
    assert Find(ms, KeyAt(5)) == Some(JInt(h.plaintextBytes)) && Find(ms, KeyAt(6)) == Some(JString(h.plaintextSha));
    assert Find(ms, KeyAt(7)) == Some(JString(h.planSha)) && Find(ms, KeyAt(8)) == Some(h.tag);
  }

  lemma PlainJoined(t: Text)
    requires forall c | c in t :: Plain(c)
    ensures Joined(t) == t
  {
    PlainUnescaped(t);
    JoinedLength(t);
  }

  lemma ConstantsPlain()
    ensures forall c | c in ALGORITHM :: Plain(c)
    ensures forall c | c in FORMAT :: Plain(c)
    ensures forall c | c in OWNER :: Plain(c)
  {
    AsciiPlain("AES_256_GCM");
    AsciiPlain("sean-os-client-");
    AsciiPlain("encrypted-backup-");
    AsciiPlain("envelope/v1");
    AsciiPlain("IAC");
    hide Ascii, Plain;
  }

  function JoinedHeader(h: HeaderDoc): HeaderDoc {
    h.(keyRef := Joined(h.keyRef), tag := JoinedValue(h.tag))
  }

  lemma JoinedConstants()
    ensures Joined(ALGORITHM) == ALGORITHM && Joined(FORMAT) == FORMAT && Joined(OWNER) == OWNER
    ensures forall i | 0 <= i < 9 :: Joined(KeyAt(i)) == KeyAt(i)
  {
    NamesDiffer();
    ConstantsPlain();
    PlainJoined(ALGORITHM);
    PlainJoined(FORMAT);
    PlainJoined(OWNER);
    forall i | 0 <= i < 9 ensures Joined(KeyAt(i)) == KeyAt(i) { PlainJoined(KeyAt(i)); }
  }

  lemma JoinedHeaderValues(h: HeaderDoc, i: int)
    requires IsSha(h.planSha) && IsSha(h.plaintextSha) && forall c | c in h.nonceB64 :: Plain(c)
    requires 0 <= i < 9
    ensures JoinedValue(MembersOf(h)[i].1) == MembersOf(JoinedHeader(h))[i].1
  {
    var j := JoinedHeader(h);
    assert MembersOf(h)[3].1 == JString(h.keyRef) && MembersOf(j)[3].1 == JString(Joined(h.keyRef));
    assert MembersOf(h)[5].1 == JInt(h.plaintextBytes) && MembersOf(h)[8].1 == h.tag;
    if i != 3 && i != 5 && i != 8 {
      assert MembersOf(h)[i].1 == MembersOf(j)[i].1;
      FixedValuesJoined(h, i);
    }
  }

  lemma FixedValuesJoined(h: HeaderDoc, i: int)
    requires IsSha(h.planSha) && IsSha(h.plaintextSha) && forall c | c in h.nonceB64 :: Plain(c)
    requires 0 <= i < 9 && i != 3 && i != 5 && i != 8
    ensures JoinedValue(MembersOf(h)[i].1) == MembersOf(h)[i].1
  {
    JoinedConstants();
    if i == 4 {
      PlainJoined(h.nonceB64);
    } else if i == 6 {
      PlainJoined(h.plaintextSha);
    } else if i == 7 {
      PlainJoined(h.planSha);
    }
    hide Joined, Plain, Ascii, IsSha, KeyAt;
  }

  lemma JoinedHeaderMembers(h: HeaderDoc)
    requires IsSha(h.planSha) && IsSha(h.plaintextSha) && forall c | c in h.nonceB64 :: Plain(c)
    ensures JoinedMembers(MembersOf(h)) == MembersOf(JoinedHeader(h))
  {
    JoinedConstants();
    hide Joined, Plain, Ascii, IsSha, KeyAt, MembersOf, JoinedHeader, JoinedValue;
    var ms, js := MembersOf(h), MembersOf(JoinedHeader(h));
    forall i | 0 <= i < 9 ensures JoinedMembers(ms)[i] == js[i] {
      MemberKeys(h, i);
      MemberKeys(JoinedHeader(h), i);
      JoinedHeaderValues(h, i);
    }
    assert JoinedMembers(ms) == js;
  }

  lemma MemberKeys(h: HeaderDoc, i: int)
    requires 0 <= i < 9
    ensures MembersOf(h)[i].0 == KeyAt(i)
  {
  }

  // ---------------------------------------------------------------- printed headers are ASCII and short

  predicate IsAscii(t: Text) {
    forall c | c in t :: c < 128
  }

  lemma {:induction false} EscapedAscii(s: Text)
    ensures IsAscii(EscapeAll(s))
  {
    if s != [] {
      EscapedAscii(s[1..]);
      assert IsAscii(Escape(s[0]));
    }
  }

  lemma PrintedMemberAscii(m: (Text, JValue))
    ensures IsAscii(PrintMember(m))
  {
    EscapedAscii(m.0);
    if m.1.JString? { EscapedAscii(m.1.s); }
  }

  lemma {:induction false} PrintedMembersAscii(ms: Members)
    requires ms != []
    ensures IsAscii(PrintMembers(ms))
  {
    PrintedMemberAscii(ms[0]);
    hide PrintMember;
    if |ms| > 1 { PrintedMembersAscii(ms[1..]); }
  }

  lemma PrintedObjectAscii(ms: Members)
    requires ms != []
    ensures IsAscii(PrintObject(ms))
    ensures forall i | 0 <= i < |PrintObject(ms)| :: PrintObject(ms)[i] < 128
  {
    PrintedMembersAscii(ms);
    hide PrintMembers;
    var t := PrintObject(ms);
    assert IsAscii(t);
    assert forall i | 0 <= i < |t| :: t[i] in t;
  }

  /** Members of at most `each` characters, but for one that may be longer by `extra`. */
  lemma {:induction false} MembersLength(ms: Members, wide: int, each: nat, extra: nat)
    requires ms != []
    requires forall i | 0 <= i < |ms| :: |PrintMember(ms[i])| <= each + if i == wide then extra else 0
    ensures |PrintMembers(ms)| <= |ms| * (each + 1) + if 0 <= wide < |ms| then extra else 0
  {
    hide PrintMember;
    assert |PrintMember(ms[0])| <= each + if 0 == wide then extra else 0;
    if |ms| > 1 {
      forall i | 0 <= i < |ms[1..]|
        ensures |PrintMember(ms[1..][i])| <= each + if i == wide - 1 then extra else 0
      {
        assert ms[1..][i] == ms[i + 1];
      }
      MembersLength(ms[1..], wide - 1, each, extra);
      assert |ms| * (each + 1) == (|ms| - 1) * (each + 1) + (each + 1);
    }
  }

  lemma PlainLength(t: Text)
    requires forall c | c in t :: Plain(c)
    ensures |EscapeAll(t)| == |t|
  {
    PlainUnescaped(t);
  }

  lemma KeyLength(i: int)
    requires 0 <= i < 9
    ensures |EscapeAll(KeyAt(i))| <= 16
  {
    NamesDiffer();
    PlainLength(KeyAt(i));
  }

  lemma StringLength(t: Text)
    requires forall c | c in t :: Plain(c)
    ensures |PrintValue(JString(t))| == |t| + 2
  {
    PlainLength(t);
  }

  lemma NumberLength(n: nat)
    requires n <= MAX_PLAINTEXT_BYTES
    ensures |PrintValue(JInt(n))| <= 11
  {
    assert Power10(5) == 100000;
    assert Power10(11) == 100000000000;
    PrintNatLength(n, 11, Power10(11));
  }

  lemma FixedValueLength(h: HeaderDoc, i: int)
    requires IsSha(h.planSha) && IsSha(h.plaintextSha) && forall c | c in h.nonceB64 :: Plain(c)
    requires |h.nonceB64| == 16 && h.tag == JInt(TAG_BYTES) && h.plaintextBytes <= MAX_PLAINTEXT_BYTES
    requires 0 <= i < 9 && i != 3
    ensures |PrintValue(MembersOf(h)[i].1)| <= 66
  {
    ConstantsPlain();
    if i == 5 {
      NumberLength(h.plaintextBytes);
    } else if i == 8 {
      NumberLength(TAG_BYTES);
    } else {
      StringLength(MembersOf(h)[i].1.s);
    }
    hide PrintValue, Plain;
  }

  lemma NoncePlain(nonce: seq<Byte>)
    requires |nonce| == NONCE_BYTES
    ensures |EncodeBase64(nonce)| == 16 && forall x | x in EncodeBase64(nonce) :: Plain(x)
  {
    Base64RoundTrip(nonce);
  }

  /** Every header the encryptor builds fits, even with 200 characters of twelve-fold escapes. */
  lemma HeaderFits(
    c: TextChecks, planSha: Text, plaintextSha: Text, plaintextBytes: int, keyRef: Text, nonce: seq<Byte>)
    requires |nonce| == NONCE_BYTES
    requires HeaderFromPlan(c, planSha, plaintextSha, plaintextBytes, keyRef, nonce).Some?
    ensures var h := HeaderFromPlan(c, planSha, plaintextSha, plaintextBytes, keyRef, nonce).value;
      1 <= |Canonical(h)| <= MAX_HEADER_BYTES
  {
    var h := HeaderFromPlan(c, planSha, plaintextSha, plaintextBytes, keyRef, nonce).value;
    NoncePlain(nonce);
    EscapedLength(h.keyRef);
    assert MembersOf(h)[3].1 == JString(h.keyRef);
    forall i | 0 <= i < 9 ensures |PrintMember(MembersOf(h)[i])| <= 100 + if i == 3 then 2400 else 0 {
      MemberKeys(h, i);
      KeyLength(i);
      if i != 3 { FixedValueLength(h, i); }
    }
    hide PrintMembers, PrintMember, MembersOf;
    MembersLength(MembersOf(h), 3, 100, 2400);
  }

  // ---------------------------------------------------------------- what the parser accepts

  /** A header as a decryptor can have read it. */
  ghost predicate Readable(c: TextChecks, h: HeaderDoc, nonce: seq<Byte>) {
    && FieldsOk(c, h) && NoSplitPair(h.keyRef)
    && |nonce| == NONCE_BYTES && h.nonceB64 == EncodeBase64(nonce)
    && (h.tag == JInt(TAG_BYTES) || h.tag == JFloat(SIXTEEN_FLOAT))
  }

  lemma JoinedHeaderSame(h: HeaderDoc)
    ensures (JoinedHeader(h) == h) == (
      && NoSplitPair(h.keyRef)
      && (h.tag.JFloat? ==> h.tag == JFloat(SIXTEEN_FLOAT))
      && (h.tag.JString? ==> NoSplitPair(h.tag.s)))
  {
    JoinedLength(h.keyRef);
    if h.tag.JString? { JoinedLength(h.tag.s); }
    hide Joined, NoSplitPair;
  }

  lemma ParsedCanonical(h: HeaderDoc)
    requires IsSha(h.planSha) && IsSha(h.plaintextSha) && forall c | c in h.nonceB64 :: Plain(c)
    ensures ParseObject(Canonical(h)) == Some(MembersOf(JoinedHeader(h)))
    ensures FieldsOf(MembersOf(JoinedHeader(h))) == Some(JoinedHeader(h))
  {
    ObjectRoundTrip(MembersOf(h));
    JoinedHeaderMembers(h);
    FieldsOfMembers(JoinedHeader(h));
    hide PrintObject, ParseObject, MembersOf, JoinedHeader, JoinedMembers, FieldsOf;
  }

  lemma NonceDecodes(t: Text)
    requires DecodeBase64(t).Some?
    ensures forall x | x in t :: Plain(x)
    ensures |DecodeBase64(t).value| % 3 == 0 && EncodeBase64(DecodeBase64(t).value) == t
  {
    Base64Canonical(t);
    Base64RoundTrip(DecodeBase64(t).value);
  }

  /**
   The accepted byte strings are exactly the canonical prints of readable headers, and each is
   parsed as the header it prints.
   */
  lemma AcceptedExactly(c: TextChecks, raw: seq<Byte>, h: HeaderDoc, nonce: seq<Byte>)
    ensures ParseHeader(c, raw) == Some((h, nonce)) <==> raw == Canonical(h) && Readable(c, h, nonce)
  {
    if ParseHeader(c, raw) == Some((h, nonce)) {
      NonceDecodes(h.nonceB64);
      ParsedCanonical(h);
      JoinedHeaderSame(h);
      hide FieldsOf, MembersOf, DecodeBase64, EncodeBase64, JoinedHeader, Canonical, ParseObject, NoSplitPair,
        SafeReference, IsSha;
    }
    if raw == Canonical(h) && Readable(c, h, nonce) {
      Base64RoundTrip(nonce);
      ParsedCanonical(h);
      JoinedHeaderSame(h);
      PrintedObjectAscii(MembersOf(h));
      hide FieldsOf, MembersOf, DecodeBase64, EncodeBase64, JoinedHeader, Canonical, ParseObject, NoSplitPair,
        SafeReference, IsSha;
      assert forall i | 0 <= i < |raw| :: raw[i] in raw && raw[i] < 128;
    }
  }

  /** Whatever a printed header is read as, it is that header with its split pairs joined. */
  lemma ReadBack(c: TextChecks, h: HeaderDoc)
    requires IsSha(h.planSha) && IsSha(h.plaintextSha) && forall c | c in h.nonceB64 :: Plain(c)
    requires ParseHeader(c, Canonical(h)).Some?
    ensures ParseHeader(c, Canonical(h)).value.0 == JoinedHeader(h)
  {
    ParsedCanonical(h);
    hide FieldsOf, MembersOf, DecodeBase64, EncodeBase64, JoinedHeader, Canonical, ParseObject, FieldsOk, IsSha;
  }

  /**
   A header built from a plan is read back as itself exactly when the key reference has no high
   surrogate immediately followed by a low one; with such a pair another reference is read.
   */
  lemma RoundTripIff(
    c: TextChecks, planSha: Text, plaintextSha: Text, plaintextBytes: int, keyRef: Text, nonce: seq<Byte>)
    requires |nonce| == NONCE_BYTES
    requires HeaderFromPlan(c, planSha, plaintextSha, plaintextBytes, keyRef, nonce).Some?
    ensures var h := HeaderFromPlan(c, planSha, plaintextSha, plaintextBytes, keyRef, nonce).value;
      var read := ParseHeader(c, Canonical(h));
      && (read == Some((h, nonce)) <==> NoSplitPair(keyRef))
      && (read.Some? ==> (read.value.0.keyRef == keyRef <==> NoSplitPair(keyRef)))
  {
    NoncePlain(nonce);
    hide Canonical, ParseHeader, EncodeBase64, NoSplitPair, SafeReference, IsSha, Plain, Joined;
    var h := HeaderDoc(planSha, plaintextSha, plaintextBytes, keyRef, EncodeBase64(nonce), JInt(TAG_BYTES));
    PrintedRoundTrip(c, h, nonce);
  }

  lemma PrintedRoundTrip(c: TextChecks, h: HeaderDoc, nonce: seq<Byte>)
    requires FieldsOk(c, h) && h.tag == JInt(TAG_BYTES)
    requires |nonce| == NONCE_BYTES && h.nonceB64 == EncodeBase64(nonce)
    ensures var read := ParseHeader(c, Canonical(h));
      && (read == Some((h, nonce)) <==> NoSplitPair(h.keyRef))
      && (read.Some? ==> (read.value.0.keyRef == h.keyRef <==> NoSplitPair(h.keyRef)))
  {
    NoncePlain(nonce);
    AcceptedExactly(c, Canonical(h), h, nonce);
    JoinedLength(h.keyRef);
    if ParseHeader(c, Canonical(h)).Some? {
      ReadBack(c, h);
    }
    hide Canonical, ParseHeader, EncodeBase64, NoSplitPair, SafeReference, IsSha, Plain, Joined;
  }

  /** The float 16.0 passes for the tag size: such a header differs in bytes, yet is accepted. */
  lemma FloatTagAccepted(c: TextChecks, h: HeaderDoc, nonce: seq<Byte>)
    requires Readable(c, h, nonce) && c.sixteen(SIXTEEN_FLOAT)
    ensures var twin := h.(tag := JFloat(SIXTEEN_FLOAT));
      ParseHeader(c, Canonical(twin)) == Some((twin, nonce))
  {
    hide Canonical, ParseHeader, EncodeBase64, NoSplitPair, SafeReference, IsSha;
    var twin := h.(tag := JFloat(SIXTEEN_FLOAT));
    AcceptedExactly(c, Canonical(twin), twin, nonce);
  }
}
