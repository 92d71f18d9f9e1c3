/**
 The envelope header: canonical JSON printing with ASCII escapes, json.loads on the way back, and
 the base64 nonce of section 4 of RFC 4648 (sean_os/backup_encryption.py:71-180). Text is a
 sequence of Unicode code points, lone surrogates included, as a Python string is.
 */
module Header {
  import opened Basics

  type Code = c: int | 0 <= c < 0x110000
  type Text = seq<Code>

  const QUOTE: Code := 0x22
  const BACKSLASH: Code := 0x5c
  const COMMA: Code := 0x2c
  const COLON: Code := 0x3a
  const OPEN: Code := 0x7b
  const CLOSE: Code := 0x7d
  const LETTER_U: Code := 0x75

  // ---------------------------------------------------------------- hexadecimal

  function HexDigit(d: int): Code
    requires 0 <= d < 16
  {
    if d < 10 then 0x30 + d else 0x61 + d - 10
  }

  function HexValue(c: Code): (d: int)
    ensures -1 <= d < 16
  {
    if 0x30 <= c <= 0x39 then c - 0x30
    else if 0x61 <= c <= 0x66 then c - 0x61 + 10
    else if 0x41 <= c <= 0x46 then c - 0x41 + 10
    else -1
  }

  function Hex4(n: int): (t: Text)
    requires 0 <= n < 0x10000
    ensures |t| == 4
  {
    [HexDigit(n / 16 / 16 / 16), HexDigit(n / 16 / 16 % 16), HexDigit(n / 16 % 16), HexDigit(n % 16)]
  }

  /** Four hex digits of either case at the front of the text. */
  function ParseHex4(t: Text): (n: Option<int>)
    ensures n.Some? ==> |t| >= 4 && 0 <= n.value < 0x10000
  {
    if |t| < 4 || exists i | 0 <= i < 4 :: HexValue(t[i]) < 0 then None
    else Some(HexValue(t[0]) * 4096 + HexValue(t[1]) * 256 + HexValue(t[2]) * 16 + HexValue(t[3]))
  }

  lemma HexDigitValue(d: int)
    requires 0 <= d < 16
    ensures HexValue(HexDigit(d)) == d
  {
  }

  lemma HexRoundTrip(n: int, rest: Text)
    requires 0 <= n < 0x10000
    ensures ParseHex4(Hex4(n) + rest) == Some(n)
  {
    var a, b := n / 16, n / 16 / 16;
    var c := b / 16;
    assert n == a * 16 + n % 16 && a == b * 16 + a % 16 && b == c * 16 + b % 16;
    HexDigitValue(c);
    HexDigitValue(b % 16);
    HexDigitValue(a % 16);
    HexDigitValue(n % 16);
    hide HexDigit, HexValue;
    var t := Hex4(n) + rest;
    assert t[0] == HexDigit(c) && t[1] == HexDigit(b % 16) && t[2] == HexDigit(a % 16) && t[3] == HexDigit(n % 16);
  }

  // ---------------------------------------------------------------- strings

  predicate High(c: Code) { 0xd800 <= c <= 0xdbff }

  predicate Low(c: Code) { 0xdc00 <= c <= 0xdfff }

  function Combine(hi: Code, lo: Code): Code
    requires High(hi) && Low(lo)
  {
    0x10000 + (hi - 0xd800) * 1024 + (lo - 0xdc00)
  }

  predicate Plain(c: Code) {
    0x20 <= c <= 0x7e && c != QUOTE && c != BACKSLASH
  }

  function Unit(n: int): (t: Text)
    requires 0 <= n < 0x10000
    ensures |t| == 6
  {
    [BACKSLASH, LETTER_U] + Hex4(n)
  }

  /** The short escapes: the letter after the backslash, and what it stands for. */
  function ShortEscape(c: Code): Option<Code> {
    if c == QUOTE then Some(QUOTE)
    else if c == BACKSLASH then Some(BACKSLASH)
    else if c == 0x0a then Some(0x6e)
    else if c == 0x0d then Some(0x72)
    else if c == 0x09 then Some(0x74)
    else if c == 0x0c then Some(0x66)
    else if c == 0x08 then Some(0x62)
    else None
  }

  function ShortMeaning(letter: Code): Option<Code> {
    if letter == QUOTE then Some(QUOTE)
    else if letter == BACKSLASH then Some(BACKSLASH)
    else if letter == 0x2f then Some(0x2f)
    else if letter == 0x6e then Some(0x0a)
    else if letter == 0x72 then Some(0x0d)
    else if letter == 0x74 then Some(0x09)
    else if letter == 0x66 then Some(0x0c)
    else if letter == 0x62 then Some(0x08)
    else None
  }

  /** One character as ensure_ascii prints it: at most twelve ASCII characters. */
  function Escape(c: Code): (t: Text)
    ensures 1 <= |t| <= 12
  {
    if ShortEscape(c).Some? then [BACKSLASH, ShortEscape(c).value]
    else if Plain(c) then [c]
    else if c < 0x10000 then Unit(c)
    else Unit(0xd800 + (c - 0x10000) / 1024) + Unit(0xdc00 + (c - 0x10000) % 1024)
  }

  function EscapeAll(s: Text): Text {
    if s == [] then [] else Escape(s[0]) + EscapeAll(s[1..])
  }

  function Quote(s: Text): Text {
    [QUOTE] + EscapeAll(s) + [QUOTE]
  }

  /** The characters of a JSON string up to its closing quote, and the text after it. */
  function ParseChars(t: Text): (r: Option<(Text, Text)>)
    ensures r.Some? ==> |r.value.1| < |t|
    decreases |t|
  {
    if t == [] then None
    else if t[0] == QUOTE then Some(([], t[1..]))
    else if t[0] < 0x20 then None
    else if t[0] != BACKSLASH then Prepend(t[0], ParseChars(t[1..]))
    else if |t| < 2 then None
    else if t[1] != LETTER_U then
      (if ShortMeaning(t[1]).None? then None
       else Prepend(ShortMeaning(t[1]).value, ParseChars(t[2..])))
    else
      var first := ParseHex4(t[2..]);
      if first.None? then None
      else if High(first.value) && |t| >= 8 && t[6] == BACKSLASH && t[7] == LETTER_U then
        var second := ParseHex4(t[8..]);
        if second.None? then None
        else if Low(second.value)
        then Prepend(Combine(first.value, second.value), ParseChars(t[12..]))
        else Prepend(first.value, ParseChars(t[6..]))
      else Prepend(first.value, ParseChars(t[6..]))
  }

  function Prepend(c: Code, r: Option<(Text, Text)>): Option<(Text, Text)> {
    if r.None? then None else Some(([c] + r.value.0, r.value.1))
  }

  /** A high surrogate immediately followed by a low one, as two separate characters. */
  predicate SplitPairAt(s: Text, i: int) {
    0 <= i < |s| - 1 && High(s[i]) && Low(s[i + 1])
  }

  ghost predicate NoSplitPair(s: Text) {
    forall i :: !SplitPairAt(s, i)
  }

  /** What printing and parsing makes of a string: its split surrogate pairs are joined. */
  function Joined(s: Text): Text {
    if s == [] then []
    else if SplitPairAt(s, 0) then [Combine(s[0], s[1])] + Joined(s[2..])
    else [s[0]] + Joined(s[1..])
  }

  lemma {:induction false} JoinedLength(s: Text)
    ensures |Joined(s)| <= |s|
    ensures NoSplitPair(s) ==> Joined(s) == s
    ensures !NoSplitPair(s) ==> |Joined(s)| < |s|
  {
    if s != [] {
      if SplitPairAt(s, 0) {
        JoinedLength(s[2..]);
      } else {
        JoinedLength(s[1..]);
        if NoSplitPair(s) {
          forall i ensures !SplitPairAt(s[1..], i) {
            assert !SplitPairAt(s, i + 1);
          }
        } else {
          var i :| SplitPairAt(s, i);
          assert SplitPairAt(s[1..], i - 1);
        }
      }
    }
  }

  lemma ParseUnit(n: int, rest: Text)
    requires 0 <= n < 0x10000
    ensures ParseHex4((Unit(n) + rest)[2..]) == Some(n)
    ensures (Unit(n) + rest)[6..] == rest
  {
    assert (Unit(n) + rest)[2..] == Hex4(n) + rest;
    HexRoundTrip(n, rest);
  }

  lemma ShortEscapes(c: Code)
    requires ShortEscape(c).Some?
    ensures ShortEscape(c).value != LETTER_U && ShortMeaning(ShortEscape(c).value) == Some(c)
  {
  }

  lemma ParseShort(c: Code, rest: Text)
    requires ShortEscape(c).Some?
    ensures ParseChars([BACKSLASH, ShortEscape(c).value] + rest) == Prepend(c, ParseChars(rest))
  {
    var letter := ShortEscape(c).value;
    ShortEscapes(c);
    hide ShortEscape, ShortMeaning, Prepend, Combine, ParseHex4;
    var t := [BACKSLASH, letter] + rest;
    assert t[0] == BACKSLASH && t[1] == letter && t[2..] == rest;
  }

  lemma ParsePlain(c: Code, rest: Text)
    requires Plain(c)
    ensures ParseChars([c] + rest) == Prepend(c, ParseChars(rest))
  {
    assert ([c] + rest)[1..] == rest;
    hide Prepend, Combine;
  }

  lemma SurrogatesOf(c: Code)
    requires c >= 0x10000
    ensures var hi, lo := 0xd800 + (c - 0x10000) / 1024, 0xdc00 + (c - 0x10000) % 1024;
      High(hi) && Low(lo) && Combine(hi, lo) == c
  {
  }

  /** One step of the parser at a unicode escape. */
  lemma ParseCharsAtUnit(n: int, rest: Text)
    requires 0 <= n < 0x10000
    ensures ParseChars(Unit(n) + rest) ==
      if High(n) && |rest| >= 2 && rest[0] == BACKSLASH && rest[1] == LETTER_U then
        var second := ParseHex4(rest[2..]);
        if second.None? then None
        else if Low(second.value) then Prepend(Combine(n, second.value), ParseChars(rest[6..]))
        else Prepend(n, ParseChars(rest))
      else Prepend(n, ParseChars(rest))
  {
    var t := Unit(n) + rest;
    ParseUnit(n, rest);
    hide Hex4, ParseHex4, Combine;
    assert t[0] == BACKSLASH && t[1] == LETTER_U && |t| == 6 + |rest|;
    if |rest| >= 2 {
      assert t[6] == rest[0] && t[7] == rest[1] && t[8..] == rest[2..];
      if |rest| >= 6 { assert t[12..] == rest[6..]; }
    }
  }

  lemma EscapedHigh(c: Code)
    requires High(c) || Low(c)
    ensures Escape(c) == Unit(c)
  {
  }

  lemma ParsePair(hi: Code, lo: Code, rest: Text)
    requires High(hi) && Low(lo)
    ensures ParseChars(Escape(hi) + (Escape(lo) + rest)) == Prepend(Combine(hi, lo), ParseChars(rest))
  {
    EscapedHigh(hi);
    EscapedHigh(lo);
    hide Escape, Hex4, ParseHex4, Combine, ParseChars;
    var after := Unit(lo) + rest;
    ParseCharsAtUnit(hi, after);
    ParseUnit(lo, rest);
    assert after[0] == BACKSLASH && after[1] == LETTER_U;
  }

  /** An escaped character that is not a high surrogate is read back as itself. */
  lemma ParseEscaped(c: Code, rest: Text)
    requires !High(c)
    ensures ParseChars(Escape(c) + rest) == Prepend(c, ParseChars(rest))
  {
    if ShortEscape(c).Some? {
      ParseShort(c, rest);
    } else if Plain(c) {
      ParsePlain(c, rest);
    } else if c < 0x10000 {
      ParseCharsAtUnit(c, rest);
    } else {
      SurrogatesOf(c);
      var hi, lo := 0xd800 + (c - 0x10000) / 1024, 0xdc00 + (c - 0x10000) % 1024;
      ParsePair(hi, lo, rest);
      EscapedHigh(hi);
      EscapedHigh(lo);
      hide ParseChars, Hex4, Combine;
      assert Escape(c) + rest == Unit(hi) + (Unit(lo) + rest);
    }
    hide ParseChars, Hex4, Combine, ParseHex4;
  }

  /** Whatever follows, the first escaped character never reads as a low surrogate unless it is one. */
  lemma FirstUnit(c: Code, tail: Text)
    requires !Low(c)
    ensures var t := Escape(c) + tail;
      |t| > 1 && t[0] == BACKSLASH && t[1] == LETTER_U ==>
        ParseHex4(t[2..]).Some? && !Low(ParseHex4(t[2..]).value)
  {
    var t := Escape(c) + tail;
    if ShortEscape(c).None? && !Plain(c) {
      if c < 0x10000 {
        ParseUnit(c, tail);
      } else {
        var hi, lo := 0xd800 + (c - 0x10000) / 1024, 0xdc00 + (c - 0x10000) % 1024;
        assert t == Unit(hi) + (Unit(lo) + tail);
        ParseUnit(hi, Unit(lo) + tail);
      }
    }
  }

  function Printed(s: Text, rest: Text): Text {
    EscapeAll(s) + [QUOTE] + rest
  }

  lemma PrintedStep(s: Text, rest: Text)
    requires s != []
    ensures Printed(s, rest) == Escape(s[0]) + Printed(s[1..], rest)
  {
    hide Escape;
    assert EscapeAll(s) == Escape(s[0]) + EscapeAll(s[1..]);
  }

  lemma ParseHighAlone(s: Text, rest: Text)
    requires s != [] && High(s[0]) && !SplitPairAt(s, 0)
    ensures ParseChars(Printed(s, rest)) == Prepend(s[0], ParseChars(Printed(s[1..], rest)))
  {
    PrintedStep(s, rest);
    EscapedHigh(s[0]);
    ParseCharsAtUnit(s[0], Printed(s[1..], rest));
    if |s| > 1 {
      PrintedStep(s[1..], rest);
      FirstUnit(s[1], Printed(s[1..][1..], rest));
    }
    hide Escape, Hex4, ParseHex4, Combine, ParseChars;
  }

  /** Any string printed and parsed comes back with its split surrogate pairs joined. */
  lemma {:induction false} StringRoundTrip(s: Text, rest: Text)
    ensures ParseChars(EscapeAll(s) + [QUOTE] + rest) == Some((Joined(s), rest))
  {
    hide Escape, Combine;
    assert EscapeAll(s) + [QUOTE] + rest == Printed(s, rest);
    if s == [] {
      assert Printed(s, rest)[1..] == rest;
    } else if SplitPairAt(s, 0) {
      assert s[1..][1..] == s[2..];
      PrintedStep(s, rest);
      PrintedStep(s[1..], rest);
      ParsePair(s[0], s[1], Printed(s[2..], rest));
      StringRoundTrip(s[2..], rest);
    } else {
      StringRoundTrip(s[1..], rest);
      PrintedStep(s, rest);
      if High(s[0]) {
        ParseHighAlone(s, rest);
      } else {
        ParseEscaped(s[0], Printed(s[1..], rest));
      }
    }
  }

  lemma {:induction false} EscapedLength(s: Text)
    ensures |EscapeAll(s)| <= 12 * |s|
  {
    if s != [] { EscapedLength(s[1..]); }
  }

  lemma {:induction false} PlainUnescaped(s: Text)
    requires forall c | c in s :: Plain(c)
    ensures EscapeAll(s) == s && NoSplitPair(s)
  {
    if s != [] {
      PlainUnescaped(s[1..]);
      assert s[0] in s && Escape(s[0]) == [s[0]];
    }
    forall i ensures !SplitPairAt(s, i) {
      assert 0 <= i < |s| ==> s[i] in s;
    }
  }

  // ---------------------------------------------------------------- numbers

  predicate IsDigit(c: Code) { 0x30 <= c <= 0x39 }

  function PrintNat(n: nat): (t: Text)
    ensures |t| > 0 && forall c | c in t :: IsDigit(c)
    ensures t[0] == 0x30 <==> n == 0
  {
    if n < 10 then [0x30 + n] else PrintNat(n / 10) + [0x30 + n % 10]
  }

  function Digits(t: Text): (d: Text)
    ensures |d| <= |t| && d == t[..|d|]
    ensures forall c | c in d :: IsDigit(c)
    ensures |d| < |t| ==> !IsDigit(t[|d|])
  {
    if t == [] || !IsDigit(t[0]) then [] else [t[0]] + Digits(t[1..])
  }

  function NatOf(d: Text): nat
    requires forall c | c in d :: IsDigit(c)
  {
    if d == [] then 0 else
      assert d[|d| - 1] in d && IsDigit(d[|d| - 1]);
      NatOf(d[..|d| - 1]) * 10 + (d[|d| - 1] as int - 0x30)
  }

  lemma {:induction false} NatRoundTrip(n: nat)
    ensures NatOf(PrintNat(n)) == n
  {
    if n >= 10 {
      NatRoundTrip(n / 10);
      assert PrintNat(n)[..|PrintNat(n)| - 1] == PrintNat(n / 10);
    }
  }

  lemma {:induction false} DigitsOf(d: Text, rest: Text)
    requires forall c | c in d :: IsDigit(c)
    requires rest != [] ==> !IsDigit(rest[0])
    ensures Digits(d + rest) == d
  {
    if d != [] {
      assert (d + rest)[1..] == d[1..] + rest;
      DigitsOf(d[1..], rest);
    } else {
      assert d + rest == rest;
    }
  }

  lemma {:induction false} PrintNatLength(n: nat, digits: nat, bound: nat)
    requires digits >= 1 && n < bound && bound == Power10(digits)
    ensures |PrintNat(n)| <= digits
  {
    if n >= 10 {
      PrintNatLength(n / 10, digits - 1, Power10(digits - 1));
    }
  }

  function Power10(k: nat): (p: nat)
    ensures p >= 1
  {
    if k == 0 then 1 else 10 * Power10(k - 1)
  }

  // ---------------------------------------------------------------- objects

  /** The kinds of value that can pass a header check; any other kind is refused as it is read. */
  datatype JValue = JString(s: Text) | JInt(n: nat) | JFloat(token: Text)

  type Members = seq<(Text, JValue)>

  predicate IsSpace(c: Code) { c == 0x20 || c == 0x09 || c == 0x0a || c == 0x0d }

  function SkipSpace(t: Text): (r: Text)
    ensures |r| <= |t|
  {
    if t != [] && IsSpace(t[0]) then SkipSpace(t[1..]) else t
  }

  /** The length of an optional fraction at the front of the text. */
  function Fraction(t: Text): (n: nat)
    ensures n <= |t|
  {
    if |t| > 1 && t[0] == 0x2e && IsDigit(t[1]) then 1 + |Digits(t[1..])| else 0
  }

  function Exponent(t: Text): (n: nat)
    ensures n <= |t|
  {
    if |t| > 1 && (t[0] == 0x65 || t[0] == 0x45) then
      (if IsDigit(t[1]) then 1 + |Digits(t[1..])|
       else if |t| > 2 && (t[1] == 0x2b || t[1] == 0x2d) && IsDigit(t[2]) then 2 + |Digits(t[2..])|
       else 0)
    else 0
  }

  function ParseNumber(t: Text): (r: Option<(JValue, Text)>)
    ensures r.Some? ==> |r.value.1| < |t|
  {
    var d := Digits(t);
    if d == [] then None else
    var whole := if d[0] == 0x30 then 1 else |d|;
    var fraction := Fraction(t[whole..]);
    var exponent := Exponent(t[whole + fraction..]);
    var end := whole + fraction + exponent;
    if fraction + exponent == 0 then
      assert forall c | c in t[..whole] :: IsDigit(c) by { assert t[..whole] == d[..whole]; }
      Some((JInt(NatOf(t[..whole])), t[end..]))
    else Some((JFloat(t[..end]), t[end..]))
  }

  function ParseValue(t: Text): (r: Option<(JValue, Text)>)
    ensures r.Some? ==> |r.value.1| < |t|
  {
    if t == [] then None
    else if t[0] == QUOTE then
      var s := ParseChars(t[1..]);
      if s.None? then None else Some((JString(s.value.0), s.value.1))
    else ParseNumber(t)
  }

  /** Members after the opening brace or a comma, up to and including the closing brace. */
  function ParseMembers(t: Text): (r: Option<(Members, Text)>)
    decreases |t|
  {
    if t == [] || t[0] != QUOTE then None else
    var key := ParseChars(t[1..]);
    if key.None? then None else
    var afterKey := SkipSpace(key.value.1);
    if afterKey == [] || afterKey[0] != COLON then None else
    var value := ParseValue(SkipSpace(afterKey[1..]));
    if value.None? then None else
    var afterValue := SkipSpace(value.value.1);
    if afterValue == [] then None
    else if afterValue[0] == CLOSE then Some(([(key.value.0, value.value.0)], afterValue[1..]))
    else if afterValue[0] != COMMA then None
    else
      var more := ParseMembers(SkipSpace(afterValue[1..]));
      if more.None? then None
      else Some(([(key.value.0, value.value.0)] + more.value.0, more.value.1))
  }

  /** json.loads of a document that is one object. */
  function ParseObject(t: Text): Option<Members> {
    var start := SkipSpace(t);
    if start == [] || start[0] != OPEN then None else
    var inside := SkipSpace(start[1..]);
    if inside != [] && inside[0] == CLOSE then
      (if SkipSpace(inside[1..]) == [] then Some([]) else None)
    else
      var members := ParseMembers(inside);
      if members.None? || SkipSpace(members.value.1) != [] then None else Some(members.value.0)
  }

  const SIXTEEN_FLOAT: Text := [0x31, 0x36, 0x2e, 0x30]

  /** A float reaches the printer only as the tag size, where it is equal to 16 and prints 16.0. */
  function PrintValue(v: JValue): Text {
    match v
    case JString(s) => Quote(s)
    case JInt(n) => PrintNat(n)
    case JFloat(_) => SIXTEEN_FLOAT
  }

  function PrintMember(m: (Text, JValue)): Text {
    Quote(m.0) + [COLON] + PrintValue(m.1)
  }

  function PrintMembers(ms: Members): Text
    requires ms != []
  {
    if |ms| == 1 then PrintMember(ms[0]) else PrintMember(ms[0]) + [COMMA] + PrintMembers(ms[1..])
  }

  function PrintObject(ms: Members): Text
    requires ms != []
  {
    [OPEN] + PrintMembers(ms) + [CLOSE]
  }

  function JoinedValue(v: JValue): JValue {
    match v
    case JString(s) => JString(Joined(s))
    case JInt(n) => v
    case JFloat(_) => JFloat(SIXTEEN_FLOAT)
  }

  function JoinedMembers(ms: Members): Members {
    seq(|ms|, i requires 0 <= i < |ms| => (Joined(ms[i].0), JoinedValue(ms[i].1)))
  }

  predicate EndsValue(rest: Text) {
    rest != [] && (rest[0] == COMMA || rest[0] == CLOSE)
  }

  lemma NumberRoundTrip(n: nat, rest: Text)
    requires EndsValue(rest)
    ensures ParseNumber(PrintNat(n) + rest) == Some((JInt(n), rest))
  {
    var d := PrintNat(n);
    DigitsOf(d, rest);
    NatRoundTrip(n);
    assert |d| > 1 ==> n >= 10;
    assert (d + rest)[|d|..] == rest && (d + rest)[..|d|] == d;
  }

  lemma FloatRoundTrip(rest: Text)
    requires EndsValue(rest)
    ensures ParseNumber(SIXTEEN_FLOAT + rest) == Some((JFloat(SIXTEEN_FLOAT), rest))
  {
    var t := SIXTEEN_FLOAT + rest;
    assert t[..2] == [0x31, 0x36] && t[2..] == [0x2e, 0x30] + rest && t[3..] == [0x30] + rest;
    DigitsOf([0x31, 0x36], t[2..]);
    assert [0x31, 0x36] + t[2..] == t;
    DigitsOf([0x30], rest);
    assert t[2..][1..] == [0x30] + rest;
    assert t[4..] == rest && t[..4] == SIXTEEN_FLOAT;
  }

  lemma ValueRoundTrip(v: JValue, rest: Text)
    requires EndsValue(rest)
    ensures ParseValue(PrintValue(v) + rest) == Some((JoinedValue(v), rest))
    ensures PrintValue(v) != [] && !IsSpace(PrintValue(v)[0])
  {
    hide ParseChars, ParseNumber, EscapeAll, Joined, PrintNat;
    match v
    case JString(s) =>
      assert (Quote(s) + rest)[1..] == EscapeAll(s) + [QUOTE] + rest;
      StringRoundTrip(s, rest);
    case JInt(n) =>
      NumberRoundTrip(n, rest);
      assert PrintNat(n)[0] in PrintNat(n) && IsDigit(PrintNat(n)[0]);
    case JFloat(_) => FloatRoundTrip(rest);
  }

  /** One printed member, and what the parser sees after it. */
  lemma MemberRoundTrip(m: (Text, JValue), after: Text)
    requires EndsValue(after)
    ensures var t := PrintMember(m) + after;
      var key := ParseChars(t[1..]);
      && t[0] == QUOTE
      && key.Some? && key.value.0 == Joined(m.0)
      && key.value.1 == [COLON] + PrintValue(m.1) + after
      && SkipSpace(key.value.1) == key.value.1
      && SkipSpace(key.value.1[1..]) == PrintValue(m.1) + after
      && ParseValue(PrintValue(m.1) + after) == Some((JoinedValue(m.1), after))
      && SkipSpace(after) == after
  {
    var t := PrintMember(m) + after;
    var value := [COLON] + PrintValue(m.1) + after;
    hide EscapeAll, ParseChars, ParseValue, PrintValue;
    assert t[1..] == EscapeAll(m.0) + [QUOTE] + value;
    StringRoundTrip(m.0, value);
    ValueRoundTrip(m.1, after);
    assert value[1..] == PrintValue(m.1) + after;
  }

  /** One step of the member parser. */
  lemma ParseMembersAt(t: Text)
    requires t != [] && t[0] == QUOTE && ParseChars(t[1..]).Some?
    requires var afterKey := SkipSpace(ParseChars(t[1..]).value.1);
      afterKey != [] && afterKey[0] == COLON && ParseValue(SkipSpace(afterKey[1..])).Some?
    ensures var key := ParseChars(t[1..]).value;
      var value := ParseValue(SkipSpace(SkipSpace(key.1)[1..])).value;
      var after := SkipSpace(value.1);
      ParseMembers(t) ==
        if after == [] then None
        else if after[0] == CLOSE then Some(([(key.0, value.0)], after[1..]))
        else if after[0] != COMMA then None
        else
          var more := ParseMembers(SkipSpace(after[1..]));
          if more.None? then None else Some(([(key.0, value.0)] + more.value.0, more.value.1))
  {
    hide ParseChars, ParseValue, SkipSpace;
  }

  lemma LastMember(m: (Text, JValue), rest: Text)
    ensures ParseMembers(PrintMember(m) + [CLOSE] + rest) == Some(([(Joined(m.0), JoinedValue(m.1))], rest))
  {
    var after := [CLOSE] + rest;
    hide PrintMember, ParseChars, ParseValue, PrintValue, SkipSpace, Joined, JoinedValue;
    assert PrintMember(m) + [CLOSE] + rest == PrintMember(m) + after;
    MemberRoundTrip(m, after);
    assert after[1..] == rest;
    ParseMembersAt(PrintMember(m) + after);
  }

  lemma NextMember(m: (Text, JValue), more: Text)
    requires more != [] && more[0] == QUOTE
    ensures ParseMembers(PrintMember(m) + [COMMA] + more) ==
      var parsed := ParseMembers(more);
      if parsed.None? then None else Some(([(Joined(m.0), JoinedValue(m.1))] + parsed.value.0, parsed.value.1))
  {
    var after := [COMMA] + more;
    NotSpace(more);
    hide PrintMember, ParseChars, ParseValue, PrintValue, SkipSpace, Joined, JoinedValue;
    assert PrintMember(m) + [COMMA] + more == PrintMember(m) + after;
    MemberRoundTrip(m, after);
    assert after[1..] == more;
    ParseMembersAt(PrintMember(m) + after);
  }

  /** Printed members parse back to themselves, with split surrogate pairs joined. */
  lemma {:induction false} MembersRoundTrip(ms: Members, rest: Text)
    requires ms != []
    ensures ParseMembers(PrintMembers(ms) + [CLOSE] + rest) == Some((JoinedMembers(ms), rest))
    ensures PrintMembers(ms)[0] == QUOTE
  {
    hide ParseMembers, Joined, JoinedValue, EscapeAll, PrintValue;
    var m := ms[0];
    JoinedSplit(ms);
    if |ms| == 1 {
      LastMember(m, rest);
    } else {
      MembersRoundTrip(ms[1..], rest);
      var more := PrintMembers(ms[1..]) + [CLOSE] + rest;
      NextMember(m, more);
      assert PrintMembers(ms) + [CLOSE] + rest == PrintMember(m) + [COMMA] + more;
    }
  }

  lemma JoinedSplit(ms: Members)
    requires ms != []
    ensures JoinedMembers(ms) == [(Joined(ms[0].0), JoinedValue(ms[0].1))] + JoinedMembers(ms[1..])
    ensures |ms| == 1 ==> JoinedMembers(ms) == [(Joined(ms[0].0), JoinedValue(ms[0].1))]
  {
    hide Joined, JoinedValue;
  }

  lemma ObjectRoundTrip(ms: Members)
    requires ms != []
    ensures ParseObject(PrintObject(ms)) == Some(JoinedMembers(ms))
  {
    MembersRoundTrip(ms, []);
    hide PrintMembers, ParseMembers, JoinedMembers;
    var t := PrintObject(ms);
    var inside := PrintMembers(ms) + [CLOSE] + [];
    assert t[1..] == inside && inside[0] == QUOTE;
    NotSpace(t);
    NotSpace(inside);
    hide SkipSpace;
    assert SkipSpace([]) == [] by { NoText(); }
  }

  lemma NotSpace(t: Text)
    requires t != [] && !IsSpace(t[0])
    ensures SkipSpace(t) == t
  {
  }

  lemma NoText()
    ensures SkipSpace([]) == []
  {
  }
}
