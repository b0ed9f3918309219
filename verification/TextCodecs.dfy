/** The text layers under a stable message id: JSON strings over UTF-16, UTF-8 (RFC 3629),
    and unpadded base64url (section 5 of RFC 4648). */
module TextCodecs {
  import opened MailTypes

  /** One UTF-16 code unit, as JavaScript strings hold them. */
  type Unit = u: int | 0 <= u < 0x10000

  type Octet = b: int | 0 <= b < 256

  type Sextet = v: int | 0 <= v < 64

  type Text = seq<Unit>

  predicate High(u: Unit) { 0xD800 <= u < 0xDC00 }

  predicate Low(u: Unit) { 0xDC00 <= u < 0xE000 }

  predicate Paired(t: Text) {
    |t| >= 2 && High(t[0]) && Low(t[1])
  }

  /** No surrogate stands alone. */
  predicate WellFormed(t: Text) {
    if t == [] then true
    else if Paired(t) then WellFormed(t[2..])
    else !High(t[0]) && !Low(t[0]) && WellFormed(t[1..])
  }

  lemma {:induction false} WellFormedConcat(a: Text, b: Text)
    requires WellFormed(a) && WellFormed(b)
    ensures WellFormed(a + b)
    decreases |a|
  {
    if a == [] {
      assert a + b == b;
    } else {
      var n := if Paired(a) then 2 else 1;
      assert (a + b)[n..] == a[n..] + b;
      WellFormedConcat(a[n..], b);
    }
  }

  // ----- base64url -----

  function Pack(bytes: seq<Octet>): seq<Sextet> {
    if bytes == [] then []
    else if |bytes| == 1 then [bytes[0] / 4, bytes[0] % 4 * 16]
    else if |bytes| == 2 then [bytes[0] / 4, bytes[0] % 4 * 16 + bytes[1] / 16, bytes[1] % 16 * 4]
    else
      [bytes[0] / 4, bytes[0] % 4 * 16 + bytes[1] / 16, bytes[1] % 16 * 4 + bytes[2] / 64, bytes[2] % 64]
      + Pack(bytes[3..])
  }

  function Octet0(a: Sextet, b: Sextet): Octet {
    a as int * 4 + b as int / 16
  }

  function Octet1(b: Sextet, c: Sextet): Octet {
    b as int % 16 * 16 + c as int / 4
  }

  function Octet2(c: Sextet, d: Sextet): Octet {
    c as int % 4 * 64 + d as int
  }

  /** Lenient, like the original: unused bits of the last group and a single left-over symbol are ignored. */
  function Unpack(s: seq<Sextet>): seq<Octet> {
    if |s| <= 1 then []
    else if |s| == 2 then [Octet0(s[0], s[1])]
    else if |s| == 3 then [Octet0(s[0], s[1]), Octet1(s[1], s[2])]
    else [Octet0(s[0], s[1]), Octet1(s[1], s[2]), Octet2(s[2], s[3])] + Unpack(s[4..])
  }

  lemma GroupRoundTrip(a: Octet, b: Octet, c: Octet)
    ensures Octet0(a / 4, a % 4 * 16 + b / 16) == a
    ensures Octet1(a % 4 * 16 + b / 16, b % 16 * 4 + c / 64) == b
    ensures Octet2(b % 16 * 4 + c / 64, c % 64) == c
  {
  }

  lemma {:induction false} UnpackPack(bytes: seq<Octet>)
    ensures Unpack(Pack(bytes)) == bytes
  {
    if bytes == [] {
    } else if |bytes| == 1 {
      GroupRoundTrip(bytes[0], 0, 0);
    } else if |bytes| == 2 {
      GroupRoundTrip(bytes[0], bytes[1], 0);
    } else {
      GroupRoundTrip(bytes[0], bytes[1], bytes[2]);
      assert Pack(bytes)[4..] == Pack(bytes[3..]);
      UnpackPack(bytes[3..]);
      assert bytes == [bytes[0], bytes[1], bytes[2]] + bytes[3..];
    }
  }

  function Symbol(v: Sextet): char {
    if v < 26 then 'A' + v as char
    else if v < 52 then 'a' + (v - 26) as char
    else if v < 62 then '0' + (v - 52) as char
    else if v == 62 then '-'
    else '_'
  }

  predicate IsSymbol(c: char) {
    'A' <= c <= 'Z' || 'a' <= c <= 'z' || '0' <= c <= '9' || c == '-' || c == '_'
  }

  function ValueOf(c: char): Sextet
    requires IsSymbol(c)
  {
    if 'A' <= c <= 'Z' then (c - 'A') as int
    else if 'a' <= c <= 'z' then (c - 'a') as int + 26
    else if '0' <= c <= '9' then (c - '0') as int + 52
    else if c == '-' then 62
    else 63
  }

  function ToBase64Url(bytes: seq<Octet>): (s: string)
    ensures forall c <- s :: IsSymbol(c)
  {
    var sextets := Pack(bytes);
    seq(|sextets|, i requires 0 <= i < |sextets| => Symbol(sextets[i]))
  }

  function FromBase64Url(s: string): seq<Octet>
    requires forall c <- s :: IsSymbol(c)
  {
    Unpack(seq(|s|, i requires 0 <= i < |s| => ValueOf(s[i])))
  }

  lemma Base64UrlRoundTrip(bytes: seq<Octet>)
    ensures FromBase64Url(ToBase64Url(bytes)) == bytes
  {
    var s := ToBase64Url(bytes);
    assert seq(|s|, i requires 0 <= i < |s| => ValueOf(s[i])) == Pack(bytes);
    UnpackPack(bytes);
  }

  lemma PackTwice(a: seq<Octet>, b: seq<Octet>)
    requires |a| == 3
    ensures ToBase64Url(a + b) == ToBase64Url(a) + ToBase64Url(b)
  {
    assert (a + b)[3..] == b && a[3..] == [];
    assert Pack(a + b) == Pack(a) + Pack(b);
  }

  /** The test vectors of section 10 of RFC 4648, and the two symbols in which base64url differs. */
  lemma Base64Vectors()
    ensures ToBase64Url([]) == "" && ToBase64Url([102]) == "Zg" && ToBase64Url([102, 111]) == "Zm8"
    ensures ToBase64Url([102, 111, 111]) == "Zm9v" && ToBase64Url([251, 255, 191]) == "-_-_"
  {
  }

  lemma LongerBase64Vector()
    ensures ToBase64Url([102, 111, 111] + [98, 97]) == "Zm9vYmE"
  {
    Base64Vectors();
    PackTwice([102, 111, 111], [98, 97]);
    assert ToBase64Url([98, 97]) == "YmE";
  }

  // ----- UTF-8 -----

  /** The bytes of the character that starts `t`; a lone surrogate becomes U+FFFD. */
  function Utf8Head(t: Text): seq<Octet>
    requires t != []
  {
    var u: int := t[0];
    if u < 0x80 then [u]
    else if u < 0x800 then [0xC0 + u / 64, 0x80 + u % 64]
    else if Paired(t) then
      var cp := 0x10000 + (u - 0xD800) * 0x400 + (t[1] - 0xDC00);
      [0xF0 + cp / 0x40000, 0x80 + cp / 0x1000 % 64, 0x80 + cp / 64 % 64, 0x80 + cp % 64]
    else if High(u) || Low(u) then [0xEF, 0xBF, 0xBD]
    else [0xE0 + u / 0x1000, 0x80 + u / 64 % 64, 0x80 + u % 64]
  }

  function Utf8(t: Text): seq<Octet> {
    if t == [] then []
    else Utf8Head(t) + Utf8(t[if Paired(t) then 2 else 1..])
  }

  function HeadLength(b: Octet): nat {
    if b < 0x80 then 1
    else if 0xC0 <= b < 0xE0 then 2
    else if 0xE0 <= b < 0xF0 then 3
    else if 0xF0 <= b < 0xF8 then 4
    else 0
  }

  /** Six more bits of a code point. */
  function More(lead: int, b: Octet): int {
    lead * 64 + (b as int - 0x80)
  }

  function OneUnit(cp: Unit): Text {
    [cp]
  }

  /** The character whose bytes are `s`, or None where they are not one well-formed character. */
  function Utf8Char(s: seq<Octet>): Option<Text>
    requires s != [] && |s| == HeadLength(s[0])
  {
    if exists i :: 1 <= i < |s| && !(0x80 <= s[i] < 0xC0) then None
    else if |s| == 1 then Some(OneUnit(s[0]))
    else if |s| == 2 then
      var cp := More(s[0] as int - 0xC0, s[1]);
      if cp < 0x80 then None else Some(OneUnit(cp))
    else if |s| == 3 then
      var cp := More(More(s[0] as int - 0xE0, s[1]), s[2]);
      if cp < 0x800 || 0xD800 <= cp < 0xE000 then None else Some(OneUnit(cp))
    else
      var cp := More(More(More(s[0] as int - 0xF0, s[1]), s[2]), s[3]);
      if cp < 0x10000 || 0x110000 <= cp then None
      else Some(OneUnit(0xD800 + (cp - 0x10000) / 0x400) + OneUnit(0xDC00 + (cp - 0x10000) % 0x400))
  }

  /** Decodes well-formed UTF-8; None for any other byte sequence. */
  function FromUtf8(s: seq<Octet>): Option<Text> {
    if s == [] then Some([])
    else
      var n := HeadLength(s[0]);
      if n == 0 || |s| < n then None
      else
        var head, rest := Utf8Char(s[..n]), FromUtf8(s[n..]);
        if head.None? || rest.None? then None else Some(head.value + rest.value)
  }

  lemma SixBitGroups(cp: nat)
    ensures More(cp / 64, 0x80 + cp % 64) == cp
    ensures cp / 0x1000 == cp / 64 / 64 && cp / 0x40000 == cp / 64 / 64 / 64
  {
  }

  lemma SurrogatesRoundTrip(hi: Unit, lo: Unit)
    requires High(hi) && Low(lo)
    ensures var cp := 0x10000 + (hi - 0xD800) * 0x400 + (lo - 0xDC00);
            && 0x10000 <= cp < 0x110000
            && 0xD800 + (cp - 0x10000) / 0x400 == hi && 0xDC00 + (cp - 0x10000) % 0x400 == lo
  {
  }

  lemma PairRoundTrip(t: Text)
    requires Paired(t)
    ensures |Utf8Head(t)| == HeadLength(Utf8Head(t)[0]) && Utf8Char(Utf8Head(t)) == Some(t[..2])
  {
    var cp := 0x10000 + (t[0] as int - 0xD800) * 0x400 + (t[1] as int - 0xDC00);
    SurrogatesRoundTrip(t[0], t[1]);
    SixBitGroups(cp);
    SixBitGroups(cp / 64);
    SixBitGroups(cp / 64 / 64);
    var s := Utf8Head(t);
    assert More(More(s[0] as int - 0xF0, s[1]), s[2]) == cp / 64;
    assert More(cp / 64, s[3]) == cp;
    assert t[..2] == OneUnit(t[0]) + OneUnit(t[1]);
  }

  lemma HeadRoundTrip(t: Text)
    requires t != [] && WellFormed(t)
    ensures |Utf8Head(t)| == HeadLength(Utf8Head(t)[0])
    ensures Utf8Char(Utf8Head(t)) == Some(t[..if Paired(t) then 2 else 1])
  {
    if Paired(t) {
      PairRoundTrip(t);
    } else {
      SixBitGroups(t[0]);
      SixBitGroups(t[0] / 64);
      assert t[..1] == OneUnit(t[0]);
    }
  }

  lemma {:induction false} Utf8RoundTrip(t: Text)
    requires WellFormed(t)
    ensures FromUtf8(Utf8(t)) == Some(t)
  {
    if t != [] {
      var n := if Paired(t) then 2 else 1;
      HeadRoundTrip(t);
      Utf8RoundTrip(t[n..]);
      var head := Utf8Head(t);
      assert Utf8(t)[..|head|] == head && Utf8(t)[|head|..] == Utf8(t[n..]);
      assert t == t[..n] + t[n..];
    }
  }

  /** The examples of section 7 of RFC 3629: one character of each length. */
  lemma Utf8Vectors()
    ensures Utf8Head([0x41]) == [0x41] && Utf8Head([0x391]) == [0xCE, 0x91]
    ensures Utf8Head([0x2262]) == [0xE2, 0x89, 0xA2] && Utf8Head([0xD84C, 0xDFB4]) == [0xF0, 0xA3, 0x8E, 0xB4]
  {
  }

  // ----- only UTF-8 is decoded -----

  lemma TwoBytes(a: Octet, b: Octet)
    requires 0xC0 <= a < 0xE0 && 0x80 <= b < 0xC0 && More(a as int - 0xC0, b) >= 0x80
    ensures Utf8Head([More(a as int - 0xC0, b)]) == [a, b]
  {
  }

  lemma ThreeBytes(a: Octet, b: Octet, c: Octet)
    requires 0xE0 <= a < 0xF0 && 0x80 <= b < 0xC0 && 0x80 <= c < 0xC0
    requires var cp := More(More(a as int - 0xE0, b), c); cp >= 0x800 && !(0xD800 <= cp < 0xE000)
    ensures Utf8Head([More(More(a as int - 0xE0, b), c)]) == [a, b, c]
  {
  }

  lemma SixBits(lead: nat, low: nat)
    requires low < 64
    ensures (lead * 64 + low) / 64 == lead && (lead * 64 + low) % 64 == low
  {
  }

  lemma FourGroups(x: nat, y: nat, z: nat, w: nat)
    requires y < 64 && z < 64 && w < 64
    ensures var cp := ((x * 64 + y) * 64 + z) * 64 + w;
            cp / 0x40000 == x && cp / 0x1000 % 64 == y && cp / 64 % 64 == z && cp % 64 == w
  {
    var cp := ((x * 64 + y) * 64 + z) * 64 + w;
    SixBits((x * 64 + y) * 64 + z, w);
    SixBits(x * 64 + y, z);
    SixBits(x, y);
    SixBitGroups(cp);
  }

  lemma Surrogates(cp: nat)
    requires 0x10000 <= cp < 0x110000
    ensures var hi, lo := 0xD800 + (cp - 0x10000) / 0x400, 0xDC00 + (cp - 0x10000) % 0x400;
            && 0xD800 <= hi < 0xDC00 && 0xDC00 <= lo < 0xE000
            && 0x10000 + (hi - 0xD800) * 0x400 + (lo - 0xDC00) == cp
  {
  }

  lemma PairHead(t: Text, cp: nat)
    requires Paired(t) && cp == 0x10000 + (t[0] as int - 0xD800) * 0x400 + (t[1] as int - 0xDC00)
    ensures Utf8Head(t) == [0xF0 + cp / 0x40000, 0x80 + cp / 0x1000 % 64, 0x80 + cp / 64 % 64, 0x80 + cp % 64]
  {
  }

  lemma FourBytes(a: Octet, b: Octet, c: Octet, d: Octet, cp: nat)
    requires 0xF0 <= a < 0xF8 && 0x80 <= b < 0xC0 && 0x80 <= c < 0xC0 && 0x80 <= d < 0xC0
    requires cp == More(More(More(a as int - 0xF0, b), c), d) && 0x10000 <= cp < 0x110000
    ensures var t: Text := [0xD800 + (cp - 0x10000) / 0x400, 0xDC00 + (cp - 0x10000) % 0x400];
            Paired(t) && Utf8Head(t) == [a, b, c, d]
  {
    FourGroups(a - 0xF0, b - 0x80, c - 0x80, d - 0x80);
    Surrogates(cp);
    PairHead([0xD800 + (cp - 0x10000) / 0x400, 0xDC00 + (cp - 0x10000) % 0x400], cp);
  }

  /** One character: two surrogates that belong together, or one unit that is none. */
  predicate OneCharacter(t: Text) {
    t != [] && if Paired(t) then |t| == 2 else |t| == 1 && !High(t[0]) && !Low(t[0])
  }

  /** What is read as one character is what that character is written as. */
  lemma CharIsExact(s: seq<Octet>)
    requires s != [] && |s| == HeadLength(s[0]) && Utf8Char(s).Some?
    ensures var t := Utf8Char(s).value;
            OneCharacter(t) && Utf8Head(t) == s
  {
    assert forall i | 1 <= i < |s| :: 0x80 <= s[i] < 0xC0;
    if |s| == 2 {
      TwoBytes(s[0], s[1]);
      assert s == [s[0], s[1]];
    } else if |s| == 3 {
      ThreeBytes(s[0], s[1], s[2]);
      assert s == [s[0], s[1], s[2]];
    } else if |s| == 4 {
      FourBytes(s[0], s[1], s[2], s[3], More(More(More(s[0] as int - 0xF0, s[1]), s[2]), s[3]));
      assert s == [s[0], s[1], s[2], s[3]];
    }
  }

  lemma DecodeStep(s: seq<Octet>)
    requires s != [] && FromUtf8(s).Some?
    ensures var n := HeadLength(s[0]);
            && 0 < n <= |s| && Utf8Char(s[..n]).Some? && FromUtf8(s[n..]).Some?
            && FromUtf8(s).value == Utf8Char(s[..n]).value + FromUtf8(s[n..]).value
  {
  }

  /** The converse of the round trip: whatever decodes is the encoding of a well-formed text, and no other bytes do. */
  lemma {:induction false} OnlyUtf8Decodes(s: seq<Octet>)
    requires FromUtf8(s).Some?
    ensures WellFormed(FromUtf8(s).value) && Utf8(FromUtf8(s).value) == s
  {
    if s != [] {
      DecodeStep(s);
      var n := HeadLength(s[0]);
      var head, rest := Utf8Char(s[..n]).value, FromUtf8(s[n..]).value;
      assert OneCharacter(head) && Utf8Head(head) == s[..n] by {
        CharIsExact(s[..n]);
      }
      assert WellFormed(rest) && Utf8(rest) == s[n..] by {
        OnlyUtf8Decodes(s[n..]);
      }
      Glue(s, n, head, rest);
    }
  }

  lemma Glue(s: seq<Octet>, n: nat, head: Text, rest: Text)
    requires n <= |s| && OneCharacter(head) && Utf8Head(head) == s[..n] && WellFormed(rest) && Utf8(rest) == s[n..]
    ensures WellFormed(head + rest) && Utf8(head + rest) == s
  {
    HeadThenRest(head, rest);
    assert s == s[..n] + s[n..];
  }

  lemma HeadThenRest(head: Text, rest: Text)
    requires OneCharacter(head) && WellFormed(rest)
    ensures WellFormed(head + rest) && Utf8(head + rest) == Utf8Head(head) + Utf8(rest)
  {
    var t := head + rest;
    assert t[0] == head[0] && t[|head|..] == rest;
    assert Paired(t) <==> Paired(head);
    assert Utf8Head(t) == Utf8Head(head);
  }
}
