/** The signed, stable message identifier: a JSON locator in base64url, followed by its authentication code. */
module StableId {
  import opened MailTypes
  import opened TextCodecs

  // ----- decimal numbers -----

  predicate IsDigit(u: Unit) { 48 <= u <= 57 }

  predicate AllDigits(t: Text) {
    forall i :: 0 <= i < |t| ==> IsDigit(t[i])
  }

  function Digits(n: nat): (t: Text)
    ensures t != [] && AllDigits(t)
  {
    if n < 10 then [48 + n] else Digits(n / 10) + [48 + n % 10]
  }

  function Number(t: Text): nat
    requires AllDigits(t)
  {
    if t == [] then 0 else Number(t[..|t| - 1]) * 10 + (t[|t| - 1] as int - 48)
  }

  lemma {:induction false} NumberOfDigits(n: nat)
    ensures Number(Digits(n)) == n
  {
    var t := Digits(n);
    if n < 10 {
      assert Number(t[..0]) == 0;
    } else {
      NumberOfDigits(n / 10);
      assert t[..|t| - 1] == Digits(n / 10);
    }
  }

  const MINUS: Unit := 45

  function Decimal(n: int): Text {
    if n < 0 then [MINUS] + Digits(-n) else Digits(n)
  }

  function DigitRun(t: Text): (n: nat)
    ensures n <= |t| && AllDigits(t[..n])
  {
    if t == [] || !IsDigit(t[0]) then 0 else 1 + DigitRun(t[1..])
  }

  lemma {:induction false} DigitRunIs(t: Text, rest: Text)
    requires AllDigits(t) && (rest == [] || !IsDigit(rest[0]))
    ensures DigitRun(t + rest) == |t|
  {
    if t == [] {
      assert t + rest == rest;
    } else {
      assert (t + rest)[1..] == t[1..] + rest;
      DigitRunIs(t[1..], rest);
    }
  }

  /** A decimal number without a sign at the start of `t`, and what follows it. */
  function ParseNat(t: Text): Option<(int, Text)> {
    var n := DigitRun(t);
    if n == 0 || (n > 1 && t[0] == 48) then None else Some((Number(t[..n]), t[n..]))
  }

  function ParseInt(t: Text): Option<(int, Text)> {
    if t == [] || t[0] != MINUS then ParseNat(t)
    else
      var r := ParseNat(t[1..]);
      if r.None? then None else Some((-r.value.0, r.value.1))
  }

  lemma {:induction false} NoLeadingZero(n: nat)
    requires n > 0
    ensures Digits(n)[0] != 48
  {
    if n >= 10 {
      NoLeadingZero(n / 10);
    }
  }

  lemma ParseDigits(n: nat, rest: Text)
    requires rest == [] || !IsDigit(rest[0])
    ensures ParseNat(Digits(n) + rest) == Some((n, rest))
  {
    var body := Digits(n) + rest;
    DigitRunIs(Digits(n), rest);
    NumberOfDigits(n);
    if n > 0 {
      NoLeadingZero(n);
    }
    assert body[..|Digits(n)|] == Digits(n) && body[|Digits(n)|..] == rest;
  }

  lemma ParseSigned(n: nat, rest: Text)
    requires rest == [] || !IsDigit(rest[0])
    ensures ParseInt([MINUS] + Digits(n) + rest) == Some((-(n as int), rest))
    ensures ParseInt(Digits(n) + rest) == Some((n, rest))
  {
    var t := [MINUS] + Digits(n) + rest;
    assert t[1..] == Digits(n) + rest;
    ParseDigits(n, rest);
    assert IsDigit(Digits(n)[0]) && (Digits(n) + rest)[0] == Digits(n)[0];
  }

  lemma ParseDecimal(n: int, rest: Text)
    requires rest == [] || !IsDigit(rest[0])
    ensures ParseInt(Decimal(n) + rest) == Some((n, rest))
  {
    ParseSigned(if n < 0 then -n else n, rest);
  }

  // ----- JSON strings -----

  const QUOTE: Unit := 34
  const BACKSLASH: Unit := 92
  const LOWER_U: Unit := 117

  function HexDigit(v: int): Unit
    requires 0 <= v < 16
  {
    if v < 10 then 48 + v else 87 + v
  }

  function HexValue(u: Unit): Option<int> {
    if IsDigit(u) then Some(u - 48)
    else if 97 <= u <= 102 then Some(u - 87)
    else if 65 <= u <= 70 then Some(u - 55)
    else None
  }

  function Escaped(u: Unit): Text {
    [BACKSLASH, LOWER_U, HexDigit(u / 0x1000), HexDigit(u / 0x100 % 16), HexDigit(u / 16 % 16), HexDigit(u % 16)]
  }

  function Hex4(a: Unit, b: Unit, c: Unit, d: Unit): Option<Unit> {
    if HexValue(a).None? || HexValue(b).None? || HexValue(c).None? || HexValue(d).None? then None
    else Some(HexValue(a).value * 0x1000 + HexValue(b).value * 0x100 + HexValue(c).value * 16 + HexValue(d).value)
  }

  /** The letter after the backslash in a two-character escape. */
  function ShortEscape(u: Unit): Option<Unit> {
    if u == QUOTE || u == BACKSLASH then Some(u)
    else if u == 8 then Some(98)
    else if u == 9 then Some(116)
    else if u == 10 then Some(110)
    else if u == 12 then Some(102)
    else if u == 13 then Some(114)
    else None
  }

  function Unescape(letter: Unit): Option<Unit> {
    if letter == QUOTE || letter == BACKSLASH || letter == 47 then Some(letter)
    else if letter == 98 then Some(8)
    else if letter == 116 then Some(9)
    else if letter == 110 then Some(10)
    else if letter == 102 then Some(12)
    else if letter == 114 then Some(13)
    else None
  }

  /** How one unit outside a surrogate pair is written. */
  function EscapeUnit(u: Unit): Text {
    if ShortEscape(u).Some? then [BACKSLASH, ShortEscape(u).value]
    else if u < 0x20 || High(u) || Low(u) then Escaped(u)
    else [u]
  }

  function Escape(t: Text): Text {
    if t == [] then []
    else if Paired(t) then t[..2] + Escape(t[2..])
    else EscapeUnit(t[0]) + Escape(t[1..])
  }

  function Prepend(u: Unit, r: Option<(Text, Text)>): Option<(Text, Text)> {
    if r.None? then None else Some(([u] + r.value.0, r.value.1))
  }

  /** The rest of a string literal, up to its closing quote, and what follows it. */
  function ParseBody(t: Text): Option<(Text, Text)> {
    if t == [] || t[0] < 0x20 then None
    else if t[0] == QUOTE then Some(([], t[1..]))
    else if t[0] != BACKSLASH then Prepend(t[0], ParseBody(t[1..]))
    else if |t| >= 6 && t[1] == LOWER_U then
      var u := Hex4(t[2], t[3], t[4], t[5]);
      if u.None? then None else Prepend(u.value, ParseBody(t[6..]))
    else if |t| >= 2 && Unescape(t[1]).Some? then Prepend(Unescape(t[1]).value, ParseBody(t[2..]))
    else None
  }

  lemma HexRoundTrip(u: Unit)
    ensures Hex4(HexDigit(u / 0x1000), HexDigit(u / 0x100 % 16), HexDigit(u / 16 % 16), HexDigit(u % 16)) == Some(u)
  {
    assert u / 0x1000 == u / 16 / 16 / 16 && u / 0x100 == u / 16 / 16;
  }

  lemma ParseHexEscape(u: Unit, rest: Text)
    ensures ParseBody(Escaped(u) + rest) == Prepend(u, ParseBody(rest))
  {
    var t := Escaped(u) + rest;
    HexRoundTrip(u);
    assert t[6..] == rest;
    assert t[0] == BACKSLASH && t[1] == LOWER_U && t[2..6] == Escaped(u)[2..6];
    assert Hex4(t[2], t[3], t[4], t[5]) == Some(u);
  }

  lemma ParseShortEscape(u: Unit, rest: Text)
    requires ShortEscape(u).Some?
    ensures ParseBody([BACKSLASH, ShortEscape(u).value] + rest) == Prepend(u, ParseBody(rest))
  {
    var t := [BACKSLASH, ShortEscape(u).value] + rest;
    assert t[2..] == rest && t[1] != LOWER_U && Unescape(t[1]) == Some(u);
  }

  lemma ParseUnit(u: Unit, rest: Text)
    ensures ParseBody(EscapeUnit(u) + rest) == Prepend(u, ParseBody(rest))
  {
    if ShortEscape(u).Some? {
      ParseShortEscape(u, rest);
    } else if u < 0x20 || High(u) || Low(u) {
      ParseHexEscape(u, rest);
    } else {
      assert ([u] + rest)[1..] == rest;
    }
  }

  lemma ParseRawPair(hi: Unit, lo: Unit, rest: Text)
    requires High(hi) && Low(lo)
    ensures ParseBody([hi, lo] + rest) == Prepend(hi, Prepend(lo, ParseBody(rest)))
  {
    var whole := [hi, lo] + rest;
    assert whole[1..] == [lo] + rest && whole[1..][1..] == rest;
  }

  /** `t` in quotes, without the opening one, followed by `rest`. */
  function Closed(t: Text, rest: Text): Text {
    Escape(t) + [QUOTE] + rest
  }

  lemma ClosedStep(t: Text, rest: Text)
    requires t != []
    ensures Closed(t, rest) ==
            if Paired(t) then [t[0], t[1]] + Closed(t[2..], rest) else EscapeUnit(t[0]) + Closed(t[1..], rest)
  {
    assert Paired(t) ==> t[..2] == [t[0], t[1]];
  }

  lemma ParseClosedPair(t: Text, rest: Text)
    requires Paired(t) && ParseBody(Closed(t[2..], rest)) == Some((t[2..], rest))
    ensures ParseBody(Closed(t, rest)) == Some((t, rest))
  {
    ClosedStep(t, rest);
    ParseRawPair(t[0], t[1], Closed(t[2..], rest));
    assert t == [t[0]] + ([t[1]] + t[2..]);
  }

  lemma ParseClosedUnit(t: Text, rest: Text)
    requires t != [] && !Paired(t) && ParseBody(Closed(t[1..], rest)) == Some((t[1..], rest))
    ensures ParseBody(Closed(t, rest)) == Some((t, rest))
  {
    ClosedStep(t, rest);
    ParseUnit(t[0], Closed(t[1..], rest));
    assert t == [t[0]] + t[1..];
  }

  lemma ParseClosedEnd(rest: Text)
    ensures ParseBody(Closed([], rest)) == Some(([], rest))
  {
    assert Closed([], rest) == [QUOTE] + rest;
  }

  lemma {:induction false} ParseEscaped(t: Text, rest: Text)
    ensures ParseBody(Closed(t, rest)) == Some((t, rest))
    decreases |t|
  {
    if t == [] {
      ParseClosedEnd(rest);
    } else if Paired(t) {
      ParseEscaped(t[2..], rest);
      ParseClosedPair(t, rest);
    } else {
      ParseEscaped(t[1..], rest);
      ParseClosedUnit(t, rest);
    }
  }

  lemma {:induction false} EscapeIsWellFormed(t: Text)
    ensures WellFormed(Escape(t))
    decreases |t|
  {
    if t != [] {
      var n := if Paired(t) then 2 else 1;
      EscapeIsWellFormed(t[n..]);
      var head := if Paired(t) then t[..2] else EscapeUnit(t[0]);
      AsciiOrPair(t);
      WellFormedConcat(head, Escape(t[n..]));
    }
  }

  predicate Plain(t: Text) {
    forall i :: 0 <= i < |t| ==> !High(t[i]) && !Low(t[i])
  }

  lemma {:induction false} PlainIsWellFormed(t: Text)
    requires Plain(t)
    ensures WellFormed(t)
  {
    if t != [] {
      PlainIsWellFormed(t[1..]);
    }
  }

  lemma AsciiOrPair(t: Text)
    requires t != []
    ensures WellFormed(if Paired(t) then t[..2] else EscapeUnit(t[0]))
  {
    if Paired(t) {
      assert t[..2][2..] == [];
    } else {
      PlainIsWellFormed(EscapeUnit(t[0]));
    }
  }

  // ----- the locator and its identifier -----

  /** Where a message lives: mailbox, folder, UIDVALIDITY and UID. */
  datatype Locator = Locator(mailbox: Text, folder: Text, uidValidity: int, uid: int)

  /** The four members as they stand in the JSON text, where UIDVALIDITY is a string. */
  datatype Fields = Fields(m: Text, f: Text, v: Text, u: int)

  const MAX_SAFE_INTEGER := 9007199254740991

  predicate IsLocator(p: Fields) {
    && 0 < |p.m| <= 64
    && 0 < |p.f| <= 512
    && p.v != [] && AllDigits(p.v)
    && 0 < p.u <= MAX_SAFE_INTEGER
  }

  const OPEN: Text := [123]
  const COMMA: Text := [44]
  const CLOSE: Text := [125]

  /** A member name and its colon. */
  function Key(letter: Unit): Text {
    [QUOTE, letter, QUOTE, 58]
  }

  function StringMember(letter: Unit, value: Text, rest: Text): Text {
    Key(letter) + [QUOTE] + Closed(value, rest)
  }

  function JsonText(l: Locator): Text {
    OPEN + StringMember(109, l.mailbox,
           COMMA + StringMember(102, l.folder,
           COMMA + StringMember(118, Decimal(l.uidValidity),
           COMMA + Key(117) + (Decimal(l.uid) + CLOSE))))
  }

  function Skip(prefix: Text, t: Text): Option<Text> {
    if prefix <= t then Some(t[|prefix|..]) else None
  }

  function ParseStringMember(letter: Unit, t: Text): Option<(Text, Text)> {
    var body := Skip(Key(letter) + [QUOTE], t);
    if body.None? then None else ParseBody(body.value)
  }

  function ParseIntMember(letter: Unit, t: Text): Option<(int, Text)> {
    var body := Skip(Key(letter), t);
    if body.None? then None else ParseInt(body.value)
  }

  /** Reads the one shape of object that is ever written; None for any other text. */
  function ParseFields(t: Text): Option<Fields> {
    var afterOpen := Skip(OPEN, t);
    if afterOpen.None? then None else
    var m := ParseStringMember(109, afterOpen.value);
    if m.None? || Skip(COMMA, m.value.1).None? then None else
    var f := ParseStringMember(102, Skip(COMMA, m.value.1).value);
    if f.None? || Skip(COMMA, f.value.1).None? then None else
    var v := ParseStringMember(118, Skip(COMMA, f.value.1).value);
    if v.None? || Skip(COMMA, v.value.1).None? then None else
    var u := ParseIntMember(117, Skip(COMMA, v.value.1).value);
    if u.None? || u.value.1 != CLOSE then None else
    Some(Fields(m.value.0, f.value.0, v.value.0, u.value.0))
  }

  lemma SkipPrefix(prefix: Text, rest: Text)
    ensures Skip(prefix, prefix + rest) == Some(rest)
  {
  }

  lemma ParseStringMemberIs(letter: Unit, value: Text, rest: Text)
    ensures ParseStringMember(letter, StringMember(letter, value, rest)) == Some((value, rest))
  {
    SkipPrefix(Key(letter) + [QUOTE], Closed(value, rest));
    ParseEscaped(value, rest);
  }

  lemma ParseJsonText(l: Locator)
    ensures ParseFields(JsonText(l)) == Some(Fields(l.mailbox, l.folder, Decimal(l.uidValidity), l.uid))
  {
    var uid := Decimal(l.uid) + CLOSE;
    var v := COMMA + Key(117) + uid;
    var f := COMMA + StringMember(118, Decimal(l.uidValidity), v);
    var m := COMMA + StringMember(102, l.folder, f);
    SkipPrefix(OPEN, StringMember(109, l.mailbox, m));
    ParseStringMemberIs(109, l.mailbox, m);
    SkipPrefix(COMMA, StringMember(102, l.folder, f));
    ParseStringMemberIs(102, l.folder, f);
    SkipPrefix(COMMA, StringMember(118, Decimal(l.uidValidity), v));
    ParseStringMemberIs(118, Decimal(l.uidValidity), v);
    assert v == COMMA + (Key(117) + uid);
    SkipPrefix(COMMA, Key(117) + uid);
    SkipPrefix(Key(117), uid);
    ParseDecimal(l.uid, CLOSE);
  }

  lemma StringMemberIsWellFormed(letter: Unit, value: Text, rest: Text)
    requires letter < 128 && WellFormed(rest)
    ensures WellFormed(StringMember(letter, value, rest))
  {
    PlainIsWellFormed(Key(letter) + [QUOTE]);
    PlainIsWellFormed([QUOTE]);
    EscapeIsWellFormed(value);
    WellFormedConcat(Escape(value), [QUOTE]);
    WellFormedConcat(Escape(value) + [QUOTE], rest);
    WellFormedConcat(Key(letter) + [QUOTE], Closed(value, rest));
  }

  lemma JsonTextIsWellFormed(l: Locator)
    ensures WellFormed(JsonText(l))
  {
    var v := COMMA + Key(117) + (Decimal(l.uid) + CLOSE);
    var f := COMMA + StringMember(118, Decimal(l.uidValidity), v);
    var m := COMMA + StringMember(102, l.folder, f);
    PlainIsWellFormed(v);
    StringMemberIsWellFormed(118, Decimal(l.uidValidity), v);
    PlainIsWellFormed(COMMA);
    WellFormedConcat(COMMA, StringMember(118, Decimal(l.uidValidity), v));
    StringMemberIsWellFormed(102, l.folder, f);
    WellFormedConcat(COMMA, StringMember(102, l.folder, f));
    StringMemberIsWellFormed(109, l.mailbox, m);
    PlainIsWellFormed(OPEN);
    WellFormedConcat(OPEN, StringMember(109, l.mailbox, m));
  }

  /** HMAC-SHA-256 under the configured key, as an arbitrary function. */
  type Mac = string -> seq<Octet>

  function Encode(mac: Mac, l: Locator): string {
    var payload := ToBase64Url(Utf8(JsonText(l)));
    "mb1." + payload + "." + ToBase64Url(mac(payload))
  }

  function SymbolRun(s: string): (n: nat)
    ensures n <= |s| && (forall c <- s[..n] :: IsSymbol(c)) && (n < |s| ==> !IsSymbol(s[n]))
  {
    if s == "" || !IsSymbol(s[0]) then 0 else 1 + SymbolRun(s[1..])
  }

  /** The two parts of `mb1.<symbols>.<symbols>`, each of at least one symbol. */
  function Split(value: string): (r: Option<(string, string)>)
    ensures r.Some? ==>
              && value == "mb1." + r.value.0 + "." + r.value.1
              && (forall c <- r.value.0 :: IsSymbol(c)) && (forall c <- r.value.1 :: IsSymbol(c))
  {
    if !("mb1." <= value) then None
    else
      var body := value[4..];
      var n := SymbolRun(body);
      if n == 0 || n == |body| || body[n] != '.' then None
      else
        var code := body[n + 1..];
        if code == "" || SymbolRun(code) < |code| then None
        else
          assert body == body[..n] + "." + code && code[..|code|] == code;
          Some((body[..n], code))
  }

  function Decode(mac: Mac, value: string): Option<Locator> {
    var parts := Split(value);
    if parts.None? then None
    else if FromBase64Url(ToBase64Url(mac(parts.value.0))) != FromBase64Url(parts.value.1) then None
    else
      var text := FromUtf8(FromBase64Url(parts.value.0));
      if text.None? || ParseFields(text.value).None? then None
      else
        var p := ParseFields(text.value).value;
        if IsLocator(p) then Some(Locator(p.m, p.f, Number(p.v), p.u)) else None
  }

  predicate InBounds(l: Locator) {
    0 < |l.mailbox| <= 64 && 0 < |l.folder| <= 512 && 0 <= l.uidValidity && 0 < l.uid < 0x20_0000_0000_0000
  }

  lemma {:induction false} SymbolRunIs(s: string, rest: string)
    requires forall c <- s :: IsSymbol(c)
    requires rest == "" || !IsSymbol(rest[0])
    ensures SymbolRun(s + rest) == |s|
  {
    if s == "" {
      assert s + rest == rest;
    } else {
      assert (s + rest)[1..] == s[1..] + rest;
      SymbolRunIs(s[1..], rest);
    }
  }

  lemma SplitIs(payload: string, code: string)
    requires payload != "" && code != "" && (forall c <- payload :: IsSymbol(c)) && (forall c <- code :: IsSymbol(c))
    ensures Split("mb1." + payload + "." + code) == Some((payload, code))
  {
    var value := "mb1." + payload + "." + code;
    assert value == "mb1." + (payload + ("." + code));
    var body := payload + ("." + code);
    assert value[4..] == body;
    SymbolRunIs(payload, "." + code);
    assert body[..|payload|] == payload && body[|payload| + 1..] == code;
    SymbolRunIs(code, "");
    assert code + "" == code;
  }

  /** An identifier decodes to the locator it was made from exactly when that locator is within the bounds the
      decoder checks; one made from any other locator is refused. Encoding itself checks nothing. */
  lemma DecodeEncode(mac: Mac, l: Locator)
    requires forall t :: mac(t) != []
    ensures Decode(mac, Encode(mac, l)) == if InBounds(l) then Some(l) else None
  {
    var payload := ToBase64Url(Utf8(JsonText(l)));
    var code := ToBase64Url(mac(payload));
    SplitIs(payload, code);
    Base64UrlRoundTrip(Utf8(JsonText(l)));
    JsonTextIsWellFormed(l);
    Utf8RoundTrip(JsonText(l));
    ParseJsonText(l);
    if l.uidValidity >= 0 {
      NumberOfDigits(l.uidValidity);
    }
  }

  lemma PayloadOfIdentifier(payload: string, code: string)
    requires payload != "" && forall c <- payload :: IsSymbol(c)
    ensures var value := "mb1." + payload + "." + code;
            |value| >= 4 && SymbolRun(value[4..]) == |payload| && value[4..][..|payload|] == payload
  {
    var value := "mb1." + payload + "." + code;
    assert value == "mb1." + (payload + ("." + code));
    assert value[4..] == payload + ("." + code);
    SymbolRunIs(payload, "." + code);
  }

  /** The payload text determines the locator, in bounds or not. */
  lemma JsonIsInjective(a: Locator, b: Locator)
    requires ToBase64Url(Utf8(JsonText(a))) == ToBase64Url(Utf8(JsonText(b)))
    ensures a == b
  {
    Base64UrlRoundTrip(Utf8(JsonText(a)));
    Base64UrlRoundTrip(Utf8(JsonText(b)));
    JsonTextIsWellFormed(a);
    JsonTextIsWellFormed(b);
    Utf8RoundTrip(JsonText(a));
    Utf8RoundTrip(JsonText(b));
    ParseJsonText(a);
    ParseJsonText(b);
    DecimalIsInjective(a.uidValidity, b.uidValidity);
  }

  lemma DecimalIsInjective(m: int, n: int)
    requires Decimal(m) == Decimal(n)
    ensures m == n
  {
    ParseDecimal(m, []);
    ParseDecimal(n, []);
  }

  /** Identifiers of different messages differ, for every key and every locator. */
  lemma EncodeIsInjective(mac: Mac, a: Locator, b: Locator)
    requires Encode(mac, a) == Encode(mac, b)
    ensures a == b
  {
    var p, q := ToBase64Url(Utf8(JsonText(a))), ToBase64Url(Utf8(JsonText(b)));
    PayloadOfIdentifier(p, ToBase64Url(mac(p)));
    PayloadOfIdentifier(q, ToBase64Url(mac(q)));
    JsonIsInjective(a, b);
  }

  /** Nothing decodes unless it carries the authentication code of its own payload, and whatever decodes
      is within bounds. */
  lemma DecodedIsAuthentic(mac: Mac, value: string)
    ensures Decode(mac, value).Some? ==>
              && (exists payload: string, code: string ::
                    && value == "mb1." + payload + "." + code
                    && (forall c <- code :: IsSymbol(c)) && FromBase64Url(code) == mac(payload))
              && InBounds(Decode(mac, value).value)
  {
    if Decode(mac, value).Some? {
      var parts := Split(value).value;
      Base64UrlRoundTrip(mac(parts.0));
      assert value == "mb1." + parts.0 + "." + parts.1;
    }
  }
}
