/**
  Which callback requests are accepted, said as a grammar: a request line, header fields and
  an empty line, with the query as a list of percent-encoded parameters.  Nothing here is
  defined by the parser.
 */
module CallbackGrammar {
  import opened Common
  import opened R = CallbackRequest
  import opened T = CallbackRoundTrip
  import Utf8

  // ----- The grammar -----

  function Joined(parts: seq<Bytes>, separator: Bytes): Bytes
    requires parts != []
    decreases |parts|
  {
    if |parts| == 1 then parts[0] else parts[0] + separator + Joined(parts[1..], separator)
  }

  /** A header field; the value is still surrounded by its blanks. */
  datatype Field = Field(name: Bytes, raw: Bytes)

  function FieldText(f: Field): Bytes { f.name + Ascii(":") + f.raw }

  predicate Letter(b: byte) { 'a' as int <= b as int <= 'z' as int || 'A' as int <= b as int <= 'Z' as int }

  predicate Digit(b: byte) { '0' as int <= b as int <= '9' as int }

  /** Section 3.2.6 of RFC 7230. */
  predicate TokenByte(b: byte) { Letter(b) || Digit(b) || b in Ascii("!#$%&'*+-.^_`|~") }

  predicate FieldOk(f: Field) {
    && f.name != [] && (forall i :: 0 <= i < |f.name| ==> TokenByte(f.name[i]))
    && forall i :: 0 <= i < |f.raw| ==> f.raw[i] == 9 || (f.raw[i] >= 32 && f.raw[i] != 127)
  }

  /** The name is this one, in small or capital letters. */
  predicate Named(f: Field, name: string) {
    && |f.name| == |name|
    && forall i :: 0 <= i < |name| ==>
         || f.name[i] as int == name[i] as int
         || ('a' <= name[i] <= 'z' && f.name[i] as int == name[i] as int - 'a' as int + 'A' as int)
  }

  predicate Blanks(s: Bytes) { forall i :: 0 <= i < |s| ==> s[i] in Ascii(" \t") }

  /** The value is this one, with any blanks around it. */
  ghost predicate Says(f: Field, value: Bytes) {
    && (exists a, b | 0 <= a <= b <= |f.raw| :: Blanks(f.raw[..a]) && Blanks(f.raw[b..]) && f.raw[a..b] == value)
    && (value != [] ==> value[0] !in Ascii(" \t") && value[|value| - 1] !in Ascii(" \t"))
  }

  predicate Zeros(value: Bytes) { value != [] && forall i :: 0 <= i < |value| ==> value[i] in Ascii("0") }

  ghost predicate SaysZero(f: Field) { exists v :: Zeros(v) && Says(f, v) }

  predicate Has(fields: seq<Field>, name: string) { exists i :: 0 <= i < |fields| && Named(fields[i], name) }

  predicate AtMostOnce(fields: seq<Field>, name: string) {
    forall i, j :: 0 <= i < j < |fields| && Named(fields[i], name) ==> !Named(fields[j], name)
  }

  /** One host field, with the expected value; no body is announced, unless as empty. */
  ghost predicate FieldsOk(fields: seq<Field>, host: Bytes) {
    && (forall i :: 0 <= i < |fields| ==> FieldOk(fields[i]))
    && Has(fields, "host") && AtMostOnce(fields, "host") && !Has(fields, "transfer-encoding") && AtMostOnce(fields, "content-length")
    && (forall i :: 0 <= i < |fields| ==> Named(fields[i], "host") ==> Says(fields[i], host))
    && (forall i :: 0 <= i < |fields| ==> Named(fields[i], "content-length") ==> SaysZero(fields[i]))
  }

  /** A parameter as it is written and as it is meant. */
  datatype Parameter = Parameter(rawKey: Bytes, rawValue: Bytes, key: Bytes, value: Bytes)

  function ParameterText(p: Parameter): Bytes { p.rawKey + Ascii("=") + p.rawValue }

  predicate HexDigitOf(d: byte, n: int) {
    0 <= n < 16 && (d as int == "0123456789abcdef"[n] as int || d as int == "0123456789ABCDEF"[n] as int)
  }

  /** One byte stands for itself, a plus sign for a space, and an escape for the byte of its two digits. */
  predicate UnitOf(unit: Bytes, b: byte) {
    || (unit == [b] && b !in Ascii("%+"))
    || (unit == Ascii("+") && [b] == Ascii(" "))
    || (|unit| == 3 && unit[..1] == Ascii("%") && HexDigitOf(unit[1], b as int / 16) && HexDigitOf(unit[2], b as int % 16))
  }

  /** Section 2.1 of RFC 3986, with the plus sign of forms. */
  ghost predicate Spells(raw: Bytes, value: Bytes) {
    exists units: seq<Bytes> :: SpelledBy(raw, value, units)
  }

  ghost predicate SpelledBy(raw: Bytes, value: Bytes, units: seq<Bytes>) {
    |units| == |value| && Concat(units) == raw && forall i :: 0 <= i < |units| ==> UnitOf(units[i], value[i])
  }

  function Concat(units: seq<Bytes>): Bytes { if units == [] then [] else units[0] + Concat(units[1..]) }

  ghost predicate ParameterOk(p: Parameter) {
    && p.rawKey != [] && Free(p.rawKey, '=' as byte) && Free(p.rawKey, '&' as byte) && Free(p.rawValue, '&' as byte)
    && Spells(p.rawKey, p.key) && Spells(p.rawValue, p.value) && Utf8.Valid(p.key) && Utf8.Valid(p.value)
  }

  /** Exactly one parameter has this key; it has this value, which is not empty and within the bound. */
  ghost predicate GivenOnce(ps: seq<Parameter>, key: string, value: Bytes, max: nat) {
    && 0 < |value| <= max
    && (exists i :: 0 <= i < |ps| && ps[i].key == Ascii(key) && ps[i].value == value)
    && (forall i, j :: 0 <= i < j < |ps| && ps[i].key == Ascii(key) ==> ps[j].key != Ascii(key))
  }

  function ParameterTexts(ps: seq<Parameter>): (r: seq<Bytes>)
    ensures |r| == |ps|
  {
    seq(|ps|, i requires 0 <= i < |ps| => ParameterText(ps[i]))
  }

  ghost predicate QueryOk(query: Bytes, ps: seq<Parameter>, state: Bytes, code: Bytes) {
    && ps != [] && query == Joined(ParameterTexts(ps), Ascii("&"))
    && (forall i :: 0 <= i < |ps| ==> ParameterOk(ps[i]))
    && GivenOnce(ps, "state", state, 2048) && GivenOnce(ps, "code", code, 4096)
  }

  function LineText(query: Bytes): Bytes { Ascii("GET /callback?") + query + Ascii(" HTTP/1.1") }

  function FieldTexts(fields: seq<Field>): (r: seq<Bytes>)
    ensures |r| == |fields|
  {
    seq(|fields|, i requires 0 <= i < |fields| => FieldText(fields[i]))
  }

  function HeadText(query: Bytes, fields: seq<Field>): Bytes {
    Joined([LineText(query)] + FieldTexts(fields), Ascii("\r\n"))
  }

  predicate TargetByte(b: byte) { 32 < b < 127 && b !in Ascii("#") }

  /** The request, and how it is read. */
  ghost predicate Accepts(
    request: Bytes, host: Bytes, state: Bytes, code: Bytes, query: Bytes, fields: seq<Field>, ps: seq<Parameter>)
  {
    && request == HeadText(query, fields) + Ascii("\r\n\r\n") && Utf8.Valid(HeadText(query, fields))
    && (forall i :: 0 <= i < |query| ==> TargetByte(query[i]))
    && FieldsOk(fields, host) && QueryOk(query, ps, state, code)
  }

  // ----- Percent decoding -----

  lemma HexDigits(d: byte, n: int)
    ensures 0 <= n < 16 ==> (HexDigitOf(d, n) <==> HexValue(d) == Some(n as byte))
  {
  }

  lemma EscapeDecodes(h: byte, l: byte, b: byte, rest: Bytes)
    requires HexDigitOf(h, b as int / 16) && HexDigitOf(l, b as int % 16)
    ensures PercentDecode([PERCENT, h, l] + rest) == Prepend([b], PercentDecode(rest))
  {
    HexDigits(h, b as int / 16);
    HexDigits(l, b as int % 16);
    hide HexDigitOf, HexValue;
    assert ([PERCENT, h, l] + rest)[3..] == rest;
    assert (b as int / 16 * 16 + b as int % 16) % 256 == b as int;
  }

  lemma SignDecodes(sign: byte, rest: Bytes)
    requires sign != PERCENT
    ensures PercentDecode([sign] + rest) == Prepend([if sign == PLUS then SPACE else sign], PercentDecode(rest))
  {
    assert ([sign] + rest)[1..] == rest;
  }

  lemma UnitDecodes(unit: Bytes, b: byte, rest: Bytes)
    requires UnitOf(unit, b)
    ensures PercentDecode(unit + rest) == Prepend([b], PercentDecode(rest))
  {
    assert Ascii("%") == [PERCENT] && Ascii("+") == [PLUS] && Ascii(" ") == [SPACE];
    assert Ascii("%+") == [PERCENT, PLUS];
    hide HexDigitOf, Ascii, PercentDecode, Prepend;
    if |unit| == 3 {
      assert unit[..1][0] == unit[0];
      assert unit == [PERCENT, unit[1], unit[2]];
      EscapeDecodes(unit[1], unit[2], b, rest);
    } else {
      assert unit == [unit[0]];
      SignDecodes(unit[0], rest);
    }
  }

  lemma {:induction false} SpelledDecodes(raw: Bytes, value: Bytes, units: seq<Bytes>)
    requires SpelledBy(raw, value, units)
    ensures PercentDecode(raw) == Some(value)
    decreases |units|
  {
    if units != [] {
      SpelledDecodes(Concat(units[1..]), value[1..], units[1..]);
      UnitDecodes(units[0], value[0], Concat(units[1..]));
      assert value == [value[0]] + value[1..];
    }
  }

  lemma FirstUnit(raw: Bytes) returns (unit: Bytes)
    requires raw != [] && PercentDecode(raw).Some?
    ensures PercentDecode(raw).value != [] && UnitOf(unit, PercentDecode(raw).value[0]) && unit != [] && unit <= raw
    ensures PercentDecode(raw[|unit|..]) == Some(PercentDecode(raw).value[1..])
  {
    assert Ascii("%") == [PERCENT] && Ascii("+") == [PLUS] && Ascii(" ") == [SPACE];
    assert Ascii("%+") == [PERCENT, PLUS];
    unit := if raw[0] == PERCENT then raw[..3] else raw[..1];
    if raw[0] == PERCENT {
      var high, low := HexValue(raw[1]).value, HexValue(raw[2]).value;
      var b := PercentDecode(raw).value[0];
      assert high < 16 && low < 16;
      assert b as int == high as int * 16 + low as int;
      assert b as int / 16 == high as int && b as int % 16 == low as int;
      HexDigits(raw[1], high as int);
      HexDigits(raw[2], low as int);
      hide HexDigitOf, HexValue, Ascii;
      assert unit[..1] == [PERCENT];
    } else {
      assert raw[..1] == [raw[0]];
    }
  }

  lemma {:induction false} DecodedIsSpelled(raw: Bytes) returns (units: seq<Bytes>)
    requires PercentDecode(raw).Some?
    ensures SpelledBy(raw, PercentDecode(raw).value, units)
    decreases |raw|
  {
    if raw == [] {
      units := [];
    } else {
      var unit := FirstUnit(raw);
      var value := PercentDecode(raw).value;
      hide PercentDecode, UnitOf, SpelledBy;
      var rest := DecodedIsSpelled(raw[|unit|..]);
      units := [unit] + rest;
      assert unit + raw[|unit|..] == raw && [value[0]] + value[1..] == value;
      SpelledMore(unit, value[0], raw[|unit|..], value[1..], rest);
    }
  }

  lemma SpelledMore(unit: Bytes, b: byte, raw: Bytes, value: Bytes, units: seq<Bytes>)
    requires UnitOf(unit, b) && SpelledBy(raw, value, units)
    ensures SpelledBy(unit + raw, [b] + value, [unit] + units)
  {
    hide UnitOf;
    assert ([unit] + units)[1..] == units;
  }

  /** The decoder reads exactly what the grammar spells. */
  lemma DecodesExactly(raw: Bytes, value: Bytes)
    ensures DecodeComponent(raw) == Ok(value) <==> Spells(raw, value) && Utf8.Valid(value)
  {
    hide Utf8.Valid, PercentDecode;
    if Spells(raw, value) {
      var units :| SpelledBy(raw, value, units);
      SpelledDecodes(raw, value, units);
    }
    if PercentDecode(raw) == Some(value) {
      var units := DecodedIsSpelled(raw);
    }
  }

  // ----- Cutting and joining -----

  lemma {:induction false} SplitJoins(s: Bytes, b: byte)
    ensures Joined(Split(s, b), [b]) == s
    ensures forall i :: 0 <= i < |Split(s, b)| ==> Free(Split(s, b)[i], b)
    decreases |s|
  {
    var i := IndexOf(s, b);
    if i < |s| {
      SplitJoins(s[i + 1..], b);
      assert Split(s, b)[1..] == Split(s[i + 1..], b);
      assert s == s[..i] + [b] + s[i + 1..];
    }
  }

  lemma {:induction false} JoinedSplits(parts: seq<Bytes>, b: byte)
    requires parts != [] && forall i :: 0 <= i < |parts| ==> Free(parts[i], b)
    ensures Split(Joined(parts, [b]), b) == parts
    decreases |parts|
  {
    hide Split;
    if |parts| == 1 {
      SplitAfter(parts[0], b, []);
    } else {
      JoinedSplits(parts[1..], b);
      SplitAfter(parts[0], b, Joined(parts[1..], [b]));
      assert parts == [parts[0]] + parts[1..];
    }
  }

  lemma CutAtCrLf(s: Bytes, i: nat)
    requires i <= |s| && CRLF <= s[i..]
    ensures i + 2 <= |s| && s == s[..i] + CRLF + s[i + 2..]
  {
    assert s[i..][..2] == CRLF;
    assert s[i..i + 2] == CRLF;
  }

  lemma {:induction false} LinesJoin(s: Bytes)
    ensures Joined(Lines(s), CRLF) == s
    decreases |s|
  {
    hide IndexOfCrLf;
    var i := IndexOfCrLf(s);
    if i < |s| {
      CutAtCrLf(s, i);
      var rest := Lines(s[i + 2..]);
      assert Lines(s) == [s[..i]] + rest;
      hide Lines;
      LinesJoin(s[i + 2..]);
      assert ([s[..i]] + rest)[1..] == rest;
    }
  }

  lemma {:induction false} JoinedLines(lines: seq<Bytes>)
    requires lines != [] && forall i :: 0 <= i < |lines| ==> Free(lines[i], CR)
    ensures Lines(Joined(lines, CRLF)) == lines
    decreases |lines|
  {
    hide IndexOfCrLf;
    if |lines| == 1 {
      CrLfAfter(lines[0], []);
    } else {
      var rest := Joined(lines[1..], CRLF);
      JoinedLines(lines[1..]);
      CrLfAfter(lines[0], rest);
      var s := lines[0] + CRLF + rest;
      assert s[..|lines[0]|] == lines[0] && s[|lines[0]| + 2..] == rest;
      assert lines == [lines[0]] + lines[1..];
    }
  }

  /** The first empty line is the end of the head. */
  lemma {:induction false} JoinedEnds(lines: seq<Bytes>)
    requires lines != [] && forall i :: 0 <= i < |lines| ==> Free(lines[i], CR)
    requires forall i :: 1 <= i < |lines| ==> lines[i] != []
    ensures HeaderEnd(Joined(lines, CRLF) + END) == Some(|Joined(lines, CRLF)|)
    decreases |lines|
  {
    EndAtOnce();
    hide HeaderEnd;
    if |lines| == 1 {
      EndAfter(lines[0], END);
    } else {
      var rest := Joined(lines[1..], CRLF);
      JoinedEnds(lines[1..]);
      assert (rest + END)[0] != CR by {
        assert rest[0] == lines[1][0];
      }
      EndBehindLine(rest + END);
      EndAfter(lines[0], CRLF + (rest + END));
      Regroup(lines[0], CRLF, rest, END);
    }
  }

  lemma {:induction false} EndIsThere(s: Bytes)
    requires HeaderEnd(s).Some?
    ensures s[HeaderEnd(s).value..HeaderEnd(s).value + 4] == END
    decreases |s|
  {
    if END <= s {
      assert s[..4] == END;
    } else {
      EndIsThere(s[1..]);
      var i := HeaderEnd(s[1..]).value;
      assert s[1..][i..i + 4] == s[i + 1..i + 5];
    }
  }

  // ----- Header fields -----

  predicate SmallLetters(name: string) { forall i :: 0 <= i < |name| ==> 'a' <= name[i] <= 'z' || name[i] == '-' }

  lemma NamedIsSame(f: Field, name: string)
    requires SmallLetters(name)
    ensures Named(f, name) <==> SameName(f.name, Ascii(name))
  {
    if |f.name| == |name| {
      forall i | 0 <= i < |name|
        ensures Lower(f.name[i]) == Ascii(name)[i] <==>
                f.name[i] as int == name[i] as int
                || ('a' <= name[i] <= 'z' && f.name[i] as int == name[i] as int - 'a' as int + 'A' as int)
      {
      }
    }
  }

  lemma FieldNames()
    ensures Ascii("host") == HOST && Ascii("content-length") == CONTENT_LENGTH && Ascii("transfer-encoding") == TRANSFER_ENCODING
    ensures SmallLetters("host") && SmallLetters("content-length") && SmallLetters("transfer-encoding")
  {
  }

  lemma BlankBytes(b: byte)
    ensures b in Ascii(" \t") <==> IsBlank(b)
  {
    assert Ascii(" \t") == [SPACE, TAB];
  }

  lemma BlanksAre(s: Bytes)
    ensures Blanks(s) <==> forall i :: 0 <= i < |s| ==> IsBlank(s[i])
  {
    forall i | 0 <= i < |s|
      ensures s[i] in Ascii(" \t") <==> IsBlank(s[i])
    {
      BlankBytes(s[i]);
    }
  }

  lemma {:induction false} TrimStartBlanks(p: Bytes, s: Bytes)
    requires forall i :: 0 <= i < |p| ==> IsBlank(p[i])
    ensures TrimStart(p + s) == TrimStart(s)
    decreases |p|
  {
    if p == [] {
      assert p + s == s;
    } else {
      TrimStartBlanks(p[1..], s);
      assert (p + s)[1..] == p[1..] + s;
    }
  }

  lemma {:induction false} TrimEndBlanks(s: Bytes, q: Bytes)
    requires forall i :: 0 <= i < |q| ==> IsBlank(q[i])
    ensures TrimEnd(s + q) == TrimEnd(s)
    decreases |q|
  {
    if q == [] {
      assert s + q == s;
    } else {
      TrimEndBlanks(s, q[..|q| - 1]);
      assert (s + q)[..|s + q| - 1] == s + q[..|q| - 1];
    }
  }

  lemma {:induction false} TrimStartIs(s: Bytes) returns (a: nat)
    ensures a <= |s| && TrimStart(s) == s[a..] && (a < |s| ==> !IsBlank(s[a]))
    ensures forall i :: 0 <= i < a ==> IsBlank(s[i])
    decreases |s|
  {
    if s != [] && IsBlank(s[0]) {
      var rest := TrimStartIs(s[1..]);
      a := rest + 1;
      assert s[1..][rest..] == s[a..];
    } else {
      a := 0;
    }
  }

  lemma {:induction false} TrimEndIs(s: Bytes) returns (b: nat)
    ensures b <= |s| && TrimEnd(s) == s[..b] && (b > 0 ==> !IsBlank(s[b - 1]))
    ensures forall i :: b <= i < |s| ==> IsBlank(s[i])
    decreases |s|
  {
    if s != [] && IsBlank(s[|s| - 1]) {
      b := TrimEndIs(s[..|s| - 1]);
      assert s[..|s| - 1][..b] == s[..b];
    } else {
      b := |s|;
    }
  }

  lemma TrimmedSays(f: Field)
    ensures Says(f, Trim(f.raw))
  {
    var raw := f.raw;
    var a := TrimStartIs(raw);
    var n := TrimEndIs(raw[a..]);
    var b := a + n;
    assert raw[a..][..n] == raw[a..b];
    BlanksAre(raw[..a]);
    BlanksAre(raw[b..]);
    forall i | b <= i < |raw|
      ensures IsBlank(raw[i])
    {
      assert raw[a..][i - a] == raw[i];
    }
    if a < b {
      BlankBytes(raw[a]);
      BlankBytes(raw[b - 1]);
      assert raw[a..][n - 1] == raw[b - 1];
    }
    hide Blanks, Ascii, IsBlank, TrimStart, TrimEnd;
  }

  lemma TrimPadded(p: Bytes, value: Bytes, q: Bytes)
    requires (forall i :: 0 <= i < |p| ==> IsBlank(p[i])) && (forall i :: 0 <= i < |q| ==> IsBlank(q[i]))
    requires value != [] ==> !IsBlank(value[0]) && !IsBlank(value[|value| - 1])
    ensures Trim(p + (value + q)) == value
  {
    TrimStartBlanks(p, value + q);
    if value == [] {
      TrimStartBlanks(q, []);
      assert value + q == q + [];
    } else {
      assert (value + q)[0] == value[0];
      TrimEndBlanks(value, q);
    }
  }

  lemma SaidIsTrimmed(f: Field, value: Bytes)
    requires Says(f, value)
    ensures Trim(f.raw) == value
  {
    hide Trim, IsBlank;
    var raw := f.raw;
    var a, b :| 0 <= a <= b <= |raw| && Blanks(raw[..a]) && Blanks(raw[b..]) && raw[a..b] == value;
    BlanksAre(raw[..a]);
    BlanksAre(raw[b..]);
    if value != [] {
      BlankBytes(value[0]);
      BlankBytes(value[|value| - 1]);
    }
    hide Blanks, Ascii;
    TrimPadded(raw[..a], value, raw[b..]);
    assert raw == raw[..a] + (value + raw[b..]);
  }

  lemma SaysIsTrim(f: Field, value: Bytes)
    ensures Says(f, value) <==> Trim(f.raw) == value
  {
    hide Says, Trim;
    TrimmedSays(f);
    if Says(f, value) {
      SaidIsTrimmed(f, value);
    }
  }

  lemma TokenBytes(b: byte)
    ensures TokenByte(b) <==> IsHeaderNameByte(b)
    ensures TokenByte(b) ==> b != COLON && !IsBlank(b) && b != CR
  {
    assert Ascii("!#$%&'*+-.^_`|~") == TOKEN_MARKS;
  }

  lemma ZeroBytes(value: Bytes)
    ensures Zeros(value) <==> value != [] && !exists i :: 0 <= i < |value| && value[i] != 48
  {
    assert Ascii("0") == [48];
  }

  /** The value of a well-formed field decides how it is taken. */
  lemma FieldTaken(f: Field, host: Bytes, h: HeaderState)
    requires FieldOk(f)
    ensures TakeHeader(FieldText(f), host, h) ==
            if Named(f, "host") then if h.host || !Says(f, host) then Err(HostInvalid) else Ok(h.(host := true))
            else if Named(f, "content-length") then
              if h.contentLength || !SaysZero(f) then Err(BodyUnsupported) else Ok(h.(contentLength := true))
            else if Named(f, "transfer-encoding") then Err(BodyUnsupported) else Ok(h)
  {
    FieldSplits(f);
    FieldNames();
    NamedIsSame(f, "host");
    NamedIsSame(f, "content-length");
    NamedIsSame(f, "transfer-encoding");
    SaysIsTrim(f, host);
    ZeroSaid(f);
    ZeroBytes(Trim(f.raw));
    hide FieldText, FieldOk, Named, SameName, Says, SaysZero, Zeros, Trim, SplitOnce, IsHeaderNameByte, IsControl;
  }

  lemma ZeroSaid(f: Field)
    ensures SaysZero(f) <==> Zeros(Trim(f.raw))
  {
    hide Says, Trim, Zeros;
    SaysIsTrim(f, Trim(f.raw));
    if SaysZero(f) {
      var v :| Zeros(v) && Says(f, v);
      SaysIsTrim(f, v);
    }
  }

  lemma FieldSplits(f: Field)
    requires FieldOk(f)
    ensures FieldText(f) != [] && !IsBlank(FieldText(f)[0]) && SplitOnce(FieldText(f), COLON) == Some((f.name, f.raw))
    ensures !exists i :: 0 <= i < |f.name| && !IsHeaderNameByte(f.name[i])
    ensures !exists i :: 0 <= i < |f.raw| && IsControl(f.raw[i]) && f.raw[i] != TAB
    ensures Free(FieldText(f), CR)
  {
    forall i | 0 <= i < |f.name|
      ensures IsHeaderNameByte(f.name[i]) && f.name[i] != COLON && !IsBlank(f.name[i]) && f.name[i] != CR
    {
      TokenBytes(f.name[i]);
    }
    assert Ascii(":") == [COLON];
    assert FieldText(f)[0] == f.name[0];
    hide IsHeaderNameByte, IsBlank, SplitOnce;
    SplitAfter(f.name, COLON, f.raw);
  }

  lemma TakenIsField(line: Bytes, host: Bytes, h: HeaderState) returns (f: Field)
    requires TakeHeader(line, host, h).Ok?
    ensures FieldOk(f) && FieldText(f) == line
  {
    hide Trim, SameName, IsHeaderNameByte;
    var i := IndexOf(line, COLON);
    assert i < |line|;
    f := Field(line[..i], line[i + 1..]);
    assert Ascii(":") == [COLON];
    assert line == line[..i] + [COLON] + line[i + 1..];
    forall i | 0 <= i < |f.name|
      ensures TokenByte(f.name[i])
    {
      TokenBytes(f.name[i]);
    }
    hide TokenByte;
  }

  /** The fields that may stand together, with a host field or still without. */
  ghost predicate Fit(fields: seq<Field>, host: Bytes) {
    && AtMostOnce(fields, "host") && !Has(fields, "transfer-encoding") && AtMostOnce(fields, "content-length")
    && (forall i :: 0 <= i < |fields| ==> Named(fields[i], "host") ==> Says(fields[i], host))
    && (forall i :: 0 <= i < |fields| ==> Named(fields[i], "content-length") ==> SaysZero(fields[i]))
  }

  lemma NamesDiffer(f: Field)
    ensures !(Named(f, "host") && Named(f, "content-length"))
    ensures !(Named(f, "host") && Named(f, "transfer-encoding"))
    ensures !(Named(f, "content-length") && Named(f, "transfer-encoding"))
  {
    assert |"host"| == 4 && |"content-length"| == 14 && |"transfer-encoding"| == 17;
  }

  lemma HasMore(fields: seq<Field>, f: Field, name: string)
    ensures Has(fields + [f], name) <==> Has(fields, name) || Named(f, name)
    ensures AtMostOnce(fields + [f], name) <==> AtMostOnce(fields, name) && !(Has(fields, name) && Named(f, name))
  {
    hide Named;
    var more := fields + [f];
    assert more[|fields|] == f && forall i :: 0 <= i < |fields| ==> more[i] == fields[i];
  }

  lemma FitMore(fields: seq<Field>, f: Field, host: Bytes)
    ensures Fit(fields + [f], host) <==>
            && Fit(fields, host) && !Named(f, "transfer-encoding")
            && (Named(f, "host") ==> !Has(fields, "host") && Says(f, host))
            && (Named(f, "content-length") ==> !Has(fields, "content-length") && SaysZero(f))
  {
    HasMore(fields, f, "host");
    HasMore(fields, f, "content-length");
    HasMore(fields, f, "transfer-encoding");
    hide Named, Says, SaysZero, Has, AtMostOnce;
    var more := fields + [f];
    assert more[|fields|] == f && forall i :: 0 <= i < |fields| ==> more[i] == fields[i];
  }

  lemma TakeMoreHeaders(fields: seq<Field>, f: Field, host: Bytes)
    ensures var before := TakeHeaders(FieldTexts(fields), host);
            TakeHeaders(FieldTexts(fields + [f]), host) ==
            if before.Ok? then TakeHeader(FieldText(f), host, before.value) else before
  {
    hide TakeHeader, FieldText;
    var texts := FieldTexts(fields + [f]);
    assert texts[..|fields|] == FieldTexts(fields) && texts[|fields|] == FieldText(f);
  }

  lemma {:induction false} FieldsTaken(fields: seq<Field>, host: Bytes)
    requires forall i :: 0 <= i < |fields| ==> FieldOk(fields[i])
    ensures TakeHeaders(FieldTexts(fields), host).Ok? <==> Fit(fields, host)
    ensures Fit(fields, host) ==>
              TakeHeaders(FieldTexts(fields), host).value == HeaderState(Has(fields, "host"), Has(fields, "content-length"))
    decreases |fields|
  {
    hide Named, Says, SaysZero, TakeHeader, FieldOk, FieldText;
    if fields != [] {
      hide Fit, Has, TakeHeaders, FieldTexts;
      var init, f := fields[..|fields| - 1], fields[|fields| - 1];
      FieldsTaken(init, host);
      assert fields == init + [f];
      TakeMoreHeaders(init, f, host);
      FitMore(init, f, host);
      HasMore(init, f, "host");
      HasMore(init, f, "content-length");
      NamesDiffer(f);
      if Fit(init, host) {
        FieldTaken(f, host, TakeHeaders(FieldTexts(init), host).value);
      }
    }
  }

  lemma {:induction false} TakenAreFields(lines: seq<Bytes>, host: Bytes) returns (fields: seq<Field>)
    requires TakeHeaders(lines, host).Ok?
    ensures FieldTexts(fields) == lines && forall i :: 0 <= i < |fields| ==> FieldOk(fields[i])
    decreases |lines|
  {
    hide FieldOk, FieldText, TakeHeader;
    if lines == [] {
      fields := [];
    } else {
      var init, last := lines[..|lines| - 1], lines[|lines| - 1];
      var before := TakenAreFields(init, host);
      var f := TakenIsField(last, host, TakeHeaders(init, host).value);
      fields := before + [f];
      assert lines == init + [last];
      assert FieldTexts(fields) == FieldTexts(before) + [FieldText(f)];
    }
  }

  // ----- The request line -----

  lemma LineTextIs(query: Bytes)
    ensures LineText(query) == RequestLineText(query)
  {
    assert Ascii("GET /callback?") == GET + [SPACE] + PATH + [QUESTION];
    assert Ascii(" HTTP/1.1") == [SPACE] + HTTP11;
  }

  lemma TargetBytes(query: Bytes)
    ensures TargetOk(TargetText(query)) <==> forall i :: 0 <= i < |query| ==> TargetByte(query[i])
  {
    assert Ascii("#") == [HASH];
    var t := TargetText(query);
    assert |PATH| == 9 && forall i :: 0 <= i < 10 ==> TargetByte(t[i]);
    assert forall i :: 10 <= i < |t| ==> t[i] == query[i - 10];
    assert forall i :: 0 <= i < |query| ==> query[i] == t[i + 10];
    assert forall b: byte :: TargetByte(b) <==> b < 128 && !IsControl(b) && b != SPACE && b != HASH;
    hide TargetByte, IsControl;
  }

  lemma LineIsRead(query: Bytes)
    requires query != [] && forall i :: 0 <= i < |query| ==> TargetByte(query[i])
    ensures RequestQuery(LineText(query)) == Ok(query)
  {
    LineTextIs(query);
    TargetBytes(query);
    var target := TargetText(query);
    assert Free(GET, SPACE) && Free(HTTP11, SPACE) && Free(target, SPACE);
    hide TargetText, TargetOk, Split, SplitOnce, Free, RequestQuery;
    ThreeParts(GET, target, HTTP11);
    TargetSplits(query);
    RequestQueryOf(RequestLineText(query), target, query);
  }

  lemma ReadIsLine(line: Bytes)
    requires RequestQuery(line).Ok?
    ensures var query := RequestQuery(line).value;
            line == LineText(query) && query != [] && forall i :: 0 <= i < |query| ==> TargetByte(query[i])
  {
    hide Split, SplitOnce, TargetText, TargetOk, LineText, TargetByte;
    var query := RequestQuery(line).value;
    var parts := Split(line, SPACE);
    var target := parts[1];
    assert parts == [GET, target, HTTP11];
    TargetIs(target, PATH, query);
    SplitJoins(line, SPACE);
    ThreeJoined(GET, target, HTTP11);
    TargetBytes(query);
    LineTextIs(query);
  }

  lemma TargetIs(target: Bytes, path: Bytes, query: Bytes)
    requires SplitOnce(target, QUESTION) == Some((path, query))
    ensures target == path + [QUESTION] + query && (path == PATH ==> target == TargetText(query))
  {
    var i := IndexOf(target, QUESTION);
    assert target == target[..i] + [QUESTION] + target[i + 1..];
  }

  lemma ThreeJoined(a: Bytes, b: Bytes, c: Bytes)
    ensures Joined([a, b, c], [SPACE]) == a + [SPACE] + (b + [SPACE] + c)
  {
    assert [a, b, c][1..] == [b, c] && [b, c][1..] == [c];
    assert Joined([c], [SPACE]) == c;
    assert Joined([b, c], [SPACE]) == b + [SPACE] + c;
  }

  // ----- Parameters -----

  lemma PairFree(key: Bytes, value: Bytes)
    requires Free(key, AMPERSAND) && Free(value, AMPERSAND)
    ensures Free(key + [EQUALS] + value, AMPERSAND)
  {
  }

  lemma ParameterSplits(p: Parameter)
    requires ParameterOk(p)
    ensures SplitOnce(ParameterText(p), EQUALS) == Some((p.rawKey, p.rawValue)) && Free(ParameterText(p), AMPERSAND)
    ensures DecodeComponent(p.rawKey) == Ok(p.key) && DecodeComponent(p.rawValue) == Ok(p.value)
  {
    hide Spells, SplitOnce, DecodeComponent, Utf8.Valid;
    assert Ascii("=") == [EQUALS];
    DecodesExactly(p.rawKey, p.key);
    DecodesExactly(p.rawValue, p.value);
    PairFree(p.rawKey, p.rawValue);
    hide Free;
    SplitAfter(p.rawKey, EQUALS, p.rawValue);
  }

  lemma ParameterNames()
    ensures Ascii("state") == STATE && Ascii("code") == CODE && STATE != CODE
  {
    assert |STATE| == 5 && |CODE| == 4;
  }

  lemma ParameterTaken(p: Parameter, f: Found)
    requires ParameterOk(p)
    ensures TakeParameter(ParameterText(p), f) ==
            if p.key == Ascii("state") then
              if f.state.Some? || p.value == [] then Err(Duplicated)
              else if |p.value| > 2048 then Err(TooLong) else Ok(f.(state := Some(p.value)))
            else if p.key == Ascii("code") then
              if f.code.Some? || p.value == [] then Err(Duplicated)
              else if |p.value| > 4096 then Err(TooLong) else Ok(f.(code := Some(p.value)))
            else Ok(f)
  {
    ParameterSplits(p);
    ParameterNames();
    hide Ascii, SplitOnce, DecodeComponent, ParameterText, Spells, Utf8.Valid;
  }

  lemma TakenIsParameter(pair: Bytes, f: Found) returns (p: Parameter)
    requires TakeParameter(pair, f).Ok? && Free(pair, AMPERSAND)
    ensures ParameterOk(p) && ParameterText(p) == pair
  {
    hide DecodeComponent;
    var i := IndexOf(pair, EQUALS);
    var rawKey, rawValue := pair[..i], pair[i + 1..];
    p := Parameter(rawKey, rawValue, DecodeComponent(rawKey).value, DecodeComponent(rawValue).value);
    DecodesExactly(rawKey, p.key);
    DecodesExactly(rawValue, p.value);
    assert Ascii("=") == [EQUALS];
    assert pair == rawKey + [EQUALS] + rawValue;
    hide Spells, Utf8.Valid;
  }

  /** The value given last for a key. */
  function Given(ps: seq<Parameter>, key: Bytes): Option<Bytes> {
    if ps == [] then None
    else if ps[|ps| - 1].key == key then Some(ps[|ps| - 1].value)
    else Given(ps[..|ps| - 1], key)
  }

  predicate Within(ps: seq<Parameter>, key: Bytes, max: nat) {
    && (forall i :: 0 <= i < |ps| && ps[i].key == key ==> 0 < |ps[i].value| <= max)
    && (forall i, j :: 0 <= i < j < |ps| && ps[i].key == key ==> ps[j].key != key)
  }

  lemma {:induction false} GivenIs(ps: seq<Parameter>, key: Bytes)
    ensures Given(ps, key).None? <==> forall i :: 0 <= i < |ps| ==> ps[i].key != key
    ensures forall v :: Given(ps, key) == Some(v) ==> exists i :: 0 <= i < |ps| && ps[i].key == key && ps[i].value == v
    decreases |ps|
  {
    if ps != [] {
      var init := ps[..|ps| - 1];
      GivenIs(init, key);
      assert forall i :: 0 <= i < |init| ==> init[i] == ps[i];
    }
  }

  lemma WithinMore(ps: seq<Parameter>, p: Parameter, key: Bytes, max: nat)
    ensures Within(ps + [p], key, max) <==>
            Within(ps, key, max) && (p.key == key ==> Given(ps, key).None? && 0 < |p.value| <= max)
    ensures Given(ps + [p], key) == if p.key == key then Some(p.value) else Given(ps, key)
  {
    var more := ps + [p];
    assert more[..|ps|] == ps && more[|ps|] == p && forall i :: 0 <= i < |ps| ==> more[i] == ps[i];
    GivenIs(ps, key);
    assert Given(more, key) == if p.key == key then Some(p.value) else Given(ps, key);
    hide Given;
  }

  lemma TakeMoreParameters(ps: seq<Parameter>, p: Parameter)
    ensures var before := TakeParameters(ParameterTexts(ps));
            TakeParameters(ParameterTexts(ps + [p])) ==
            if before.Ok? then TakeParameter(ParameterText(p), before.value) else before
  {
    hide TakeParameter, ParameterText;
    var texts := ParameterTexts(ps + [p]);
    assert texts[..|ps|] == ParameterTexts(ps) && texts[|ps|] == ParameterText(p);
  }

  lemma {:induction false} ParametersTaken(ps: seq<Parameter>)
    requires forall i :: 0 <= i < |ps| ==> ParameterOk(ps[i])
    ensures TakeParameters(ParameterTexts(ps)).Ok? <==> Within(ps, Ascii("state"), 2048) && Within(ps, Ascii("code"), 4096)
    ensures TakeParameters(ParameterTexts(ps)).Ok? ==>
              TakeParameters(ParameterTexts(ps)).value == Found(Given(ps, Ascii("state")), Given(ps, Ascii("code")))
    decreases |ps|
  {
    ParameterNames();
    hide Ascii, ParameterOk, ParameterText, TakeParameter;
    if ps != [] {
      hide Within, Given, TakeParameters, ParameterTexts;
      var init, p := ps[..|ps| - 1], ps[|ps| - 1];
      ParametersTaken(init);
      assert ps == init + [p];
      TakeMoreParameters(init, p);
      WithinMore(init, p, Ascii("state"), 2048);
      WithinMore(init, p, Ascii("code"), 4096);
      if TakeParameters(ParameterTexts(init)).Ok? {
        ParameterTaken(p, TakeParameters(ParameterTexts(init)).value);
      }
    }
  }

  lemma {:induction false} TakenAreParameters(pairs: seq<Bytes>) returns (ps: seq<Parameter>)
    requires TakeParameters(pairs).Ok? && forall i :: 0 <= i < |pairs| ==> Free(pairs[i], AMPERSAND)
    ensures ParameterTexts(ps) == pairs && forall i :: 0 <= i < |ps| ==> ParameterOk(ps[i])
    decreases |pairs|
  {
    hide ParameterOk, ParameterText, TakeParameter, Free;
    if pairs == [] {
      ps := [];
    } else {
      var init, last := pairs[..|pairs| - 1], pairs[|pairs| - 1];
      var before := TakenAreParameters(init);
      var p := TakenIsParameter(last, TakeParameters(init).value);
      ps := before + [p];
      assert pairs == init + [last];
      assert ParameterTexts(ps) == ParameterTexts(before) + [ParameterText(p)];
    }
  }

  lemma GivenOnceIs(ps: seq<Parameter>, key: string, value: Bytes, max: nat)
    ensures GivenOnce(ps, key, value, max) <==> Within(ps, Ascii(key), max) && Given(ps, Ascii(key)) == Some(value)
  {
    hide Ascii;
    GivenIs(ps, Ascii(key));
  }

  lemma QueryIsParsed(query: Bytes, ps: seq<Parameter>, state: Bytes, code: Bytes)
    requires QueryOk(query, ps, state, code)
    ensures ParseQuery(query) == Ok(Callback(state, code)) && query != []
  {
    assert Ascii("&") == [AMPERSAND];
    forall i | 0 <= i < |ps|
      ensures Free(ParameterTexts(ps)[i], AMPERSAND) && ParameterTexts(ps)[i] != []
    {
      ParameterSplits(ps[i]);
    }
    hide Ascii, ParameterOk, ParameterText, Free, Split, Spells;
    JoinedSplits(ParameterTexts(ps), AMPERSAND);
    ParametersTaken(ps);
    GivenOnceIs(ps, "state", state, 2048);
    GivenOnceIs(ps, "code", code, 4096);
    hide Within, Given, GivenOnce;
  }

  lemma ParsedIsQuery(query: Bytes, c: Callback) returns (ps: seq<Parameter>)
    requires ParseQuery(query) == Ok(c)
    ensures QueryOk(query, ps, c.state, c.code)
  {
    hide Split, TakeParameters, ParameterOk, ParameterText, Within, Given, GivenOnce, Free, Joined;
    SplitJoins(query, AMPERSAND);
    assert Ascii("&") == [AMPERSAND];
    ps := TakenAreParameters(Split(query, AMPERSAND));
    ParametersTaken(ps);
    GivenOnceIs(ps, "state", c.state, 2048);
    GivenOnceIs(ps, "code", c.code, 4096);
  }

  // ----- The whole request -----

  lemma Separators()
    ensures Ascii("\r\n") == CRLF && Ascii("\r\n\r\n") == END
  {
  }

  lemma LineIsFree(query: Bytes)
    requires forall i :: 0 <= i < |query| ==> TargetByte(query[i])
    ensures Free(LineText(query), CR)
  {
    assert Free(Ascii("GET /callback?"), CR) && Free(Ascii(" HTTP/1.1"), CR) && Free(query, CR);
    hide Ascii, TargetByte;
  }

  /** The lines of a request of the grammar are cut where they were joined. */
  lemma HeadIsCut(query: Bytes, fields: seq<Field>)
    requires forall i :: 0 <= i < |query| ==> TargetByte(query[i])
    requires forall i :: 0 <= i < |fields| ==> FieldOk(fields[i])
    ensures HeaderEnd(HeadText(query, fields) + END) == Some(|HeadText(query, fields)|)
    ensures Lines(HeadText(query, fields)) == [LineText(query)] + FieldTexts(fields)
  {
    LineIsFree(query);
    forall i | 0 <= i < |fields|
      ensures Free(FieldTexts(fields)[i], CR) && FieldTexts(fields)[i] != []
    {
      FieldSplits(fields[i]);
    }
    Separators();
    hide Free, LineText, FieldText, TargetByte, FieldOk, Ascii, HeaderEnd, Lines;
    var lines := [LineText(query)] + FieldTexts(fields);
    assert forall i :: 1 <= i < |lines| ==> lines[i] == FieldTexts(fields)[i - 1];
    JoinedEnds(lines);
    JoinedLines(lines);
  }

  lemma AcceptedIsParsed(
    request: Bytes, host: Bytes, state: Bytes, code: Bytes, query: Bytes, fields: seq<Field>, ps: seq<Parameter>)
    requires Accepts(request, host, state, code, query, fields, ps)
    ensures ParseRequest(request, host) == Ok(Callback(state, code))
  {
    hide FieldOk, TargetByte, QueryOk, Has, Named, Says, SaysZero, AtMostOnce, Ascii, HeaderEnd, Lines, RequestQuery, TakeHeaders,
      ParseQuery, LineText, FieldTexts, Utf8.Valid, HeadText;
    Separators();
    HeadIsCut(query, fields);
    QueryIsParsed(query, ps, state, code);
    LineIsRead(query);
    FieldsTaken(fields, host);
    var head := HeadText(query, fields);
    assert request[..|head|] == head;
    assert ([LineText(query)] + FieldTexts(fields))[1..] == FieldTexts(fields);
  }

  lemma ParsedIsAccepted(request: Bytes, host: Bytes, c: Callback)
    returns (query: Bytes, fields: seq<Field>, ps: seq<Parameter>)
    requires ParseRequest(request, host) == Ok(c)
    ensures Accepts(request, host, c.state, c.code, query, fields, ps)
  {
    hide FieldOk, TargetByte, QueryOk, Has, Named, Says, SaysZero, AtMostOnce, Ascii, HeaderEnd, Lines, RequestQuery, TakeHeaders,
      ParseQuery, LineText, FieldTexts, Utf8.Valid, Joined;
    Separators();
    EndIsThere(request);
    var head := request[..|request| - 4];
    assert request == head + END;
    var lines := Lines(head);
    LinesJoin(head);
    query := RequestQuery(lines[0]).value;
    ReadIsLine(lines[0]);
    fields := TakenAreFields(lines[1..], host);
    FieldsTaken(fields, host);
    ps := ParsedIsQuery(query, c);
    assert lines == [lines[0]] + lines[1..];
  }

  /** The parser accepts exactly the requests of the grammar, and returns their state and code. */
  lemma ParserAcceptsGrammar(request: Bytes, host: Bytes, state: Bytes, code: Bytes)
    ensures ParseRequest(request, host) == Ok(Callback(state, code)) <==>
            exists query, fields, ps :: Accepts(request, host, state, code, query, fields, ps)
  {
    hide ParseRequest, Accepts;
    if ParseRequest(request, host) == Ok(Callback(state, code)) {
      var query, fields, ps := ParsedIsAccepted(request, host, Callback(state, code));
    }
    if exists query, fields, ps :: Accepts(request, host, state, code, query, fields, ps) {
      var query, fields, ps :| Accepts(request, host, state, code, query, fields, ps);
      AcceptedIsParsed(request, host, state, code, query, fields, ps);
    }
  }
}
