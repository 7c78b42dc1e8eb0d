/** Parsing a rendered callback request returns exactly what was rendered. */
module CallbackRoundTrip {
  import opened Common
  import opened CallbackRequest
  import Utf8

  // ----- Percent encoding -----

  /** Unreserved characters of section 2.3 of RFC 3986. */
  predicate IsUnreserved(b: byte) { IsAlphanumeric(b) || b == 45 || b == 46 || b == 95 || b == 126 }

  function HexDigit(n: nat): byte
    requires n < 16
  {
    if n < 10 then (48 + n) as byte else (65 + n - 10) as byte
  }

  function EncodeByte(b: byte, escape: bool): Bytes {
    if IsUnreserved(b) && !escape then [b] else [PERCENT, HexDigit(b as int / 16), HexDigit(b as int % 16)]
  }

  /** Every byte that is not unreserved is escaped; `escape` chooses whether others are, too. */
  function Encode(value: Bytes, escape: seq<bool>): Bytes
    requires |value| == |escape|
  {
    if value == [] then [] else EncodeByte(value[0], escape[0]) + Encode(value[1..], escape[1..])
  }

  predicate IsEncodedByte(b: byte) { IsUnreserved(b) || b == PERCENT }

  predicate EncodedText(s: Bytes) { forall i :: 0 <= i < |s| ==> IsEncodedByte(s[i]) }

  lemma HexRoundTrip(b: byte)
    ensures HexValue(HexDigit(b as int / 16)) == Some((b as int / 16) as byte)
    ensures HexValue(HexDigit(b as int % 16)) == Some((b as int % 16) as byte)
    ensures IsUnreserved(HexDigit(b as int / 16)) && IsUnreserved(HexDigit(b as int % 16))
    ensures (b as int / 16 * 16 + b as int % 16) % 256 == b as int
  {
  }

  lemma {:induction false} EncodeIsText(value: Bytes, escape: seq<bool>)
    requires |value| == |escape|
    ensures EncodedText(Encode(value, escape)) && |Encode(value, escape)| >= |value|
    decreases |value|
  {
    if value != [] {
      EncodeIsText(value[1..], escape[1..]);
      HexRoundTrip(value[0]);
      hide HexDigit;
      assert EncodedText(EncodeByte(value[0], escape[0]));
    }
  }

  /** Decoding undoes encoding, whichever bytes were escaped. */
  lemma {:induction false} DecodeEncode(value: Bytes, escape: seq<bool>)
    requires |value| == |escape|
    ensures PercentDecode(Encode(value, escape)) == Some(value)
    decreases |value|
  {
    if value != [] {
      var b, head, rest := value[0], EncodeByte(value[0], escape[0]), Encode(value[1..], escape[1..]);
      DecodeEncode(value[1..], escape[1..]);
      HexRoundTrip(b);
      assert value == [b] + value[1..];
      if |head| == 1 {
        assert (head + rest)[1..] == rest;
      } else {
        hide HexDigit, HexValue;
        assert (head + rest)[3..] == rest;
      }
    }
  }

  // ----- Cutting rendered text -----

  predicate Free(s: Bytes, b: byte) { forall i :: 0 <= i < |s| ==> s[i] != b }

  lemma {:induction false} IndexOfAfter(a: Bytes, b: byte, rest: Bytes)
    requires Free(a, b)
    ensures IndexOf(a + [b] + rest, b) == |a| && IndexOf(a, b) == |a|
  {
    var s := a + [b] + rest;
    var i := IndexOf(s, b);
    assert s[|a|] == b;
    assert forall k :: 0 <= k < |a| ==> s[k] == a[k];
  }

  lemma SplitAfter(a: Bytes, b: byte, rest: Bytes)
    requires Free(a, b)
    ensures Split(a + [b] + rest, b) == [a] + Split(rest, b)
    ensures Split(a, b) == [a]
    ensures SplitOnce(a + [b] + rest, b) == Some((a, rest))
  {
    IndexOfAfter(a, b, rest);
    assert (a + [b] + rest)[..|a|] == a && (a + [b] + rest)[|a| + 1..] == rest;
  }

  lemma {:induction false} CrLfAfter(a: Bytes, rest: Bytes)
    requires Free(a, CR)
    ensures IndexOfCrLf(a + CRLF + rest) == |a| && IndexOfCrLf(a) == |a|
    decreases |a|
  {
    if a == [] {
      assert a + CRLF + rest == CRLF + rest;
    } else {
      hide IndexOfCrLf;
      CrLfAfter(a[1..], rest);
      CrLfShift(a[0], a[1..] + CRLF + rest);
      CrLfShift(a[0], a[1..]);
      Unshift(a, CRLF, rest);
    }
  }

  lemma Unshift(a: Bytes, b: Bytes, c: Bytes)
    requires a != []
    ensures [a[0]] + (a[1..] + b + c) == a + b + c && [a[0]] + a[1..] == a
  {
  }

  lemma CrLfShift(b: byte, rest: Bytes)
    requires b != CR
    ensures IndexOfCrLf([b] + rest) == 1 + IndexOfCrLf(rest)
  {
    assert ([b] + rest)[1..] == rest && ([b] + rest)[0] == b;
  }

  lemma TwoLines(a: Bytes, b: Bytes)
    requires Free(a, CR) && Free(b, CR)
    ensures Lines(a + CRLF + b) == [a, b]
  {
    CrLfAfter(a, b);
    CrLfAfter(b, []);
    assert (a + CRLF + b)[..|a|] == a && (a + CRLF + b)[|a| + 2..] == b;
  }

  lemma {:induction false} EndAfter(a: Bytes, rest: Bytes)
    requires Free(a, CR) && HeaderEnd(rest).Some?
    ensures HeaderEnd(a + rest) == Some(|a| + HeaderEnd(rest).value)
    decreases |a|
  {
    if a == [] {
      assert a + rest == rest;
    } else {
      EndAfter(a[1..], rest);
      assert (a + rest)[1..] == a[1..] + rest;
      assert (a + rest)[0] == a[0];
    }
  }

  lemma EndShift(b: byte, rest: Bytes)
    requires HeaderEnd(rest).Some? && !(END <= [b] + rest)
    ensures HeaderEnd([b] + rest) == Some(HeaderEnd(rest).value + 1)
  {
    assert ([b] + rest)[1..] == rest;
  }

  lemma EndAtOnce()
    ensures HeaderEnd(END) == Some(0)
  {
  }

  lemma EndBehindLine(rest: Bytes)
    requires HeaderEnd(rest).Some? && rest[0] != CR
    ensures HeaderEnd(CRLF + rest) == Some(HeaderEnd(rest).value + 2)
  {
    var one := [LF] + rest;
    EndShift(LF, rest);
    assert ([CR] + one)[2] == rest[0];
    EndShift(CR, one);
    hide HeaderEnd;
    assert CRLF + rest == [CR] + one;
  }

  /** The blank line of a two-line head is its end. */
  lemma HeadEnd(a: Bytes, b: Bytes)
    requires Free(a, CR) && Free(b, CR) && b != []
    ensures HeaderEnd(a + CRLF + b + END) == Some(|a| + 2 + |b|)
  {
    hide HeaderEnd;
    FirstKept(b, END);
    hide Free;
    EndAtOnce();
    EndAfter(b, END);
    EndBehindLine(b + END);
    EndAfter(a, CRLF + (b + END));
    Regroup(a, CRLF, b, END);
  }

  lemma FirstKept(b: Bytes, rest: Bytes)
    requires Free(b, CR) && b != []
    ensures (b + rest)[0] != CR
  {
  }

  lemma Regroup(a: Bytes, b: Bytes, c: Bytes, d: Bytes)
    ensures a + (b + (c + d)) == a + b + c + d
  {
  }

  // ----- The rendered request -----

  function Pair(key: Bytes, value: Bytes): Bytes { key + [EQUALS] + value }

  function Query(state: Bytes, code: Bytes): Bytes { Pair(STATE, state) + [AMPERSAND] + Pair(CODE, code) }

  function TargetText(query: Bytes): Bytes { PATH + [QUESTION] + query }

  function RequestLineText(query: Bytes): Bytes { GET + [SPACE] + (TargetText(query) + [SPACE] + HTTP11) }

  const HOST_FIELD: Bytes := [72, 111, 115, 116]

  function HostLine(host: Bytes): Bytes { HOST_FIELD + [COLON] + ([SPACE] + host) }

  function Render(query: Bytes, host: Bytes): Bytes { RequestLineText(query) + CRLF + HostLine(host) + END }

  /** An address and port, as the session's own authority is written. */
  predicate HostText(h: Bytes) {
    h != [] && forall i :: 0 <= i < |h| ==> 48 <= h[i] <= 57 || h[i] == 46 || h[i] == COLON
  }

  predicate QueryByte(b: byte) { IsEncodedByte(b) || b == EQUALS || b == AMPERSAND }

  predicate QueryText(s: Bytes) { forall i :: 0 <= i < |s| ==> QueryByte(s[i]) }

  lemma QueryIsText(state: Bytes, code: Bytes)
    requires EncodedText(state) && EncodedText(code)
    ensures QueryText(Query(state, code)) && Query(state, code) != []
  {
    assert forall b :: b in STATE || b in CODE ==> IsEncodedByte(b);
  }

  lemma TargetIsOk(query: Bytes)
    requires QueryText(query) && query != []
    ensures TargetOk(TargetText(query)) && Free(TargetText(query), SPACE) && Free(TargetText(query), CR)
  {
    var t := TargetText(query);
    forall i | 0 <= i < |t|
      ensures t[i] < 128 && !IsControl(t[i]) && t[i] != SPACE && t[i] != HASH && t[i] != CR
    {
      if i >= 10 {
        assert t[i] == query[i - 10];
      }
    }
  }

  lemma ThreeParts(a: Bytes, t: Bytes, v: Bytes)
    requires Free(a, SPACE) && Free(t, SPACE) && Free(v, SPACE)
    ensures Split(a + [SPACE] + (t + [SPACE] + v), SPACE) == [a, t, v]
  {
    SplitAfter(a, SPACE, t + [SPACE] + v);
    SplitAfter(t, SPACE, v);
    SplitAfter(v, SPACE, []);
    hide Split;
  }

  lemma RequestQueryOf(line: Bytes, target: Bytes, query: Bytes)
    requires Split(line, SPACE) == [GET, target, HTTP11] && TargetOk(target)
    requires SplitOnce(target, QUESTION) == Some((PATH, query)) && query != []
    ensures RequestQuery(line) == Ok(query)
  {
    hide Split, SplitOnce, TargetOk;
  }

  lemma RequestLineParses(query: Bytes)
    requires QueryText(query) && query != []
    ensures RequestQuery(RequestLineText(query)) == Ok(query)
  {
    assert Free(GET, SPACE) && Free(HTTP11, SPACE);
    TargetIsOk(query);
    ThreeParts(GET, TargetText(query), HTTP11);
    TargetSplits(query);
    hide Split, TargetOk, TargetText, SplitOnce, QueryText, RequestQuery;
    RequestQueryOf(RequestLineText(query), TargetText(query), query);
  }

  lemma TargetSplits(query: Bytes)
    ensures SplitOnce(TargetText(query), QUESTION) == Some((PATH, query))
  {
    hide SplitOnce, Split, IndexOf;
    PathHasNoQuestion();
    hide Free;
    SplitAfter(PATH, QUESTION, query);
  }

  lemma PathHasNoQuestion()
    ensures Free(PATH, QUESTION)
  {
  }

  // ----- The Host header -----

  lemma {:induction false} TrimsToHost(host: Bytes)
    requires HostText(host)
    ensures Trim([SPACE] + host) == host
  {
    assert ([SPACE] + host)[1..] == host;
    assert !IsBlank(host[0]) && !IsBlank(host[|host| - 1]);
    assert TrimStart(host) == host;
  }

  lemma HostNameOk()
    ensures forall i :: 0 <= i < |HOST_FIELD| ==> IsHeaderNameByte(HOST_FIELD[i])
    ensures SameName(HOST_FIELD, HOST) && Free(HOST_FIELD, COLON)
  {
  }

  lemma HostLineParses(host: Bytes)
    requires HostText(host)
    ensures TakeHeader(HostLine(host), host, HeaderState(false, false)) == Ok(HeaderState(true, false))
  {
    HostNameOk();
    SplitAfter(HOST_FIELD, COLON, [SPACE] + host);
    TrimsToHost(host);
    var raw := [SPACE] + host;
    assert forall i :: 0 <= i < |raw| ==> !(IsControl(raw[i]) && raw[i] != TAB) by {
      assert forall i :: 1 <= i < |raw| ==> raw[i] == host[i - 1];
    }
    assert HostLine(host)[0] == HOST_FIELD[0];
    hide SplitOnce, Trim, IsHeaderNameByte, SameName;
  }

  lemma HeadersParse(host: Bytes)
    requires HostText(host)
    ensures TakeHeaders([HostLine(host)], host) == Ok(HeaderState(true, false))
  {
    HostLineParses(host);
    hide TakeHeader;
    assert [HostLine(host)][..0] == [];
    assert TakeHeaders([HostLine(host)][..0], host) == Ok(HeaderState(false, false));
  }

  lemma LinesHaveNoCr(query: Bytes, host: Bytes)
    requires QueryText(query) && query != [] && HostText(host)
    ensures Free(RequestLineText(query), CR) && Free(HostLine(host), CR) && HostLine(host) != []
    ensures Utf8.Valid(RequestLineText(query) + CRLF + HostLine(host))
  {
    TargetIsOk(query);
    var t := TargetText(query);
    assert forall i :: 0 <= i < |t| ==> t[i] < 128;
    hide TargetText;
    var line, other := RequestLineText(query), HostLine(host);
    assert forall i :: 0 <= i < |line| ==> line[i] != CR && line[i] < 128 by {
      assert forall i :: 4 <= i < 4 + |t| ==> line[i] == t[i - 4];
      assert forall i :: 4 + |t| <= i < |line| ==> line[i] == ([SPACE] + HTTP11)[i - 4 - |t|];
    }
    assert forall i :: 0 <= i < |other| ==> other[i] != CR && other[i] < 128 by {
      assert forall i :: 6 <= i < |other| ==> other[i] == host[i - 6];
    }
    Utf8.AsciiIsValid(line + CRLF + other);
  }

  // ----- The query -----

  lemma EncodedIsFree(s: Bytes)
    requires EncodedText(s)
    ensures Free(s, AMPERSAND) && Free(s, EQUALS)
  {
  }

  /** Names are spelled plainly and read back as themselves. */
  lemma {:induction false} PlainDecodes(s: Bytes)
    requires forall i :: 0 <= i < |s| ==> IsUnreserved(s[i])
    ensures PercentDecode(s) == Some(s)
    decreases |s|
  {
    if s != [] {
      hide PercentDecode, IsUnreserved;
      PlainDecodes(s[1..]);
      PlainByte(s[0], s[1..]);
      assert s == [s[0]] + s[1..];
    }
  }

  lemma PlainByte(b: byte, rest: Bytes)
    requires IsUnreserved(b)
    ensures PercentDecode([b] + rest) == Prepend([b], PercentDecode(rest))
  {
    assert ([b] + rest)[1..] == rest;
  }

  lemma NamesDecode()
    ensures DecodeComponent(STATE) == Ok(STATE) && DecodeComponent(CODE) == Ok(CODE)
    ensures Free(STATE, EQUALS) && Free(CODE, EQUALS) && Free(STATE, AMPERSAND) && Free(CODE, AMPERSAND)
    ensures STATE != CODE
  {
    hide PercentDecode, Utf8.Valid;
    PlainDecodes(STATE);
    PlainDecodes(CODE);
    Utf8.AsciiIsValid(STATE);
    Utf8.AsciiIsValid(CODE);
  }

  /** A value within its bounds: not empty, well-formed UTF-8. */
  predicate Sendable(value: Bytes, max: nat) { 0 < |value| <= max && Utf8.Valid(value) }

  lemma PairParses(key: Bytes, raw: Bytes, value: Bytes, f: Found)
    requires key in [STATE, CODE] && DecodeComponent(raw) == Ok(value)
    requires key == STATE ==> f.state.None? && 0 < |value| <= MAX_STATE_BYTES
    requires key == CODE ==> f.code.None? && 0 < |value| <= MAX_CODE_BYTES
    ensures TakeParameter(Pair(key, raw), f) ==
            Ok(if key == STATE then f.(state := Some(value)) else f.(code := Some(value)))
  {
    hide DecodeComponent, SplitOnce, Split, IndexOf, Free, TakeParameter;
    NamesDecode();
    assert key != [];
    SplitAfter(key, EQUALS, raw);
    SplitPairParses(Pair(key, raw), key, raw, value, f);
  }

  lemma SplitPairParses(pair: Bytes, key: Bytes, raw: Bytes, value: Bytes, f: Found)
    requires SplitOnce(pair, EQUALS) == Some((key, raw)) && key != []
    requires (key == STATE || key == CODE) && DecodeComponent(key) == Ok(key) && DecodeComponent(raw) == Ok(value)
    requires key == STATE ==> f.state.None? && 0 < |value| <= MAX_STATE_BYTES
    requires key == CODE ==> f.code.None? && 0 < |value| <= MAX_CODE_BYTES
    ensures TakeParameter(pair, f) ==
            Ok(if key == STATE then f.(state := Some(value)) else f.(code := Some(value)))
  {
    hide DecodeComponent, SplitOnce;
  }

  lemma QuerySplits(state: Bytes, code: Bytes)
    requires EncodedText(state) && EncodedText(code)
    ensures Split(Query(state, code), AMPERSAND) == [Pair(STATE, state), Pair(CODE, code)]
  {
    NamesDecode();
    EncodedIsFree(state);
    EncodedIsFree(code);
    var a, b := Pair(STATE, state), Pair(CODE, code);
    PairIsFree(STATE, state);
    PairIsFree(CODE, code);
    SplitAfter(a, AMPERSAND, b);
    SplitAfter(b, AMPERSAND, []);
    hide Split;
  }

  lemma PairIsFree(key: Bytes, raw: Bytes)
    requires Free(key, AMPERSAND) && Free(raw, AMPERSAND)
    ensures Free(Pair(key, raw), AMPERSAND)
  {
  }

  lemma QueryParses(state: Bytes, code: Bytes, rawState: Bytes, rawCode: Bytes)
    requires EncodedText(rawState) && EncodedText(rawCode)
    requires DecodeComponent(rawState) == Ok(state) && DecodeComponent(rawCode) == Ok(code)
    requires Sendable(state, MAX_STATE_BYTES) && Sendable(code, MAX_CODE_BYTES)
    ensures ParseQuery(Query(rawState, rawCode)) == Ok(Callback(state, code))
  {
    QuerySplits(rawState, rawCode);
    NamesDecode();
    var a, b := Pair(STATE, rawState), Pair(CODE, rawCode);
    PairParses(STATE, rawState, state, Found(None, None));
    PairParses(CODE, rawCode, code, Found(Some(state), None));
    hide Split, Query, Pair, TakeParameter, DecodeComponent;
    assert [a, b][..1] == [a] && [a][..0] == [];
    assert TakeParameters([a][..0]) == Ok(Found(None, None));
    assert TakeParameters([a, b][..1]) == Ok(Found(Some(state), None));
  }

  lemma HeadParses(a: Bytes, b: Bytes, host: Bytes, query: Bytes, c: Callback)
    requires Free(a, CR) && Free(b, CR) && b != [] && Utf8.Valid(a + CRLF + b)
    requires RequestQuery(a) == Ok(query) && TakeHeaders([b], host) == Ok(HeaderState(true, false))
    requires ParseQuery(query) == Ok(c)
    ensures ParseRequest(a + CRLF + b + END, host) == Ok(c)
  {
    hide HeaderEnd, Lines, Utf8.Valid, RequestQuery, TakeHeaders, ParseQuery, Free;
    HeadEnd(a, b);
    TwoLines(a, b);
    var request := a + CRLF + b + END;
    assert request[..|a| + 2 + |b|] == a + CRLF + b;
    assert [a, b][1..] == [b];
  }

  lemma EncodedCallbackArrives(state: Bytes, code: Bytes, rawState: Bytes, rawCode: Bytes, host: Bytes)
    requires Sendable(state, MAX_STATE_BYTES) && Sendable(code, MAX_CODE_BYTES) && HostText(host)
    requires EncodedText(rawState) && EncodedText(rawCode)
    requires DecodeComponent(rawState) == Ok(state) && DecodeComponent(rawCode) == Ok(code)
    ensures ParseRequest(Render(Query(rawState, rawCode), host), host) == Ok(Callback(state, code))
  {
    hide Query, RequestLineText, HostLine, Utf8.Valid, ParseQuery, TakeHeaders, RequestQuery, ParseRequest, HostText,
      QueryText, Free, DecodeComponent, EncodedText, Sendable;
    var query := Query(rawState, rawCode);
    QueryParses(state, code, rawState, rawCode);
    QueryIsText(rawState, rawCode);
    RequestLineParses(query);
    LinesHaveNoCr(query, host);
    HeadersParse(host);
    HeadParses(RequestLineText(query), HostLine(host), host, query, Callback(state, code));
  }

  lemma ComponentRoundTrip(value: Bytes, escape: seq<bool>)
    requires |escape| == |value| && Utf8.Valid(value)
    ensures EncodedText(Encode(value, escape)) && DecodeComponent(Encode(value, escape)) == Ok(value)
  {
    hide Encode, PercentDecode, EncodedText, Utf8.Valid;
    EncodeIsText(value, escape);
    DecodeEncode(value, escape);
  }

  /** The round trip of the parser: it gives back whatever state and code the request was rendered from. */
  lemma CallbackArrives(state: Bytes, code: Bytes, host: Bytes, escapeState: seq<bool>, escapeCode: seq<bool>)
    requires Sendable(state, MAX_STATE_BYTES) && Sendable(code, MAX_CODE_BYTES) && HostText(host)
    requires |escapeState| == |state| && |escapeCode| == |code|
    ensures var query := Query(Encode(state, escapeState), Encode(code, escapeCode));
            ParseRequest(Render(query, host), host) == Ok(Callback(state, code))
  {
    ComponentRoundTrip(state, escapeState);
    ComponentRoundTrip(code, escapeCode);
    hide *;
    EncodedCallbackArrives(state, code, Encode(state, escapeState), Encode(code, escapeCode), host);
  }
}
