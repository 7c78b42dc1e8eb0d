/**
  The loopback callback request of a native OAuth flow: a bounded `GET /callback` whose query
  carries `state` and `code` (section 4.1.2 of RFC 6749), percent-encoded (section 2.1 of
  RFC 3986).
 */
module CallbackRequest {
  import opened Common
  import Utf8

  const MAX_STATE_BYTES: nat := 2048
  const MAX_CODE_BYTES: nat := 4096

  const CR: byte := 13
  const LF: byte := 10
  const TAB: byte := 9
  const SPACE: byte := 32
  const CRLF: Bytes := [CR, LF]
  const END: Bytes := [CR, LF, CR, LF]

  const GET: Bytes := [71, 69, 84]
  const HTTP11: Bytes := [72, 84, 84, 80, 47, 49, 46, 49]
  const PATH: Bytes := [47, 99, 97, 108, 108, 98, 97, 99, 107]
  const HOST: Bytes := [104, 111, 115, 116]
  const CONTENT_LENGTH: Bytes := [99, 111, 110, 116, 101, 110, 116, 45, 108, 101, 110, 103, 116, 104]
  const TRANSFER_ENCODING: Bytes := [116, 114, 97, 110, 115, 102, 101, 114, 45, 101, 110, 99, 111, 100, 105, 110, 103]
  const STATE: Bytes := [115, 116, 97, 116, 101]
  const CODE: Bytes := [99, 111, 100, 101]

  const QUESTION: byte := 63
  const HASH: byte := 35
  const COLON: byte := 58
  const AMPERSAND: byte := 38
  const EQUALS: byte := 61
  const PERCENT: byte := 37
  const PLUS: byte := 43

  datatype Invalid =
    | Incomplete
    | BodyUnsupported
    | Malformed
    | RequestLine
    | Target
    | QueryMissing
    | PathOrQuery
    | Header
    | HostInvalid
    | HostMissing
    | QueryMalformed
    | Escape
    | NotUtf8
    | Duplicated
    | TooLong
    | StateMissing
    | CodeMissing

  datatype Callback = Callback(state: Bytes, code: Bytes)

  // ----- Cutting text -----

  /** The pieces between separators; there is always one piece. */
  function Split(s: Bytes, b: byte): (r: seq<Bytes>)
    ensures r != []
    decreases |s|
  {
    var i := IndexOf(s, b);
    if i == |s| then [s] else [s[..i]] + Split(s[i + 1..], b)
  }

  /** The parts before and after the first separator. */
  function SplitOnce(s: Bytes, b: byte): Option<(Bytes, Bytes)> {
    var i := IndexOf(s, b);
    if i == |s| then None else Some((s[..i], s[i + 1..]))
  }

  function IndexOfCrLf(s: Bytes): (i: nat)
    ensures i <= |s|
    ensures i < |s| ==> CRLF <= s[i..]
  {
    if s == [] || CRLF <= s then 0 else 1 + IndexOfCrLf(s[1..])
  }

  function Lines(s: Bytes): (r: seq<Bytes>)
    ensures r != []
    decreases |s|
  {
    var i := IndexOfCrLf(s);
    if i == |s| then [s] else [s[..i]] + Lines(s[i + 2..])
  }

  function HeaderEnd(s: Bytes): (r: Option<nat>)
    ensures r.Some? ==> r.value + 4 <= |s|
  {
    if |s| < 4 then None
    else if END <= s then Some(0)
    else
      var i :- HeaderEnd(s[1..]);
      Some(i + 1)
  }

  // ----- Percent decoding -----

  function HexValue(b: byte): Option<byte> {
    if 48 <= b <= 57 then Some(b - 48)
    else if 97 <= b <= 102 then Some(b - 97 + 10)
    else if 65 <= b <= 70 then Some(b - 65 + 10)
    else None
  }

  function PercentDecode(raw: Bytes): Option<Bytes> {
    if raw == [] then Some([])
    else if raw[0] == PERCENT then
      if |raw| < 3 then None
      else
        var high :- HexValue(raw[1]);
        var low :- HexValue(raw[2]);
        var rest :- PercentDecode(raw[3..]);
        Some([((high as int * 16 + low as int) % 256) as byte] + rest)
    else
      var rest :- PercentDecode(raw[1..]);
      Some([if raw[0] == PLUS then SPACE else raw[0]] + rest)
  }

  function DecodeComponent(raw: Bytes): Result<Bytes, Invalid> {
    match PercentDecode(raw)
    case None => Err(Escape)
    case Some(bytes) => if Utf8.Valid(bytes) then Ok(bytes) else Err(NotUtf8)
  }

  function Prepend(done: Bytes, rest: Option<Bytes>): Option<Bytes> {
    if rest.Some? then Some(done + rest.value) else None
  }

  lemma PrependStep(done: Bytes, b: byte, rest: Option<Bytes>)
    ensures Prepend(done, Prepend([b], rest)) == Prepend(done + [b], rest)
    ensures Prepend([], rest) == rest
  {
    if rest.Some? {
      assert done + ([b] + rest.value) == done + [b] + rest.value;
      assert [] + rest.value == rest.value;
    }
  }

  method DecodeRawComponent(raw: Bytes) returns (r: Result<Bytes, Invalid>)
    ensures r == DecodeComponent(raw)
  {
    hide Utf8.Valid, HexValue;
    var decoded: Bytes := [];
    var index := 0;
    assert raw[0..] == raw;
    PrependStep([], 0, PercentDecode(raw));
    while index < |raw|
      invariant 0 <= index <= |raw|
      invariant PercentDecode(raw) == Prepend(decoded, PercentDecode(raw[index..]))
    {
      if raw[index] == PERCENT {
        if index + 2 >= |raw| {
          return Err(Escape);
        }
        var high, low := HexValue(raw[index + 1]), HexValue(raw[index + 2]);
        if high.None? || low.None? {
          return Err(Escape);
        }
        var b := ((high.value as int * 16 + low.value as int) % 256) as byte;
        assert raw[index..][3..] == raw[index + 3..];
        assert PercentDecode(raw[index..]) == Prepend([b], PercentDecode(raw[index + 3..]));
        PrependStep(decoded, b, PercentDecode(raw[index + 3..]));
        decoded := decoded + [b];
        index := index + 3;
      } else {
        var b := if raw[index] == PLUS then SPACE else raw[index];
        assert raw[index..][1..] == raw[index + 1..];
        assert PercentDecode(raw[index..]) == Prepend([b], PercentDecode(raw[index + 1..]));
        PrependStep(decoded, b, PercentDecode(raw[index + 1..]));
        decoded := decoded + [b];
        index := index + 1;
      }
    }
    assert raw[index..] == [] && decoded + [] == decoded;
    return if Utf8.Valid(decoded) then Ok(decoded) else Err(NotUtf8);
  }

  // ----- Query -----

  /** The parameters seen so far. */
  datatype Found = Found(state: Option<Bytes>, code: Option<Bytes>)

  function TakeParameter(pair: Bytes, f: Found): Result<Found, Invalid> {
    match SplitOnce(pair, EQUALS)
    case None => Err(QueryMalformed)
    case Some((rawKey, rawValue)) =>
      if rawKey == [] then Err(QueryMalformed)
      else
        var key :- DecodeComponent(rawKey);
        var value :- DecodeComponent(rawValue);
        if key == STATE then
          if f.state.Some? || value == [] then Err(Duplicated)
          else if |value| > MAX_STATE_BYTES then Err(TooLong)
          else Ok(f.(state := Some(value)))
        else if key == CODE then
          if f.code.Some? || value == [] then Err(Duplicated)
          else if |value| > MAX_CODE_BYTES then Err(TooLong)
          else Ok(f.(code := Some(value)))
        else Ok(f)
  }

  function TakeParameters(pairs: seq<Bytes>): Result<Found, Invalid> {
    if pairs == [] then Ok(Found(None, None))
    else
      var before :- TakeParameters(pairs[..|pairs| - 1]);
      TakeParameter(pairs[|pairs| - 1], before)
  }

  function ParseQuery(query: Bytes): Result<Callback, Invalid> {
    var f :- TakeParameters(Split(query, AMPERSAND));
    if f.state.None? then Err(StateMissing)
    else if f.code.None? then Err(CodeMissing)
    else Ok(Callback(f.state.value, f.code.value))
  }

  // ----- Headers -----

  predicate IsControl(b: byte) { b < 32 || b == 127 }

  predicate IsAlphanumeric(b: byte) { 48 <= b <= 57 || 65 <= b <= 90 || 97 <= b <= 122 }

  const TOKEN_MARKS: Bytes := [33, 35, 36, 37, 38, 39, 42, 43, 45, 46, 94, 95, 96, 124, 126]

  predicate IsHeaderNameByte(b: byte) { IsAlphanumeric(b) || b in TOKEN_MARKS }

  function Lower(b: byte): byte { if 65 <= b <= 90 then b + 32 else b }

  predicate SameName(name: Bytes, lower: Bytes) {
    |name| == |lower| && forall i :: 0 <= i < |name| ==> Lower(name[i]) == lower[i]
  }

  predicate IsBlank(b: byte) { b == SPACE || b == TAB }

  function TrimStart(s: Bytes): Bytes { if s != [] && IsBlank(s[0]) then TrimStart(s[1..]) else s }

  function TrimEnd(s: Bytes): Bytes { if s != [] && IsBlank(s[|s| - 1]) then TrimEnd(s[..|s| - 1]) else s }

  function Trim(s: Bytes): Bytes { TrimEnd(TrimStart(s)) }

  datatype HeaderState = HeaderState(host: bool, contentLength: bool)

  function TakeHeader(line: Bytes, expectedHost: Bytes, h: HeaderState): Result<HeaderState, Invalid> {
    if line == [] || IsBlank(line[0]) then Err(Header)
    else
      match SplitOnce(line, COLON)
      case None => Err(Header)
      case Some((name, raw)) =>
        if name == [] || (exists i :: 0 <= i < |name| && !IsHeaderNameByte(name[i])) then Err(Header)
        else if exists i :: 0 <= i < |raw| && IsControl(raw[i]) && raw[i] != TAB then Err(Header)
        else
          var value := Trim(raw);
          if SameName(name, HOST) then
            if h.host || value != expectedHost then Err(HostInvalid) else Ok(h.(host := true))
          else if SameName(name, CONTENT_LENGTH) then
            // Only a zero length, written in digits, is allowed.
            if h.contentLength || value == [] || (exists i :: 0 <= i < |value| && value[i] != 48) then Err(BodyUnsupported)
            else Ok(h.(contentLength := true))
          else if SameName(name, TRANSFER_ENCODING) then Err(BodyUnsupported)
          else Ok(h)
  }

  function TakeHeaders(lines: seq<Bytes>, expectedHost: Bytes): Result<HeaderState, Invalid> {
    if lines == [] then Ok(HeaderState(false, false))
    else
      var before :- TakeHeaders(lines[..|lines| - 1], expectedHost);
      TakeHeader(lines[|lines| - 1], expectedHost, before)
  }

  // ----- Request line -----

  predicate TargetOk(target: Bytes) {
    target != [] && forall i :: 0 <= i < |target| ==>
      target[i] < 128 && !IsControl(target[i]) && target[i] != SPACE && target[i] != HASH
  }

  /** The query of an acceptable request line. */
  function RequestQuery(line: Bytes): Result<Bytes, Invalid> {
    var parts := Split(line, SPACE);
    var target := if |parts| > 1 then parts[1] else [];
    var version := if |parts| > 2 then parts[2] else [];
    if |parts| > 3 || parts[0] != GET || version != HTTP11 then Err(RequestLine)
    else if !TargetOk(target) then Err(Target)
    else
      match SplitOnce(target, QUESTION)
      case None => Err(QueryMissing)
      case Some((path, query)) => if path != PATH || query == [] then Err(PathOrQuery) else Ok(query)
  }

  function ParseRequest(request: Bytes, expectedHost: Bytes): Result<Callback, Invalid> {
    match HeaderEnd(request)
    case None => Err(Incomplete)
    case Some(end) =>
      if end + 4 != |request| then Err(BodyUnsupported)
      else if !Utf8.Valid(request[..end]) then Err(Malformed)
      else
        var lines := Lines(request[..end]);
        var query :- RequestQuery(lines[0]);
        var headers :- TakeHeaders(lines[1..], expectedHost);
        if !headers.host then Err(HostMissing) else ParseQuery(query)
  }

  /** One pair of the query, with both sides decoded. */
  method TakePair(pair: Bytes, f: Found) returns (r: Result<Found, Invalid>)
    ensures r == TakeParameter(pair, f)
  {
    hide DecodeComponent, SplitOnce;
    var parts := SplitOnce(pair, EQUALS);
    if parts.None? || parts.value.0 == [] {
      return Err(QueryMalformed);
    }
    var key :- DecodeRawComponent(parts.value.0);
    var value :- DecodeRawComponent(parts.value.1);
    if key == STATE {
      if f.state.Some? || value == [] {
        return Err(Duplicated);
      }
      return if |value| > MAX_STATE_BYTES then Err(TooLong) else Ok(f.(state := Some(value)));
    }
    if key == CODE {
      if f.code.Some? || value == [] {
        return Err(Duplicated);
      }
      return if |value| > MAX_CODE_BYTES then Err(TooLong) else Ok(f.(code := Some(value)));
    }
    return Ok(f);
  }

  method ParseQueryPairs(query: Bytes) returns (r: Result<Callback, Invalid>)
    ensures r == ParseQuery(query)
  {
    hide TakeParameter, Split;
    var pairs := Split(query, AMPERSAND);
    var found := Found(None, None);
    for i := 0 to |pairs|
      invariant TakeParameters(pairs[..i]) == Ok(found)
    {
      assert pairs[..i + 1][..i] == pairs[..i];
      var taken := TakePair(pairs[i], found);
      if taken.Err? {
        ParameterFailureStays(pairs, i + 1);
        return Err(taken.error);
      }
      found := taken.value;
    }
    assert pairs[..|pairs|] == pairs;
    if found.state.None? {
      return Err(StateMissing);
    }
    if found.code.None? {
      return Err(CodeMissing);
    }
    return Ok(Callback(found.state.value, found.code.value));
  }

  lemma {:induction false} ParameterFailureStays(pairs: seq<Bytes>, k: nat)
    requires k <= |pairs| && TakeParameters(pairs[..k]).Err?
    ensures TakeParameters(pairs) == TakeParameters(pairs[..k])
    decreases |pairs|
  {
    if k == |pairs| {
      assert pairs[..k] == pairs;
    } else {
      assert pairs[..|pairs| - 1][..k] == pairs[..k];
      ParameterFailureStays(pairs[..|pairs| - 1], k);
    }
  }

  method ParseHeaderLines(lines: seq<Bytes>, expectedHost: Bytes) returns (r: Result<HeaderState, Invalid>)
    ensures r == TakeHeaders(lines, expectedHost)
  {
    hide TakeHeader;
    var h := HeaderState(false, false);
    for i := 0 to |lines|
      invariant TakeHeaders(lines[..i], expectedHost) == Ok(h)
    {
      assert lines[..i + 1][..i] == lines[..i];
      var taken := TakeHeader(lines[i], expectedHost, h);
      if taken.Err? {
        HeaderFailureStays(lines, expectedHost, i + 1);
        return Err(taken.error);
      }
      h := taken.value;
    }
    assert lines[..|lines|] == lines;
    return Ok(h);
  }

  lemma {:induction false} HeaderFailureStays(lines: seq<Bytes>, expectedHost: Bytes, k: nat)
    requires k <= |lines| && TakeHeaders(lines[..k], expectedHost).Err?
    ensures TakeHeaders(lines, expectedHost) == TakeHeaders(lines[..k], expectedHost)
    decreases |lines|
  {
    if k == |lines| {
      assert lines[..k] == lines;
    } else {
      assert lines[..|lines| - 1][..k] == lines[..k];
      HeaderFailureStays(lines[..|lines| - 1], expectedHost, k);
    }
  }

  method ParseCallback(request: Bytes, expectedHost: Bytes) returns (r: Result<Callback, Invalid>)
    ensures r == ParseRequest(request, expectedHost)
  {
    hide HeaderEnd, Lines, RequestQuery, TakeHeaders, ParseQuery, Utf8.Valid;
    var end := HeaderEnd(request);
    if end.None? {
      return Err(Incomplete);
    }
    if end.value + 4 != |request| {
      return Err(BodyUnsupported);
    }
    if !Utf8.Valid(request[..end.value]) {
      return Err(Malformed);
    }
    var lines := Lines(request[..end.value]);
    var query :- RequestQuery(lines[0]);
    var headers :- ParseHeaderLines(lines[1..], expectedHost);
    if !headers.host {
      return Err(HostMissing);
    }
    r := ParseQueryPairs(query);
  }

  // ----- What acceptance means -----

  /** The decoded key of one pair, when it can be read. */
  function KeyOf(pair: Bytes): Option<Bytes> {
    var cut := SplitOnce(pair, EQUALS);
    if cut.None? then None
    else
      var key := DecodeComponent(cut.value.0);
      if key.Ok? then Some(key.value) else None
  }

  function ValueOf(pair: Bytes): Option<Bytes> {
    var cut := SplitOnce(pair, EQUALS);
    if cut.None? then None
    else
      var value := DecodeComponent(cut.value.1);
      if value.Ok? then Some(value.value) else None
  }

  /** Values given for a key, in order. */
  function ValuesOf(pairs: seq<Bytes>, key: Bytes): seq<Option<Bytes>> {
    if pairs == [] then []
    else
      var last := pairs[|pairs| - 1];
      ValuesOf(pairs[..|pairs| - 1], key) + (if KeyOf(last) == Some(key) then [ValueOf(last)] else [])
  }

  function AsList(v: Option<Bytes>): seq<Option<Bytes>> { if v.Some? then [v] else [] }

  lemma TakenParameter(pair: Bytes, f: Found)
    requires TakeParameter(pair, f).Ok?
    ensures var f' := TakeParameter(pair, f).value;
            && AsList(f'.state) == AsList(f.state) + (if KeyOf(pair) == Some(STATE) then [ValueOf(pair)] else [])
            && AsList(f'.code) == AsList(f.code) + (if KeyOf(pair) == Some(CODE) then [ValueOf(pair)] else [])
  {
    hide DecodeComponent, SplitOnce;
  }

  lemma {:induction false} TakenParameters(pairs: seq<Bytes>)
    requires TakeParameters(pairs).Ok?
    ensures AsList(TakeParameters(pairs).value.state) == ValuesOf(pairs, STATE)
    ensures AsList(TakeParameters(pairs).value.code) == ValuesOf(pairs, CODE)
    decreases |pairs|
  {
    if pairs != [] {
      hide TakeParameter, KeyOf, ValueOf;
      var init := pairs[..|pairs| - 1];
      TakenParameters(init);
      TakenParameter(pairs[|pairs| - 1], TakeParameters(init).value);
    }
  }

  /** The query of a request whose line is acceptable. */
  function QueryOf(request: Bytes): Option<Bytes> {
    var end := HeaderEnd(request);
    if end.None? then None
    else
      var query := RequestQuery(Lines(request[..end.value])[0]);
      if query.Ok? then Some(query.value) else None
  }

  /**
    An accepted request gives each parameter exactly once, and the result is its decoded
    value.  So a request that repeats either parameter, under any encoding of its name, is
    rejected.
   */
  lemma AcceptedParametersAreUnique(request: Bytes, expectedHost: Bytes)
    requires ParseRequest(request, expectedHost).Ok?
    ensures QueryOf(request).Some?
    ensures var pairs := Split(QueryOf(request).value, AMPERSAND);
            var c := ParseRequest(request, expectedHost).value;
            ValuesOf(pairs, STATE) == [Some(c.state)] && ValuesOf(pairs, CODE) == [Some(c.code)]
  {
    hide HeaderEnd, Lines, RequestQuery, TakeHeaders, Split, Utf8.Valid, TakeParameters, ValuesOf;
    TakenParameters(Split(QueryOf(request).value, AMPERSAND));
  }
}
