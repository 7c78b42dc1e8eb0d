/** Why a callback request is refused: every error names something that the grammar forbids. */
module CallbackRefusal {
  import opened Common
  import opened R = CallbackRequest
  import opened T = CallbackRoundTrip
  import opened G = CallbackGrammar
  import Utf8

  // ----- What each error says -----

  predicate EndsAt(request: Bytes, i: int) { 0 <= i <= |request| - 4 && request[i..i + 4] == Ascii("\r\n\r\n") }

  /** The line asks for this target in the one supported way. */
  predicate Asks(line: Bytes, target: Bytes) {
    line == Ascii("GET ") + target + Ascii(" HTTP/1.1") && Free(target, ' ' as byte)
  }

  predicate IsField(line: Bytes, f: Field) { FieldOk(f) && FieldText(f) == line }

  ghost predicate NamedField(line: Bytes, name: string) { exists f :: IsField(line, f) && Named(f, name) }

  /** The lines before the k-th have a field with this name. */
  ghost predicate Earlier(lines: seq<Bytes>, k: int, name: string) {
    exists j :: 0 <= j < k && j < |lines| && NamedField(lines[j], name)
  }

  ghost predicate WrongHost(lines: seq<Bytes>, k: int, host: Bytes) {
    && 0 <= k < |lines|
    && exists f :: IsField(lines[k], f) && Named(f, "host") && (!Says(f, host) || Earlier(lines, k, "host"))
  }

  /** A body is announced, other than an empty one. */
  ghost predicate AnnouncesBody(lines: seq<Bytes>, k: int) {
    && 0 <= k < |lines|
    && exists f :: IsField(lines[k], f)
                   && (Named(f, "transfer-encoding")
                       || (Named(f, "content-length") && (!SaysZero(f) || Earlier(lines, k, "content-length"))))
  }

  /** What is wrong with the header lines. */
  ghost predicate WrongHeaders(lines: seq<Bytes>, host: Bytes, e: Invalid) {
    match e
    case Header => exists k :: 0 <= k < |lines| && forall f :: !IsField(lines[k], f)
    case HostInvalid => exists k :: WrongHost(lines, k, host)
    case BodyUnsupported => exists k :: AnnouncesBody(lines, k)
    case HostMissing => forall k :: 0 <= k < |lines| ==> !NamedField(lines[k], "host")
    case _ => false
  }

  // ----- Header lines -----

  lemma FieldIsUnique(f: Field, g: Field)
    requires FieldOk(f) && FieldOk(g) && FieldText(f) == FieldText(g)
    ensures f == g
  {
    FieldSplits(f);
    FieldSplits(g);
    hide FieldOk, FieldText, SplitOnce, IsHeaderNameByte, IsControl;
  }

  lemma HasIsEarlier(fields: seq<Field>, lines: seq<Bytes>, name: string)
    requires |fields| <= |lines| && FieldTexts(fields) == lines[..|fields|]
    requires forall i :: 0 <= i < |fields| ==> FieldOk(fields[i])
    ensures Has(fields, name) <==> Earlier(lines, |fields|, name)
  {
    hide FieldOk, FieldText, Named;
    assert forall i :: 0 <= i < |fields| ==> FieldTexts(fields)[i] == lines[i];
    if i :| 0 <= i < |fields| && Named(fields[i], name) {
      assert IsField(lines[i], fields[i]);
    }
    if Earlier(lines, |fields|, name) {
      var j :| 0 <= j < |fields| && NamedField(lines[j], name);
      var f :| IsField(lines[j], f) && Named(f, name);
      FieldIsUnique(f, fields[j]);
    }
  }

  /** The first line that is refused, with the fields before it. */
  lemma {:induction false} FirstRefused(lines: seq<Bytes>, host: Bytes) returns (k: nat, fields: seq<Field>)
    requires TakeHeaders(lines, host).Err?
    ensures k < |lines| && |fields| == k && FieldTexts(fields) == lines[..k] && Fit(fields, host)
    ensures forall i :: 0 <= i < k ==> FieldOk(fields[i])
    ensures TakeHeader(lines[k], host, HeaderState(Has(fields, "host"), Has(fields, "content-length"))) == Err(TakeHeaders(lines, host).error)
    decreases |lines|
  {
    hide TakeHeader, FieldOk, FieldText, Fit, Has;
    var init := lines[..|lines| - 1];
    if TakeHeaders(init, host).Err? {
      k, fields := FirstRefused(init, host);
      assert init[..k] == lines[..k];
    } else {
      k := |lines| - 1;
      fields := TakenAreFields(init, host);
      FieldsTaken(fields, host);
    }
  }

  lemma HeadersRefused(lines: seq<Bytes>, host: Bytes)
    requires TakeHeaders(lines, host).Err?
    ensures WrongHeaders(lines, host, TakeHeaders(lines, host).error)
  {
    var k, fields := FirstRefused(lines, host);
    HasIsEarlier(fields, lines, "host");
    HasIsEarlier(fields, lines, "content-length");
    var e, h := TakeHeaders(lines, host).error, HeaderState(Has(fields, "host"), Has(fields, "content-length"));
    hide FieldOk, FieldText, Named, Says, SaysZero, Has, Fit, Earlier, TakeHeaders;
    if f :| IsField(lines[k], f) {
      FieldTaken(f, host, h);
      hide TakeHeader;
      assert e == HostInvalid ==> WrongHost(lines, k, host);
      assert e == BodyUnsupported ==> AnnouncesBody(lines, k);
    } else {
      NotAField(lines[k], host, h);
    }
  }

  lemma NotAField(line: Bytes, host: Bytes, h: HeaderState)
    requires forall f :: !IsField(line, f)
    ensures TakeHeader(line, host, h) == Err(Header)
  {
    var cut := SplitOnce(line, COLON);
    if cut.Some? {
      var f := Field(cut.value.0, cut.value.1);
      var i := IndexOf(line, COLON);
      assert Ascii(":") == [COLON];
      assert line == line[..i] + [COLON] + line[i + 1..];
      assert FieldText(f) == line;
      assert !IsField(line, f);
      forall i | 0 <= i < |f.name|
        ensures TokenByte(f.name[i]) <==> IsHeaderNameByte(f.name[i])
      {
        TokenBytes(f.name[i]);
      }
      hide TokenByte, IsHeaderNameByte;
    }
  }

  lemma HostIsMissing(lines: seq<Bytes>, host: Bytes)
    requires TakeHeaders(lines, host).Ok? && !TakeHeaders(lines, host).value.host
    ensures WrongHeaders(lines, host, HostMissing)
  {
    var fields := TakenAreFields(lines, host);
    FieldsTaken(fields, host);
    assert lines[..|fields|] == lines;
    HasIsEarlier(fields, lines, "host");
    hide FieldOk, FieldText, Named, NamedField, Has, Fit, TakeHeaders;
  }

  // ----- The request line -----

  /** What is wrong with the request line. */
  ghost predicate WrongLine(line: Bytes, e: Invalid) {
    match e
    case RequestLine => forall t :: !Asks(line, t)
    case Target => exists t :: Asks(line, t) && (t == [] || exists i :: 0 <= i < |t| && !TargetByte(t[i]))
    case QueryMissing => exists t :: Asks(line, t) && Free(t, '?' as byte)
    case PathOrQuery => exists path, query :: WrongPath(line, path, query)
    case _ => false
  }

  ghost predicate WrongPath(line: Bytes, path: Bytes, query: Bytes) {
    && Asks(line, path + Ascii("?") + query) && Free(path, '?' as byte)
    && (path != Ascii("/callback") || query == [])
  }

  lemma AskedIsSplit(line: Bytes, t: Bytes)
    requires Asks(line, t)
    ensures Split(line, SPACE) == [GET, t, HTTP11]
  {
    assert Free(GET, SPACE) && Free(HTTP11, SPACE);
    hide Ascii, Split, Free;
    AskedText(t);
    ThreeParts(GET, t, HTTP11);
  }

  lemma SplitIsAsked(line: Bytes, t: Bytes)
    requires Split(line, SPACE) == [GET, t, HTTP11]
    ensures Asks(line, t)
  {
    hide Split, Joined;
    SplitJoins(line, SPACE);
    assert Split(line, SPACE)[1] == t;
    ThreeJoined(GET, t, HTTP11);
    hide Free;
    AskedText(t);
  }

  lemma AskedText(t: Bytes)
    ensures Ascii("GET ") + t + Ascii(" HTTP/1.1") == GET + [SPACE] + (t + [SPACE] + HTTP11)
  {
    assert Ascii("GET ") == GET + [SPACE] && Ascii(" HTTP/1.1") == [SPACE] + HTTP11;
    hide Ascii;
  }

  lemma LineRefused(line: Bytes)
    requires RequestQuery(line).Err?
    ensures WrongLine(line, RequestQuery(line).error)
  {
    var parts := Split(line, SPACE);
    if |parts| == 3 && parts[0] == GET && parts[2] == HTTP11 {
      var t := parts[1];
      assert parts == [GET, t, HTTP11];
      hide Split;
      SplitIsAsked(line, t);
      TargetRefused(line, t);
    } else {
      hide Split;
      forall t
        ensures !Asks(line, t)
      {
        if Asks(line, t) {
          AskedIsSplit(line, t);
        }
      }
      hide Asks;
    }
  }

  lemma TargetRefused(line: Bytes, t: Bytes)
    requires Asks(line, t) && Split(line, SPACE) == [GET, t, HTTP11] && RequestQuery(line).Err?
    ensures WrongLine(line, RequestQuery(line).error)
  {
    hide Split, Asks;
    forall b: byte
      ensures TargetByte(b) <==> b < 128 && !IsControl(b) && b != SPACE && b != HASH
    {
      assert Ascii("#") == [HASH];
    }
    assert PATH == Ascii("/callback") && Ascii("?") == [QUESTION];
    var i := IndexOf(t, QUESTION);
    if i < |t| {
      assert t == t[..i] + [QUESTION] + t[i + 1..];
      var path, query := t[..i], t[i + 1..];
      assert SplitOnce(t, QUESTION) == Some((path, query));
      assert Free(path, QUESTION);
      hide Ascii, TargetByte, IsControl, SplitOnce;
      assert path != PATH || query == [] ==> WrongPath(line, path, query);
    } else {
      assert Free(t, QUESTION);
      hide Ascii, TargetByte, IsControl;
    }
  }

  // ----- The query -----

  /** The pair is cut at its first equals sign. */
  predicate CutPair(pair: Bytes, rawKey: Bytes, rawValue: Bytes) {
    pair == rawKey + Ascii("=") + rawValue && Free(rawKey, '=' as byte)
  }

  ghost predicate Unreadable(raw: Bytes, e: Invalid) {
    if e == Escape then forall value :: !Spells(raw, value)
    else e == NotUtf8 && exists value :: Spells(raw, value) && !Utf8.Valid(value)
  }

  ghost predicate UnreadablePair(pairs: seq<Bytes>, k: int, key: Bytes, value: Bytes, e: Invalid) {
    0 <= k < |pairs| && CutPair(pairs[k], key, value) && (Unreadable(key, e) || Unreadable(value, e))
  }

  predicate IsParameter(pair: Bytes, p: Parameter) { ParameterText(p) == pair }

  ghost predicate WithKey(pair: Bytes, key: string) {
    exists p :: ParameterOk(p) && IsParameter(pair, p) && p.key == Ascii(key)
  }

  ghost predicate WrongParameter(pairs: seq<Bytes>, k: int, p: Parameter, key: string, max: nat, e: Invalid) {
    && 0 <= k < |pairs| && ParameterOk(p) && IsParameter(pairs[k], p) && p.key == Ascii(key)
    && if e == TooLong then |p.value| > max
       else e == Duplicated && (p.value == [] || exists j :: 0 <= j < k && WithKey(pairs[j], key))
  }

  /** What is wrong with the pairs of the query. */
  ghost predicate WrongPairs(pairs: seq<Bytes>, e: Invalid) {
    match e
    case QueryMalformed => exists k :: 0 <= k < |pairs| && forall key, value :: CutPair(pairs[k], key, value) ==> key == []
    case StateMissing => forall k :: 0 <= k < |pairs| ==> !WithKey(pairs[k], "state")
    case CodeMissing => forall k :: 0 <= k < |pairs| ==> !WithKey(pairs[k], "code")
    case _ =>
      || (exists k, key, value :: UnreadablePair(pairs, k, key, value, e))
      || (exists k, p :: WrongParameter(pairs, k, p, "state", 2048, e))
      || (exists k, p :: WrongParameter(pairs, k, p, "code", 4096, e))
  }

  lemma ComponentRefused(raw: Bytes)
    requires DecodeComponent(raw).Err?
    ensures Unreadable(raw, DecodeComponent(raw).error) && DecodeComponent(raw).error in [Escape, NotUtf8]
  {
    hide Utf8.Valid, PercentDecode;
    if PercentDecode(raw).Some? {
      var units := DecodedIsSpelled(raw);
    } else {
      forall value
        ensures !Spells(raw, value)
      {
        if Spells(raw, value) {
          var units :| SpelledBy(raw, value, units);
          SpelledDecodes(raw, value, units);
        }
      }
    }
  }

  lemma CutIsSplit(pair: Bytes, key: Bytes, value: Bytes)
    ensures CutPair(pair, key, value) <==> SplitOnce(pair, EQUALS) == Some((key, value))
  {
    assert Ascii("=") == [EQUALS];
    hide Ascii;
    if CutPair(pair, key, value) {
      SplitAfter(key, EQUALS, value);
    }
    var i := IndexOf(pair, EQUALS);
    if i < |pair| {
      assert pair == pair[..i] + [EQUALS] + pair[i + 1..];
    }
  }

  lemma {:induction false} FirstRefusedPair(pairs: seq<Bytes>) returns (k: nat, ps: seq<Parameter>)
    requires TakeParameters(pairs).Err? && forall i :: 0 <= i < |pairs| ==> Free(pairs[i], AMPERSAND)
    ensures k < |pairs| && |ps| == k && ParameterTexts(ps) == pairs[..k] && forall i :: 0 <= i < k ==> ParameterOk(ps[i])
    ensures TakeParameter(pairs[k], Found(Given(ps, Ascii("state")), Given(ps, Ascii("code")))) == Err(TakeParameters(pairs).error)
    decreases |pairs|
  {
    hide TakeParameter, ParameterOk, ParameterText, Given, Free, Ascii;
    var init := pairs[..|pairs| - 1];
    if TakeParameters(init).Err? {
      k, ps := FirstRefusedPair(init);
      assert init[..k] == pairs[..k];
    } else {
      k := |pairs| - 1;
      ps := TakenAreParameters(init);
      ParametersTaken(ps);
    }
  }

  lemma GivenIsEarlier(ps: seq<Parameter>, pairs: seq<Bytes>, key: string)
    requires |ps| <= |pairs| && ParameterTexts(ps) == pairs[..|ps|] && forall i :: 0 <= i < |ps| ==> ParameterOk(ps[i])
    ensures Given(ps, Ascii(key)).Some? <==> exists j :: 0 <= j < |ps| && WithKey(pairs[j], key)
  {
    hide ParameterOk, ParameterText, Ascii;
    GivenIs(ps, Ascii(key));
    assert forall i :: 0 <= i < |ps| ==> ParameterTexts(ps)[i] == pairs[i];
    if i :| 0 <= i < |ps| && ps[i].key == Ascii(key) {
      assert ParameterOk(ps[i]) && IsParameter(pairs[i], ps[i]);
    }
    if j :| 0 <= j < |ps| && WithKey(pairs[j], key) {
      var p :| ParameterOk(p) && IsParameter(pairs[j], p) && p.key == Ascii(key);
      SameParameter(p, ps[j]);
    }
  }

  lemma SameParameter(p: Parameter, q: Parameter)
    requires ParameterOk(p) && ParameterOk(q) && ParameterText(p) == ParameterText(q)
    ensures p == q
  {
    ParameterSplits(p);
    ParameterSplits(q);
    hide ParameterOk, ParameterText, SplitOnce, DecodeComponent;
  }

  lemma MalformedPair(pairs: seq<Bytes>, k: nat)
    requires k < |pairs| && (SplitOnce(pairs[k], EQUALS).None? || SplitOnce(pairs[k], EQUALS).value.0 == [])
    ensures WrongPairs(pairs, QueryMalformed)
  {
    forall key, value
      ensures CutPair(pairs[k], key, value) ==> key == []
    {
      CutIsSplit(pairs[k], key, value);
    }
    hide CutPair, SplitOnce;
  }

  lemma ReadablePair(pairs: seq<Bytes>, k: nat, p: Parameter, f: Found)
    requires k < |pairs| && ParameterOk(p) && IsParameter(pairs[k], p) && TakeParameter(pairs[k], f).Err?
    requires f.state.Some? <==> exists j :: 0 <= j < k && WithKey(pairs[j], "state")
    requires f.code.Some? <==> exists j :: 0 <= j < k && WithKey(pairs[j], "code")
    ensures WrongPairs(pairs, TakeParameter(pairs[k], f).error)
  {
    var e := TakeParameter(pairs[k], f).error;
    hide WithKey, ParameterOk, TakeParameter, Ascii, WrongPairs, ParameterText;
    ParameterTaken(p, f);
    if p.key == Ascii("state") {
      assert WrongParameter(pairs, k, p, "state", 2048, e);
    } else {
      assert WrongParameter(pairs, k, p, "code", 4096, e);
    }
    hide WrongParameter;
    WrongParameterCounts(pairs, k, p, e);
  }

  lemma WrongParameterCounts(pairs: seq<Bytes>, k: nat, p: Parameter, e: Invalid)
    requires e == TooLong || e == Duplicated
    requires WrongParameter(pairs, k, p, "state", 2048, e) || WrongParameter(pairs, k, p, "code", 4096, e)
    ensures WrongPairs(pairs, e)
  {
    hide WrongParameter, UnreadablePair;
  }

  lemma PairRefused(pairs: seq<Bytes>, k: nat, f: Found)
    requires k < |pairs| && Free(pairs[k], AMPERSAND) && TakeParameter(pairs[k], f).Err?
    requires f.state.Some? <==> exists j :: 0 <= j < k && WithKey(pairs[j], "state")
    requires f.code.Some? <==> exists j :: 0 <= j < k && WithKey(pairs[j], "code")
    ensures WrongPairs(pairs, TakeParameter(pairs[k], f).error)
  {
    hide DecodeComponent, SplitOnce, WithKey, CutPair, Unreadable, ParameterOk, Free;
    var cut := SplitOnce(pairs[k], EQUALS);
    if cut.None? || cut.value.0 == [] {
      hide WrongPairs;
      MalformedPair(pairs, k);
    } else {
      var key, value := cut.value.0, cut.value.1;
      CutIsSplit(pairs[k], key, value);
      var decodedKey, decodedValue := DecodeComponent(key), DecodeComponent(value);
      if decodedKey.Err? {
        ComponentRefused(key);
        assert UnreadablePair(pairs, k, key, value, decodedKey.error);
      } else if decodedValue.Err? {
        ComponentRefused(value);
        assert UnreadablePair(pairs, k, key, value, decodedValue.error);
      } else {
        hide WrongPairs, TakeParameter;
        var p := Parameter(key, value, decodedKey.value, decodedValue.value);
        ParameterIs(pairs[k], p);
        ReadablePair(pairs, k, p, f);
      }
    }
  }

  lemma ParameterIs(pair: Bytes, p: Parameter)
    requires Free(pair, AMPERSAND) && CutPair(pair, p.rawKey, p.rawValue) && p.rawKey != []
    requires DecodeComponent(p.rawKey) == Ok(p.key) && DecodeComponent(p.rawValue) == Ok(p.value)
    ensures ParameterOk(p) && ParameterText(p) == pair
  {
    DecodesExactly(p.rawKey, p.key);
    DecodesExactly(p.rawValue, p.value);
    hide Spells, Utf8.Valid, DecodeComponent;
    assert forall i :: 0 <= i < |p.rawKey| ==> pair[i] == p.rawKey[i];
    assert forall i :: 0 <= i < |p.rawValue| ==> pair[|p.rawKey| + 1 + i] == p.rawValue[i];
  }

  lemma QueryRefused(query: Bytes)
    requires ParseQuery(query).Err?
    ensures WrongPairs(Split(query, AMPERSAND), ParseQuery(query).error)
  {
    var pairs := Split(query, AMPERSAND);
    hide Split, Joined, Free, WithKey, WrongPairs;
    SplitJoins(query, AMPERSAND);
    if TakeParameters(pairs).Err? {
      var k, ps := FirstRefusedPair(pairs);
      hide TakeParameters, ParameterOk, Given, TakeParameter;
      GivenIsEarlier(ps, pairs, "state");
      GivenIsEarlier(ps, pairs, "code");
      PairRefused(pairs, k, Found(Given(ps, Ascii("state")), Given(ps, Ascii("code"))));
    } else {
      ParameterMissing(pairs);
    }
  }

  lemma ParameterMissing(pairs: seq<Bytes>)
    requires TakeParameters(pairs).Ok? && forall i :: 0 <= i < |pairs| ==> Free(pairs[i], AMPERSAND)
    ensures TakeParameters(pairs).value.state.None? ==> WrongPairs(pairs, StateMissing)
    ensures TakeParameters(pairs).value.code.None? ==> WrongPairs(pairs, CodeMissing)
  {
    hide Free, WithKey, TakeParameters, ParameterOk, Given;
    var ps := TakenAreParameters(pairs);
    ParametersTaken(ps);
    assert pairs[..|ps|] == pairs;
    GivenIsEarlier(ps, pairs, "state");
    GivenIsEarlier(ps, pairs, "code");
  }

  // ----- The whole request -----

  /** What each error says about a request. */
  ghost predicate Wrong(request: Bytes, host: Bytes, e: Invalid) {
    || (e == Incomplete && forall i :: !EndsAt(request, i))
    || (e == BodyUnsupported && exists i :: EndsAt(request, i) && i + 4 < |request|)
    || (EndsAt(request, |request| - 4) && WrongHead(request[..|request| - 4], host, e))
  }

  ghost predicate WrongHead(head: Bytes, host: Bytes, e: Invalid) {
    var lines := Lines(head);
    || (e == Malformed && !Utf8.Valid(head)) || WrongLine(lines[0], e) || WrongHeaders(lines[1..], host, e)
    || exists query :: lines[0] == LineText(query) && WrongPairs(Split(query, AMPERSAND), e)
  }

  lemma EndsLater(s: Bytes, i: int)
    requires |s| >= 1
    ensures EndsAt(s, i) <==> (i == 0 && END <= s) || (i > 0 && EndsAt(s[1..], i - 1))
  {
    Separators();
    hide Ascii;
    if 0 < i <= |s| - 4 {
      assert s[1..][i - 1..i + 3] == s[i..i + 4];
    }
  }

  lemma {:induction false} NoEnd(s: Bytes)
    ensures HeaderEnd(s).None? <==> forall i :: !EndsAt(s, i)
    decreases |s|
  {
    if HeaderEnd(s).Some? {
      EndHere(s);
    } else if |s| >= 4 {
      NoEnd(s[1..]);
      forall i
        ensures !EndsAt(s, i)
      {
        EndsLater(s, i);
      }
    }
  }

  /** Every refusal is justified by what the request is. */
  lemma RefusalIsJustified(request: Bytes, host: Bytes)
    requires ParseRequest(request, host).Err?
    ensures Wrong(request, host, ParseRequest(request, host).error)
  {
    hide Utf8.Valid, Lines, RequestQuery, TakeHeaders, ParseQuery, HeaderEnd, EndsAt, WrongLine, WrongHeaders, WrongPairs, Split, LineText;
    NoEnd(request);
    var end := HeaderEnd(request);
    if end.Some? {
      EndHere(request);
      var lines := Lines(request[..end.value]);
      if end.value + 4 == |request| {
        if RequestQuery(lines[0]).Err? {
          LineRefused(lines[0]);
        } else {
          ReadIsLine(lines[0]);
          var query, headers := RequestQuery(lines[0]).value, TakeHeaders(lines[1..], host);
          if headers.Err? {
            HeadersRefused(lines[1..], host);
          } else if !headers.value.host {
            HostIsMissing(lines[1..], host);
          } else if ParseQuery(query).Err? {
            QueryRefused(query);
          }
        }
      }
    }
  }

  lemma EndHere(request: Bytes)
    requires HeaderEnd(request).Some?
    ensures EndsAt(request, HeaderEnd(request).value)
  {
    Separators();
    EndIsThere(request);
  }
}
