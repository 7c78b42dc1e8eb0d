/**
  The session that waits for one callback: it reads the accepted socket in bounded chunks
  until the head of the request is complete, and no further than its limit.
 */
module CallbackSession {
  import opened Common
  import opened CallbackRequest
  import T = CallbackRoundTrip

  const MAX_REQUEST_BYTES: nat := 8192
  const READ_CHUNK_BYTES: nat := 1024

  datatype SessionError = Request(error: Invalid) | ExceedsLimit

  type Outcome = Result<Callback, SessionError>

  function OutcomeOf(r: Result<Callback, Invalid>): Outcome {
    match r
    case Ok(c) => Ok(c)
    case Err(e) => Err(Request(e))
  }

  function Min(a: nat, b: nat): nat { if a <= b then a else b }

  /** A read delivers at least one byte, and no more than fits and is there. */
  function ReadSize(cut: nat, remaining: nat, available: nat): (n: nat)
    requires remaining > 0 && available > 0
    ensures 1 <= n <= remaining && n <= available && n <= READ_CHUNK_BYTES
  {
    Max(1, Min(cut, Min(READ_CHUNK_BYTES, Min(remaining, available))))
  }

  /** What is decided once these bytes have been received. */
  function Decision(request: Bytes, host: Bytes): (d: Option<Outcome>)
    ensures d.None? ==> |request| != MAX_REQUEST_BYTES
  {
    if HeaderEnd(request).Some? then Some(OutcomeOf(ParseRequest(request, host)))
    else if |request| == MAX_REQUEST_BYTES then Some(Err(ExceedsLimit))
    else None
  }

  /** `cuts` chooses the size of every read; an exhausted input is a closed connection. */
  function Session(request: Bytes, input: Bytes, cuts: nat -> nat, k: nat, host: Bytes): Outcome
    requires |request| < MAX_REQUEST_BYTES
    decreases |input|
  {
    if input == [] then Err(Request(Incomplete))
    else
      var n := ReadSize(cuts(k), MAX_REQUEST_BYTES - |request|, |input|);
      var more := request + input[..n];
      match Decision(more, host)
      case Some(outcome) => outcome
      case None => Session(more, input[n..], cuts, k + 1, host)
  }

  lemma BodyIsRefused(request: Bytes, host: Bytes)
    requires HeaderEnd(request).Some? && HeaderEnd(request).value + 4 != |request|
    ensures ParseRequest(request, host) == Err(BodyUnsupported)
  {
    hide HeaderEnd, Lines, RequestQuery, TakeHeaders, ParseQuery;
  }

  lemma SessionReads(input: Bytes, read: nat, cuts: nat -> nat, k: nat, host: Bytes)
    requires read < |input| && read < MAX_REQUEST_BYTES
    ensures var next := read + ReadSize(cuts(k), MAX_REQUEST_BYTES - read, |input| - read);
            Session(input[..read], input[read..], cuts, k, host) ==
            match Decision(input[..next], host)
            case Some(outcome) => outcome
            case None => Session(input[..next], input[next..], cuts, k + 1, host)
  {
    hide Decision;
    var n := ReadSize(cuts(k), MAX_REQUEST_BYTES - read, |input| - read);
    assert input[..read] + input[read..][..n] == input[..read + n];
    assert input[read..][n..] == input[read + n..];
  }

  class NativePreparedCallbackSession {
    const expectedHost: Bytes
    var request: Bytes
    var parsed: Option<Outcome>
    // The browser is shown a receipt or a refusal.
    var receipt: bool

    constructor (expectedHost: Bytes)
      ensures this.expectedHost == expectedHost && request == [] && parsed.None?
    {
      this.expectedHost, request, parsed, receipt := expectedHost, [], None, false;
    }

    method Receive(bytes: Bytes)
      requires parsed.None?
      modifies this
      ensures request == old(request) + bytes
      ensures parsed == Decision(request, expectedHost)
      ensures receipt <==> parsed.Some? && parsed.value.Ok?
    {
      hide HeaderEnd, ParseRequest;
      request := request + bytes;
      receipt := false;
      if HeaderEnd(request).Some? {
        var result := ParseCallback(request, expectedHost);
        parsed, receipt := Some(OutcomeOf(result)), result.Ok?;
        if HeaderEnd(request).value + 4 != |request| {
          BodyIsRefused(request, expectedHost);
          parsed, receipt := Some(Err(Request(BodyUnsupported))), false;
        }
      } else if |request| == MAX_REQUEST_BYTES {
        parsed := Some(Err(ExceedsLimit));
      }
    }

    /** Read until the request is decided. */
    method WaitOne(input: Bytes, cuts: nat -> nat)
      requires request == [] && parsed.None?
      modifies this
      ensures parsed == Some(Session([], input, cuts, 0, expectedHost))
      ensures receipt <==> parsed.value.Ok?
      ensures |request| <= MAX_REQUEST_BYTES && request <= input
    {
      hide Decision, OutcomeOf;
      var read, k := 0, 0;
      while parsed.None?
        invariant read <= |input| && request == input[..read] && read <= MAX_REQUEST_BYTES
        invariant parsed.None? ==> read < MAX_REQUEST_BYTES &&
                                   Session(request, input[read..], cuts, k, expectedHost) == Session([], input, cuts, 0, expectedHost)
        invariant parsed.Some? ==> parsed.value == Session([], input, cuts, 0, expectedHost) && (receipt <==> parsed.value.Ok?)
        decreases |input| - read, parsed.None?
      {
        if read == |input| {
          parsed, receipt := Some(Err(Request(Incomplete))), false;
        } else {
          var n := ReadSize(cuts(k), MAX_REQUEST_BYTES - read, |input| - read);
          SessionReads(input, read, cuts, k, expectedHost);
          Receive(input[read..read + n]);
          assert input[..read] + input[read..read + n] == input[..read + n];
          read, k := read + n, k + 1;
        }
      }
    }
  }

  // ----- What the cuts can change -----

  lemma {:induction false} HeadStays(a: Bytes, b: Bytes)
    requires HeaderEnd(a).Some?
    ensures HeaderEnd(a + b) == HeaderEnd(a)
    decreases |a|
  {
    if END <= a {
      assert END <= a + b;
    } else {
      HeadStays(a[1..], b);
      assert (a + b)[1..] == a[1..] + b;
      assert (a + b)[..4] == a[..4];
    }
  }

  /** A head that is not complete in a part ends behind that part. */
  lemma {:induction false} HeadBehind(a: Bytes, b: Bytes)
    requires HeaderEnd(a).None? && HeaderEnd(a + b).Some?
    ensures HeaderEnd(a + b).value + 4 > |a|
    decreases |a|
  {
    if a != [] {
      assert (a + b)[1..] == a[1..] + b;
      if END <= a + b {
        assert |a| >= 4 ==> END <= a;
      } else if |a| > 1 {
        HeadBehind(a[1..], b);
      }
    }
  }

  /**
    The request is parsed as it is after some read that completes its head.  Whether bytes
    behind the head are seen, and refused, or left unread depends on where that read ends.
   */
  lemma {:induction false} HeadIsParsed(request: Bytes, input: Bytes, cuts: nat -> nat, k: nat, host: Bytes) returns (n: nat)
    requires |request| < MAX_REQUEST_BYTES && HeaderEnd(request).None? && HeaderEnd(request + input).Some?
    requires HeaderEnd(request + input).value + 4 <= MAX_REQUEST_BYTES
    ensures HeaderEnd(request + input).value + 4 <= n <= |request + input| && n <= MAX_REQUEST_BYTES
    ensures Session(request, input, cuts, k, host) == OutcomeOf(ParseRequest((request + input)[..n], host))
    ensures n > HeaderEnd(request + input).value + 4 ==> Session(request, input, cuts, k, host) == Err(Request(BodyUnsupported))
    decreases |input|
  {
    var whole := request + input;
    assert input == [] ==> whole == request;
    var size := ReadSize(cuts(k), MAX_REQUEST_BYTES - |request|, |input|);
    var more, rest := request + input[..size], input[size..];
    assert more + rest == whole;
    assert whole[..|more|] == more;
    if HeaderEnd(more).Some? {
      HeadStays(more, rest);
      n := |more|;
      hide HeaderEnd, Session;
    } else {
      HeadBehind(more, rest);
      n := HeadIsParsed(more, rest, cuts, k + 1, host);
      hide HeaderEnd;
    }
  }

  /** Without a complete head within the limit the callback is refused, however it is read. */
  lemma {:induction false} NoHeadIsRefused(request: Bytes, input: Bytes, cuts: nat -> nat, k: nat, host: Bytes)
    requires |request| < MAX_REQUEST_BYTES && HeaderEnd(request).None?
    requires HeaderEnd(request + input).Some? ==> HeaderEnd(request + input).value + 4 > MAX_REQUEST_BYTES
    ensures Session(request, input, cuts, k, host) ==
            Err(if |request + input| < MAX_REQUEST_BYTES then Request(Incomplete) else ExceedsLimit)
    decreases |input|
  {
    hide HeaderEnd, ParseRequest, OutcomeOf;
    if input != [] {
      var size := ReadSize(cuts(k), MAX_REQUEST_BYTES - |request|, |input|);
      var more, rest := request + input[..size], input[size..];
      assert more + rest == request + input;
      if HeaderEnd(more).Some? {
        HeadStays(more, rest);
        assert false;
      } else if |more| < MAX_REQUEST_BYTES {
        NoHeadIsRefused(more, rest, cuts, k + 1, host);
      }
    }
  }

  /**
    A request that is nothing but a head is decided as a whole, for every way of cutting it
    into reads, if and only if it is not longer than the limit.
   */
  lemma WholeRequestDecides(input: Bytes, cuts: nat -> nat, host: Bytes)
    requires HeaderEnd(input).Some? && HeaderEnd(input).value + 4 == |input|
    ensures Session([], input, cuts, 0, host) ==
            if |input| <= 8192 then OutcomeOf(ParseRequest(input, host)) else Err(ExceedsLimit)
  {
    assert [] + input == input;
    assert HeaderEnd([]).None?;
    if |input| <= MAX_REQUEST_BYTES {
      var n := HeadIsParsed([], input, cuts, 0, host);
      assert input[..n] == input;
    } else {
      NoHeadIsRefused([], input, cuts, 0, host);
    }
  }

  /**
    A state and a code within their bounds, rendered with any escapes, reach the flow through
    any cuts if and only if the rendered request fits the limit.
   */
  lemma CallbackReachesSession(
    state: Bytes, code: Bytes, host: Bytes, escapeState: seq<bool>, escapeCode: seq<bool>, cuts: nat -> nat)
    requires T.Sendable(state, MAX_STATE_BYTES) && T.Sendable(code, MAX_CODE_BYTES) && T.HostText(host)
    requires |escapeState| == |state| && |escapeCode| == |code|
    ensures var request := T.Render(T.Query(T.Encode(state, escapeState), T.Encode(code, escapeCode)), host);
            Session([], request, cuts, 0, host) == Ok(Callback(state, code)) <==> |request| <= 8192
  {
    var request := T.Render(T.Query(T.Encode(state, escapeState), T.Encode(code, escapeCode)), host);
    T.CallbackArrives(state, code, host, escapeState, escapeCode);
    ParsedIsHead(request, host);
    hide T.Render, T.Query, T.Encode, T.Sendable, T.HostText, ParseRequest, HeaderEnd, Session;
    WholeRequestDecides(request, cuts, host);
  }

  lemma ParsedIsHead(request: Bytes, host: Bytes)
    requires ParseRequest(request, host).Ok?
    ensures HeaderEnd(request).Some? && HeaderEnd(request).value + 4 == |request|
  {
    hide HeaderEnd, Lines, RequestQuery, TakeHeaders, ParseQuery;
  }

  // ----- The limits do not fit together -----

  lemma {:induction false} EscapedLength(value: Bytes, escape: seq<bool>)
    requires |value| == |escape| && (forall i :: 0 <= i < |escape| ==> escape[i])
    ensures |T.Encode(value, escape)| == 3 * |value|
    decreases |value|
  {
    if value != [] {
      EscapedLength(value[1..], escape[1..]);
    }
  }

  lemma RenderedLength(query: Bytes, host: Bytes)
    ensures |T.Render(query, host)| >= |query|
  {
  }

  /** A code within its bound that no session takes when all its bytes are escaped. */
  lemma LongCodeExample(host: Bytes, cuts: nat -> nat)
    requires T.HostText(host)
    ensures var code := seq(MAX_CODE_BYTES, _ => 97 as byte);
            var query := T.Query(T.Encode([97], [false]), T.Encode(code, seq(MAX_CODE_BYTES, _ => true)));
            && T.Sendable(code, MAX_CODE_BYTES) && ParseRequest(T.Render(query, host), host) == Ok(Callback([97], code))
            && Session([], T.Render(query, host), cuts, 0, host) == Err(ExceedsLimit)
  {
    var code, escapes := seq(MAX_CODE_BYTES, _ => 97 as byte), seq(MAX_CODE_BYTES, _ => true);
    T.Utf8.AsciiIsValid(code);
    T.Utf8.AsciiIsValid([97]);
    EscapedLength(code, escapes);
    var raw := T.Encode(code, escapes);
    var query := T.Query(T.Encode([97], [false]), raw);
    assert |query| >= |raw|;
    RenderedLength(query, host);
    T.CallbackArrives([97], code, host, [false], escapes);
    ParsedIsHead(T.Render(query, host), host);
    WholeRequestDecides(T.Render(query, host), cuts, host);
    hide *;
  }
}
