/**
  The sanitized record stream over an authenticated response.

  The transport delivers the body in chunks of any size.  In event-stream mode each complete
  data item becomes one record; in buffered mode the whole body becomes one.  The framer is a
  byte automaton, so the cuts between chunks must not matter.
 */
module SanitizedStream {
  import opened Common
  import Utf8

  const MAX_LINE_BYTES: nat := 65_536
  const MAX_DATA_BYTES: nat := 65_536

  // ----- EventSource framing -----

  datatype FrameError = LineTooLong | DataTooLong | InvalidUtf8

  datatype Framer = Framer(
    prefix: Bytes,
    bomDecided: bool,
    afterCr: bool,
    line: Bytes,
    data: Bytes,
    hasData: bool)

  const NewFramer := Framer([], false, false, [], [], false)

  const BOM: Bytes := [0xEF, 0xBB, 0xBF]
  const CR: byte := 13
  const LF: byte := 10
  const COLON: byte := 0x3A
  const SPACE: byte := 0x20
  const DATA: Bytes := [0x64, 0x61, 0x74, 0x61]

  /** The framer after some input, and the item completed by it. */
  type Framed = Result<(Framer, Option<Bytes>), FrameError>

  function ProcessLine(f: Framer): Framed {
    var line, f := f.line, f.(line := []);
    if !Utf8.Valid(line) then Err(InvalidUtf8)
    else if line == [] then
      if f.hasData then Ok((f.(hasData := false, data := []), Some(f.data))) else Ok((f, None))
    else
      var colon := IndexOf(line, COLON);
      if colon == 0 then Ok((f, None))
      else
        var field := line[..colon];
        var rest := if colon < |line| then line[colon + 1..] else [];
        var value := if rest != [] && rest[0] == SPACE then rest[1..] else rest;
        if field != DATA then Ok((f, None))
        else
          var joined := if f.hasData then f.data + [LF] + value else f.data + value;
          if |joined| > MAX_DATA_BYTES then Err(DataTooLong)
          else Ok((f.(data := joined, hasData := true), None))
  }

  function ProcessByte(f: Framer, b: byte): Framed {
    if f.afterCr && b == LF then Ok((f.(afterCr := false), None))
    else
      var f := f.(afterCr := false);
      if b == CR then ProcessLine(f.(afterCr := true))
      else if b == LF then ProcessLine(f)
      else if |f.line| >= MAX_LINE_BYTES then Err(LineTooLong)
      else Ok((f.(line := f.line + [b]), None))
  }

  /** Bytes held back while a byte order mark was possible. */
  function ProcessPending(f: Framer, pending: Bytes): Framed
    decreases |pending|
  {
    if pending == [] then Ok((f, None))
    else
      var (after, item) :- ProcessByte(f, pending[0]);
      if item.Some? then Ok((after, item)) else ProcessPending(after, pending[1..])
  }

  function PushByte(f: Framer, b: byte): Framed {
    if f.bomDecided then ProcessByte(f, b)
    else
      var prefix := f.prefix + [b];
      if prefix == BOM then Ok((f.(prefix := [], bomDecided := true), None))
      else if prefix <= BOM then Ok((f.(prefix := prefix), None))
      else ProcessPending(f.(prefix := [], bomDecided := true), prefix)
  }

  /** Feed bytes until an item is complete. */
  datatype Scanned = More(framer: Framer) | Item(framer: Framer, data: Bytes, used: nat) | Broken(error: FrameError)

  function Scan(f: Framer, bytes: Bytes): (r: Scanned)
    ensures r.Item? ==> 0 < r.used <= |bytes|
    decreases |bytes|
  {
    if bytes == [] then More(f)
    else
      match PushByte(f, bytes[0])
      case Err(e) => Broken(e)
      case Ok((after, Some(item))) => Item(after, item, 1)
      case Ok((after, None)) =>
        match Scan(after, bytes[1..])
        case Item(framer, data, used) => Item(framer, data, used + 1)
        case other => other
  }

  function Shift(s: Scanned, n: nat): Scanned {
    if s.Item? then Item(s.framer, s.data, s.used + n) else s
  }

  lemma ScanByte(f: Framer, bytes: Bytes)
    requires bytes != []
    ensures var pushed := PushByte(f, bytes[0]);
            Scan(f, bytes) ==
            if pushed.Err? then Broken(pushed.error)
            else if pushed.value.1.Some? then Item(pushed.value.0, pushed.value.1.value, 1)
            else Shift(Scan(pushed.value.0, bytes[1..]), 1)
  {
    hide PushByte;
  }

  /** Scanning stops at the same place however the input is cut. */
  lemma {:induction false} ScanSplit(f: Framer, a: Bytes, b: Bytes)
    ensures Scan(f, a + b) == (var first := Scan(f, a); if first.More? then Shift(Scan(first.framer, b), |a|) else first)
    decreases |a|
  {
    hide PushByte;
    if a == [] {
      assert a + b == b;
    } else {
      assert (a + b)[1..] == a[1..] + b;
      ScanByte(f, a + b);
      ScanByte(f, a);
      var pushed := PushByte(f, a[0]);
      if pushed.Ok? && pushed.value.1.None? {
        ScanSplit(pushed.value.0, a[1..], b);
      }
    }
  }

  // ----- Records -----

  datatype StreamError =
    | Frame(error: FrameError)
    | NotUtf8
    | Unsanitary(reason: nat)
    | Unsupported
    | BodyTooLong
    | ReadFailed(code: nat)
    | Cancelled

  datatype Record = Json(text: Bytes) | Literal(index: nat)

  datatype Mode = EventStream | BufferedJson | UnsupportedMode

  /** `sanitize` parses strict JSON, strips secret keys and prints the rest. */
  datatype Config = Config(mode: Mode, markers: seq<Bytes>, sanitize: Bytes -> Result<Bytes, nat>)

  /** How the transport ends after its last chunk. */
  datatype Ending = EndOfBody | Fails(code: nat)

  type ReadResult = Result<Option<Record>, StreamError>

  function Sanitize(c: Config, text: Bytes): Result<Record, StreamError> {
    match c.sanitize(text)
    case Ok(out) => Ok(Json(out))
    case Err(reason) => Err(Unsanitary(reason))
  }

  function DecodeData(c: Config, data: Bytes): Result<Record, StreamError> {
    if !Utf8.Valid(data) then Err(NotUtf8)
    else
      var i := IndexOf(c.markers, data);
      if i < |c.markers| then Ok(Literal(i)) else Sanitize(c, data)
  }

  // ----- Specification: the stream without its chunks -----

  /** What the reader of records can still observe; the chunk boundaries are not part of it. */
  datatype View =
    | Failed(error: StreamError)
    | Ended
    | Open(framer: Framer, data: Bytes, remaining: Bytes, ending: Ending)

  function Fail(e: StreamError): (ReadResult, View) { (Err(e), Failed(e)) }

  function AtEnd(ending: Ending): (ReadResult, View) {
    if ending.EndOfBody? then (Ok(None), Ended) else Fail(ReadFailed(ending.code))
  }

  function ReadEvent(c: Config, v: View): (ReadResult, View)
    requires v.Open?
  {
    match Scan(v.framer, v.remaining)
    case Broken(e) => Fail(Frame(e))
    case More(_) => AtEnd(v.ending)
    case Item(framer, data, used) =>
      match DecodeData(c, data)
      case Err(e) => Fail(e)
      case Ok(record) => (Ok(Some(record)), v.(framer := framer, remaining := v.remaining[used..]))
  }

  /** The one result of a buffered body. */
  function BodyResult(c: Config, body: Bytes, ending: Ending): (ReadResult, View) {
    if |body| > MAX_DATA_BYTES then Fail(BodyTooLong)
    else if ending.Fails? || body == [] then AtEnd(ending)
    else if !Utf8.Valid(body) then Fail(NotUtf8)
    else
      match Sanitize(c, body)
      case Err(e) => Fail(e)
      case Ok(record) => (Ok(Some(record)), Ended)
  }

  function ReadBody(c: Config, v: View): (ReadResult, View)
    requires v.Open?
  {
    BodyResult(c, v.data + v.remaining, v.ending)
  }

  lemma BodyFailures(c: Config, body: Bytes, ending: Ending)
    ensures |body| > MAX_DATA_BYTES ==> BodyResult(c, body, ending) == Fail(BodyTooLong)
    ensures |body| <= MAX_DATA_BYTES && ending.Fails? ==> BodyResult(c, body, ending) == Fail(ReadFailed(ending.code))
  {
  }

  function Read(c: Config, v: View): (ReadResult, View) {
    match v
    case Failed(e) => (Err(e), v)
    case Ended => (Ok(None), v)
    case Open(_, _, _, _) =>
      match c.mode
      case UnsupportedMode => Fail(Unsupported)
      case EventStream => ReadEvent(c, v)
      case BufferedJson => ReadBody(c, v)
  }

  function Concat(chunks: seq<Bytes>): Bytes { if chunks == [] then [] else chunks[0] + Concat(chunks[1..]) }

  /** The event reader looks at one byte at a time. */
  lemma ReadByte(c: Config, v: View)
    requires v.Open? && v.remaining != []
    ensures var pushed := PushByte(v.framer, v.remaining[0]);
            ReadEvent(c, v) ==
            if pushed.Err? then Fail(Frame(pushed.error))
            else
              var after := v.(framer := pushed.value.0, remaining := v.remaining[1..]);
              if pushed.value.1.None? then ReadEvent(c, after)
              else
                var record := DecodeData(c, pushed.value.1.value);
                if record.Err? then Fail(record.error) else (Ok(Some(record.value)), after)
  {
    ScanByte(v.framer, v.remaining);
    var pushed := PushByte(v.framer, v.remaining[0]);
    hide PushByte, DecodeData;
    if pushed.Ok? && pushed.value.1.None? {
      var rest := Scan(pushed.value.0, v.remaining[1..]);
      hide Scan;
      assert rest.Item? ==> v.remaining[rest.used + 1..] == v.remaining[1..][rest.used..];
    }
  }

  lemma ReadNothing(c: Config, v: View)
    requires v.Open?
    ensures v.remaining == [] ==> ReadEvent(c, v) == AtEnd(v.ending)
  {
    ScanNothing(v.framer);
  }

  lemma Regroup(a: Bytes, b: Bytes, c: Bytes)
    ensures a + (b + c) == a + b + c
    ensures b == [] ==> a + b == a && b + c == c
    ensures b == [] && c == [] ==> a + (b + c) == a
  {
  }

  lemma FirstOfRest(buffer: Bytes, cursor: nat, more: Bytes)
    requires cursor < |buffer|
    ensures (buffer[cursor..] + more)[0] == buffer[cursor]
    ensures (buffer[cursor..] + more)[1..] == buffer[cursor + 1..] + more
  {
  }

  // ----- The stream object -----

  class SanitizedAccessSseStream {
    const config: Config
    // The transport: chunks still to be delivered, its ending, and how often it was asked.
    var chunks: seq<Bytes>
    const ending: Ending
    var fetches: nat
    var rawBuf: Bytes
    var cursor: nat
    var framer: Framer
    var data: Bytes
    var eof: bool
    var terminal: Option<StreamError>

    ghost predicate Valid()
      reads this
    {
      cursor <= |rawBuf| && |data| <= MAX_DATA_BYTES
    }

    constructor (config: Config, chunks: seq<Bytes>, ending: Ending)
      ensures Valid() && this.config == config && fetches == 0
      ensures Observed() == Open(NewFramer, [], Concat(chunks), ending)
    {
      this.config, this.chunks, this.ending := config, chunks, ending;
      rawBuf, cursor, framer, data, eof, terminal, fetches := [], 0, NewFramer, [], false, None, 0;
      new;
      assert rawBuf[cursor..] + Concat(chunks) == Concat(chunks);
    }

    ghost function Remaining(): Bytes
      requires Valid()
      reads this
    {
      rawBuf[cursor..] + Concat(chunks)
    }

    ghost function Observed(): View
      requires Valid()
      reads this
    {
      if terminal.Some? then Failed(terminal.value)
      else if eof then Ended
      else Open(framer, data, Remaining(), ending)
    }

    method ClearPending()
      modifies this`rawBuf, this`cursor, this`framer, this`data
      ensures Valid()
    {
      rawBuf, cursor, data := [], 0, [];
      framer := framer.(prefix := [], line := [], data := [], hasData := false);
    }

    method FailWith(error: StreamError) returns (r: ReadResult)
      requires terminal.None?
      modifies this`rawBuf, this`cursor, this`framer, this`data, this`terminal
      ensures Valid() && r == Err(error) && terminal == Some(error)
    {
      terminal := Some(error);
      ClearPending();
      return Err(error);
    }

    /** One transport read. */
    method FillChunk() returns (r: Result<(), StreamError>)
      requires Valid() && cursor == |rawBuf| && !eof && terminal.None?
      modifies this`chunks, this`rawBuf, this`cursor, this`eof, this`fetches
      ensures Valid() && Remaining() == old(Remaining()) && fetches == old(fetches) + 1
      ensures r.Ok? && !eof ==> |chunks| < |old(chunks)|
      ensures eof <==> old(chunks) == [] && ending.EndOfBody?
      ensures r.Err? <==> old(chunks) == [] && ending.Fails?
      ensures r.Err? ==> r.error == ReadFailed(ending.code)
      ensures old(chunks) == [] ==> chunks == [] && rawBuf == old(rawBuf) && cursor == old(cursor)
    {
      fetches := fetches + 1;
      if chunks != [] {
        rawBuf, cursor := chunks[0], 0;
        chunks := chunks[1..];
        return Ok(());
      }
      if ending.Fails? {
        return Err(ReadFailed(ending.code));
      }
      eof := true;
      return Ok(());
    }

    method ReadEventStreamRecord() returns (r: ReadResult)
      requires Valid() && !eof && terminal.None? && config.mode == EventStream
      modifies this
      ensures Valid() && (r, Observed()) == ReadEvent(config, old(Observed()))
    {
      hide PushByte, DecodeData, Concat, ReadEvent;
      while true
        invariant Valid() && terminal.None?
        invariant !eof ==> ReadEvent(config, Observed()) == ReadEvent(config, old(Observed()))
        invariant eof ==> cursor == |rawBuf| && AtEnd(EndOfBody) == ReadEvent(config, old(Observed()))
        decreases |chunks| + (if eof then 0 else 1), |rawBuf| - cursor
      {
        if cursor >= |rawBuf| {
          ghost var before := Remaining();
          rawBuf, cursor := [], 0;
          if eof {
            ClearPending();
            return Ok(None);
          }
          assert Remaining() == before == Concat(chunks);
          NothingLeft(chunks);
          ReadNothing(config, Observed());
          var filled := FillChunk();
          if filled.Err? {
            r := FailWith(filled.error);
            return;
          }
          continue;
        }
        var b := rawBuf[cursor];
        FirstOfRest(rawBuf, cursor, Concat(chunks));
        ReadByte(config, Observed());
        cursor := cursor + 1;
        var pushed := PushByte(framer, b);
        if pushed.Err? {
          r := FailWith(Frame(pushed.error));
          return;
        }
        framer := pushed.value.0;
        if pushed.value.1.Some? {
          var record := DecodeData(config, pushed.value.1.value);
          if record.Err? {
            r := FailWith(record.error);
            return;
          }
          return Ok(Some(record.value));
        }
      }
    }

    /** Move the unread part of the buffer to the body, up to its bound. */
    method TakeBuffered() returns (fits: bool)
      requires Valid()
      modifies this`data, this`cursor
      ensures Valid()
      ensures fits <==> |old(data)| + |rawBuf| - old(cursor) <= MAX_DATA_BYTES
      ensures fits ==> cursor == |rawBuf| && data == old(data) + rawBuf[old(cursor)..]
    {
      while cursor < |rawBuf|
        invariant old(cursor) <= cursor && Valid()
        invariant data == old(data) + rawBuf[old(cursor)..cursor]
      {
        if |data| == MAX_DATA_BYTES {
          return false;
        }
        data := data + [rawBuf[cursor]];
        cursor := cursor + 1;
      }
      return true;
    }

    method FinishBody() returns (r: ReadResult)
      requires Valid() && eof && terminal.None? && ending.EndOfBody?
      modifies this`rawBuf, this`cursor, this`framer, this`data, this`terminal
      ensures Valid() && (r, Observed()) == BodyResult(config, old(data), ending)
    {
      if data == [] {
        ClearPending();
        return Ok(None);
      }
      if !Utf8.Valid(data) {
        r := FailWith(NotUtf8);
        return;
      }
      var record := Sanitize(config, data);
      if record.Err? {
        r := FailWith(record.error);
        return;
      }
      ClearPending();
      return Ok(Some(record.value));
    }

    method ReadBufferedJsonRecord() returns (r: ReadResult)
      requires Valid() && !eof && terminal.None? && config.mode == BufferedJson
      modifies this
      ensures Valid() && (r, Observed()) == ReadBody(config, old(Observed()))
    {
      hide BodyResult, Concat;
      ghost var body := data + Remaining();
      BodyFailures(config, body, ending);
      while true
        invariant Valid() && terminal.None?
        invariant eof ==> ending.EndOfBody? && cursor == |rawBuf| && data == body
        invariant !eof ==> data + Remaining() == body
        decreases |chunks| + (if eof then 0 else 1)
      {
        ghost var taken, unread, tail := data, rawBuf[cursor..], Concat(chunks);
        Regroup(taken, unread, tail);
        var fits := TakeBuffered();
        if !fits {
          r := FailWith(BodyTooLong);
          return;
        }
        rawBuf, cursor := [], 0;
        if eof {
          r := FinishBody();
          return;
        }
        NothingLeft(chunks);
        Regroup(data, [], tail);
        assert Remaining() == [] + tail;
        var filled := FillChunk();
        if filled.Err? {
          r := FailWith(filled.error);
          return;
        }
      }
    }

    /** Results depend on the bytes and the ending only; after the end nothing is fetched. */
    method ReadRecord() returns (r: ReadResult)
      requires Valid()
      modifies this
      ensures Valid() && (r, Observed()) == Read(config, old(Observed()))
      ensures !old(Observed()).Open? ==> fetches == old(fetches)
    {
      hide ReadEvent, ReadBody, Concat;
      if terminal.Some? {
        return Err(terminal.value);
      }
      if eof {
        return Ok(None);
      }
      match config.mode {
        case UnsupportedMode => r := FailWith(Unsupported);
        case EventStream => r := ReadEventStreamRecord();
        case BufferedJson => r := ReadBufferedJsonRecord();
      }
    }

    method Cancel()
      requires Valid()
      modifies this`rawBuf, this`cursor, this`framer, this`data, this`terminal
      ensures Valid()
      ensures Observed() == if old(Observed()).Open? then Failed(Cancelled) else old(Observed())
    {
      if terminal.None? && !eof {
        terminal := Some(Cancelled);
      }
      ClearPending();
    }
  }

  lemma ScanNothing(f: Framer)
    ensures Scan(f, []) == More(f)
  {
  }

  lemma NothingLeft(chunks: seq<Bytes>)
    ensures chunks == [] ==> Concat(chunks) == []
  {
  }

  // ----- Whole streams -----

  /** The first `n` results of a stream. */
  function Results(c: Config, v: View, n: nat): (rs: seq<ReadResult>)
    ensures |rs| == n
    decreases n
  {
    if n == 0 then [] else [Read(c, v).0] + Results(c, Read(c, v).1, n - 1)
  }

  /** Read `n` results from a transport that cuts its body into `chunks`. */
  method Drain(config: Config, chunks: seq<Bytes>, ending: Ending, n: nat) returns (rs: seq<ReadResult>)
    ensures rs == Results(config, Open(NewFramer, [], Concat(chunks), ending), n)
  {
    hide Read, Concat;
    var stream := new SanitizedAccessSseStream(config, chunks, ending);
    ghost var start := stream.Observed();
    rs := [];
    for i := 0 to n
      invariant stream.Valid() && stream.config == config
      invariant rs + Results(config, stream.Observed(), n - i) == Results(config, start, n)
    {
      ghost var before := stream.Observed();
      var r := stream.ReadRecord();
      assert rs + Results(config, before, n - i) == rs + [r] + Results(config, stream.Observed(), n - i - 1);
      rs := rs + [r];
    }
  }

  predicate IsFinal(r: ReadResult) { r.Err? || r.value.None? }

  /** After an end or an error every later result repeats it. */
  lemma {:induction false} EndRepeats(c: Config, v: View, n: nat)
    requires IsFinal(Read(c, v).0)
    ensures !Read(c, v).1.Open?
    ensures forall i :: 0 <= i < n ==> Results(c, v, n)[i] == Read(c, v).0
    decreases n
  {
    if n > 0 {
      var (r, after) := Read(c, v);
      assert Read(c, after) == (r, after);
      EndRepeats(c, after, n - 1);
    }
  }

  // ----- Vocabulary of event streams -----

  predicate OneLine(s: Bytes) { forall i :: 0 <= i < |s| ==> s[i] != CR && s[i] != LF }

  function Join(lines: seq<Bytes>): Bytes {
    if lines == [] then []
    else if |lines| == 1 then lines[0]
    else Join(lines[..|lines| - 1]) + [LF] + lines[|lines| - 1]
  }

  function Again(r: ReadResult, n: nat): (rs: seq<ReadResult>) { seq(n, i => r) }

  lemma FinalResults(c: Config, v: View, n: nat)
    requires IsFinal(Read(c, v).0)
    ensures Results(c, v, n) == Again(Read(c, v).0, n)
  {
    EndRepeats(c, v, n);
  }

  const DECIDED := NewFramer.(bomDecided := true)

  lemma MarkBytes()
    ensures PushByte(NewFramer, BOM[0]) == Ok((NewFramer.(prefix := [BOM[0]]), None))
    ensures PushByte(NewFramer.(prefix := [BOM[0]]), BOM[1]) == Ok((NewFramer.(prefix := [BOM[0], BOM[1]]), None))
    ensures PushByte(NewFramer.(prefix := [BOM[0], BOM[1]]), BOM[2]) == Ok((DECIDED, None))
  {
    assert [] + [BOM[0]] == [BOM[0]] <= BOM;
    assert [BOM[0]] + [BOM[1]] == [BOM[0], BOM[1]] <= BOM;
    assert [BOM[0], BOM[1]] + [BOM[2]] == BOM;
  }
}
