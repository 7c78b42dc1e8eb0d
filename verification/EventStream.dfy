/**
  What an event stream means, line by line (section 9.2 of the HTML standard, data fields
  only), and that the byte automaton delivers exactly this for every body and every way of
  cutting it into chunks.
 */
module EventStream {
  import opened Common
  import opened SanitizedStream
  import Utf8

  // ----- The meaning of a body -----

  datatype Terminator = Lf | Cr | CrLf

  function TerminatorText(t: Terminator): (r: Bytes)
    ensures 1 <= |r| <= 2
  {
    match t
    case Lf => Ascii("\n")
    case Cr => Ascii("\r")
    case CrLf => Ascii("\r\n")
  }

  datatype Line = Line(content: Bytes, terminator: Terminator)

  function Text(lines: seq<Line>): Bytes {
    if lines == [] then [] else lines[0].content + TerminatorText(lines[0].terminator) + Text(lines[1..])
  }

  predicate Unbroken(s: Bytes) { forall i :: 0 <= i < |s| ==> s[i] !in Ascii("\r\n") }

  /** The body is cut at every line end; a carriage return takes a line feed behind it along. */
  predicate Cut(lines: seq<Line>, tail: Bytes) {
    && Unbroken(tail) && (forall i :: 0 <= i < |lines| ==> Unbroken(lines[i].content))
    && forall i :: 0 < i < |lines| && lines[i - 1].terminator == Cr ==> lines[i] != Line([], Lf)
  }

  /** The value of a data line; comments and other fields have none. */
  function DataOf(content: Bytes): Option<Bytes> {
    if content == Ascii("data") then Some([])
    else if Ascii("data: ") <= content then Some(content[6..])
    else if Ascii("data:") <= content then Some(content[5..])
    else None
  }

  datatype Meaning = Broken(error: FrameError) | Collected(values: seq<Bytes>) | Complete(data: Bytes)

  /** What a line does to the data lines collected before it. */
  function MeaningOf(content: Bytes, values: seq<Bytes>): Meaning {
    if |content| > 65_536 then Meaning.Broken(LineTooLong)
    else if !Utf8.Valid(content) then Meaning.Broken(InvalidUtf8)
    else if content == [] then if values == [] then Collected([]) else Complete(Join(values))
    else if DataOf(content).None? then Collected(values)
    else if |Join(values + [DataOf(content).value])| > 65_536 then Meaning.Broken(DataTooLong)
    else Collected(values + [DataOf(content).value])
  }

  /** The first `n` results: a record for each item, up to the first failure; then the end. */
  function Deliveries(c: Config, lines: seq<Line>, tail: Bytes, values: seq<Bytes>, ending: Ending, n: nat): seq<ReadResult>
    decreases |lines|
  {
    if n == 0 then []
    else if lines == [] then Again(if |tail| > 65_536 then Err(Frame(LineTooLong)) else AtEnd(ending).0, n)
    else
      match MeaningOf(lines[0].content, values)
      case Broken(e) => Again(Err(Frame(e)), n)
      case Collected(more) => Deliveries(c, lines[1..], tail, more, ending, n)
      case Complete(data) =>
        match DecodeData(c, data)
        case Err(e) => Again(Err(e), n)
        case Ok(record) => [Ok(Some(record))] + Deliveries(c, lines[1..], tail, [], ending, n - 1)
  }

  // ----- One line -----

  /** The framer between two lines. */
  function Between(values: seq<Bytes>, afterCr: bool): Framer {
    Framer([], true, afterCr, [], Join(values), values != [])
  }

  lemma LineEnds()
    ensures Ascii("\n") == [LF] && Ascii("\r") == [CR] && Ascii("\r\n") == [CR, LF]
  {
  }

  lemma {:induction false} ColonAfter(name: Bytes, rest: Bytes)
    requires forall i :: 0 <= i < |name| ==> name[i] != COLON
    ensures IndexOf(name + [COLON] + rest, COLON) == |name| && IndexOf(name, COLON) == |name|
  {
    var s := name + [COLON] + rest;
    assert s[|name|] == COLON;
    assert forall i :: 0 <= i < |name| ==> s[i] == name[i];
  }

  /** The field of a line and its value, as the framer cuts them. */
  function FieldOf(line: Bytes): (Bytes, Bytes) {
    var colon := IndexOf(line, COLON);
    var rest := if colon < |line| then line[colon + 1..] else [];
    (line[..colon], if rest != [] && rest[0] == SPACE then rest[1..] else rest)
  }

  lemma DataNames()
    ensures Ascii("data") == DATA && Ascii("data:") == DATA + [COLON] && Ascii("data: ") == DATA + [COLON, SPACE]
    ensures forall i :: 0 <= i < |DATA| ==> DATA[i] != COLON
  {
  }

  lemma DataIsField(line: Bytes)
    ensures DataOf(line) == if FieldOf(line).0 == DATA then Some(FieldOf(line).1) else None
  {
    DataNames();
    var colon := IndexOf(line, COLON);
    hide Ascii;
    if DATA + [COLON] <= line {
      assert line == DATA + [COLON] + line[5..];
      ColonAfter(DATA, line[5..]);
      assert line[..4] == DATA;
      assert DATA + [COLON, SPACE] <= line <==> line[5..] != [] && line[5..][0] == SPACE by {
        assert line[5..] != [] ==> line[5..][0] == line[5];
      }
      assert |line| > 5 ==> line[5..][1..] == line[6..];
    } else {
      if line == DATA {
        ColonAfter(DATA, []);
      }
    }
  }

  lemma JoinMore(values: seq<Bytes>, v: Bytes)
    ensures Join(values + [v]) == if values == [] then v else Join(values) + [LF] + v
  {
    assert (values + [v])[..|values|] == values;
  }

  lemma ProcessedAs(f: Framer)
    ensures var (field, value) := FieldOf(f.line);
            var joined := if f.hasData then f.data + [LF] + value else f.data + value;
            ProcessLine(f) ==
            if !Utf8.Valid(f.line) then Err(InvalidUtf8)
            else if f.line == [] && f.hasData then Ok((f.(line := [], hasData := false, data := []), Some(f.data)))
            else if field != DATA then Ok((f.(line := []), None))
            else if |joined| > 65_536 then Err(DataTooLong)
            else Ok((f.(line := [], data := joined, hasData := true), None))
  {
    hide Utf8.Valid;
  }

  lemma LineProcessed(values: seq<Bytes>, afterCr: bool, content: Bytes)
    requires |content| <= MAX_LINE_BYTES
    ensures var meaning := MeaningOf(content, values);
            ProcessLine(Between(values, afterCr).(line := content)) ==
            match meaning
            case Broken(e) => Err(e)
            case Collected(more) => Ok((Between(more, afterCr), None))
            case Complete(data) => Ok((Between([], afterCr), Some(data)))
  {
    DataIsField(content);
    assert FieldOf([]) == ([], []);
    hide DataOf, Utf8.Valid, ProcessLine, FieldOf;
    ProcessedAs(Between(values, afterCr).(line := content));
    if DataOf(content).Some? {
      JoinMore(values, DataOf(content).value);
    }
    assert values == [] ==> Join(values) == [] && forall v: Bytes :: Join(values) + v == v;
    hide Join;
  }

  // ----- Reading through a body -----

  function Reading(f: Framer, text: Bytes, ending: Ending): View { Open(f, [], text, ending) }

  lemma {:induction false} ReadPlain(c: Config, f: Framer, s: Bytes, rest: Bytes, ending: Ending)
    requires f.bomDecided && !f.afterCr && OneLine(s) && |f.line| + |s| <= MAX_LINE_BYTES
    ensures ReadEvent(c, Reading(f, s + rest, ending)) == ReadEvent(c, Reading(f.(line := f.line + s), rest, ending))
    decreases |s|
  {
    if s == [] {
      assert s + rest == rest && f.line + s == f.line;
    } else {
      var next := f.(line := f.line + [s[0]]);
      assert PushByte(f, s[0]) == Ok((next, None));
      hide ReadEvent, PushByte;
      ReadByte(c, Reading(f, s + rest, ending));
      assert (s + rest)[1..] == s[1..] + rest;
      ReadPlain(c, next, s[1..], rest, ending);
      assert f.line + s == next.line + s[1..];
    }
  }

  lemma ReadTooLong(c: Config, f: Framer, s: Bytes, rest: Bytes, ending: Ending)
    requires f.bomDecided && !f.afterCr && f.line == [] && OneLine(s) && |s| > MAX_LINE_BYTES
    ensures ReadEvent(c, Reading(f, s + rest, ending)) == Fail(Frame(LineTooLong))
  {
    var fits, over := s[..MAX_LINE_BYTES], s[MAX_LINE_BYTES..];
    var full := f.(line := fits);
    assert s + rest == fits + (over + rest) && f.line + fits == fits;
    ReadPlain(c, f, fits, over + rest, ending);
    assert (over + rest)[0] == s[MAX_LINE_BYTES];
    assert PushByte(full, s[MAX_LINE_BYTES]) == Err(LineTooLong);
    hide ReadEvent, PushByte;
    ReadByte(c, Reading(full, over + rest, ending));
  }

  /** A line feed behind a carriage return is read over; without one nothing is left to skip. */
  lemma ReadSettled(c: Config, values: seq<Bytes>, skip: bool, text: Bytes, ending: Ending)
    requires !skip && text != [] ==> text[0] != LF
    ensures ReadEvent(c, Reading(Between(values, true), (if skip then [LF] else []) + text, ending)) ==
            ReadEvent(c, Reading(Between(values, false), text, ending))
  {
    var f, settled := Between(values, true), Between(values, false);
    if skip {
      assert PushByte(f, LF) == Ok((settled, None));
      hide ReadEvent, PushByte, Between;
      ReadByte(c, Reading(f, [LF] + text, ending));
      assert ([LF] + text)[1..] == text;
    } else {
      assert [] + text == text;
      if text == [] {
        ReadNothing(c, Reading(f, text, ending));
        ReadNothing(c, Reading(settled, text, ending));
      } else {
        assert PushByte(f, text[0]) == PushByte(settled, text[0]);
        hide ReadEvent, PushByte, Between;
        ReadByte(c, Reading(f, text, ending));
        ReadByte(c, Reading(settled, text, ending));
      }
    }
  }

  /** The end of a line that fits. */
  lemma ReadLineEnd(c: Config, values: seq<Bytes>, line: Line, rest: Bytes, ending: Ending)
    requires |line.content| <= MAX_LINE_BYTES
    ensures var v := Reading(Between(values, false).(line := line.content), TerminatorText(line.terminator) + rest, ending);
            var afterCr := line.terminator != Lf;
            var left := (if line.terminator == CrLf then [LF] else []) + rest;
            ReadEvent(c, v) ==
            match MeaningOf(line.content, values)
            case Broken(e) => Fail(Frame(e))
            case Collected(more) => ReadEvent(c, Reading(Between(more, afterCr), left, ending))
            case Complete(data) =>
              match DecodeData(c, data)
              case Err(e) => Fail(e)
              case Ok(record) => (Ok(Some(record)), Reading(Between([], afterCr), left, ending))
  {
    var f, text := Between(values, false).(line := line.content), TerminatorText(line.terminator) + rest;
    var afterCr := line.terminator != Lf;
    LineEnds();
    hide Ascii, Between;
    assert text[0] == if afterCr then CR else LF;
    assert text[1..] == (if line.terminator == CrLf then [LF] else []) + rest;
    assert PushByte(f, text[0]) == ProcessLine(Between(values, afterCr).(line := line.content)) by {
      EndPushed(values, line.content, afterCr);
    }
    LineProcessed(values, afterCr, line.content);
    hide ReadEvent, PushByte, ProcessLine, MeaningOf, DecodeData;
    ReadByte(c, Reading(f, text, ending));
  }

  lemma EndPushed(values: seq<Bytes>, content: Bytes, afterCr: bool)
    ensures PushByte(Between(values, false).(line := content), if afterCr then CR else LF) ==
            ProcessLine(Between(values, afterCr).(line := content))
  {
    hide ProcessLine;
  }

  lemma SameReadings(c: Config, v: View, v': View, n: nat)
    requires c.mode == EventStream && v.Open? && v'.Open? && ReadEvent(c, v) == ReadEvent(c, v')
    ensures Results(c, v, n) == Results(c, v', n)
  {
    hide ReadEvent;
  }

  lemma UnbrokenIs(s: Bytes)
    requires Unbroken(s)
    ensures OneLine(s)
  {
    LineEnds();
  }

  /** No text behind a carriage return starts with a line feed of its own. */
  lemma NoStrayFeed(lines: seq<Line>, tail: Bytes)
    requires Cut(lines, tail) && lines != [] && lines[0].terminator == Cr
    ensures var text := Text(lines[1..]) + tail; text != [] ==> text[0] != LF
  {
    LineEnds();
    var rest := lines[1..];
    if rest == [] {
      UnbrokenIs(tail);
    } else {
      assert rest[0] == lines[1];
      UnbrokenIs(rest[0].content);
      hide Ascii;
      var first := rest[0].content + TerminatorText(rest[0].terminator);
      assert Text(rest)[0] == first[0];
    }
  }

  lemma CutRest(lines: seq<Line>, tail: Bytes)
    requires Cut(lines, tail) && lines != []
    ensures Cut(lines[1..], tail)
  {
    hide Unbroken;
    var rest := lines[1..];
    forall i | 0 < i < |rest| && rest[i - 1].terminator == Cr
      ensures rest[i] != Line([], Lf)
    {
      assert rest[i] == lines[i + 1] && rest[i - 1] == lines[i];
    }
  }

  lemma TailDelivered(c: Config, values: seq<Bytes>, tail: Bytes, ending: Ending, n: nat)
    requires c.mode == EventStream && Cut([], tail)
    ensures Results(c, Reading(Between(values, false), tail, ending), n) == Deliveries(c, [], tail, values, ending, n)
  {
    UnbrokenIs(tail);
    var f := Between(values, false);
    assert tail + [] == tail && f.line + tail == tail;
    if |tail| > MAX_LINE_BYTES {
      ReadTooLong(c, f, tail, [], ending);
    } else {
      ReadPlain(c, f, tail, [], ending);
      ReadNothing(c, Reading(f.(line := tail), [], ending));
    }
    FinalResults(c, Reading(f, tail, ending), n);
  }

  lemma {:induction false} LinesDelivered(
    c: Config, values: seq<Bytes>, lines: seq<Line>, tail: Bytes, ending: Ending, n: nat)
    requires c.mode == EventStream && Cut(lines, tail)
    ensures Results(c, Reading(Between(values, false), Text(lines) + tail, ending), n) ==
            Deliveries(c, lines, tail, values, ending, n)
    decreases |lines|, 2
  {
    if n == 0 {
    } else if lines == [] {
      assert Text(lines) + tail == tail;
      TailDelivered(c, values, tail, ending, n);
    } else {
      LineDelivered(c, values, lines, tail, ending, n);
    }
  }

  lemma {:induction false} LineDelivered(
    c: Config, values: seq<Bytes>, lines: seq<Line>, tail: Bytes, ending: Ending, n: nat)
    requires c.mode == EventStream && Cut(lines, tail) && lines != [] && n > 0
    ensures Results(c, Reading(Between(values, false), Text(lines) + tail, ending), n) ==
            Deliveries(c, lines, tail, values, ending, n)
    decreases |lines|, 1
  {
    hide ReadEvent, MeaningOf, DecodeData, Cut, Ascii;
    var f, line, rest := Between(values, false), lines[0], Text(lines[1..]) + tail;
    var ended := TerminatorText(line.terminator) + rest;
    assert Text(lines) + tail == line.content + ended;
    var v := Reading(f, line.content + ended, ending);
    FirstUnbroken(lines, tail);
    if |line.content| > MAX_LINE_BYTES {
      ReadTooLong(c, f, line.content, ended, ending);
      LongMeaning(line.content, values);
      FinalResults(c, v, n);
    } else {
      assert f.line + line.content == line.content;
      ReadPlain(c, f, line.content, ended, ending);
      ReadLineEnd(c, values, line, rest, ending);
      match MeaningOf(line.content, values)
      case Broken(e) => FinalResults(c, v, n);
      case Collected(more) => RestDelivered(c, more, lines, tail, ending, n, v);
      case Complete(data) =>
        if DecodeData(c, data).Err? {
          FinalResults(c, v, n);
        } else {
          var next := Reading(Between([], line.terminator != Lf), (if line.terminator == CrLf then [LF] else []) + rest, ending);
          RestDelivered(c, [], lines, tail, ending, n - 1, next);
        }
    }
  }

  lemma LongMeaning(content: Bytes, values: seq<Bytes>)
    requires |content| > MAX_LINE_BYTES
    ensures MeaningOf(content, values) == Meaning.Broken(LineTooLong)
  {
  }

  lemma FirstUnbroken(lines: seq<Line>, tail: Bytes)
    requires Cut(lines, tail) && lines != []
    ensures OneLine(lines[0].content)
  {
    UnbrokenIs(lines[0].content);
  }

  /** Whatever reads like the state behind the first line gives the deliveries of the other lines. */
  lemma {:induction false} RestDelivered(
    c: Config, values: seq<Bytes>, lines: seq<Line>, tail: Bytes, ending: Ending, n: nat, v: View)
    requires c.mode == EventStream && Cut(lines, tail) && lines != [] && v.Open?
    requires var t := lines[0].terminator;
             ReadEvent(c, v) ==
             ReadEvent(c, Reading(Between(values, t != Lf), (if t == CrLf then [LF] else []) + (Text(lines[1..]) + tail), ending))
    ensures Results(c, v, n) == Deliveries(c, lines[1..], tail, values, ending, n)
    decreases |lines|, 0
  {
    hide ReadEvent, Deliveries, Cut;
    var t, rest := lines[0].terminator, Text(lines[1..]) + tail;
    if t == Cr {
      NoStrayFeed(lines, tail);
    }
    if t == Lf {
      assert [] + rest == rest;
    } else {
      ReadSettled(c, values, t == CrLf, rest, ending);
    }
    hide Text;
    SameReadings(c, v, Reading(Between(values, false), rest, ending), n);
    CutRest(lines, tail);
    LinesDelivered(c, values, lines[1..], tail, ending, n);
  }

  // ----- The byte order mark -----

  lemma Start()
    ensures DECIDED == Between([], false)
  {
  }

  /** Bytes that were held back because a mark was possible count like any others. */
  lemma HeldBack(held: Bytes, b: byte)
    requires held <= BOM && |held| < 3 && !(held + [b] <= BOM)
    ensures PushByte(NewFramer.(prefix := held), b) == PushByte(DECIDED.(line := held), b)
  {
    var pushed := ProcessByte(DECIDED.(line := held), b);
    assert pushed.Ok? && pushed.value.1.None? ==> ProcessPending(pushed.value.0, []) == Ok((pushed.value.0, None));
    assert (held + [b])[|held|..] == [b] && [b][1..] == [];
    LastPending(held, b);
    HeldPending(held, b, 0);
    assert (held + [b])[0..] == held + [b];
  }

  lemma LastPending(held: Bytes, b: byte)
    ensures ProcessPending(DECIDED.(line := held), [b]) == ProcessByte(DECIDED.(line := held), b)
  {
    var pushed := ProcessByte(DECIDED.(line := held), b);
    assert [b][1..] == [];
    assert pushed.Ok? && pushed.value.1.None? ==> ProcessPending(pushed.value.0, []) == Ok((pushed.value.0, None));
  }

  lemma {:induction false} HeldPending(held: Bytes, b: byte, i: nat)
    requires held <= BOM && i <= |held| < 3
    ensures ProcessPending(DECIDED.(line := held[..i]), (held + [b])[i..]) == ProcessPending(DECIDED.(line := held), [b])
    decreases |held| - i
  {
    var pending := (held + [b])[i..];
    if i == |held| {
      assert pending == [b] && held[..i] == held;
    } else {
      HeldPending(held, b, i + 1);
      assert pending[0] == held[i] == BOM[i] && pending[1..] == (held + [b])[i + 1..];
      assert held[..i] + [held[i]] == held[..i + 1];
    }
  }

  lemma {:induction false} ReadUnmarked(c: Config, held: Bytes, text: Bytes, ending: Ending)
    requires held <= BOM && |held| < 3 && !(BOM <= held + text)
    ensures ReadEvent(c, Reading(NewFramer.(prefix := held), text, ending)) ==
            ReadEvent(c, Reading(DECIDED.(line := held), text, ending))
    decreases |text|
  {
    var waiting, plain := NewFramer.(prefix := held), DECIDED.(line := held);
    if text == [] {
      ReadNothing(c, Reading(waiting, text, ending));
      ReadNothing(c, Reading(plain, text, ending));
    } else {
      var b, more := text[0], held + [text[0]];
      assert held + text == more + text[1..];
      ReadByte(c, Reading(waiting, text, ending));
      ReadByte(c, Reading(plain, text, ending));
      if more <= BOM {
        assert more != BOM;
        assert PushByte(waiting, b) == Ok((NewFramer.(prefix := more), None));
        assert b == BOM[|held|];
        assert PushByte(plain, b) == Ok((DECIDED.(line := more), None));
        ReadUnmarked(c, more, text[1..], ending);
      } else {
        HeldBack(held, b);
      }
      hide ReadEvent, PushByte;
    }
  }

  lemma ReadMarked(c: Config, text: Bytes, ending: Ending)
    ensures ReadEvent(c, Reading(NewFramer, BOM + text, ending)) == ReadEvent(c, Reading(DECIDED, text, ending))
  {
    MarkBytes();
    hide PushByte, ReadEvent;
    var one, two := NewFramer.(prefix := [BOM[0]]), NewFramer.(prefix := [BOM[0], BOM[1]]);
    ReadByte(c, Reading(NewFramer, BOM + text, ending));
    assert (BOM + text)[1..] == [BOM[1], BOM[2]] + text;
    ReadByte(c, Reading(one, [BOM[1], BOM[2]] + text, ending));
    assert ([BOM[1], BOM[2]] + text)[1..] == [BOM[2]] + text;
    ReadByte(c, Reading(two, [BOM[2]] + text, ending));
    assert ([BOM[2]] + text)[1..] == text;
  }

  // ----- Every body -----

  /** How a body is read: with or without a mark in front, and as its lines. */
  predicate ReadAs(body: Bytes, marked: bool, lines: seq<Line>, tail: Bytes) {
    && Cut(lines, tail) && (!marked ==> !(BOM <= body))
    && body == (if marked then BOM else []) + (Text(lines) + tail)
  }

  /**
    Whatever the body and wherever it is cut into chunks, the results are those of its
    lines: the joined data of every item in order, nothing for other lines, the first
    failure, and then the end; an item that no blank line closes is never delivered.
   */
  lemma EveryChunkingDelivers(
    c: Config, chunks: seq<Bytes>, marked: bool, lines: seq<Line>, tail: Bytes, ending: Ending, n: nat)
    requires c.mode == EventStream && ReadAs(Concat(chunks), marked, lines, tail)
    ensures Results(c, Open(NewFramer, [], Concat(chunks), ending), n) == Deliveries(c, lines, tail, [], ending, n)
  {
    hide ReadEvent, Deliveries, Cut, Concat, Text;
    var body, text := Concat(chunks), Text(lines) + tail;
    Start();
    if marked {
      ReadMarked(c, text, ending);
    } else {
      assert body == text == [] + text;
      assert NewFramer.(prefix := []) == NewFramer && DECIDED.(line := []) == DECIDED;
      ReadUnmarked(c, [], text, ending);
    }
    SameReadings(c, Reading(NewFramer, body, ending), Reading(DECIDED, text, ending), n);
    LinesDelivered(c, [], lines, tail, ending, n);
  }

  lemma CutBlank(t: Terminator, rest: seq<Line>, tail: Bytes)
    requires Cut(rest, tail) && (t == Cr && rest != [] ==> rest[0] != Line([], Lf))
    ensures Cut([Line([], t)] + rest, tail) && Text([Line([], t)] + rest) + tail == TerminatorText(t) + (Text(rest) + tail)
  {
    hide Ascii;
    var lines := [Line([], t)] + rest;
    assert lines[1..] == rest;
    hide Unbroken, Text;
    forall i | 0 < i < |lines| && lines[i - 1].terminator == Cr
      ensures lines[i] != Line([], Lf)
    {
      assert lines[i] == rest[i - 1] && (i > 1 ==> lines[i - 1] == rest[i - 2]);
    }
  }

  lemma CutLonger(b: byte, rest: seq<Line>, tail: Bytes) returns (lines: seq<Line>)
    requires Cut(rest, tail) && rest != [] && b !in Ascii("\r\n")
    ensures Cut(lines, tail) && Text(lines) + tail == [b] + (Text(rest) + tail)
  {
    var longer := rest[0].(content := [b] + rest[0].content);
    lines := [longer] + rest[1..];
    assert Unbroken(longer.content);
    hide Unbroken, Ascii;
    assert lines[1..] == rest[1..];
    var ended := rest[0].content + TerminatorText(rest[0].terminator);
    assert Text(rest) == ended + Text(rest[1..]);
    assert longer.content + TerminatorText(longer.terminator) == [b] + ended;
    assert Text(lines) == [b] + ended + Text(rest[1..]);
    hide Text, TerminatorText;
    assert [b] + ended + Text(rest[1..]) + tail == [b] + (ended + Text(rest[1..]) + tail);
    forall i | 0 < i < |lines| && lines[i - 1].terminator == Cr
      ensures lines[i] != Line([], Lf)
    {
      assert lines[i] == rest[i] && lines[i - 1].terminator == rest[i - 1].terminator;
    }
  }

  lemma {:induction false} TextIsCut(text: Bytes) returns (lines: seq<Line>, tail: Bytes)
    ensures Cut(lines, tail) && Text(lines) + tail == text
    decreases |text|
  {
    LineEnds();
    if text == [] {
      return [], [];
    }
    hide Ascii, Text;
    if text[0] == LF || text[0] == CR {
      var t := if text[0] == LF then Lf else if |text| > 1 && text[1] == LF then CrLf else Cr;
      var n := |TerminatorText(t)|;
      assert text == TerminatorText(t) + text[n..];
      var rest;
      rest, tail := TextIsCut(text[n..]);
      BlankFirst(rest, tail);
      CutBlank(t, rest, tail);
      lines := [Line([], t)] + rest;
    } else {
      var rest;
      rest, tail := TextIsCut(text[1..]);
      assert text == [text[0]] + text[1..];
      if rest == [] {
        NoLines();
        assert [] + tail == tail;
        lines, tail := [], [text[0]] + tail;
      } else {
        hide Cut;
        lines := CutLonger(text[0], rest, tail);
      }
    }
  }

  lemma NoLines()
    ensures Text([]) == []
  {
  }

  lemma BlankFirst(lines: seq<Line>, tail: Bytes)
    ensures lines != [] && lines[0] == Line([], Lf) ==> Text(lines) + tail != [] && (Text(lines) + tail)[0] == LF
  {
    LineEnds();
  }

  /** Every body is read in some such way, so the results of every body are determined. */
  lemma EveryBodyIsRead(body: Bytes) returns (marked: bool, lines: seq<Line>, tail: Bytes)
    ensures ReadAs(body, marked, lines, tail)
  {
    marked := BOM <= body;
    var text := if marked then body[3..] else body;
    lines, tail := TextIsCut(text);
    assert body == (if marked then BOM else []) + text;
  }

  // ----- Items -----

  /** The values of the data lines, in order. */
  function DataOfAll(block: seq<Line>): seq<Bytes> {
    if block == [] then []
    else
      var last := DataOf(block[|block| - 1].content);
      DataOfAll(block[..|block| - 1]) + (if last.Some? then [last.value] else [])
  }

  /** Lines of one item: none is blank, all are text within the limits. */
  predicate Block(block: seq<Line>) {
    && (forall i :: 0 <= i < |block| ==> block[i].content != [] && |block[i].content| <= 65_536 && Utf8.Valid(block[i].content))
    && |Join(DataOfAll(block))| <= 65_536
  }

  lemma BlockGrows(block: seq<Line>)
    requires Block(block) && block != []
    ensures var init := block[..|block| - 1];
            Block(init) && MeaningOf(block[|block| - 1].content, DataOfAll(init)) == Collected(DataOfAll(block))
  {
    hide Utf8.Valid, DataOf;
    var init, value := block[..|block| - 1], DataOf(block[|block| - 1].content);
    if value.Some? {
      JoinMore(DataOfAll(init), value.value);
      assert DataOfAll(init) == [] ==> Join(DataOfAll(init)) == [];
    } else {
      assert DataOfAll(init) + [] == DataOfAll(init);
    }
    hide Join;
  }

  lemma FirstCollected(
    c: Config, line: Line, rest: seq<Line>, tail: Bytes, values: seq<Bytes>, more: seq<Bytes>, ending: Ending, n: nat)
    requires MeaningOf(line.content, values) == Collected(more)
    ensures Deliveries(c, [line] + rest, tail, values, ending, n) == Deliveries(c, rest, tail, more, ending, n)
  {
    hide MeaningOf;
    assert ([line] + rest)[1..] == rest;
  }

  lemma {:induction false} BlockCollected(
    c: Config, block: seq<Line>, rest: seq<Line>, tail: Bytes, ending: Ending, n: nat)
    requires Block(block)
    ensures Deliveries(c, block + rest, tail, [], ending, n) == Deliveries(c, rest, tail, DataOfAll(block), ending, n)
    decreases |block|
  {
    if block == [] {
      assert block + rest == rest;
    } else {
      var init, last := block[..|block| - 1], block[|block| - 1];
      BlockGrows(block);
      hide Block, MeaningOf, DataOfAll, Deliveries;
      BlockCollected(c, init, [last] + rest, tail, ending, n);
      assert block + rest == init + ([last] + rest);
      FirstCollected(c, last, rest, tail, DataOfAll(init), DataOfAll(block), ending, n);
    }
  }

  /** A block closed by a blank line is one record of its joined data values, or nothing when it has none. */
  lemma BlockDelivers(c: Config, block: seq<Line>, blank: Line, rest: seq<Line>, tail: Bytes, ending: Ending, n: nat)
    requires Block(block) && blank.content == [] && n > 0
    ensures Deliveries(c, block + [blank] + rest, tail, [], ending, n) ==
            if DataOfAll(block) == [] then Deliveries(c, rest, tail, [], ending, n)
            else
              match DecodeData(c, Join(DataOfAll(block)))
              case Err(e) => Again(Err(e), n)
              case Ok(record) => [Ok(Some(record))] + Deliveries(c, rest, tail, [], ending, n - 1)
  {
    hide DecodeData, Block, DataOfAll, Join;
    BlockCollected(c, block, [blank] + rest, tail, ending, n);
    assert block + [blank] + rest == block + ([blank] + rest);
    assert ([blank] + rest)[1..] == rest;
    assert Utf8.Valid([]);
  }

  /** A marker is recognized by its first position; any other text is sanitized. */
  lemma DataIsDecoded(c: Config, data: Bytes, i: nat)
    requires Utf8.Valid(data)
    ensures i < |c.markers| && c.markers[i] == data && data !in c.markers[..i] ==> DecodeData(c, data) == Ok(Literal(i))
    ensures data !in c.markers ==>
              DecodeData(c, data) == match c.sanitize(data)
                                     case Ok(text) => Ok(Json(text))
                                     case Err(reason) => Err(Unsanitary(reason))
  {
    if i < |c.markers| && c.markers[i] == data && data !in c.markers[..i] {
      forall j | 0 <= j < i
        ensures c.markers[j] != data
      {
        assert c.markers[..i][j] == c.markers[j];
      }
    }
  }
}
