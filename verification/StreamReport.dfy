/** What the sniffer reports of a stream of events, said without its parser: the usage of the last chunk
    that carries one, and the length of all the chunks' texts. */
module StreamReport {
  import opened Redis
  import opened Events

  // ---- streams as they are written ----

  /** A data line, its text after a space or not and its end after a carriage return or not; or any other
      line, such as a comment or an event's name. */
  datatype Line = Data(padded: bool, text: bytes, cr: bool) | Other(line: bytes)

  const SPACE: byte := 32

  function LineBytes(l: Line): bytes {
    match l
    case Data(padded, text, cr) => DATA + (if padded then [SPACE] else []) + text + (if cr then [CR] else [])
    case Other(line) => line
  }

  /** The lines of an event, joined by line feeds. */
  function EventBytes(lines: seq<Line>): bytes {
    if lines == [] then []
    else if |lines| == 1 then LineBytes(lines[0])
    else LineBytes(lines[0]) + [LF] + EventBytes(lines[1..])
  }

  /** Each event with the blank line that ends it, and what has come of the next one. */
  function Stream(events: seq<seq<Line>>, rest: bytes): bytes {
    if events == [] then rest else EventBytes(events[0]) + [LF, LF] + Stream(events[1..], rest)
  }

  /** Texts have no line feed in them and no space around them; other lines have none either, are not empty
      and are not data lines. */
  predicate WellWritten(l: Line) {
    match l
    case Data(_, text, _) => LF !in text && SpaceBefore(text) == 0 && SpaceAfter(text) == 0
    case Other(line) => LF !in line && line != [] && !(DATA <= line)
  }

  ghost predicate WrittenEvent(lines: seq<Line>) {
    lines != [] && forall l | l in lines :: WellWritten(l)
  }

  ghost predicate Written(events: seq<seq<Line>>, rest: bytes) {
    (forall e | e in events :: WrittenEvent(e)) && NoBlank(rest)
  }

  // ---- what they say ----

  /** The texts of an event's data lines, one after the other. */
  function Text(lines: seq<Line>): bytes {
    if lines == [] then [] else (if lines[0].Data? then lines[0].text else []) + Text(lines[1..])
  }

  /** The chunk an event carries: none if it has no text, is the end marker or does not decode. */
  function Said(lines: seq<Line>, decode: Decoder): Option<Chunk> {
    if Text(lines) == [] || Text(lines) == DONE then None else decode(Text(lines))
  }

  function Joined(texts: seq<bytes>): bytes {
    if texts == [] then [] else texts[0] + Joined(texts[1..])
  }

  /** Everything the chunks say, joined. */
  function AllSaid(events: seq<seq<Line>>, decode: Decoder): bytes {
    if events == [] then []
    else
      var last := Said(events[|events| - 1], decode);
      AllSaid(events[..|events| - 1], decode) + if last.Some? then Joined(last.value.contents) else []
  }

  predicate CarriesUsage(lines: seq<Line>, decode: Decoder) {
    Said(lines, decode).Some? && Said(lines, decode).value.usage.Some?
  }

  /** The last event that carries a usage, among some. */
  predicate LastUsage(events: seq<seq<Line>>, i: nat, usage: Option<Usage>, decode: Decoder) {
    && i < |events| && CarriesUsage(events[i], decode) && usage == Said(events[i], decode).value.usage
    && forall j | i < j < |events| :: !CarriesUsage(events[j], decode)
  }

  /** The usage is the last one carried, if any is. */
  ghost predicate HasUsage(usage: Option<Usage>, events: seq<seq<Line>>, decode: Decoder) {
    && (usage.None? <==> forall i | 0 <= i < |events| :: !CarriesUsage(events[i], decode))
    && (usage.Some? ==> exists i: nat :: LastUsage(events, i, usage, decode))
  }

  /** And the characters are all that was said. */
  ghost predicate Reports(t: Tally, events: seq<seq<Line>>, decode: Decoder) {
    t.chars == |AllSaid(events, decode)| && HasUsage(t.usage, events, decode)
  }

  // ---- one line ----

  lemma NoSpaceAround(s: bytes)
    requires SpaceBefore(s) == 0 && SpaceAfter(s) == 0
    ensures TrimSpace(s) == s && TrimSpace([SPACE] + s) == s
  {
    var p := [SPACE] + s;
    assert p[..1] == [SPACE] && p[1..] == s;
  }

  lemma LastIsNoCr(text: bytes)
    requires SpaceAfter(text) == 0 && text != []
    ensures text[|text| - 1] != CR
  {
    assert text[|text| - 1..] == [text[|text| - 1]];
  }

  lemma TrimOneCr(l: bytes)
    requires l != [] && l[|l| - 1] != CR
    ensures TrimCr(l) == l && TrimCr(l + [CR]) == l
  {
    var s := l + [CR];
    assert s[|s| - 1] == CR && s[..|s| - 1] == l;
  }

  lemma DataBody(body: bytes)
    ensures DATA <= DATA + body && (DATA + body)[|DATA|..] == body
    ensures (DATA + body)[|DATA + body| - 1] == if body == [] then DATA[4] else body[|body| - 1]
  {
  }

  lemma DataShape(padded: bool, text: bytes, cr: bool)
    ensures var body := if padded then [SPACE] + text else text;
            LineBytes(Data(padded, text, cr)) == if cr then DATA + body + [CR] else DATA + body
  {
  }

  lemma BodyEnds(padded: bool, text: bytes)
    requires SpaceAfter(text) == 0
    ensures var body := if padded then [SPACE] + text else text;
            body != [] ==> body[|body| - 1] != CR
  {
    if text != [] { LastIsNoCr(text); }
  }

  lemma DataLineSays(line: bytes, body: bytes, text: bytes)
    requires TrimCr(line) == DATA + body && TrimSpace(body) == text
    ensures LineData(line) == text
  {
    DataBody(body);
  }

  lemma DataLine(padded: bool, text: bytes, cr: bool)
    requires WellWritten(Data(padded, text, cr))
    ensures LineData(LineBytes(Data(padded, text, cr))) == text
  {
    var body := if padded then [SPACE] + text else text;
    DataShape(padded, text, cr);
    DataBody(body);
    BodyEnds(padded, text);
    TrimOneCr(DATA + body);
    NoSpaceAround(text);
    DataLineSays(LineBytes(Data(padded, text, cr)), body, text);
  }

  lemma {:induction false} TrimCrShortens(s: bytes)
    ensures TrimCr(s) <= s
  {
    if s != [] && s[|s| - 1] == CR { TrimCrShortens(s[..|s| - 1]); }
  }

  lemma OtherLine(line: bytes)
    requires !(DATA <= line)
    ensures LineData(line) == []
  {
    TrimCrShortens(line);
  }

  lemma LineSays(l: Line)
    requires WellWritten(l)
    ensures LineData(LineBytes(l)) == if l.Data? then l.text else []
    ensures LF !in LineBytes(l) && LineBytes(l) != []
  {
    match l
    case Data(padded, text, cr) => DataLine(padded, text, cr);
    case Other(line) => OtherLine(line);
  }

  // ---- one event ----

  lemma {:induction false} OneLine(a: bytes)
    requires LF !in a
    ensures Lines(a) == [a]
  {
    if a != [] {
      OneLine(a[1..]);
      assert a == [a[0]] + a[1..];
    }
  }

  lemma {:induction false} FirstLine(a: bytes, b: bytes)
    requires LF !in a
    ensures Lines(a + [LF] + b) == [a] + Lines(b)
  {
    var s := a + [LF] + b;
    if a == [] {
      assert s[1..] == b;
    } else {
      FirstLine(a[1..], b);
      assert s[1..] == a[1..] + [LF] + b;
      assert a == [a[0]] + a[1..];
    }
  }

  function AllBytes(lines: seq<Line>): seq<bytes> {
    if lines == [] then [] else [LineBytes(lines[0])] + AllBytes(lines[1..])
  }

  lemma {:induction false} EventLines(lines: seq<Line>)
    requires WrittenEvent(lines)
    ensures Lines(EventBytes(lines)) == AllBytes(lines)
    decreases |lines|
  {
    LineSays(lines[0]);
    if |lines| == 1 {
      OneLine(LineBytes(lines[0]));
      assert AllBytes(lines[1..]) == [];
    } else {
      FirstLine(LineBytes(lines[0]), EventBytes(lines[1..]));
      EventLines(lines[1..]);
    }
  }

  lemma PayloadSnoc(lines: seq<bytes>, line: bytes)
    ensures Payload(lines + [line]) == Payload(lines) + LineData(line)
  {
    assert (lines + [line])[..|lines|] == lines;
  }

  lemma LastLine(line: bytes, lines: seq<bytes>)
    requires lines != []
    ensures var init, last := lines[..|lines| - 1], lines[|lines| - 1];
            lines == init + [last] && [line] + lines == [line] + init + [last]
  {
  }

  lemma {:induction false} PayloadFront(line: bytes, lines: seq<bytes>)
    ensures Payload([line] + lines) == LineData(line) + Payload(lines)
    decreases |lines|
  {
    if lines == [] {
      assert [line] + lines == [] + [line];
      PayloadSnoc([], line);
    } else {
      var init, last := lines[..|lines| - 1], lines[|lines| - 1];
      PayloadFront(line, init);
      LastLine(line, lines);
      PayloadSnoc([line] + init, last);
      PayloadSnoc(init, last);
      Reassociate(LineData(line), Payload(init), LineData(last));
    }
  }

  lemma Reassociate(a: bytes, b: bytes, c: bytes)
    ensures a + b + c == a + (b + c)
  {
  }

  lemma {:induction false} PayloadIsText(lines: seq<Line>)
    requires forall l | l in lines :: WellWritten(l)
    ensures Payload(AllBytes(lines)) == Text(lines)
    decreases |lines|
  {
    if lines != [] {
      LineSays(lines[0]);
      PayloadIsText(lines[1..]);
      PayloadFront(LineBytes(lines[0]), AllBytes(lines[1..]));
    }
  }

  lemma {:induction false} LengthJoined(texts: seq<bytes>)
    ensures Length(texts) == |Joined(texts)|
    decreases |texts|
  {
    if texts != [] {
      LengthJoined(texts[1..]);
      LengthFront(texts[0], texts[1..]);
      assert [texts[0]] + texts[1..] == texts;
    }
  }

  lemma {:induction false} LengthFront(text: bytes, texts: seq<bytes>)
    ensures Length([text] + texts) == |text| + Length(texts)
    decreases |texts|
  {
    var all := [text] + texts;
    if texts == [] {
      assert all[..|all| - 1] == [];
    } else {
      LengthFront(text, texts[..|texts| - 1]);
      assert all[..|all| - 1] == [text] + texts[..|texts| - 1];
    }
  }

  /** What one event changes: nothing if it says nothing. */
  lemma OneEvent(t: Tally, lines: seq<Line>, decode: Decoder)
    requires WrittenEvent(lines)
    ensures var said := Said(lines, decode);
            Parse(t, EventBytes(lines), decode)
            == if said.None? then t
               else Tally(if said.value.usage.Some? then said.value.usage else t.usage,
                          t.chars + |Joined(said.value.contents)|)
  {
    EventLines(lines);
    PayloadIsText(lines);
    var said := Said(lines, decode);
    if said.Some? { LengthJoined(said.value.contents); }
  }

  // ---- the whole stream ----

  function AllEvents(events: seq<seq<Line>>): seq<bytes> {
    if events == [] then [] else [EventBytes(events[0])] + AllEvents(events[1..])
  }

  lemma {:induction false} StreamRejoins(events: seq<seq<Line>>, rest: bytes)
    ensures Rejoin(Pieces(AllEvents(events), rest)) == Stream(events, rest)
    decreases |events|
  {
    if events != [] {
      StreamRejoins(events[1..], rest);
      assert AllEvents(events)[1..] == AllEvents(events[1..]);
    }
  }

  lemma {:induction false} EventIsClean(lines: seq<Line>)
    requires WrittenEvent(lines)
    ensures var e := EventBytes(lines); NoBlank(e) && e != [] && e[0] != LF && e[|e| - 1] != LF
    decreases |lines|
  {
    LineSays(lines[0]);
    var a := LineBytes(lines[0]);
    if |lines| > 1 {
      var b := EventBytes(lines[1..]);
      EventIsClean(lines[1..]);
      var e := a + [LF] + b;
      forall i ensures !BlankAt(e, i) {
        if |a| < i { assert BlankAt(e, i) ==> BlankAt(b, i - |a| - 1); }
      }
    }
  }

  lemma {:induction false} EventsAt(events: seq<seq<Line>>, k: nat)
    requires k < |events|
    ensures |AllEvents(events)| == |events| && AllEvents(events)[k] == EventBytes(events[k])
    decreases |events|
  {
    if |events| > 1 { EventsAt(events[1..], if k > 0 then k - 1 else 0); }
  }

  /** The sniffer finds the events that were written. */
  lemma StreamIsCut(events: seq<seq<Line>>, rest: bytes)
    requires Written(events, rest)
    ensures Cut(Stream(events, rest)) == Pieces(AllEvents(events), rest)
  {
    var p := Pieces(AllEvents(events), rest);
    if events != [] { EventsAt(events, 0); }
    forall k | 0 <= k < |p.events|
      ensures NoBlank(p.events[k]) && (p.events[k] != [] ==> p.events[k][|p.events[k]| - 1] != LF)
    {
      EventsAt(events, k);
      assert events[k] in events;
      EventIsClean(events[k]);
    }
    StreamRejoins(events, rest);
    CutIsUnique(p);
  }

  lemma SameEvents(events: seq<seq<Line>>, lines: seq<Line>)
    ensures var all := events + [lines];
            all[..|events|] == events && all[|events|] == lines && forall j | 0 <= j < |events| :: all[j] == events[j]
  {
  }

  lemma UsageOneMore(usage: Option<Usage>, events: seq<seq<Line>>, lines: seq<Line>, decode: Decoder)
    returns (next: Option<Usage>)
    requires HasUsage(usage, events, decode)
    ensures next == (if CarriesUsage(lines, decode) then Said(lines, decode).value.usage else usage)
    ensures HasUsage(next, events + [lines], decode)
  {
    var all := events + [lines];
    SameEvents(events, lines);
    if CarriesUsage(lines, decode) {
      next := Said(lines, decode).value.usage;
      assert CarriesUsage(all[|events|], decode);
      assert LastUsage(all, |events|, next, decode);
    } else {
      next := usage;
      if usage.Some? {
        var i: nat :| LastUsage(events, i, usage, decode);
        assert LastUsage(all, i, usage, decode);
        assert CarriesUsage(all[i], decode);
      }
    }
  }

  lemma ReportsOneMore(t: Tally, events: seq<seq<Line>>, lines: seq<Line>, decode: Decoder)
    requires WrittenEvent(lines) && Reports(t, events, decode)
    ensures Reports(Parse(t, EventBytes(lines), decode), events + [lines], decode)
  {
    OneEvent(t, lines, decode);
    SameEvents(events, lines);
    var next := UsageOneMore(t.usage, events, lines, decode);
  }

  lemma {:induction false} AllEventsSnoc(events: seq<seq<Line>>, lines: seq<Line>)
    ensures AllEvents(events + [lines]) == AllEvents(events) + [EventBytes(lines)]
    decreases |events|
  {
    var all := events + [lines];
    if events == [] {
      assert all[1..] == [];
    } else {
      AllEventsSnoc(events[1..], lines);
      assert all[1..] == events[1..] + [lines];
    }
  }

  lemma {:induction false} ParsedReports(events: seq<seq<Line>>, decode: Decoder)
    requires forall e | e in events :: WrittenEvent(e)
    ensures Reports(ParseAll(Tally(None, 0), AllEvents(events), decode), events, decode)
    decreases |events|
  {
    if events != [] {
      var n := |events| - 1;
      var init := events[..n];
      ParsedReports(init, decode);
      assert events == init + [events[n]] && events[n] in events;
      AllEventsSnoc(init, events[n]);
      var es := AllEvents(init) + [EventBytes(events[n])];
      assert es[..|es| - 1] == AllEvents(init);
      ReportsOneMore(ParseAll(Tally(None, 0), AllEvents(init), decode), init, events[n], decode);
    }
  }

  /** Of any stream so written, the sniffer reports the usage of the last chunk that carries one, none if
      none does, and the total length of all the texts; chunks that do not decode, empty events, comments
      and end markers change nothing. */
  lemma StreamIsReported(events: seq<seq<Line>>, rest: bytes, decode: Decoder)
    requires Written(events, rest)
    ensures Reports(Sniffed(Stream(events, rest), decode), events, decode)
  {
    StreamIsCut(events, rest);
    ParsedReports(events, decode);
  }
}

/** The same of the sniffer as it runs. */
module SnifferReport {
  import opened Events
  import opened Sniffer
  import opened StreamReport

  /** Whatever writes it took, once the client has taken this stream the sniffer holds this report. */
  lemma HeldReport(a: SSESniffer, events: seq<seq<Line>>, rest: bytes)
    requires a.Valid() && Written(events, rest) && a.dst.written == Stream(events, rest)
    ensures Reports(Tally(a.usage, a.completionChars), events, a.decode) && a.pending == rest
  {
    StreamIsReported(events, rest, a.decode);
    StreamIsCut(events, rest);
  }

  lemma NextChunk(was: bytes, chunks: seq<bytes>, i: nat)
    requires i < |chunks|
    ensures was + Joined(chunks[i..]) == (was + chunks[i][..|chunks[i]|]) + Joined(chunks[i + 1..])
  {
    assert chunks[i][..|chunks[i]|] == chunks[i];
    assert chunks[i..][1..] == chunks[i + 1..];
    Reassociate(was, chunks[i], Joined(chunks[i + 1..]));
  }

  /** A stream cut into writes anywhere and taken whole is reported as it was written. */
  method WriteAll(a: SSESniffer, chunks: seq<bytes>, events: seq<seq<Line>>, rest: bytes)
    requires a.Valid() && a.dst.written == [] && Written(events, rest) && Joined(chunks) == Stream(events, rest)
    modifies a, a.dst
    ensures a.Valid() && a.dst.written == Stream(events, rest)
    ensures Reports(Tally(a.usage, a.completionChars), events, a.decode)
  {
    for i := 0 to |chunks|
      invariant a.Valid() && a.dst.written + Joined(chunks[i..]) == Joined(chunks)
    {
      NextChunk(a.dst.written, chunks, i);
      var n := a.Write(chunks[i], |chunks[i]|);
    }
    assert chunks[|chunks|..] == [];
    HeldReport(a, events, rest);
  }
}
