/** What a stream of server-sent events says, as a function of its bytes. */
module Events {
  import opened Redis

  type byte = x: int | 0 <= x < 256
  type bytes = seq<byte>

  const LF: byte := 10
  const CR: byte := 13
  const DATA: bytes := [100, 97, 116, 97, 58]             // data:
  const DONE: bytes := [91, 68, 79, 78, 69, 93]           // [DONE]

  datatype Usage = Usage(promptTokens: int, completionTokens: int, totalTokens: int)

  /** The parts of a decoded chunk that matter: each choice's text, and the usage if present. */
  datatype Chunk = Chunk(contents: seq<bytes>, usage: Option<Usage>)

  /** JSON decoding; None stands for an error. */
  type Decoder = bytes -> Option<Chunk>

  datatype Tally = Tally(usage: Option<Usage>, chars: nat)

  /** The first blank line: two line feeds in a row. */
  predicate BlankAt(s: bytes, i: int) {
    0 <= i < |s| - 1 && s[i] == LF && s[i + 1] == LF
  }

  function Index(s: bytes): (r: Option<nat>)
    ensures r.Some? ==> BlankAt(s, r.value) && forall i | 0 <= i < r.value :: !BlankAt(s, i)
    ensures r.None? ==> forall i :: !BlankAt(s, i)
  {
    IndexFrom(s, 0)
  }

  function IndexFrom(s: bytes, k: nat): (r: Option<nat>)
    requires k <= |s|
    ensures r.Some? ==> k <= r.value && BlankAt(s, r.value) && forall i | k <= i < r.value :: !BlankAt(s, i)
    ensures r.None? ==> forall i | k <= i :: !BlankAt(s, i)
    decreases |s| - k
  {
    if k == |s| then None
    else if BlankAt(s, k) then Some(k)
    else IndexFrom(s, k + 1)
  }

  /** Complete events, and what is left after the last of them. */
  datatype Pieces = Pieces(events: seq<bytes>, rest: bytes)

  function Cut(s: bytes): Pieces
    decreases |s|
  {
    var i := Index(s);
    if i.None? then Pieces([], s)
    else
      var tail := Cut(s[i.value + 2..]);
      Pieces([s[..i.value]] + tail.events, tail.rest)
  }

  /** The events with their delimiters put back, and the remainder. */
  function Rejoin(p: Pieces): bytes
    decreases |p.events|
  {
    if p.events == [] then p.rest
    else p.events[0] + [LF, LF] + Rejoin(Pieces(p.events[1..], p.rest))
  }

  ghost predicate NoBlank(s: bytes) {
    forall i :: !BlankAt(s, i)
  }

  /** Neither an event nor the remainder holds a blank line, and no event ends in a line feed. */
  ghost predicate Clean(p: Pieces) {
    && NoBlank(p.rest)
    && forall k | 0 <= k < |p.events| ::
         NoBlank(p.events[k]) && (p.events[k] != [] ==> p.events[k][|p.events[k]| - 1] != LF)
  }

  lemma EventIsClean(s: bytes, i: nat)
    requires Index(s) == Some(i)
    ensures NoBlank(s[..i]) && (i > 0 ==> s[i - 1] != LF)
    ensures s == s[..i] + [LF, LF] + s[i + 2..]
  {
    assert forall j :: BlankAt(s[..i], j) ==> BlankAt(s, j);
    assert !BlankAt(s, i - 1);
  }

  lemma OneMorePiece(event: bytes, tail: Pieces)
    requires NoBlank(event) && (event != [] ==> event[|event| - 1] != LF)
    ensures var p := Pieces([event] + tail.events, tail.rest);
            Rejoin(p) == event + [LF, LF] + Rejoin(tail) && (Clean(tail) ==> Clean(p))
  {
    assert ([event] + tail.events)[1..] == tail.events;
  }

  /** Cutting loses nothing: the pieces rejoin to the very bytes that were cut. */
  lemma {:induction false} CutRejoins(s: bytes)
    ensures Rejoin(Cut(s)) == s && Clean(Cut(s))
    decreases |s|
  {
    var i := Index(s);
    if i.Some? {
      CutRejoins(s[i.value + 2..]);
      EventIsClean(s, i.value);
      OneMorePiece(s[..i.value], Cut(s[i.value + 2..]));
    }
  }

  lemma FirstBlank(event: bytes, tail: bytes)
    requires NoBlank(event) && (event != [] ==> event[|event| - 1] != LF)
    ensures Index(event + [LF, LF] + tail) == Some(|event|)
    ensures (event + [LF, LF] + tail)[|event| + 2..] == tail
    ensures (event + [LF, LF] + tail)[..|event|] == event
  {
    var s := event + [LF, LF] + tail;
    assert BlankAt(s, |event|);
    forall j | 0 <= j < |event|
      ensures !BlankAt(s, j)
    {
      assert !BlankAt(event, j);
      assert s[j] == event[j] && s[j + 1] == if j + 1 < |event| then event[j + 1] else LF;
    }
  }

  /** There is only one clean way to cut a stream, so nothing about how it arrived can show. */
  lemma {:induction false} CutIsUnique(p: Pieces)
    requires Clean(p)
    ensures Cut(Rejoin(p)) == p
    decreases |p.events|
  {
    if p.events != [] {
      var tail := Pieces(p.events[1..], p.rest);
      CutIsUnique(tail);
      FirstBlank(p.events[0], Rejoin(tail));
      assert [p.events[0]] + tail.events == p.events;
    }
  }

  lemma FirstBlankStays(s: bytes, more: bytes, i: nat)
    requires Index(s) == Some(i)
    ensures Index(s + more) == Some(i)
    ensures (s + more)[i + 2..] == s[i + 2..] + more && (s + more)[..i] == s[..i]
  {
    assert BlankAt(s + more, i);
    assert forall j | 0 <= j < i :: BlankAt(s + more, j) <==> BlankAt(s, j);
  }

  /** Cutting what was left over together with what arrives next continues the cut. */
  lemma {:induction false} CutContinues(s: bytes, more: bytes)
    ensures var c := Cut(s); var d := Cut(c.rest + more);
            Cut(s + more) == Pieces(c.events + d.events, d.rest)
    decreases |s|
  {
    var i := Index(s);
    if i.None? {
      assert [] + Cut(s + more).events == Cut(s + more).events;
    } else {
      FirstBlankStays(s, more, i.value);
      CutContinues(s[i.value + 2..], more);
      var c, d := Cut(s[i.value + 2..]), Cut(Cut(s[i.value + 2..]).rest + more);
      assert ([s[..i.value]] + c.events) + d.events == [s[..i.value]] + (c.events + d.events);
    }
  }

  // ---- One event ----

  function Lines(event: bytes): (r: seq<bytes>)
    ensures |r| > 0
  {
    if event == [] then [[]]
    else
      var rest := Lines(event[1..]);
      if event[0] == LF then [[]] + rest else [[event[0]] + rest[0]] + rest[1..]
  }

  /** strings.TrimRight(line, "\r"). */
  function TrimCr(s: bytes): bytes {
    if s != [] && s[|s| - 1] == CR then TrimCr(s[..|s| - 1]) else s
  }

  /** The UTF-8 encodings of the runes that unicode.IsSpace accepts. */
  predicate IsSpace(s: bytes) {
    || (|s| == 1 && (9 <= s[0] <= 13 || s[0] == 32))
    || s == [0xC2, 0x85] || s == [0xC2, 0xA0] || s == [0xE1, 0x9A, 0x80]
    || (|s| == 3 && s[..2] == [0xE2, 0x80] && (0x80 <= s[2] <= 0x8A || s[2] in {0xA8, 0xA9, 0xAF}))
    || s == [0xE2, 0x81, 0x9F] || s == [0xE3, 0x80, 0x80]
  }

  /** How many bytes of space start, or end, a text. */
  function SpaceBefore(s: bytes): nat {
    if |s| >= 1 && IsSpace(s[..1]) then 1
    else if |s| >= 2 && IsSpace(s[..2]) then 2
    else if |s| >= 3 && IsSpace(s[..3]) then 3
    else 0
  }

  function SpaceAfter(s: bytes): nat {
    if |s| >= 1 && IsSpace(s[|s| - 1..]) then 1
    else if |s| >= 2 && IsSpace(s[|s| - 2..]) then 2
    else if |s| >= 3 && IsSpace(s[|s| - 3..]) then 3
    else 0
  }

  function TrimSpace(s: bytes): bytes
    decreases |s|
  {
    if SpaceBefore(s) > 0 then TrimSpace(s[SpaceBefore(s)..])
    else if SpaceAfter(s) > 0 then TrimSpace(s[..|s| - SpaceAfter(s)])
    else s
  }

  /** What a line adds to its event's payload. */
  function LineData(line: bytes): bytes {
    var l := TrimCr(line);
    if DATA <= l then TrimSpace(l[|DATA|..]) else []
  }

  function Payload(lines: seq<bytes>): bytes {
    if lines == [] then [] else Payload(lines[..|lines| - 1]) + LineData(lines[|lines| - 1])
  }

  function Length(contents: seq<bytes>): nat {
    if contents == [] then 0 else Length(contents[..|contents| - 1]) + |contents[|contents| - 1]|
  }

  function Parse(t: Tally, event: bytes, decode: Decoder): Tally {
    var data := Payload(Lines(event));
    if data == [] || data == DONE then t
    else
      var chunk := decode(data);
      if chunk.None? then t
      else Tally(if chunk.value.usage.Some? then chunk.value.usage else t.usage, t.chars + Length(chunk.value.contents))
  }

  function ParseAll(t: Tally, events: seq<bytes>, decode: Decoder): Tally {
    if events == [] then t
    else Parse(ParseAll(t, events[..|events| - 1], decode), events[|events| - 1], decode)
  }

  /** Everything the sniffer reports about a stream. */
  function Sniffed(s: bytes, decode: Decoder): Tally {
    ParseAll(Tally(None, 0), Cut(s).events, decode)
  }

  lemma {:induction false} ParseAllAppend(t: Tally, a: seq<bytes>, b: seq<bytes>, decode: Decoder)
    ensures ParseAll(t, a + b, decode) == ParseAll(ParseAll(t, a, decode), b, decode)
    decreases |b|
  {
    if b == [] {
      assert a + b == a;
    } else {
      assert (a + b)[..|a + b| - 1] == a + b[..|b| - 1];
      ParseAllAppend(t, a, b[..|b| - 1], decode);
    }
  }

  /** One turn of the sniffer's loop: the first event moves from the pending bytes to those parsed. */
  lemma TakeOne(all: bytes, done: seq<bytes>, pending: bytes, t: Tally, decode: Decoder)
    requires Index(pending).Some?
    requires Cut(all) == Pieces(done + Cut(pending).events, Cut(pending).rest)
    ensures var i := Index(pending).value; var event := pending[..i];
            && Cut(all) == Pieces((done + [event]) + Cut(pending[i + 2..]).events, Cut(pending[i + 2..]).rest)
            && ParseAll(t, done + [event], decode) == Parse(ParseAll(t, done, decode), event, decode)
  {
    var i := Index(pending).value;
    var event, tail := pending[..i], Cut(pending[i + 2..]);
    assert done + ([event] + tail.events) == (done + [event]) + tail.events;
    assert (done + [event])[..|done|] == done;
  }

  /** A stream's report only grows: text is never uncounted and a usage seen is never unseen. */
  lemma {:induction false} ReportGrows(s: bytes, more: bytes, decode: Decoder)
    ensures Sniffed(s + more, decode).chars >= Sniffed(s, decode).chars
    ensures Sniffed(s, decode).usage.Some? ==> Sniffed(s + more, decode).usage.Some?
  {
    CutContinues(s, more);
    var c, d := Cut(s), Cut(Cut(s).rest + more);
    ParseAllAppend(Tally(None, 0), c.events, d.events, decode);
    ParseAllGrows(Sniffed(s, decode), d.events, decode);
  }

  lemma {:induction false} ParseAllGrows(t: Tally, events: seq<bytes>, decode: Decoder)
    ensures ParseAll(t, events, decode).chars >= t.chars
    ensures t.usage.Some? ==> ParseAll(t, events, decode).usage.Some?
  {
    if events != [] { ParseAllGrows(t, events[..|events| - 1], decode); }
  }
}

/** The sniffer: forwards bytes as they come and reads the events out of them on the side. */
module Sniffer {
  import opened Redis
  import opened Events

  /** The client's connection; it may take only part of what it is given. */
  class Writer {
    var written: bytes

    constructor ()
      ensures written == []
    {
      written := [];
    }

    method Write(p: bytes, room: nat) returns (n: nat)
      modifies this
      ensures n == if room < |p| then room else |p|
      ensures written == old(written) + p[..n]
    {
      n := if room < |p| then room else |p|;
      written := written + p[..n];
    }
  }

  class SSESniffer {
    const dst: Writer
    const decode: Decoder
    var pending: bytes
    var usage: Option<Usage>
    var completionChars: nat

    /** The sniffer's state is a function of the bytes the client has taken, and of nothing else. */
    ghost predicate Valid()
      reads this, dst
    {
      && pending == Cut(dst.written).rest
      && Tally(usage, completionChars) == Sniffed(dst.written, decode)
    }

    constructor (dst: Writer, decode: Decoder)
      requires dst.written == []
      ensures Valid() && this.dst == dst && this.decode == decode
    {
      this.dst, this.decode := dst, decode;
      pending, usage, completionChars := [], None, 0;
    }

    method Write(p: bytes, room: nat) returns (n: nat)
      requires Valid()
      modifies this, dst
      ensures Valid()
      ensures n == if room < |p| then room else |p|
      ensures dst.written == old(dst.written) + p[..n]
    {
      ghost var was := dst.written;
      n := dst.Write(p, room);
      if n > 0 {
        CutContinues(was, p[..n]);
        ParseAllAppend(Tally(None, 0), Cut(was).events, Cut(Cut(was).rest + p[..n]).events, decode);
        Consume(p[..n]);
      } else {
        assert dst.written == was;
      }
    }

    method Consume(p: bytes)
      modifies this
      ensures pending == Cut(old(pending) + p).rest
      ensures Tally(usage, completionChars)
           == ParseAll(Tally(old(usage), old(completionChars)), Cut(old(pending) + p).events, decode)
    {
      pending := pending + p;
      ghost var all, start := pending, Tally(usage, completionChars);
      ghost var done: seq<bytes> := [];
      var idx := Index(pending);
      while idx.Some?
        invariant idx == Index(pending)
        invariant Cut(all) == Pieces(done + Cut(pending).events, Cut(pending).rest)
        invariant Tally(usage, completionChars) == ParseAll(start, done, decode)
        decreases |pending|
      {
        TakeOne(all, done, pending, start, decode);
        var event := pending[..idx.value];
        pending := pending[idx.value + 2..];
        ParseEvent(event);
        done := done + [event];
        idx := Index(pending);
      }
      assert done + [] == done;
    }

    method ReadPayload(event: bytes) returns (data: bytes)
      ensures data == Payload(Lines(event))
    {
      var lines := Lines(event);
      data := [];
      for i := 0 to |lines|
        invariant data == Payload(lines[..i])
      {
        assert lines[..i + 1][..i] == lines[..i];
        var line := TrimCr(lines[i]);
        if DATA <= line {
          data := data + TrimSpace(line[|DATA|..]);
        }
      }
      assert lines[..|lines|] == lines;
    }

    method CountText(contents: seq<bytes>)
      modifies this`completionChars
      ensures completionChars == old(completionChars) + Length(contents)
    {
      for i := 0 to |contents|
        invariant completionChars == old(completionChars) + Length(contents[..i])
      {
        assert contents[..i + 1][..i] == contents[..i];
        completionChars := completionChars + |contents[i]|;
      }
      assert contents[..|contents|] == contents;
    }

    method ParseEvent(event: bytes)
      modifies this`usage, this`completionChars
      ensures Tally(usage, completionChars) == Parse(Tally(old(usage), old(completionChars)), event, decode)
    {
      var data := ReadPayload(event);
      if data == [] || data == DONE { return; }
      var chunk := decode(data);
      if chunk.None? { return; }
      CountText(chunk.value.contents);
      if chunk.value.usage.Some? { usage := chunk.value.usage; }
    }
  }

  /** Two sniffers whose clients took the same bytes agree on everything, however the bytes were
      cut into writes and however many of them were taken at a time. */
  method AnyChunking(a: SSESniffer, b: SSESniffer, first: seq<bytes>, second: seq<bytes>, room: seq<nat>,
                     space: seq<nat>)
    requires a.Valid() && b.Valid() && a.dst.written == b.dst.written && a.decode == b.decode
    requires {a, a.dst} !! {b, b.dst} && |room| == |first| && |space| == |second|
    modifies a, a.dst, b, b.dst
    ensures a.Valid() && b.Valid()
    ensures a.dst.written == b.dst.written ==>
              a.usage == b.usage && a.completionChars == b.completionChars && a.pending == b.pending
  {
    for i := 0 to |first|
      invariant a.Valid() && b.Valid()
    {
      var n := a.Write(first[i], room[i]);
    }
    for i := 0 to |second|
      invariant a.Valid() && b.Valid()
    {
      var n := b.Write(second[i], space[i]);
    }
  }
}
