/** Event boundaries when lines end in LF, CR LF or CR, as server-sent events allow, against the
    sniffer's, which knows only two line feeds in a row. */
module LineEnds {
  import opened Events

  /** Every line end becomes a line feed. */
  function Normalize(s: bytes): bytes {
    if s == [] then []
    else if s[0] == CR then [LF] + Normalize(if |s| > 1 && s[1] == LF then s[2..] else s[1..])
    else [s[0]] + Normalize(s[1..])
  }

  /** The carriage return of a CR LF whose line feed belongs to the delimiter. */
  function DropCr(s: bytes): bytes {
    if s != [] && s[|s| - 1] == CR then s[..|s| - 1] else s
  }

  function NormalEvents(events: seq<bytes>): seq<bytes> {
    if events == [] then [] else [Normalize(DropCr(events[0]))] + NormalEvents(events[1..])
  }

  /** The sniffer's pieces with their line ends normalized. */
  function Normal(p: Pieces): Pieces {
    Pieces(NormalEvents(p.events), Normalize(p.rest))
  }

  /** A line end directly after a line end, the second one starting with a carriage return. */
  predicate BreakAt(s: bytes, i: int) {
    0 <= i < |s| - 1 && (s[i] == CR || s[i] == LF) && s[i + 1] == CR
  }

  ghost predicate NoBreak(s: bytes) {
    forall i :: !BreakAt(s, i)
  }

  /** No piece holds an empty line that takes a carriage return to see. */
  ghost predicate NoneMissed(p: Pieces) {
    NoBreak(p.rest) && forall k | 0 <= k < |p.events| :: NoBreak(p.events[k])
  }

  // ---- normalizing pieces ----

  lemma Heads(s: bytes, t: bytes)
    requires s != []
    ensures (s + t)[0] == s[0] && (s + t)[1..] == s[1..] + t
    ensures |s| > 1 ==> (s + t)[1] == s[1] && (s + t)[2..] == s[2..] + t
    ensures |s| == 1 && t != [] ==> (s + t)[1] == t[0]
  {
  }

  lemma Regroup(c: byte, a: bytes, b: bytes)
    ensures [c] + (a + b) == [c] + a + b
  {
  }

  /** Only a CR LF that is torn apart normalizes differently in two parts. */
  lemma {:induction false} NormalizeConcat(s: bytes, t: bytes)
    requires s != [] && t != [] && s[|s| - 1] == CR ==> t[0] != LF
    ensures Normalize(s + t) == Normalize(s) + Normalize(t)
    decreases |s|
  {
    if s == [] {
      assert s + t == t;
    } else {
      Heads(s, t);
      var next := if s[0] == CR && |s| > 1 && s[1] == LF then s[2..] else s[1..];
      NormalizeConcat(next, t);
      Regroup(if s[0] == CR then LF else s[0], Normalize(next), Normalize(t));
    }
  }

  lemma NormalizeDelimiter(tail: bytes)
    ensures Normalize([LF, LF] + tail) == Normalize([CR, LF, LF] + tail) == [LF, LF] + Normalize(tail)
  {
    assert ([LF] + tail)[1..] == tail;
    assert ([LF, LF] + tail)[1..] == [LF] + tail;
    assert ([CR, LF, LF] + tail)[2..] == [LF] + tail;
  }

  lemma Groupings(a: bytes, b: bytes, c: bytes)
    ensures a + (b + c) == a + b + c
  {
  }

  lemma NormalizeTorn(event: bytes, tail: bytes)
    ensures Normalize(event + ([CR, LF, LF] + tail)) == Normalize(event) + [LF, LF] + Normalize(tail)
  {
    NormalizeDelimiter(tail);
    NormalizeConcat(event, [CR, LF, LF] + tail);
    Groupings(Normalize(event), [LF, LF], Normalize(tail));
  }

  lemma NormalizeWhole(event: bytes, tail: bytes)
    requires DropCr(event) == event
    ensures Normalize(event + ([LF, LF] + tail)) == Normalize(event) + [LF, LF] + Normalize(tail)
  {
    NormalizeDelimiter(tail);
    assert |DropCr(event)| == |event|;
    NormalizeConcat(event, [LF, LF] + tail);
    Groupings(Normalize(event), [LF, LF], Normalize(tail));
  }

  lemma NormalizeDelimited(event: bytes, tail: bytes)
    ensures Normalize(event + [LF, LF] + tail) == Normalize(DropCr(event)) + [LF, LF] + Normalize(tail)
  {
    Groupings(event, [LF, LF], tail);
    if DropCr(event) == event {
      NormalizeWhole(event, tail);
    } else {
      assert event + ([LF, LF] + tail) == DropCr(event) + ([CR, LF, LF] + tail);
      NormalizeTorn(DropCr(event), tail);
    }
  }

  lemma {:induction false} NormalRejoins(p: Pieces)
    ensures Rejoin(Normal(p)) == Normalize(Rejoin(p))
    decreases |p.events|
  {
    if p.events != [] {
      var tail := Pieces(p.events[1..], p.rest);
      NormalRejoins(tail);
      NormalizeDelimited(p.events[0], Rejoin(tail));
      assert Normal(p).events[1..] == Normal(tail).events;
    }
  }

  // ---- empty lines, before and after normalizing ----

  predicate EndsLine(s: bytes) {
    s != [] && (s[0] == CR || s[0] == LF)
  }

  lemma NoBlankCons(c: byte, s: bytes)
    ensures NoBlank([c] + s) <==> NoBlank(s) && !(c == LF && s != [] && s[0] == LF)
  {
    var t := [c] + s;
    forall i ensures BlankAt(s, i) ==> BlankAt(t, i + 1) {}
    forall i ensures BlankAt(t, i) ==> i == 0 || BlankAt(s, i - 1) {}
    assert BlankAt(t, 0) <==> c == LF && s != [] && s[0] == LF;
  }

  lemma NoBreakCons(s: bytes)
    requires s != []
    ensures NoBreak(s) <==> NoBreak(s[1..]) && !BreakAt(s, 0)
  {
    forall i ensures BreakAt(s[1..], i) ==> BreakAt(s, i + 1) {}
    forall i ensures BreakAt(s, i) ==> i == 0 || BreakAt(s[1..], i - 1) {}
  }

  lemma NoBlankRest(s: bytes)
    requires s != []
    ensures NoBlank(s) <==> NoBlank(s[1..]) && !BlankAt(s, 0)
  {
    NoBlankCons(s[0], s[1..]);
    assert [s[0]] + s[1..] == s;
  }

  /** A text holds an empty line, whatever its line ends, exactly when it holds two line feeds in a row
      or a carriage return directly after a line end. */
  lemma {:induction false} EmptyLines(s: bytes)
    ensures NoBlank(Normalize(s)) <==> NoBlank(s) && NoBreak(s)
    ensures Normalize(s) != [] && Normalize(s)[0] == LF <==> EndsLine(s)
    decreases |s|
  {
    if s != [] {
      NoBlankRest(s);
      NoBreakCons(s);
      if s[0] == CR && |s| > 1 && s[1] == LF {
        var t := s[1..];
        assert t[1..] == s[2..];
        EmptyLines(s[2..]);
        NoBlankRest(t);
        NoBreakCons(t);
        NoBlankCons(LF, Normalize(s[2..]));
        assert !BreakAt(s, 0) && !BlankAt(s, 0);
      } else {
        EmptyLines(s[1..]);
        NoBlankCons(if s[0] == CR then LF else s[0], Normalize(s[1..]));
      }
    }
  }

  lemma {:induction false} LastByte(s: bytes)
    requires s != []
    ensures Normalize(s) != []
    ensures Normalize(s)[|Normalize(s)| - 1] == LF <==> s[|s| - 1] == CR || s[|s| - 1] == LF
  {
    var init, last := s[..|s| - 1], s[|s| - 1..];
    assert s == init + last;
    if init != [] && init[|init| - 1] == CR && last[0] == LF {
      assert s == init[..|init| - 1] + [CR, LF];
      NormalizeConcat(init[..|init| - 1], [CR, LF]);
      assert [CR, LF][2..] == [];
    } else {
      NormalizeConcat(init, last);
      assert last[1..] == [];
    }
  }

  lemma NoBreakInit(s: bytes)
    requires s != []
    ensures NoBreak(s) <==> NoBreak(s[..|s| - 1]) && !BreakAt(s, |s| - 2)
  {
    var init := s[..|s| - 1];
    forall i ensures BreakAt(init, i) ==> BreakAt(s, i) {}
    forall i ensures BreakAt(s, i) ==> i == |s| - 2 || BreakAt(init, i) {}
  }

  lemma EventStaysClean(event: bytes)
    requires NoBlank(event) && (event != [] ==> event[|event| - 1] != LF)
    ensures var e := Normalize(DropCr(event));
            NoBreak(event) <==> NoBlank(e) && (e != [] ==> e[|e| - 1] != LF)
  {
    var d := DropCr(event);
    EmptyLines(d);
    if d != [] { LastByte(d); }
    if d != event {
      NoBreakInit(event);
      forall i ensures BlankAt(d, i) ==> BlankAt(event, i) {}
    }
  }

  lemma {:induction false} EventAt(events: seq<bytes>, k: nat)
    requires k < |events|
    ensures |NormalEvents(events)| == |events| && NormalEvents(events)[k] == Normalize(DropCr(events[k]))
  {
    if k > 0 {
      EventAt(events[1..], k - 1);
    } else if |events| > 1 {
      EventAt(events[1..], 0);
    }
  }

  lemma CleanIff(p: Pieces)
    requires Clean(p)
    ensures Clean(Normal(p)) <==> NoneMissed(p)
  {
    EmptyLines(p.rest);
    var q := Normal(p);
    if p.events != [] { EventAt(p.events, 0); }
    forall k | 0 <= k < |p.events|
      ensures q.events[k] == Normalize(DropCr(p.events[k]))
      ensures NoBreak(p.events[k])
              <==> NoBlank(q.events[k]) && (q.events[k] != [] ==> q.events[k][|q.events[k]| - 1] != LF)
    {
      EventAt(p.events, k);
      EventStaysClean(p.events[k]);
    }
  }

  // ---- the theorems ----

  /** The sniffer cuts a stream where its empty lines are, whatever the line ends, exactly when none of
      its pieces holds a carriage return directly after a line end. */
  lemma BoundariesIff(s: bytes)
    ensures Cut(Normalize(s)) == Normal(Cut(s)) <==> NoneMissed(Cut(s))
  {
    CutRejoins(s);
    NormalRejoins(Cut(s));
    CleanIff(Cut(s));
    if NoneMissed(Cut(s)) { CutIsUnique(Normal(Cut(s))); }
    CutRejoins(Normalize(s));
  }

  /** The sniffer sees no event exactly when no two line feeds follow each other, and there is none to
      see exactly when no carriage return follows a line end either. */
  lemma NoEventIff(s: bytes)
    ensures Cut(s).events == [] <==> NoBlank(s)
    ensures Cut(Normalize(s)).events == [] <==> NoBlank(s) && NoBreak(s)
  {
    EmptyLines(s);
  }

  /** Of a stream that ends its lines with CR LF the sniffer sees nothing, and that is right only of
      a stream without an empty line. */
  lemma CrLfStreams(s: bytes)
    requires forall i | 0 <= i < |s| && s[i] == LF :: i > 0 && s[i - 1] == CR
    ensures Cut(s) == Pieces([], s)
    ensures Cut(Normalize(s)).events == [] <==> NoBreak(s)
    ensures Cut(Normalize(s)) == Normal(Cut(s)) <==> NoBreak(s)
  {
    NoEventIff(s);
    BoundariesIff(s);
  }
}
