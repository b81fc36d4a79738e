/** The streaming pump: a goroutine that reads the source, a one-slot channel, and the loop that
    writes to the client under an idle timer and a cancellable context. */
module Pump {
  import opened Redis
  import opened Events

  datatype Failure = Eof | Broken

  datatype Item = Data(data: bytes) | End(failure: Failure)

  /** Sending holds what a read returned: its bytes, then its error if it had one. */
  datatype Producer = Reading | Sending(data: bytes, failure: Option<Failure>) | Ending(last: Failure) | Exited | GaveUp

  datatype Result = Done | SourceFailed(failure: Failure) | WriteFailed | IdleTimeout | Cancelled

  datatype Consumer = Waiting | Writing(data: bytes) | Returned(result: Result)

  /** read is all the source has produced so far and ended how it ended; delivered is what the
      client has taken, at the latest at the moment last; deadline is the idle timer. */
  datatype Sys = Sys(
    clock: nat, cancelled: bool,
    read: bytes, ended: Option<Failure>, producer: Producer,
    channel: Option<Item>,
    consumer: Consumer, delivered: bytes, last: nat, deadline: nat)

  datatype Action =
    | Tick(to: nat)
    | Cancel
    | Read(data: bytes, failure: Option<Failure>)
    | Send
    | GiveUp
    | Receive
    | Write(taken: nat, fails: bool)
    | TimerFires
    | SeeCancel

  function Init(now: nat, idle: nat): Sys {
    Sys(now, false, [], None, Reading, None, Waiting, [], now, now + idle)
  }

  predicate Enabled(s: Sys, a: Action) {
    match a
    case Tick(to) => s.clock <= to
    case Cancel => true
    case Read(_, _) => s.producer.Reading?
    case Send => (s.producer.Sending? || s.producer.Ending?) && s.channel.None?
    case GiveUp => (s.producer.Sending? || s.producer.Ending?) && s.cancelled
    case Receive => s.consumer.Waiting? && s.channel.Some?
    // A write that takes less than it was given reports an error.
    case Write(taken, fails) =>
      s.consumer.Writing? && taken <= |s.consumer.data| && (taken < |s.consumer.data| ==> fails)
    case TimerFires => s.consumer.Waiting? && s.deadline <= s.clock
    case SeeCancel => s.consumer.Waiting? && s.cancelled
  }

  /** After its bytes have gone, a read's error follows; without one the next read begins. */
  function After(failure: Option<Failure>): Producer {
    if failure.Some? then Ending(failure.value) else Reading
  }

  function ProducerAfter(s: Sys, a: Action): Producer
    requires Enabled(s, a)
  {
    if a.Read? then (if a.data != [] then Sending(a.data, a.failure) else After(a.failure))
    else if a.Send? then (if s.producer.Sending? then After(s.producer.failure) else Exited)
    else if a.GiveUp? then GaveUp
    else s.producer
  }

  function ChannelAfter(s: Sys, a: Action): Option<Item>
    requires Enabled(s, a)
  {
    if a.Send? then Some(if s.producer.Sending? then Data(s.producer.data) else End(s.producer.last))
    else if a.Receive? then None
    else s.channel
  }

  function ConsumerAfter(s: Sys, a: Action): Consumer
    requires Enabled(s, a)
  {
    if a.Receive? then
      (match s.channel.value
       case Data(data) => Writing(data)
       case End(failure) => Returned(if failure.Eof? then Done else SourceFailed(failure)))
    else if a.Write? then (if a.fails then Returned(WriteFailed) else Waiting)
    else if a.TimerFires? then Returned(IdleTimeout)
    else if a.SeeCancel? then Returned(Cancelled)
    else s.consumer
  }

  function Next(s: Sys, a: Action, idle: nat): Sys
    requires Enabled(s, a)
  {
    Sys(if a.Tick? then a.to else s.clock,
        s.cancelled || a.Cancel?,
        if a.Read? then s.read + a.data else s.read,
        if a.Read? then a.failure else s.ended,
        ProducerAfter(s, a),
        ChannelAfter(s, a),
        ConsumerAfter(s, a),
        if a.Write? then s.delivered + s.consumer.data[..a.taken] else s.delivered,
        if a.Write? && !a.fails then s.clock else s.last,
        if a.Write? && !a.fails then s.clock + idle else s.deadline)
  }

  // ---- What is on its way ----

  function InProducer(s: Sys): bytes {
    if s.producer.Sending? then s.producer.data else []
  }

  function InChannel(s: Sys): bytes {
    if s.channel.Some? && s.channel.value.Data? then s.channel.value.data else []
  }

  function InConsumer(s: Sys): bytes {
    if s.consumer.Writing? then s.consumer.data else []
  }

  /** Every byte read, in order, wherever it now is. */
  function Transit(s: Sys): bytes {
    s.delivered + InConsumer(s) + InChannel(s) + InProducer(s)
  }

  predicate WroteBadly(s: Sys) {
    s.consumer.Returned? && s.consumer.result.WriteFailed?
  }

  ghost predicate Flow(s: Sys) {
    && s.delivered <= s.read
    && (!WroteBadly(s) ==> s.delivered + InConsumer(s) + InChannel(s) <= s.read)
    && (!WroteBadly(s) && !s.producer.GaveUp? ==> Transit(s) == s.read)
  }

  /** An error is announced only once it has happened, and nothing follows it. */
  ghost predicate Endings(s: Sys) {
    && (s.producer.Reading? ==> s.ended.None?)
    && (s.producer.Sending? ==> s.ended == s.producer.failure)
    && (s.producer.Ending? ==> s.ended == Some(s.producer.last))
    && (s.channel.Some? && s.channel.value.End? ==> s.producer.Exited? && s.ended == Some(s.channel.value.failure))
    && (s.consumer.Returned? && (s.consumer.result.Done? || s.consumer.result.SourceFailed?) ==> s.producer.Exited?)
  }

  ghost predicate Outcomes(s: Sys, idle: nat) {
    && s.deadline == s.last + idle
    && (s.consumer.Returned? ==>
          match s.consumer.result
          case Done => s.ended == Some(Eof) && s.delivered == s.read
          case SourceFailed(failure) => failure != Eof && s.ended == Some(failure) && s.delivered == s.read
          case IdleTimeout => s.clock >= s.last + idle
          case Cancelled => s.cancelled
          case WriteFailed => true)
  }

  ghost predicate Inv(s: Sys, idle: nat) {
    Flow(s) && Endings(s) && Outcomes(s, idle)
  }

  lemma ReadFlow(s: Sys, a: Action, idle: nat)
    requires Flow(s) && Enabled(s, a) && a.Read?
    ensures Flow(Next(s, a, idle))
  {
    assert Transit(Next(s, a, idle)) == Transit(s) + a.data;
  }

  lemma PartOf(done: bytes, data: bytes, n: nat, rest: bytes, all: bytes)
    requires n <= |data| && done + data + rest <= all
    ensures done + data[..n] <= all
  {
    assert data == data[..n] + data[n..];
    assert done + data + rest == (done + data[..n]) + (data[n..] + rest);
  }

  /** A write that fails leaves a prefix delivered. */
  lemma ShortWriteFlow(s: Sys, a: Action, idle: nat)
    requires Flow(s) && Enabled(s, a) && a.Write? && a.fails
    ensures Flow(Next(s, a, idle))
  {
    PartOf(s.delivered, s.consumer.data, a.taken, InChannel(s), s.read);
  }

  /** A write that succeeds moves all it was given from the consumer to the client. */
  lemma FullWriteFlow(s: Sys, a: Action, idle: nat)
    requires Flow(s) && Enabled(s, a) && a.Write? && !a.fails
    ensures Flow(Next(s, a, idle))
  {
    var next := Next(s, a, idle);
    assert s.consumer.data[..a.taken] == s.consumer.data;
    PartOf(s.delivered, s.consumer.data, a.taken, InChannel(s), s.read);
    assert next.delivered + InConsumer(next) == s.delivered + InConsumer(s);
  }

  lemma WriteFlow(s: Sys, a: Action, idle: nat)
    requires Flow(s) && Enabled(s, a) && a.Write?
    ensures Flow(Next(s, a, idle))
  {
    if a.fails { ShortWriteFlow(s, a, idle); } else { FullWriteFlow(s, a, idle); }
  }

  /** Handing bytes on changes where they are, not what they are. */
  lemma HandOnFlow(s: Sys, a: Action, idle: nat)
    requires Flow(s) && Enabled(s, a) && (a.Send? || a.Receive?)
    ensures Flow(Next(s, a, idle))
  {
    var next := Next(s, a, idle);
    assert Transit(next) == Transit(s);
    if a.Receive? {
      assert next.delivered + InConsumer(next) + InChannel(next) == s.delivered + InConsumer(s) + InChannel(s);
    } else {
      assert Transit(s) == s.delivered + InConsumer(s) + InChannel(s) + InProducer(s);
      assert next.delivered + InConsumer(next) + InChannel(next) == Transit(s);
    }
  }

  lemma FlowStep(s: Sys, a: Action, idle: nat)
    requires Flow(s) && Enabled(s, a)
    ensures Flow(Next(s, a, idle))
  {
    if a.Read? {
      ReadFlow(s, a, idle);
    } else if a.Write? {
      WriteFlow(s, a, idle);
    } else if a.Send? || a.Receive? {
      HandOnFlow(s, a, idle);
    }
  }

  lemma EndingsStep(s: Sys, a: Action, idle: nat)
    requires Endings(s) && Enabled(s, a)
    ensures Endings(Next(s, a, idle))
  {
  }

  lemma OutcomesStep(s: Sys, a: Action, idle: nat)
    requires Inv(s, idle) && Enabled(s, a)
    ensures Outcomes(Next(s, a, idle), idle)
  {
    if a.Receive? && s.channel.value.End? {
      assert Transit(s) == s.delivered;
    }
  }

  /** A run: any interleaving of the reader, the writer, the clock and cancellation. */
  ghost predicate Leads(s: Sys, run: seq<Action>, idle: nat, end: Sys)
    decreases |run|
  {
    if run == [] then s == end
    else Enabled(s, run[0]) && Leads(Next(s, run[0], idle), run[1..], idle, end)
  }

  lemma {:induction false} InvHolds(s: Sys, run: seq<Action>, idle: nat, end: Sys)
    requires Inv(s, idle) && Leads(s, run, idle, end)
    ensures Inv(end, idle)
    decreases |run|
  {
    if run != [] {
      FlowStep(s, run[0], idle);
      EndingsStep(s, run[0], idle);
      OutcomesStep(s, run[0], idle);
      InvHolds(Next(s, run[0], idle), run[1..], idle, end);
    }
  }

  /** The client always holds an in-order prefix of the source, and the way the pump returned
      says what happened: everything was delivered, or the idle time really passed, or the
      context really was cancelled. */
  lemma PumpIsSafe(now: nat, run: seq<Action>, idle: nat, end: Sys)
    requires Leads(Init(now, idle), run, idle, end)
    ensures end.delivered <= end.read
    ensures end.consumer == Returned(Done) ==> end.ended == Some(Eof) && end.delivered == end.read
    ensures end.consumer == Returned(SourceFailed(Broken)) ==> end.ended == Some(Broken) && end.delivered == end.read
    ensures end.consumer != Returned(SourceFailed(Eof))
    ensures end.consumer == Returned(IdleTimeout) ==> end.clock >= end.last + idle
    ensures end.consumer == Returned(Cancelled) ==> end.cancelled
  {
    InvHolds(Init(now, idle), run, idle, end);
  }

  /** What the sniffer reports at the end of a pump is what the delivered bytes say: all of the
      source when the pump returns without an error, and never more than the source otherwise. */
  lemma BilledForWhatWasDelivered(now: nat, run: seq<Action>, idle: nat, end: Sys, decode: Decoder)
    requires Leads(Init(now, idle), run, idle, end)
    ensures end.consumer == Returned(Done) ==> Sniffed(end.delivered, decode) == Sniffed(end.read, decode)
    ensures Sniffed(end.delivered, decode).chars <= Sniffed(end.read, decode).chars
    ensures Sniffed(end.delivered, decode).usage.Some? ==> Sniffed(end.read, decode).usage.Some?
  {
    PumpIsSafe(now, run, idle, end);
    var more := end.read[|end.delivered|..];
    assert end.read == end.delivered + more;
    ReportGrows(end.delivered, more, decode);
  }

  /** Once returned, the pump delivers nothing more, whatever the reader still does. */
  lemma {:induction false} ReturnedIsFinal(s: Sys, run: seq<Action>, idle: nat, end: Sys)
    requires s.consumer.Returned? && Leads(s, run, idle, end)
    ensures end.consumer == s.consumer && end.delivered == s.delivered
    decreases |run|
  {
    if run != [] {
      ReturnedIsFinal(Next(s, run[0], idle), run[1..], idle, end);
    }
  }

  // ---- the idle timer ----

  lemma {:induction false} LastGrows(s: Sys, run: seq<Action>, idle: nat, end: Sys, moment: nat)
    requires Leads(s, run, idle, end) && moment <= s.last && moment <= s.clock
    ensures moment <= end.last && moment <= end.clock
    decreases |run|
  {
    if run != [] { LastGrows(Next(s, run[0], idle), run[1..], idle, end, moment); }
  }

  /** The idle timer really measures the time since the last delivery: after a write at some moment the
      pump returns for idleness only when that much time has passed since then. */
  lemma IdleSinceLastWrite(now: nat, before: seq<Action>, mid: Sys, taken: nat, after: seq<Action>, idle: nat, end: Sys)
    requires Leads(Init(now, idle), before, idle, mid) && Enabled(mid, Write(taken, false))
    requires Leads(Next(mid, Write(taken, false), idle), after, idle, end)
    requires end.consumer == Returned(IdleTimeout)
    ensures end.clock >= mid.clock + idle
  {
    InvHolds(Init(now, idle), before, idle, mid);
    var s := Next(mid, Write(taken, false), idle);
    FlowStep(mid, Write(taken, false), idle);
    EndingsStep(mid, Write(taken, false), idle);
    OutcomesStep(mid, Write(taken, false), idle);
    InvHolds(s, after, idle, end);
    LastGrows(s, after, idle, end, mid.clock);
  }

  // ---- delivery ----

  /** Nothing is on its way: the reader reads and the writer waits. */
  predicate Quiet(s: Sys) {
    s.producer.Reading? && s.channel.None? && s.consumer.Waiting?
  }

  /** A chunk read is handed on and written. */
  lemma PassesOn(s: Sys, idle: nat, data: bytes)
    requires Quiet(s) && data != []
    ensures var s1 := Next(s, Read(data, None), idle);
            && Enabled(s1, Send) && var s2 := Next(s1, Send, idle);
            && Enabled(s2, Receive) && var s3 := Next(s2, Receive, idle);
            && Enabled(s3, Write(|data|, false)) && var s4 := Next(s3, Write(|data|, false), idle);
            && Quiet(s4) && s4.delivered == s.delivered + data && s4.read == s.read + data
            && s4.clock == s.clock && s4.cancelled == s.cancelled
  {
    assert data[..|data|] == data;
  }

  function Joined(chunks: seq<bytes>): bytes {
    if chunks == [] then [] else chunks[0] + Joined(chunks[1..])
  }

  lemma LeadsCons(s: Sys, a: Action, rest: seq<Action>, idle: nat, end: Sys)
    requires Enabled(s, a) && Leads(Next(s, a, idle), rest, idle, end)
    ensures Leads(s, [a] + rest, idle, end)
  {
    assert ([a] + rest)[1..] == rest;
  }

  function AfterChunk(s: Sys, idle: nat, data: bytes): Sys
    requires Quiet(s) && data != []
  {
    PassesOn(s, idle, data);
    Next(Next(Next(Next(s, Read(data, None), idle), Send, idle), Receive, idle), Write(|data|, false), idle)
  }

  lemma OneChunk(s: Sys, idle: nat, data: bytes, rest: seq<Action>, end: Sys) returns (run: seq<Action>)
    requires Quiet(s) && data != [] && Leads(AfterChunk(s, idle, data), rest, idle, end)
    ensures Leads(s, run, idle, end)
  {
    PassesOn(s, idle, data);
    var s1 := Next(s, Read(data, None), idle);
    var s2 := Next(s1, Send, idle);
    var s3 := Next(s2, Receive, idle);
    LeadsCons(s3, Write(|data|, false), rest, idle, end);
    LeadsCons(s2, Receive, [Write(|data|, false)] + rest, idle, end);
    LeadsCons(s1, Send, [Receive] + ([Write(|data|, false)] + rest), idle, end);
    run := [Send] + ([Receive] + ([Write(|data|, false)] + rest));
    LeadsCons(s, Read(data, None), run, idle, end);
    run := [Read(data, None)] + run;
  }

  lemma Ends(s: Sys, idle: nat, failure: Failure) returns (run: seq<Action>, end: Sys)
    requires Quiet(s)
    ensures Leads(s, run, idle, end) && end.delivered == s.delivered
    ensures end.consumer == Returned(if failure == Eof then Done else SourceFailed(failure))
  {
    var s1 := Next(s, Read([], Some(failure)), idle);
    var s2 := Next(s1, Send, idle);
    end := Next(s2, Receive, idle);
    LeadsCons(s2, Receive, [], idle, end);
    LeadsCons(s1, Send, [Receive] + [], idle, end);
    run := [Send] + ([Receive] + []);
    LeadsCons(s, Read([], Some(failure)), run, idle, end);
    run := [Read([], Some(failure))] + run;
  }

  lemma Regroup(a: bytes, b: bytes, c: bytes)
    ensures a + b + c == a + (b + c)
  {
  }

  /** Whatever chunks the source is read in, and however it then ends, there is a run in which the client
      gets all of it, in order, and the pump returns accordingly: it never has to give up. */
  lemma {:induction false} Delivers(s: Sys, idle: nat, chunks: seq<bytes>, failure: Failure)
    returns (run: seq<Action>, end: Sys)
    requires Quiet(s) && forall i | 0 <= i < |chunks| :: chunks[i] != []
    ensures Leads(s, run, idle, end) && end.delivered == s.delivered + Joined(chunks)
    ensures end.consumer == Returned(if failure == Eof then Done else SourceFailed(failure))
    decreases |chunks|
  {
    if chunks == [] {
      run, end := Ends(s, idle, failure);
      assert s.delivered + [] == s.delivered;
    } else {
      PassesOn(s, idle, chunks[0]);
      run, end := Delivers(AfterChunk(s, idle, chunks[0]), idle, chunks[1..], failure);
      run := OneChunk(s, idle, chunks[0], run, end);
      Regroup(s.delivered, chunks[0], Joined(chunks[1..]));
    }
  }

  /** The pump cannot hang: whenever it waits, it can return by the deadline at the latest, even
      if the reader never comes back. */
  lemma NeverStuck(s: Sys, idle: nat) returns (run: seq<Action>)
    requires Inv(s, idle) && s.consumer.Waiting?
    ensures exists end :: Leads(s, run, idle, end) && end.consumer == Returned(IdleTimeout)
                          && end.clock == if s.clock < s.last + idle then s.last + idle else s.clock
    ensures |run| <= 2
  {
    var wait := Tick(if s.clock < s.deadline then s.deadline else s.clock);
    var mid := Next(s, wait, idle);
    var end := Next(mid, TimerFires, idle);
    run := [wait, TimerFires];
    assert Leads(mid, [TimerFires], idle, end);
    assert run[1..] == [TimerFires];
    assert Leads(s, run, idle, end);
  }
}
