/** The hub cache: a lookup, a shared flight to the hub, and a store with a jittered time to live.

    Every store operation, hub call and flight operation is a step, and calls interleave freely.
    Times are in nanoseconds.
  */
module HubCache {
  import opened Redis

  type Key = string
  type Value = nat
  type Id = nat

  const MAX_DELTA: nat := 30_000_000_000

  // ---- The time to live ----

  /** Go's remainder takes the sign of the dividend. */
  function GoRem(a: int, b: int): int
    requires b > 0
  {
    if a >= 0 then a % b else -((-a) % b)
  }

  /** Go's division of a non-negative number. */
  function Delta(base: int): int {
    if base <= 0 then 0 else if base / 10 > MAX_DELTA then MAX_DELTA else base / 10
  }

  /** bias is the first eight bytes of the key's digest, read as a signed number. */
  function JitterTTL(bias: int, base: int): int {
    if base <= 0 then 0
    else
      var delta := Delta(base);
      if delta <= 0 then base
      else
        var rem := GoRem(bias, 2 * delta);
        var mod := if rem < 0 then rem + 2 * delta else rem;
        base + (mod - delta)
  }

  /** The jitter stays within its band whatever the digest's sign, and an entry always expires. */
  lemma JitterIsBounded(bias: int, base: int)
    requires base > 0
    ensures 0 < JitterTTL(bias, base)
    ensures base - Delta(base) <= JitterTTL(bias, base)
    ensures JitterTTL(bias, base) < base + Delta(base) || (Delta(base) == 0 && JitterTTL(bias, base) == base)
    // The band is a tenth to either side, at most half a minute, and the bias picks the place in it.
    ensures 0 <= Delta(base) <= 30_000_000_000 && 10 * Delta(base) <= base
    ensures Delta(base) == 30_000_000_000 || base < 10 * Delta(base) + 10
    ensures Delta(base) > 0 ==> JitterTTL(bias, base) == base - Delta(base) + bias % (2 * Delta(base))
  {
    if Delta(base) > 0 && bias < 0 { RemainderOfNegative(-bias, 2 * Delta(base)); }
  }

  /** Quotient and remainder are unique. */
  lemma Unique(a: int, b: int, d: int)
    requires d > 0 && 0 <= a < d && 0 <= b < d && exists q: int :: Differ(a, b, q, d)
    ensures a == b
  {
    var q: int :| Differ(a, b, q, d);
    Scaled(q, d);
  }

  lemma Scaled(q: int, d: int)
    requires d > 0
    ensures (q >= 1 ==> q * d >= d) && (q <= -1 ==> q * d <= -d)
  {
  }

  predicate Differ(a: int, b: int, q: int, d: int) {
    a - b == q * d
  }

  lemma RemainderOfNegative(n: int, d: int)
    requires n >= 0 && d > 0
    ensures (-n) % d == if n % d == 0 then 0 else d - n % d
  {
    var want := if n % d == 0 then 0 else d - n % d;
    var p, q := n / d, (-n) / d;
    assert n == p * d + n % d && -n == q * d + (-n) % d;
    var e := if n % d == 0 then 0 else 1;
    Distribute(-q - p - e, q, p, e, d);
    assert Differ((-n) % d, want, -q - p - e, d);
    Unique((-n) % d, want, d);
  }

  lemma Distribute(r: int, q: int, p: int, e: int, d: int)
    requires r == -q - p - e
    ensures r * d == -(q * d) - p * d - e * d
  {
  }

  // ---- The protocol ----

  /** A stored value, when the hub produced it and when it was stored. */
  datatype Item = Item(value: Value, made: nat, stored: nat)

  /** An answer: the value, when the hub produced it, when it was last known to be good, and, if it
      came out of the store, when it had been put there. */
  datatype Answer = Got(value: Value, made: nat, goodAt: nat, stored: Option<nat>) | Failed(at: nat)

  datatype Flight = Flight(since: nat, phase: Phase)
  datatype Phase = Rechecking | Asking | Storing(value: Value, made: nat)

  /** joined is when the flight a call waits for began; shared, when the one that answered it did. */
  datatype Call = Looking(key: Key, since: nat) | Missed(key: Key, since: nat)
                | Waiting(key: Key, since: nat, joined: nat)
                | Answered(key: Key, since: nat, shared: Option<nat>, answer: Answer)

  datatype Event = Made(key: Key, value: Value, at: nat) | Broke(key: Key, at: nat)

  datatype Sys = Sys(
    clock: nat,
    store: map<Key, Entry<Item>>,
    flights: map<Key, Flight>,
    calls: map<Id, Call>,
    log: set<Event>)

  /** reads and writes that fail, or a value that does not decode, have ok false. */
  datatype Action =
    | Tick(to: nat)
    | Begin(id: Id, key: Key)
    | Look(id: Id, ok: bool)
    | Join(id: Id)
    | Recheck(key: Key, ok: bool)
    | Reply(key: Key, value: Value)
    | Break(key: Key)
    | Store(key: Key, ok: bool)

  datatype Config = Config(base: int, bias: Key -> int)

  function TTL(c: Config, k: Key): nat
    requires c.base > 0
  {
    JitterIsBounded(c.bias(k), c.base);
    JitterTTL(c.bias(k), c.base)
  }

  const INIT: Sys := Sys(0, map[], map[], map[], {})

  predicate Enabled(s: Sys, a: Action) {
    match a
    case Tick(to) => s.clock <= to
    case Begin(t, _) => t !in s.calls
    case Look(t, _) => t in s.calls && s.calls[t].Looking?
    case Join(t) => t in s.calls && s.calls[t].Missed?
    case Recheck(k, _) => k in s.flights && s.flights[k].phase.Rechecking?
    case Reply(k, _) => k in s.flights && s.flights[k].phase.Asking?
    case Break(k) => k in s.flights && s.flights[k].phase.Asking?
    case Store(k, _) => k in s.flights && s.flights[k].phase.Storing?
  }

  predicate Hits(s: Sys, k: Key, ok: bool) {
    ok && Live(s.store, k, s.clock)
  }

  function Hit(s: Sys, k: Key): Answer
    requires k in s.store
  {
    var i := s.store[k].value;
    Got(i.value, i.made, s.clock, Some(i.stored))
  }

  /** The answer a flight ends with at this step, if it ends. */
  function Outcome(s: Sys, a: Action): Option<Answer>
    requires Enabled(s, a)
  {
    if a.Recheck? then (if Hits(s, a.key, a.ok) then Some(Hit(s, a.key)) else None)
    else if a.Break? then Some(Failed(s.clock))
    else if a.Store? then
      var p := s.flights[a.key].phase;
      Some(Got(p.value, p.made, p.made, None))
    else None
  }

  function StoreAfter(s: Sys, c: Config, a: Action): map<Key, Entry<Item>>
    requires c.base > 0 && Enabled(s, a)
  {
    if a.Store? && a.ok then
      var p := s.flights[a.key].phase;
      SetEx(s.store, a.key, Item(p.value, p.made, s.clock), s.clock, TTL(c, a.key))
    else s.store
  }

  function FlightsAfter(s: Sys, a: Action): map<Key, Flight>
    requires Enabled(s, a)
  {
    if a.Join? then
      var k := s.calls[a.id].key;
      if k in s.flights then s.flights else s.flights[k := Flight(s.clock, Rechecking)]
    else if Outcome(s, a).Some? then map k | k in s.flights && k != a.key :: s.flights[k]
    else if a.Recheck? then s.flights[a.key := Flight(s.flights[a.key].since, Asking)]
    else if a.Reply? then s.flights[a.key := Flight(s.flights[a.key].since, Storing(a.value, s.clock))]
    else s.flights
  }

  /** A flight's end answers every call that waits for it. */
  function Deliver(calls: map<Id, Call>, k: Key, answer: Answer): map<Id, Call> {
    map t | t in calls :: if calls[t].Waiting? && calls[t].key == k
                          then Answered(k, calls[t].since, Some(calls[t].joined), answer) else calls[t]
  }

  function CallsAfter(s: Sys, a: Action): map<Id, Call>
    requires Enabled(s, a)
  {
    if a.Begin? then s.calls[a.id := Looking(a.key, s.clock)]
    else if a.Look? then
      var c := s.calls[a.id];
      s.calls[a.id := if Hits(s, c.key, a.ok) then Answered(c.key, c.since, None, Hit(s, c.key))
                      else Missed(c.key, c.since)]
    else if a.Join? then
      var c := s.calls[a.id];
      s.calls[a.id := Waiting(c.key, c.since, if c.key in s.flights then s.flights[c.key].since else s.clock)]
    else if Outcome(s, a).Some? then Deliver(s.calls, a.key, Outcome(s, a).value)
    else s.calls
  }

  function LogAfter(s: Sys, a: Action): set<Event>
    requires Enabled(s, a)
  {
    if a.Reply? then s.log + {Made(a.key, a.value, s.clock)}
    else if a.Break? then s.log + {Broke(a.key, s.clock)}
    else s.log
  }

  function Next(s: Sys, c: Config, a: Action): Sys
    requires c.base > 0 && Enabled(s, a)
  {
    Sys(if a.Tick? then a.to else s.clock, StoreAfter(s, c, a), FlightsAfter(s, a), CallsAfter(s, a), LogAfter(s, a))
  }

  // ---- Provenance ----

  /** Everything stored was produced by the hub for that key, and expires in time. */
  ghost predicate StoreSound(s: Sys, c: Config)
    requires c.base > 0
  {
    forall k | k in s.store ::
      var i := s.store[k].value;
      Made(k, i.value, i.made) in s.log && i.made <= i.stored <= s.clock && s.store[k].expiry == i.stored + TTL(c, k)
  }

  ghost predicate FlightsSound(s: Sys) {
    forall k | k in s.flights ::
      var f := s.flights[k];
      && f.since <= s.clock
      && (f.phase.Storing? ==> Made(k, f.phase.value, f.phase.made) in s.log && f.since <= f.phase.made <= s.clock)
  }

  /** Where an answer for a key came from, and that it was good at some moment after from. */
  ghost predicate Proven(log: set<Event>, c: Config, k: Key, answer: Answer, from: nat)
    requires c.base > 0
  {
    match answer
    case Got(value, made, goodAt, stored) =>
      && Made(k, value, made) in log && from <= goodAt
      && (if stored.None? then made == goodAt
          else made <= stored.value <= goodAt < stored.value + TTL(c, k))
    case Failed(at) => Broke(k, at) in log && from <= at
  }

  ghost predicate CallsSound(s: Sys, c: Config)
    requires c.base > 0
  {
    forall t | t in s.calls ::
      var call := s.calls[t];
      && call.since <= s.clock
      && (call.Waiting? ==> call.key in s.flights && call.joined == s.flights[call.key].since)
      && (call.Answered? ==>
            Proven(s.log, c, call.key, call.answer, if call.shared.Some? then call.shared.value else call.since))
  }

  ghost predicate Inv(s: Sys, c: Config) {
    c.base > 0 && StoreSound(s, c) && FlightsSound(s) && CallsSound(s, c)
  }

  lemma StoreStep(s: Sys, c: Config, a: Action)
    requires Inv(s, c) && Enabled(s, a)
    ensures StoreSound(Next(s, c, a), c)
  {
  }

  lemma FlightsStep(s: Sys, c: Config, a: Action)
    requires Inv(s, c) && Enabled(s, a)
    ensures FlightsSound(Next(s, c, a))
  {
  }

  lemma OutcomeIsProven(s: Sys, c: Config, a: Action)
    requires Inv(s, c) && Enabled(s, a) && Outcome(s, a).Some?
    ensures a.key in s.flights
    ensures Proven(LogAfter(s, a), c, a.key, Outcome(s, a).value, s.flights[a.key].since)
  {
  }

  lemma DeliverStep(s: Sys, c: Config, a: Action)
    requires Inv(s, c) && Enabled(s, a) && Outcome(s, a).Some?
    ensures CallsSound(Next(s, c, a), c)
  {
    OutcomeIsProven(s, c, a);
  }

  lemma CallsStep(s: Sys, c: Config, a: Action)
    requires Inv(s, c) && Enabled(s, a)
    ensures CallsSound(Next(s, c, a), c)
  {
    if Outcome(s, a).Some? {
      DeliverStep(s, c, a);
    }
  }

  ghost predicate Leads(s: Sys, c: Config, run: seq<Action>, end: Sys)
    requires c.base > 0
    decreases |run|
  {
    if run == [] then s == end
    else Enabled(s, run[0]) && Leads(Next(s, c, run[0]), c, run[1..], end)
  }

  lemma {:induction false} InvHolds(s: Sys, c: Config, run: seq<Action>, end: Sys)
    requires Inv(s, c) && Leads(s, c, run, end)
    ensures Inv(end, c)
    decreases |run|
  {
    if run != [] {
      StoreStep(s, c, run[0]);
      FlightsStep(s, c, run[0]);
      CallsStep(s, c, run[0]);
      InvHolds(Next(s, c, run[0]), c, run[1..], end);
    }
  }

  /** However calls interleave, a value returned was produced by the hub for the same key, and was
      good at a moment no earlier than the call's start, or than the start of the flight it shared:
      either the hub had just produced it, or it had been stored less than the base time to live
      and its jitter before.  An error returned is an error of the hub, never something stored. */
  lemma Provenance(c: Config, run: seq<Action>, end: Sys, t: Id)
    requires c.base > 0 && Leads(INIT, c, run, end)
    requires t in end.calls && end.calls[t].Answered?
    ensures var call := end.calls[t]; var from := if call.shared.Some? then call.shared.value else call.since;
            match call.answer
            case Got(value, made, goodAt, stored) =>
              && Made(call.key, value, made) in end.log && from <= goodAt
              && (stored.None? ==> made == goodAt)
              && (stored.Some? ==> made <= stored.value <= goodAt < stored.value + c.base + Delta(c.base))
            case Failed(at) => Broke(call.key, at) in end.log && from <= at
  {
    InvHolds(INIT, c, run, end);
    JitterIsBounded(c.bias(end.calls[t].key), c.base);
  }

  /** A call answered from the store without a flight gets what was good during it. */
  lemma GoodDuringTheCall(c: Config, run: seq<Action>, end: Sys, t: Id)
    requires c.base > 0 && Leads(INIT, c, run, end)
    requires t in end.calls && end.calls[t].Answered? && end.calls[t].shared.None?
    ensures end.calls[t].answer.Got? && end.calls[t].answer.goodAt >= end.calls[t].since
  {
    InvHolds(INIT, c, run, end);
    NeverAlone(INIT, c, run, end, t);
  }

  /** Only a flight hands out an error. */
  ghost predicate HitsOnly(s: Sys, t: Id) {
    t in s.calls && s.calls[t].Answered? && s.calls[t].shared.None? ==> s.calls[t].answer.Got?
  }

  lemma {:induction false} NeverAlone(s: Sys, c: Config, run: seq<Action>, end: Sys, t: Id)
    requires c.base > 0 && Leads(s, c, run, end) && HitsOnly(s, t)
    ensures HitsOnly(end, t)
    decreases |run|
  {
    if run != [] {
      assert HitsOnly(Next(s, c, run[0]), t);
      NeverAlone(Next(s, c, run[0]), c, run[1..], end, t);
    }
  }

  // ---- sharing a flight ----

  /** The flight the call is about to join already has its value, and had it before the call began. */
  predicate TooLate(s: Sys, t: Id)
    requires t in s.calls && s.calls[t].Missed?
  {
    var k := s.calls[t].key;
    k in s.flights && s.flights[k].phase.Storing? && s.flights[k].phase.made < s.calls[t].since
  }

  /** While the call waits, what its flight will answer is decided: late, from before it began. */
  predicate Waits(s: Sys, t: Id, since: nat, late: bool) {
    && t in s.calls && s.calls[t].Waiting? && s.calls[t].since == since <= s.clock
    && s.calls[t].key in s.flights
    && var p := s.flights[s.calls[t].key].phase;
    if late then p.Storing? && p.made < since else p.Storing? ==> p.made >= since
  }

  predicate Decided(s: Sys, t: Id, since: nat, late: bool) {
    && t in s.calls && s.calls[t].Answered? && s.calls[t].since == since
    && (match s.calls[t].answer
        case Got(_, _, goodAt, _) => goodAt < since <==> late
        case Failed(at) => at >= since)
  }

  lemma WaitsStep(s: Sys, c: Config, a: Action, t: Id, since: nat, late: bool)
    requires Inv(s, c) && Enabled(s, a) && Waits(s, t, since, late)
    ensures Waits(Next(s, c, a), t, since, late) || Decided(Next(s, c, a), t, since, late)
  {
  }

  lemma DecidedStep(s: Sys, c: Config, a: Action, t: Id, since: nat, late: bool)
    requires Inv(s, c) && Enabled(s, a) && Decided(s, t, since, late)
    ensures Decided(Next(s, c, a), t, since, late)
  {
  }

  lemma {:induction false} WaitsThenDecided(s: Sys, c: Config, run: seq<Action>, end: Sys, t: Id, since: nat,
                                            late: bool)
    requires Inv(s, c) && Leads(s, c, run, end)
    requires Waits(s, t, since, late) || Decided(s, t, since, late)
    ensures Waits(end, t, since, late) || Decided(end, t, since, late)
    decreases |run|
  {
    if run != [] {
      var next := Next(s, c, run[0]);
      StoreStep(s, c, run[0]);
      FlightsStep(s, c, run[0]);
      CallsStep(s, c, run[0]);
      if Waits(s, t, since, late) {
        WaitsStep(s, c, run[0], t, since, late);
      } else {
        DecidedStep(s, c, run[0], t, since, late);
      }
      WaitsThenDecided(next, c, run[1..], end, t, since, late);
    }
  }

  lemma JoinWaits(s: Sys, c: Config, t: Id)
    requires Inv(s, c) && Enabled(s, Join(t))
    ensures Waits(Next(s, c, Join(t)), t, s.calls[t].since, TooLate(s, t))
  {
  }

  /** Exactly when a call that joins a flight is answered with a value from before it began: when,
      at the moment it joins, the hub has already answered the flight, and did so before the call.
      While the flight is still looking or asking, joining it is as good as asking; and an error is
      always one that happened during the call. */
  lemma JoinDecides(s: Sys, c: Config, t: Id, run: seq<Action>, end: Sys)
    requires Inv(s, c) && Enabled(s, Join(t)) && Leads(Next(s, c, Join(t)), c, run, end)
    requires t in end.calls && end.calls[t].Answered?
    ensures end.calls[t].since == s.calls[t].since
    ensures end.calls[t].answer.Got? ==> (end.calls[t].answer.goodAt < s.calls[t].since <==> TooLate(s, t))
    ensures end.calls[t].answer.Failed? ==> end.calls[t].answer.at >= s.calls[t].since
  {
    StoreStep(s, c, Join(t));
    FlightsStep(s, c, Join(t));
    CallsStep(s, c, Join(t));
    JoinWaits(s, c, t);
    WaitsThenDecided(Next(s, c, Join(t)), c, run, end, t, s.calls[t].since, TooLate(s, t));
  }

  lemma {:induction false} LeadsOn(s: Sys, c: Config, first: seq<Action>, mid: Sys, second: seq<Action>, end: Sys)
    requires c.base > 0 && Leads(s, c, first, mid) && Leads(mid, c, second, end)
    ensures Leads(s, c, first + second, end)
    decreases |first|
  {
    if first == [] {
      assert first + second == second;
    } else {
      assert (first + second)[1..] == first[1..] + second;
      LeadsOn(Next(s, c, first[0]), c, first[1..], mid, second, end);
    }
  }

  lemma OneStep(s: Sys, c: Config, a: Action, mid: Sys)
    requires c.base > 0 && Enabled(s, a) && Next(s, c, a) == mid
    ensures Leads(s, c, [a], mid)
  {
    assert [a][1..] == [];
  }

  /** One call is in flight, and the hub has just answered it. */
  function Leading(k: Key, v: Value): Sys {
    Sys(0, map[], map[k := Flight(0, Storing(v, 0))], map[0 := Waiting(k, 0, 0)], {Made(k, v, 0)})
  }

  lemma LeaderAsks(c: Config, k: Key, v: Value) returns (run: seq<Action>)
    requires c.base > 0
    ensures Leads(INIT, c, run, Leading(k, v))
  {
    var s1 := Next(INIT, c, Begin(0, k));
    var s2 := Next(s1, c, Look(0, true));
    var s3 := Next(s2, c, Join(0));
    var s4 := Next(s3, c, Recheck(k, true));
    var s5 := Next(s4, c, Reply(k, v));
    assert s5.flights == Leading(k, v).flights && s5.calls == Leading(k, v).calls && s5.log == Leading(k, v).log;
    OneStep(INIT, c, Begin(0, k), s1);
    OneStep(s1, c, Look(0, true), s2);
    OneStep(s2, c, Join(0), s3);
    OneStep(s3, c, Recheck(k, true), s4);
    OneStep(s4, c, Reply(k, v), s5);
    LeadsOn(INIT, c, [Begin(0, k)], s1, [Look(0, true)], s2);
    LeadsOn(INIT, c, [Begin(0, k)] + [Look(0, true)], s2, [Join(0)], s3);
    LeadsOn(INIT, c, [Begin(0, k)] + [Look(0, true)] + [Join(0)], s3, [Recheck(k, true)], s4);
    LeadsOn(INIT, c, [Begin(0, k)] + [Look(0, true)] + [Join(0)] + [Recheck(k, true)], s4, [Reply(k, v)], s5);
    run := [Begin(0, k)] + [Look(0, true)] + [Join(0)] + [Recheck(k, true)] + [Reply(k, v)];
  }

  lemma LatecomerJoins(c: Config, k: Key, v: Value, d: nat) returns (run: seq<Action>, end: Sys)
    requires c.base > 0
    ensures Leads(Leading(k, v), c, run, end)
    ensures 1 in end.calls && end.calls[1] == Answered(k, d, Some(0), Got(v, 0, 0, None))
  {
    var s1 := Next(Leading(k, v), c, Tick(d));
    var s2 := Next(s1, c, Begin(1, k));
    var s3 := Next(s2, c, Look(1, true));
    var s4 := Next(s3, c, Join(1));
    end := Next(s4, c, Store(k, false));
    OneStep(Leading(k, v), c, Tick(d), s1);
    OneStep(s1, c, Begin(1, k), s2);
    OneStep(s2, c, Look(1, true), s3);
    OneStep(s3, c, Join(1), s4);
    OneStep(s4, c, Store(k, false), end);
    LeadsOn(Leading(k, v), c, [Tick(d)], s1, [Begin(1, k)], s2);
    LeadsOn(Leading(k, v), c, [Tick(d)] + [Begin(1, k)], s2, [Look(1, true)], s3);
    LeadsOn(Leading(k, v), c, [Tick(d)] + [Begin(1, k)] + [Look(1, true)], s3, [Join(1)], s4);
    LeadsOn(Leading(k, v), c, [Tick(d)] + [Begin(1, k)] + [Look(1, true)] + [Join(1)], s4, [Store(k, false)], end);
    run := [Tick(d)] + [Begin(1, k)] + [Look(1, true)] + [Join(1)] + [Store(k, false)];
  }

  /** It does happen, for every key, value and delay d: a call that begins d after the hub has
      answered, and joins before the value is stored, is answered with it. */
  lemma LateCallerGetsAnEarlierValue(c: Config, k: Key, v: Value, d: nat) returns (run: seq<Action>, end: Sys)
    requires c.base > 0
    ensures Leads(INIT, c, run, end)
    ensures 1 in end.calls && end.calls[1] == Answered(k, d, Some(0), Got(v, 0, 0, None))
  {
    var first := LeaderAsks(c, k, v);
    var second;
    second, end := LatecomerJoins(c, k, v, d);
    LeadsOn(INIT, c, first, Leading(k, v), second, end);
    run := first + second;
  }

  // ---- a call alone ----

  /** A call that finds nothing and nobody asking is answered with what the hub answers, which is stored for
      the key's time to live. */
  lemma AskAlone(s: Sys, c: Config, t: Id, k: Key, v: Value) returns (end: Sys)
    requires c.base > 0 && t !in s.calls && k !in s.flights && !Live(s.store, k, s.clock)
    ensures Leads(s, c, [Begin(t, k)] + [Look(t, true)] + [Join(t)] + [Recheck(k, true)] + [Reply(k, v)]
                        + [Store(k, true)], end)
    ensures t in end.calls && end.calls[t] == Answered(k, s.clock, Some(s.clock), Got(v, s.clock, s.clock, None))
    ensures end.store == s.store[k := Entry(Item(v, s.clock, s.clock), s.clock + JitterTTL(c.bias(k), c.base))]
    ensures end.flights == s.flights && end.clock == s.clock
  {
    var mid := JoinAlone(s, c, t, k);
    end := AnswerAlone(mid, c, t, k, v);
    assert end.flights == s.flights;
    LeadsOn(s, c, [Begin(t, k)] + [Look(t, true)] + [Join(t)], mid,
            [Recheck(k, true)] + [Reply(k, v)] + [Store(k, true)], end);
    assert [Begin(t, k)] + [Look(t, true)] + [Join(t)] + ([Recheck(k, true)] + [Reply(k, v)] + [Store(k, true)])
           == [Begin(t, k)] + [Look(t, true)] + [Join(t)] + [Recheck(k, true)] + [Reply(k, v)] + [Store(k, true)];
  }

  lemma JoinAlone(s: Sys, c: Config, t: Id, k: Key) returns (mid: Sys)
    requires c.base > 0 && t !in s.calls && k !in s.flights && !Live(s.store, k, s.clock)
    ensures Leads(s, c, [Begin(t, k)] + [Look(t, true)] + [Join(t)], mid)
    ensures t in mid.calls && mid.calls[t] == Waiting(k, s.clock, s.clock)
    ensures mid.store == s.store && mid.clock == s.clock && mid.flights == s.flights[k := Flight(s.clock, Rechecking)]
  {
    var s1 := Next(s, c, Begin(t, k));
    var s2 := Next(s1, c, Look(t, true));
    mid := Next(s2, c, Join(t));
    OneStep(s, c, Begin(t, k), s1);
    OneStep(s1, c, Look(t, true), s2);
    OneStep(s2, c, Join(t), mid);
    LeadsOn(s, c, [Begin(t, k)], s1, [Look(t, true)], s2);
    LeadsOn(s, c, [Begin(t, k)] + [Look(t, true)], s2, [Join(t)], mid);
  }

  lemma AnswerAlone(s: Sys, c: Config, t: Id, k: Key, v: Value) returns (end: Sys)
    requires c.base > 0 && t in s.calls && s.calls[t] == Waiting(k, s.clock, s.clock)
    requires k in s.flights && s.flights[k] == Flight(s.clock, Rechecking) && !Live(s.store, k, s.clock)
    ensures Leads(s, c, [Recheck(k, true)] + [Reply(k, v)] + [Store(k, true)], end)
    ensures t in end.calls && end.calls[t] == Answered(k, s.clock, Some(s.clock), Got(v, s.clock, s.clock, None))
    ensures end.store == s.store[k := Entry(Item(v, s.clock, s.clock), s.clock + JitterTTL(c.bias(k), c.base))]
    ensures end.flights == (map j | j in s.flights && j != k :: s.flights[j]) && end.clock == s.clock
  {
    JitterIsBounded(c.bias(k), c.base);
    var s1 := Next(s, c, Recheck(k, true));
    var s2 := Next(s1, c, Reply(k, v));
    end := Next(s2, c, Store(k, true));
    OneStep(s, c, Recheck(k, true), s1);
    OneStep(s1, c, Reply(k, v), s2);
    OneStep(s2, c, Store(k, true), end);
    LeadsOn(s, c, [Recheck(k, true)], s1, [Reply(k, v)], s2);
    LeadsOn(s, c, [Recheck(k, true)] + [Reply(k, v)], s2, [Store(k, true)], end);
  }

  /** A call that finds the key stored is answered with it at once. */
  lemma HitAlone(s: Sys, c: Config, t: Id, k: Key) returns (end: Sys)
    requires c.base > 0 && t !in s.calls && k in s.store && s.clock < s.store[k].expiry
    ensures Leads(s, c, [Begin(t, k)] + [Look(t, true)], end) && end.store == s.store && end.flights == s.flights
    ensures var i := s.store[k].value;
            t in end.calls && end.calls[t] == Answered(k, s.clock, None, Got(i.value, i.made, s.clock, Some(i.stored)))
  {
    var s1 := Next(s, c, Begin(t, k));
    end := Next(s1, c, Look(t, true));
    OneStep(s, c, Begin(t, k), s1);
    OneStep(s1, c, Look(t, true), end);
    LeadsOn(s, c, [Begin(t, k)], s1, [Look(t, true)], end);
  }
}

/** The same cache as its code, run by one caller. */
module CachedClient {
  import opened Redis
  import opened HubCache

  /** Which store operations of a call fail: the lookup, the second look inside the flight, the write. */
  datatype Faults = Faults(look: bool, recheck: bool, write: bool)

  class Cache {
    const ttl: int
    const bias: Key -> int
    var store: map<Key, Entry<Item>>
    var clock: nat

    ghost predicate Valid()
      reads this
    {
      forall k | k in store ::
        && ttl > 0 && store[k].value.stored <= clock
        && store[k].expiry == store[k].value.stored + JitterTTL(bias(k), ttl)
    }

    constructor (ttl: int, bias: Key -> int)
      ensures Valid() && this.ttl == ttl && this.bias == bias && store == map[]
    {
      this.ttl, this.bias, store, clock := ttl, bias, map[], 0;
    }

    method CacheGet(k: Key, fails: bool) returns (hit: Option<Item>)
      ensures hit == if fails then None else Get(store, k, clock)
    {
      if fails { return None; }
      hit := Get(store, k, clock);
    }

    method CacheSet(k: Key, value: Value, fails: bool)
      requires Valid() && ttl > 0
      modifies this`store
      ensures Valid()
      ensures store == if fails then old(store)
                       else old(store)[k := Entry(Item(value, clock, clock), clock + JitterTTL(bias(k), ttl))]
    {
      JitterIsBounded(bias(k), ttl);
      if !fails {
        store := SetEx(store, k, Item(value, clock, clock), clock, JitterTTL(bias(k), ttl));
      }
    }

    /** inner is what the hub would answer.  It is asked exactly when neither look finds the key, or
        the cache is off; a value found was stored within the jittered time to live, and an error
        leaves the store as it was. */
    method CachedGet(k: Key, inner: Option<Value>, f: Faults) returns (r: Option<Value>, asked: bool)
      requires Valid()
      modifies this`store
      ensures Valid()
      ensures !asked <==> ttl > 0 && Live(old(store), k, clock) && !(f.look && f.recheck)
      ensures asked ==> r == inner
      ensures !asked ==> r == Some(old(store)[k].value.value) && store == old(store)
                         && clock < old(store)[k].value.stored + ttl + Delta(ttl)
      ensures asked && (ttl <= 0 || inner.None? || f.write) ==> store == old(store)
      ensures asked && ttl > 0 && inner.Some? && !f.write ==>
                && (forall j | j != k :: j in store <==> j in old(store))
                && (forall j | j != k && j in store :: store[j] == old(store)[j])
                && k in store && store[k].value == Item(inner.value, clock, clock)
                && clock < store[k].expiry <= clock + ttl + Delta(ttl)
    {
      JitterBound(k);
      if ttl <= 0 { return inner, true; }
      var hit := CacheGet(k, f.look);
      if hit.Some? { return Some(hit.value.value), false; }
      hit := CacheGet(k, f.recheck);
      if hit.Some? { return Some(hit.value.value), false; }
      if inner.None? { return None, true; }
      CacheSet(k, inner.value, f.write);
      return inner, true;
    }

    lemma JitterBound(k: Key)
      ensures ttl > 0 ==> 0 < JitterTTL(bias(k), ttl) <= ttl + Delta(ttl)
    {
      if ttl > 0 { JitterIsBounded(bias(k), ttl); }
    }
  }
}
