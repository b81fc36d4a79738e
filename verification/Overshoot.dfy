/** Optimistic admission: requests of one user prechecked, forwarded and charged concurrently.

    A precheck reads one window at a time and a charge is written to one window at a time, so
    each window has its own history here.  The clock is read once at the start of a precheck
    and once at the start of a charge.
  */
module Overshoot {
  import opened MeteringModel

  type Id = nat

  const ME: User := 0

  datatype Phase =
    | Checking(since: nat, window: nat, full: bool)
    | Forwarding
    | Recording(charge: Charge, window: nat)
    | Finished

  datatype Sys = Sys(clock: nat, calls: map<Id, Phase>, histories: seq<seq<Charge>>)

  /** seen is what the range read added up to; a concurrent prune with a later cutoff may
      already have removed some of what this call would still have counted. */
  datatype Action =
    | Tick(to: nat)
    | Begin(id: Id)
    | Check(id: Id, seen: int)
    | Admit(id: Id)
    | Refuse(id: Id)
    | Fail(id: Id)
    | Answer(id: Id, credits: nat)
    | Write(id: Id)
    | Done(id: Id)

  datatype Limits = Limits(windows: seq<UsageWindow>, inFlight: nat, credits: nat)

  predicate Running(p: Phase) { !p.Finished? }

  function InFlight(s: Sys): set<Id> {
    set t | t in s.calls && Running(s.calls[t])
  }

  function WindowSum(s: Sys, l: Limits, w: nat, at: nat): int
    requires w < |l.windows| == |s.histories|
  {
    Sum(s.histories[w], ME, Cutoff(at, l.windows[w].size))
  }

  predicate Shaped(s: Sys, l: Limits) {
    |s.histories| == |l.windows|
  }

  ghost predicate Enabled(s: Sys, l: Limits, a: Action)
    requires Shaped(s, l)
  {
    match a
    case Tick(to) => s.clock <= to
    case Begin(t) => t !in s.calls && |InFlight(s)| < l.inFlight
    case Check(t, seen) =>
      && t in s.calls && s.calls[t].Checking? && s.calls[t].window < |l.windows|
      && WindowSum(s, l, s.calls[t].window, s.clock) <= seen <= WindowSum(s, l, s.calls[t].window, s.calls[t].since)
    case Admit(t) => t in s.calls && s.calls[t].Checking? && s.calls[t].window == |l.windows| && !s.calls[t].full
    case Refuse(t) => t in s.calls && s.calls[t].Checking? && s.calls[t].window == |l.windows| && s.calls[t].full
    case Fail(t) => t in s.calls && s.calls[t].Forwarding?
    case Answer(t, credits) => t in s.calls && s.calls[t].Forwarding? && 1 <= credits <= l.credits
    case Write(t) => t in s.calls && s.calls[t].Recording? && s.calls[t].window < |l.windows|
    case Done(t) => t in s.calls && s.calls[t].Recording? && s.calls[t].window == |l.windows|
  }

  function PhaseAfter(s: Sys, l: Limits, a: Action): Phase
    requires Shaped(s, l) && !a.Tick? && (a.Begin? || a.id in s.calls)
    requires a.Check? ==> s.calls[a.id].Checking? && s.calls[a.id].window < |l.windows|
    requires a.Write? ==> s.calls[a.id].Recording?
  {
    match a
    case Begin(_) => Checking(s.clock, 0, false)
    case Check(t, seen) =>
      var p, w := s.calls[t], l.windows[s.calls[t].window];
      Checking(p.since, p.window + 1, p.full || (w.cap > 0 && seen >= w.cap))
    case Admit(_) => Forwarding
    case Answer(_, credits) => Recording(Charge(ME, s.clock, 0, credits, ""), 0)
    case Write(t) => Recording(s.calls[t].charge, s.calls[t].window + 1)
    case _ => Finished
  }

  ghost function Next(s: Sys, l: Limits, a: Action): (s': Sys)
    requires Shaped(s, l) && Enabled(s, l, a)
  {
    if a.Tick? then s.(clock := a.to)
    else
      Sys(s.clock, s.calls[a.id := PhaseAfter(s, l, a)],
          if a.Write? then
            var p := s.calls[a.id];
            s.histories[p.window := s.histories[p.window] + [p.charge]]
          else s.histories)
  }

  /** Admitted past window w and not yet charged to it. */
  predicate Owes(p: Phase, w: nat) {
    || (p.Checking? && p.window > w && !p.full)
    || p.Forwarding?
    || (p.Recording? && p.window <= w)
  }

  function Owing(s: Sys, w: nat): set<Id> {
    set t | t in s.calls && Owes(s.calls[t], w)
  }

  ghost predicate Sound(s: Sys, l: Limits) {
    && Shaped(s, l)
    && |InFlight(s)| <= l.inFlight
    && (forall t | t in s.calls && s.calls[t].Recording? ::
          s.calls[t].charge.user == ME && 1 <= s.calls[t].charge.credits <= l.credits)
    && (forall w, i | 0 <= w < |s.histories| && 0 <= i < |s.histories[w]| :: s.histories[w][i].credits >= 1)
  }

  /** What has been charged to a limited window, plus the most that may still be. */
  ghost predicate Bounded(s: Sys, l: Limits, w: nat)
    requires Shaped(s, l) && w < |l.windows|
  {
    WindowSum(s, l, w, s.clock) + l.credits * |Owing(s, w)| <= l.windows[w].cap - 1 + l.credits * l.inFlight
  }

  /** A run: every action enabled in the state before it. */
  ghost predicate Leads(s: Sys, l: Limits, run: seq<Action>, end: Sys)
    requires Shaped(s, l)
    decreases |run|
  {
    if run == [] then s == end
    else Enabled(s, l, run[0]) && Leads(Next(s, l, run[0]), l, run[1..], end)
  }

  ghost predicate Idle(s: Sys, l: Limits) {
    && Shaped(s, l) && s.calls == map[]
    && forall w, i | 0 <= w < |s.histories| && 0 <= i < |s.histories[w]| :: s.histories[w][i].credits >= 1
  }

  lemma SubsetIsSmaller<T>(a: set<T>, b: set<T>)
    requires a <= b
    ensures |a| <= |b|
  {
    if a != {} {
      var x :| x in a;
      SubsetIsSmaller(a - {x}, b - {x});
    }
  }

  lemma InFlightGrows(s: Sys, l: Limits, a: Action)
    requires Sound(s, l) && Enabled(s, l, a)
    ensures |InFlight(Next(s, l, a))| <= l.inFlight
  {
    var next := Next(s, l, a);
    if a.Begin? {
      assert InFlight(next) == InFlight(s) + {a.id};
    } else {
      SubsetIsSmaller(InFlight(next), InFlight(s));
    }
  }

  lemma SoundStep(s: Sys, l: Limits, a: Action)
    requires Sound(s, l) && Enabled(s, l, a)
    ensures Sound(Next(s, l, a), l)
  {
    InFlightGrows(s, l, a);
  }

  /** Only a check of w itself puts a call into w's debt, and writing w takes it out. */
  lemma OwingShrinks(s: Sys, l: Limits, a: Action, w: nat)
    requires Sound(s, l) && Enabled(s, l, a) && w < |l.windows|
    requires a.Check? ==> s.calls[a.id].window != w
    ensures Owing(Next(s, l, a), w) <= Owing(s, w)
    ensures a.Write? && s.calls[a.id].window == w ==> Owing(Next(s, l, a), w) <= Owing(s, w) - {a.id}
  {
  }

  lemma Scale(m: nat, a: nat, b: nat)
    requires a <= b
    ensures m * a <= m * b
  {
  }

  lemma CheckBounded(s: Sys, l: Limits, a: Action, w: nat)
    requires Sound(s, l) && Enabled(s, l, a) && w < |l.windows| && l.windows[w].cap > 0 && Bounded(s, l, w)
    requires a.Check? && s.calls[a.id].window == w
    ensures Bounded(Next(s, l, a), l, w)
  {
    var next := Next(s, l, a);
    if a.seen >= l.windows[w].cap {
      assert Owing(next, w) <= Owing(s, w);
      SubsetIsSmaller(Owing(next, w), Owing(s, w));
      Scale(l.credits, |Owing(next, w)|, |Owing(s, w)|);
    } else {
      SoundStep(s, l, a);
      SubsetIsSmaller(Owing(next, w), InFlight(next));
      Scale(l.credits, |Owing(next, w)|, l.inFlight);
    }
  }

  /** What is written to the sum is no more than what leaves the debt. */
  lemma Settled(before: int, after: int, m: nat, owing: nat, left: nat, bound: int)
    requires before + m * owing <= bound && after <= before + m && left < owing
    ensures after + m * left <= bound
  {
    Scale(m, left, owing - 1);
    assert m * (owing - 1) == m * owing - m;
  }

  lemma WriteBounded(s: Sys, l: Limits, a: Action, w: nat)
    requires Sound(s, l) && Enabled(s, l, a) && w < |l.windows| && Bounded(s, l, w)
    requires a.Write? && s.calls[a.id].window == w
    ensures Bounded(Next(s, l, a), l, w)
  {
    var next := Next(s, l, a);
    OwingShrinks(s, l, a, w);
    assert a.id in Owing(s, w);
    SubsetIsSmaller(Owing(next, w), Owing(s, w) - {a.id});
    SumSnoc(s.histories[w], s.calls[a.id].charge, ME, Cutoff(s.clock, l.windows[w].size));
    Settled(WindowSum(s, l, w, s.clock), WindowSum(next, l, w, s.clock), l.credits,
            |Owing(s, w)|, |Owing(next, w)|, l.windows[w].cap - 1 + l.credits * l.inFlight);
  }

  lemma BoundedStep(s: Sys, l: Limits, a: Action, w: nat)
    requires Sound(s, l) && Enabled(s, l, a) && w < |l.windows| && l.windows[w].cap > 0 && Bounded(s, l, w)
    ensures Bounded(Next(s, l, a), l, w)
  {
    if a.Check? && s.calls[a.id].window == w {
      CheckBounded(s, l, a, w);
    } else if a.Write? && s.calls[a.id].window == w {
      WriteBounded(s, l, a, w);
    } else {
      var next := Next(s, l, a);
      OwingShrinks(s, l, a, w);
      SubsetIsSmaller(Owing(next, w), Owing(s, w));
      Scale(l.credits, |Owing(next, w)|, |Owing(s, w)|);
      SumMonotone(s.histories[w], ME, Cutoff(s.clock, l.windows[w].size), Cutoff(next.clock, l.windows[w].size));
    }
  }

  /** With at most k requests in flight, each charged at most M credits, no limited window ever
      holds more than its cap - 1 + k * M, however the requests interleave. */
  lemma {:induction false} OvershootBound(s: Sys, l: Limits, run: seq<Action>, end: Sys, w: nat)
    requires Sound(s, l) && Leads(s, l, run, end)
    requires w < |l.windows| && l.windows[w].cap > 0 && Bounded(s, l, w)
    ensures Sound(end, l) && Bounded(end, l, w)
    ensures WindowSum(end, l, w, end.clock) <= l.windows[w].cap - 1 + l.inFlight * l.credits
    decreases |run|
  {
    if run == [] {
      Scale(l.credits, 0, |Owing(end, w)|);
    } else {
      SoundStep(s, l, run[0]);
      BoundedStep(s, l, run[0], w);
      OvershootBound(Next(s, l, run[0]), l, run[1..], end, w);
    }
  }

  /** The same from rest: it is enough that the window was within its bound to begin with. */
  lemma OvershootFromRest(s: Sys, l: Limits, run: seq<Action>, end: Sys, w: nat)
    requires Idle(s, l) && Leads(s, l, run, end) && w < |l.windows| && l.windows[w].cap > 0
    requires WindowSum(s, l, w, s.clock) < l.windows[w].cap
    ensures Shaped(end, l)
    ensures WindowSum(end, l, w, end.clock) <= l.windows[w].cap - 1 + l.inFlight * l.credits
  {
    assert InFlight(s) == {} && Owing(s, w) == {};
    Scale(l.credits, 0, l.inFlight);
    OvershootBound(s, l, run, end, w);
  }

  // ---- A check alone is a precheck ----

  /** Some limited window from the first to before the last has reached its cap. */
  ghost predicate FullBetween(s: Sys, l: Limits, first: nat, last: nat)
    requires Shaped(s, l) && last <= |l.windows|
  {
    exists k :: first <= k < last && Reaches(l.windows[k], s.histories[k], ME, s.clock)
  }

  predicate OnlyChecks(run: seq<Action>, t: Id) {
    forall i | 0 <= i < |run| :: run[i].Check? && run[i].id == t
  }

  lemma CheckOne(s: Sys, l: Limits, a: Action)
    requires Shaped(s, l) && a.Check? && Enabled(s, l, a) && s.calls[a.id].since == s.clock
    ensures var p, s' := s.calls[a.id], Next(s, l, a);
            && Shaped(s', l) && s'.clock == s.clock && s'.histories == s.histories && a.id in s'.calls
            && s'.calls[a.id] == Checking(p.since, p.window + 1, p.full || FullBetween(s, l, p.window, p.window + 1))
  {
    var k := s.calls[a.id].window;
    assert a.seen == Sum(s.histories[k], ME, (s.clock - l.windows[k].size) / 1000);
    assert FullBetween(s, l, k, k + 1) <==> Reaches(l.windows[k], s.histories[k], ME, s.clock);
  }

  lemma FullBetweenJoins(s: Sys, l: Limits, first: nat, mid: nat, last: nat)
    requires Shaped(s, l) && first <= mid <= last <= |l.windows|
    ensures FullBetween(s, l, first, last) <==> FullBetween(s, l, first, mid) || FullBetween(s, l, mid, last)
  {
  }

  lemma {:induction false} ChecksDecide(s: Sys, l: Limits, t: Id, run: seq<Action>, end: Sys)
    requires Shaped(s, l) && Leads(s, l, run, end) && OnlyChecks(run, t)
    requires t in s.calls && s.calls[t].Checking? && s.calls[t].since == s.clock
    requires s.calls[t].window + |run| <= |l.windows|
    ensures Shaped(end, l) && end.clock == s.clock && end.histories == s.histories && t in end.calls
    ensures var first := s.calls[t].window;
            end.calls[t] == Checking(s.clock, first + |run|, s.calls[t].full || FullBetween(s, l, first, first + |run|))
    decreases |run|
  {
    if run != [] {
      var p, s' := s.calls[t], Next(s, l, run[0]);
      assert run[0].Check? && run[0].id == t;
      CheckOne(s, l, run[0]);
      ChecksDecide(s', l, t, run[1..], end);
      FullBetweenJoins(s, l, p.window, p.window + 1, p.window + |run|);
      assert FullBetween(s', l, p.window + 1, p.window + |run|) <==> FullBetween(s, l, p.window + 1, p.window + |run|);
    }
  }

  /** A call that reads all windows without interruption, each holding the same charges, goes on exactly
      as the metering service's precheck of those charges says. */
  lemma UninterruptedCheckIsPrecheck(s: Sys, l: Limits, t: Id, run: seq<Action>, end: Sys, h: seq<Charge>)
    requires Shaped(s, l) && Leads(s, l, run, end) && OnlyChecks(run, t) && |run| == |l.windows|
    requires t in s.calls && s.calls[t] == Checking(s.clock, 0, false)
    requires forall w | 0 <= w < |s.histories| :: s.histories[w] == h
    ensures Shaped(end, l)
    ensures Enabled(end, l, Admit(t)) <==> !SomeFull(l.windows, h, ME, s.clock)
    ensures Enabled(end, l, Refuse(t)) <==> SomeFull(l.windows, h, ME, s.clock)
  {
    ChecksDecide(s, l, t, run, end);
    OneHistory(s, l, h);
  }

  lemma OneHistory(s: Sys, l: Limits, h: seq<Charge>)
    requires Shaped(s, l) && forall w | 0 <= w < |s.histories| :: s.histories[w] == h
    ensures FullBetween(s, l, 0, |l.windows|) <==> SomeFull(l.windows, h, ME, s.clock)
  {
    if FullBetween(s, l, 0, |l.windows|) {
      var k :| 0 <= k < |l.windows| && Reaches(l.windows[k], s.histories[k], ME, s.clock);
      assert s.histories[k] == h;
    }
    if k :| 0 <= k < |l.windows| && Reaches(l.windows[k], h, ME, s.clock) {
      assert s.histories[k] == h;
    }
  }

  // ---- The bound is reached ----

  lemma {:induction false} LeadsOn(s: Sys, l: Limits, first: seq<Action>, mid: Sys, second: seq<Action>, end: Sys)
    requires Shaped(s, l) && Shaped(mid, l) && Leads(s, l, first, mid) && Leads(mid, l, second, end)
    ensures Leads(s, l, first + second, end)
    decreases |first|
  {
    if first == [] {
      assert first + second == second;
    } else {
      assert (first + second)[1..] == first[1..] + second;
      LeadsOn(Next(s, l, first[0]), l, first[1..], mid, second, end);
    }
  }

  function Due(s: Sys, l: Limits): Charge {
    Charge(ME, s.clock, 0, l.credits, "")
  }

  /** n calls have been forwarded and are about to be charged for M credits each; the first
      paid of them have been. */
  function Crowd(s: Sys, l: Limits, n: nat, paid: nat): (calls: map<Id, Phase>)
    ensures forall t | t in calls :: t < n || t < paid
    ensures forall t | t in calls :: Running(calls[t])
    ensures forall t | paid <= t < n :: t in calls && calls[t] == Recording(Due(s, l), 0)
    ensures |calls.Keys| == if n < paid then paid else n
    decreases n + paid
  {
    if paid > 0 then
      var before := Crowd(s, l, n, paid - 1);
      assert paid - 1 < n ==> before.Keys + {paid - 1} == before.Keys;
      before[paid - 1 := Recording(Due(s, l), 1)]
    else if n > 0 then
      Crowd(s, l, n - 1, 0)[n - 1 := Recording(Due(s, l), 0)]
    else map[]
  }

  function Bill(c: Charge, paid: nat): seq<Charge> {
    if paid == 0 then [] else Bill(c, paid - 1) + [c]
  }

  /** After the crowd has been admitted and its first calls have been charged. */
  function Crowded(s: Sys, l: Limits, n: nat, paid: nat): Sys
    requires Shaped(s, l) && |l.windows| == 1
  {
    Sys(s.clock, Crowd(s, l, n, paid), [s.histories[0] + Bill(Due(s, l), paid)])
  }

  lemma NothingBilled(s: Sys, l: Limits, n: nat)
    requires Shaped(s, l) && |l.windows| == 1
    ensures Crowded(s, l, n, 0).histories == s.histories
  {
    assert s.histories[0] + Bill(Due(s, l), 0) == s.histories[0];
  }

  /** One more call joins the crowd, in four steps. */
  lemma OneJoins(s: Sys, l: Limits, n: nat) returns (run: seq<Action>)
    requires Idle(s, l) && |l.windows| == 1 && l.credits >= 1 && n < l.inFlight
    requires WindowSum(s, l, 0, s.clock) < l.windows[0].cap
    ensures Leads(Crowded(s, l, n, 0), l, run, Crowded(s, l, n + 1, 0))
  {
    NothingBilled(s, l, n);
    NothingBilled(s, l, n + 1);
    var c := Crowded(s, l, n, 0);
    SubsetIsSmaller(InFlight(c), c.calls.Keys);
    var a, b, d, e := Begin(n), Check(n, WindowSum(s, l, 0, s.clock)), Admit(n), Answer(n, l.credits);
    var s1 := Next(c, l, a);
    var s2 := Next(s1, l, b);
    var s3 := Next(s2, l, d);
    var s4 := Next(s3, l, e);
    assert s4.calls == Crowd(s, l, n + 1, 0);
    assert Leads(s3, l, [e], s4);
    assert Leads(s2, l, [d] + [e], s4);
    assert Leads(s1, l, [b] + ([d] + [e]), s4);
    run := [a] + ([b] + ([d] + [e]));
  }

  lemma {:induction false} CrowdForms(s: Sys, l: Limits, n: nat) returns (run: seq<Action>)
    requires Idle(s, l) && |l.windows| == 1 && l.credits >= 1 && n <= l.inFlight
    requires WindowSum(s, l, 0, s.clock) < l.windows[0].cap
    ensures Leads(s, l, run, Crowded(s, l, n, 0))
  {
    if n == 0 {
      NothingBilled(s, l, 0);
      run := [];
    } else {
      var before := CrowdForms(s, l, n - 1);
      var more := OneJoins(s, l, n - 1);
      LeadsOn(s, l, before, Crowded(s, l, n - 1, 0), more, Crowded(s, l, n, 0));
      run := before + more;
    }
  }

  lemma OnePays(s: Sys, l: Limits, n: nat, paid: nat)
    requires Shaped(s, l) && |l.windows| == 1 && paid < n
    ensures Enabled(Crowded(s, l, n, paid), l, Write(paid))
    ensures Next(Crowded(s, l, n, paid), l, Write(paid)) == Crowded(s, l, n, paid + 1)
  {
    assert s.histories[0] + Bill(Due(s, l), paid + 1) == s.histories[0] + Bill(Due(s, l), paid) + [Due(s, l)];
  }

  lemma {:induction false} CrowdPays(s: Sys, l: Limits, n: nat, paid: nat) returns (run: seq<Action>)
    requires Shaped(s, l) && |l.windows| == 1 && paid <= n
    ensures Leads(Crowded(s, l, n, 0), l, run, Crowded(s, l, n, paid))
  {
    if paid == 0 {
      run := [];
    } else {
      var before := CrowdPays(s, l, n, paid - 1);
      OnePays(s, l, n, paid - 1);
      var more := [Write(paid - 1)];
      assert more[1..] == [];
      LeadsOn(Crowded(s, l, n, 0), l, before, Crowded(s, l, n, paid - 1), more, Crowded(s, l, n, paid));
      run := before + more;
    }
  }

  function Total(c: Charge, paid: nat): int {
    if paid == 0 then 0 else Total(c, paid - 1) + c.credits
  }

  lemma {:induction false} TotalIsProduct(c: Charge, paid: nat)
    ensures Total(c, paid) == paid * c.credits
  {
    if paid > 0 { TotalIsProduct(c, paid - 1); }
  }

  lemma {:induction false} BillSum(h: seq<Charge>, c: Charge, paid: nat, cut: int)
    requires Counts(c, ME, cut)
    ensures Sum(h + Bill(c, paid), ME, cut) == Sum(h, ME, cut) + Total(c, paid)
  {
    if paid == 0 {
      assert h + Bill(c, 0) == h;
    } else {
      BillSum(h, c, paid - 1, cut);
      assert h + Bill(c, paid) == (h + Bill(c, paid - 1)) + [c];
      SumSnoc(h + Bill(c, paid - 1), c, ME, cut);
    }
  }

  /** For every k and M the overshoot really happens: k requests admitted one credit short of
      the cap leave the window at exactly cap - 1 + k * M. */
  lemma OvershootIsReached(s: Sys, l: Limits) returns (run: seq<Action>, end: Sys)
    requires Idle(s, l) && |l.windows| == 1 && l.credits >= 1
    requires WindowSum(s, l, 0, s.clock) == l.windows[0].cap - 1
    ensures Leads(s, l, run, end) && Shaped(end, l)
    ensures WindowSum(end, l, 0, end.clock) == l.windows[0].cap - 1 + l.inFlight * l.credits
  {
    var k := l.inFlight;
    var first := CrowdForms(s, l, k);
    var second := CrowdPays(s, l, k, k);
    end := Crowded(s, l, k, k);
    LeadsOn(s, l, first, Crowded(s, l, k, 0), second, end);
    run := first + second;
    TotalIsProduct(Due(s, l), k);
    BillSum(s.histories[0], Due(s, l), k, Cutoff(s.clock, l.windows[0].size));
  }
}
