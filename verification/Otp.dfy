/** One-time codes: issue, resend gate, verification with a limited number of attempts. */
module OtpModel {
  import opened Redis
  import opened Spacing
  import opened Texts

  type Code = string
  type Purpose = string

  const PURPOSE_LOGIN: Purpose := "login"

  datatype Key = Key(purpose: Purpose, dest: string)

  datatype Kind = CodeKey | AttemptsKey | ResendKey

  function KindName(kind: Kind): string {
    match kind
    case CodeKey => "code"
    case AttemptsKey => "attempts"
    case ResendKey => "resend"
  }

  /** The key of a purpose and destination in Redis; the stores below are indexed by its parts. */
  function KeyText(kind: Kind, k: Key): string {
    "otp:" + k.purpose + ":" + KindName(kind) + ":" + k.dest
  }

  function KeyRest(kind: Kind, dest: string): string {
    KindName(kind) + ":" + dest
  }

  lemma KeyRestIsInjective(i: Kind, d: string, j: Kind, e: string)
    requires KeyRest(i, d) == KeyRest(j, e)
    ensures i == j && d == e
  {
    assert KindName(i) + [':'] + d == KindName(j) + [':'] + e;
    FirstSeparator(KindName(i), d, KindName(j), e, ':');
    assert KindName(i)[0] == KindName(j)[0];
  }

  /** No two purposes, kinds or destinations ever share a key, whatever the destinations hold: the
      purposes of the program, like all others without a colon, keep them apart. */
  lemma KeyTextIsInjective(i: Kind, k: Key, j: Kind, l: Key)
    requires ':' !in k.purpose && ':' !in l.purpose
    ensures KeyText(i, k) == KeyText(j, l) <==> i == j && k == l
  {
    var s, t := k.purpose + [':'] + KeyRest(i, k.dest), l.purpose + [':'] + KeyRest(j, l.dest);
    assert KeyText(i, k) == "otp:" + s && KeyText(j, l) == "otp:" + t;
    SamePrefix("otp:", s, t);
    if s == t {
      FirstSeparator(k.purpose, KeyRest(i, k.dest), l.purpose, KeyRest(j, l.dest), ':');
      KeyRestIsInjective(i, k.dest, j, l.dest);
    }
  }

  datatype Limits = Limits(ttl: nat, resendInterval: nat, maxAttempts: int)

  /** The first purpose given, unless it is absent or empty. */
  function ResolvePurpose(purpose: seq<Purpose>): Purpose {
    if |purpose| > 0 && purpose[0] != "" then purpose[0] else PURPOSE_LOGIN
  }

  /** What has happened under a key: when each code was issued and what it was, every comparison
      of a submitted code with it, and the comparisons that succeeded. */
  datatype Ledger = Ledger(starts: seq<nat>, codes: seq<Code>, tries: seq<Item>, wins: seq<Item>)

  /** The three Redis keys of a purpose and destination. */
  datatype Slot = Slot(code: Option<Entry<Code>>, attempts: Option<Entry<nat>>, resend: Option<Entry<()>>)

  function Attempts(l: Limits): nat { if l.maxAttempts < 0 then 0 else l.maxAttempts }

  function Alive<V>(e: Option<Entry<V>>, now: nat): bool {
    e.Some? && now < e.value.expiry
  }

  /** A ledger in which no code is compared too often, too late, or accepted twice. */
  ghost predicate Sound(g: Ledger, l: Limits, now: nat) {
    && |g.codes| == |g.starts| && (g.starts != [] ==> g.starts[|g.starts| - 1] <= now)
    && Batched(g.starts, g.tries) && UpTo(g.tries, now) && AtMost(g.tries, Attempts(l)) && AtMost(g.wins, 1)
    && InTime(g, l) && Known(g)
  }

  /** The state of a key tells how the latest code stands. */
  ghost predicate Stands(s: Slot, g: Ledger, l: Limits)
    requires |g.codes| == |g.starts|
  {
    var n := |g.starts|;
    && (s.code.Some? ==>
          && n > 0 && s.code.value == Entry(g.codes[n - 1], g.starts[n - 1] + l.ttl)
          && s.attempts == Some(Entry(CountOf(g.tries, n - 1), g.starts[n - 1] + l.ttl))
          && CountOf(g.wins, n - 1) == 0)
    && (n > 0 && s.code.None? ==> CountOf(g.wins, n - 1) > 0 || CountOf(g.tries, n - 1) >= l.maxAttempts)
    && (s.resend.Some? <==> n > 0)
    && (n > 0 ==> s.resend.value.expiry == g.starts[n - 1] + l.resendInterval)
  }

  ghost predicate Kept(s: Slot, g: Ledger, l: Limits, now: nat) {
    Sound(g, l, now) && Stands(s, g, l)
  }

  /** Every comparison was made while its code was alive. */
  ghost predicate InTime(g: Ledger, l: Limits) {
    forall i | 0 <= i < |g.tries| :: g.tries[i].batch < |g.starts| && g.tries[i].at < g.starts[g.tries[i].batch] + l.ttl
  }

  ghost predicate Known(g: Ledger) {
    forall i | 0 <= i < |g.wins| :: g.wins[i].batch < |g.starts|
  }

  function Issued(l: Limits, code: Code, now: nat): Slot {
    Slot(Some(Entry(code, now + l.ttl)), Some(Entry(0, now + l.ttl)), Some(Entry((), now + l.resendInterval)))
  }

  /** A live code always has its counter beside it: both are written together and expire together. */
  predicate Together(s: Slot, now: nat) {
    Alive(s.code, now) ==> Alive(s.attempts, now)
  }

  /** Whether a submission is compared with the stored code at all. */
  predicate Compares(s: Slot, l: Limits, now: nat) {
    Alive(s.code, now) && (if Alive(s.attempts, now) then s.attempts.value.value else 0) < l.maxAttempts
  }

  function Verified(s: Slot, l: Limits, code: Code, now: nat): Slot
    requires Together(s, now)
  {
    if !Compares(s, l, now) then s
    else if s.code.value.value == code then s.(code := None, attempts := None)
    else
      var attempts := Entry(s.attempts.value.value + 1, s.attempts.value.expiry);
      Slot(if attempts.value >= l.maxAttempts then None else s.code, Some(attempts), s.resend)
  }

  function Noted(g: Ledger, s: Slot, l: Limits, code: Code, now: nat): Ledger
  {
    if !Compares(s, l, now) || g.starts == [] then g
    else
      var x := Item(now, |g.starts| - 1);
      Ledger(g.starts, g.codes, g.tries + [x], if s.code.value.value == code then g.wins + [x] else g.wins)
  }

  /** The accepted code was the latest issued, was alive, and this was its only success. */
  ghost predicate Accepted(g: Ledger, l: Limits, code: Code, now: nat) {
    var n := |g.starts| - 1;
    && n >= 0 && |g.codes| == n + 1 && code == g.codes[n] && now < g.starts[n] + l.ttl
    && CountOf(g.wins, n) == 1 && CountOf(g.tries, n) <= l.maxAttempts
  }

  /** The ledger when a new code is issued. */
  function Opened(g: Ledger, code: Code, now: nat): Ledger {
    Ledger(g.starts + [now], g.codes + [code], g.tries, g.wins)
  }

  lemma IssueKeeps(s: Slot, g: Ledger, l: Limits, code: Code, clock: nat, now: nat)
    requires Kept(s, g, l, clock) && clock <= now
    ensures Kept(Issued(l, code, now), Opened(g, code, now), l, now)
  {
    UpToLater(g.tries, clock, now);
    BatchAdded(g.starts, g.tries, now);
    NoneYet(g.wins, |g.starts|);
  }

  lemma TryInTime(g: Ledger, l: Limits, x: Item)
    requires InTime(g, l) && x.batch < |g.starts| && x.at < g.starts[x.batch] + l.ttl
    ensures InTime(g.(tries := g.tries + [x]), l)
  {
    forall i | 0 <= i < |g.tries| + 1
      ensures (g.tries + [x])[i].batch < |g.starts|
      ensures (g.tries + [x])[i].at < g.starts[(g.tries + [x])[i].batch] + l.ttl
    {
      if i < |g.tries| { assert (g.tries + [x])[i] == g.tries[i]; }
    }
  }

  lemma TryKept(g: Ledger, l: Limits, now: nat)
    requires Sound(g, l, now) && g.starts != [] && now < g.starts[|g.starts| - 1] + l.ttl
    requires CountOf(g.tries, |g.starts| - 1) < Attempts(l)
    ensures var n := |g.starts| - 1; var tries := g.tries + [Item(now, n)];
            && Sound(g.(tries := tries), l, now)
            && CountOf(tries, n) == CountOf(g.tries, n) + 1
  {
    var x := Item(now, |g.starts| - 1);
    ItemAdded(g.starts, g.tries, Attempts(l), x);
    UpToAdded(g.tries, x, now);
    CountOfAppend(g.tries, x, x.batch);
    TryInTime(g, l, x);
  }

  lemma WinKept(g: Ledger, l: Limits, now: nat, x: Item)
    requires Sound(g, l, now) && x.batch < |g.starts| && CountOf(g.wins, x.batch) == 0
    ensures Sound(g.(wins := g.wins + [x]), l, now) && CountOf(g.wins + [x], x.batch) == 1
  {
    CountOfAppend(g.wins, x, x.batch);
    forall b: nat
      ensures CountOf(g.wins + [x], b) <= 1
    {
      CountOfAppend(g.wins, x, b);
      assert CountOf(g.wins, b) <= 1;
    }
  }

  /** Letting time pass keeps everything. */
  lemma LaterKept(s: Slot, g: Ledger, l: Limits, clock: nat, now: nat)
    requires Kept(s, g, l, clock) && clock <= now
    ensures Kept(s, g, l, now) && Together(s, now)
    ensures Compares(s, l, now) ==> g.starts != []
  {
    UpToLater(g.tries, clock, now);
  }

  lemma MissKeeps(s: Slot, g: Ledger, l: Limits, code: Code, now: nat)
    requires Kept(s, g, l, now) && Compares(s, l, now) && Together(s, now) && s.code.value.value != code
    ensures Kept(Verified(s, l, code, now), Noted(g, s, l, code, now), l, now)
  {
    TryKept(g, l, now);
  }

  lemma WinKeeps(s: Slot, g: Ledger, l: Limits, code: Code, now: nat)
    requires Kept(s, g, l, now) && Compares(s, l, now) && Together(s, now) && s.code.value.value == code
    ensures Kept(Verified(s, l, code, now), Noted(g, s, l, code, now), l, now)
    ensures Accepted(Noted(g, s, l, code, now), l, code, now)
  {
    TryKept(g, l, now);
    var x := Item(now, |g.starts| - 1);
    WinKept(g.(tries := g.tries + [x]), l, now, x);
    assert CountOf(g.tries + [x], x.batch) <= Attempts(l);
  }

  lemma VerifyKeeps(s: Slot, g: Ledger, l: Limits, code: Code, clock: nat, now: nat)
    requires Kept(s, g, l, clock) && clock <= now
    ensures Together(s, now)
    ensures Compares(s, l, now) && s.code.value.value == code ==> Accepted(Noted(g, s, l, code, now), l, code, now)
    ensures Kept(Verified(s, l, code, now), Noted(g, s, l, code, now), l, now)
  {
    LaterKept(s, g, l, clock, now);
    if Compares(s, l, now) {
      if s.code.value.value == code { WinKeeps(s, g, l, code, now); } else { MissKeeps(s, g, l, code, now); }
    }
  }

  /** The code is the latest issued, is alive, has not been accepted, and has attempts left. */
  ghost predicate Good(g: Ledger, l: Limits, code: Code, now: nat) {
    var n := |g.starts| - 1;
    && n >= 0 && |g.codes| == n + 1 && code == g.codes[n] && now < g.starts[n] + l.ttl
    && CountOf(g.wins, n) == 0 && CountOf(g.tries, n) < l.maxAttempts
  }

  /** The latest code can still be tried. */
  ghost predicate Open(g: Ledger, l: Limits, now: nat) {
    var n := |g.starts| - 1;
    && n >= 0 && now < g.starts[n] + l.ttl && CountOf(g.wins, n) == 0 && CountOf(g.tries, n) < l.maxAttempts
  }

  /** The ledger after a submission: one more try of the latest code if it could be tried, one more success
      if that was the code, and nothing else. */
  ghost predicate TriedOnce(g: Ledger, g': Ledger, l: Limits, ok: bool, now: nat) {
    var x := [Item(now, if g.starts == [] then 0 else |g.starts| - 1)];
    && g'.starts == g.starts && g'.codes == g.codes
    && g'.tries == (if Open(g, l, now) then g.tries + x else g.tries)
    && g'.wins == (if ok then g.wins + x else g.wins)
  }

  /** Exactly such a code is accepted, and every submission that could have been counts. */
  lemma AcceptIff(s: Slot, g: Ledger, l: Limits, code: Code, clock: nat, now: nat)
    requires Kept(s, g, l, clock) && clock <= now
    ensures Compares(s, l, now) && s.code.value.value == code <==> Good(g, l, code, now)
    ensures TriedOnce(g, Noted(g, s, l, code, now), l, Good(g, l, code, now), now)
  {
  }

  /** The Redis keys of all purposes and destinations. */
  datatype Db = Db(codes: map<Key, Entry<Code>>, attempts: map<Key, Entry<nat>>, resends: map<Key, Entry<()>>)

  function SlotAt(d: Db, k: Key): Slot {
    Slot(if k in d.codes then Some(d.codes[k]) else None,
         if k in d.attempts then Some(d.attempts[k]) else None,
         if k in d.resends then Some(d.resends[k]) else None)
  }

  function LedgerAt(ledgers: map<Key, Ledger>, k: Key): Ledger {
    if k in ledgers then ledgers[k] else Ledger([], [], [], [])
  }

  ghost predicate AllKept(d: Db, ledgers: map<Key, Ledger>, l: Limits, now: nat) {
    forall k: Key :: Kept(SlotAt(d, k), LedgerAt(ledgers, k), l, now)
  }

  /** Nothing but one key differs. */
  ghost predicate Only(k: Key, d: Db, d': Db) {
    forall j | j != k :: SlotAt(d', j) == SlotAt(d, j)
  }

  /** A change to one key that keeps that key keeps all. */
  lemma OneKeyChanged(k: Key, d: Db, d': Db, ledgers: map<Key, Ledger>, g: Ledger, l: Limits, clock: nat, now: nat)
    requires AllKept(d, ledgers, l, clock) && clock <= now
    requires Only(k, d, d') && Kept(SlotAt(d', k), g, l, now)
    ensures AllKept(d', ledgers[k := g], l, now)
  {
    forall j | j != k
      ensures Kept(SlotAt(d', j), LedgerAt(ledgers[k := g], j), l, now)
    {
      LaterKept(SlotAt(d, j), LedgerAt(ledgers, j), l, clock, now);
    }
  }

  lemma StillTogether(d: Db, ledgers: map<Key, Ledger>, l: Limits, k: Key, clock: nat, now: nat)
    requires AllKept(d, ledgers, l, clock) && clock <= now
    ensures Together(SlotAt(d, k), now)
  {
    LaterKept(SlotAt(d, k), LedgerAt(ledgers, k), l, clock, now);
  }

  /** What a submission does to its key: it succeeds exactly on a good code, the slot and the ledger record it,
      and a code that was accepted is the latest one, alive and accepted for the first time. */
  ghost predicate Submitted(s: Slot, s': Slot, g: Ledger, g': Ledger, l: Limits, code: Code, ok: bool, now: nat) {
    && Together(s, now) && (ok <==> Compares(s, l, now) && s.code.value.value == code)
    && s' == Verified(s, l, code, now) && g' == Noted(g, s, l, code, now)
    && (ok <==> Good(g, l, code, now)) && (ok ==> Accepted(g', l, code, now)) && TriedOnce(g, g', l, ok, now)
  }

  /** A submission under one key keeps all, is accepted exactly when the code is good, and is counted. */
  lemma SubmitKeeps(d: Db, d': Db, ledgers: map<Key, Ledger>, l: Limits, k: Key, code: Code, clock: nat, now: nat)
    requires AllKept(d, ledgers, l, clock) && clock <= now && Together(SlotAt(d, k), now) && Only(k, d, d')
    requires SlotAt(d', k) == Verified(SlotAt(d, k), l, code, now)
    ensures var s, g := SlotAt(d, k), LedgerAt(ledgers, k); var g' := Noted(g, s, l, code, now);
            && AllKept(d', ledgers[k := g'], l, now)
            && Submitted(s, SlotAt(d', k), g, g', l, code, Good(g, l, code, now), now)
  {
    var s, g := SlotAt(d, k), LedgerAt(ledgers, k);
    VerifyKeeps(s, g, l, code, clock, now);
    AcceptIff(s, g, l, code, clock, now);
    OneKeyChanged(k, d, d', ledgers, Noted(g, s, l, code, now), l, clock, now);
  }
}

/** The store of one-time codes. */
module Otp {
  import opened Redis
  import opened Spacing
  import opened OtpModel

  class OTPStore {
    const limits: Limits
    const bypassCode: Code
    var codes: map<Key, Entry<Code>>
    var attempts: map<Key, Entry<nat>>
    var resends: map<Key, Entry<()>>
    ghost var ledgers: map<Key, Ledger>
    ghost var clock: nat

    ghost function Data(): Db
      reads this
    {
      Db(codes, attempts, resends)
    }

    ghost function Of(k: Key): Ledger
      reads this
    {
      LedgerAt(ledgers, k)
    }

    ghost function SlotOf(k: Key): Slot
      reads this
    {
      SlotAt(Data(), k)
    }

    ghost predicate Valid()
      reads this
    {
      AllKept(Data(), ledgers, limits, clock)
    }

    constructor (limits: Limits, bypassCode: Code)
      ensures Valid() && this.limits == limits && this.bypassCode == bypassCode
      ensures clock == 0 && forall k :: Of(k) == Ledger([], [], [], [])
    {
      this.limits, this.bypassCode := limits, bypassCode;
      codes, attempts, resends, ledgers, clock := map[], map[], map[], map[], 0;
    }

    /** One transaction writes the code, a zero count and the resend gate. */
    method Store(k: Key, code: Code, now: nat)
      modifies this`codes, this`attempts, this`resends
      ensures SlotOf(k) == Issued(limits, code, now) && Only(k, old(Data()), Data())
    {
      codes := SetEx(codes, k, code, now, limits.ttl);
      attempts := SetEx(attempts, k, 0, now, limits.ttl);
      resends := SetEx(resends, k, (), now, limits.resendInterval);
    }

    method Issue(dest: string, code: Code, purpose: seq<Purpose>, now: nat)
      requires Valid() && clock <= now
      modifies this
      ensures Valid() && clock == now
      ensures var k := Key(ResolvePurpose(purpose), dest);
              && SlotOf(k) == Issued(limits, code, now) && Only(k, old(Data()), Data())
              && ledgers == old(ledgers)[k := Opened(old(Of(k)), code, now)]
    {
      var k := Key(ResolvePurpose(purpose), dest);
      ghost var g := Opened(Of(k), code, now);
      IssueKeeps(SlotOf(k), Of(k), limits, code, clock, now);
      Store(k, code, now);
      OneKeyChanged(k, old(Data()), Data(), ledgers, g, limits, clock, now);
      ledgers := ledgers[k := g];
      clock := now;
    }

    /** A code can be sent again exactly when none has been within the interval. */
    method CanResend(dest: string, purpose: seq<Purpose>, now: nat) returns (can: bool)
      requires Valid() && clock <= now
      ensures var g := Of(Key(ResolvePurpose(purpose), dest));
              can <==> (g.starts != [] ==> now >= g.starts[|g.starts| - 1] + limits.resendInterval)
    {
      var k := Key(ResolvePurpose(purpose), dest);
      assert Kept(SlotOf(k), Of(k), limits, clock);
      can := !Live(resends, k, now);
    }

    /** Accepts exactly the latest code of this purpose and destination, while it lives, has not
        succeeded before and has attempts left; every comparison is counted. */
    method Verify(dest: string, code: Code, purpose: seq<Purpose>, now: nat) returns (ok: bool)
      requires Valid() && clock <= now && bypassCode == ""
      modifies this
      ensures Valid() && clock == now
      ensures var k := Key(ResolvePurpose(purpose), dest);
              && Submitted(old(SlotOf(k)), SlotOf(k), old(Of(k)), Of(k), limits, code, ok, now)
              && Only(k, old(Data()), Data()) && ledgers == old(ledgers)[k := Of(k)] && resends == old(resends)
    {
      var k := Key(ResolvePurpose(purpose), dest);
      ghost var d, was := Data(), ledgers;
      StillTogether(d, was, limits, k, clock, now);
      ok := CompareAndCount(k, code, now);
      SubmitKeeps(d, Data(), was, limits, k, code, clock, now);
      ledgers := was[k := Noted(LedgerAt(was, k), SlotAt(d, k), limits, code, now)];
      clock := now;
    }

    method CompareAndCount(k: Key, code: Code, now: nat) returns (ok: bool)
      requires Together(SlotOf(k), now)
      modifies this`codes, this`attempts
      ensures SlotOf(k) == Verified(old(SlotOf(k)), limits, code, now) && Only(k, old(Data()), Data())
      ensures ok <==> Compares(old(SlotOf(k)), limits, now) && old(SlotOf(k)).code.value.value == code
    {
      var stored := Get(codes, k, now);
      if stored.None? { return false; }
      var n := Get(attempts, k, now);
      var tried := if n.Some? then n.value else 0;
      if tried >= limits.maxAttempts { return false; }
      if stored.value == code {
        codes, attempts := Redis.Del(codes, k), Redis.Del(attempts, k);
        return true;
      }
      attempts := attempts[k := Entry(tried + 1, attempts[k].expiry)];
      if tried + 1 >= limits.maxAttempts {
        codes := Redis.Del(codes, k);
      }
      return false;
    }

    /** Each code is compared at most maxAttempts times and accepted at most once. */
    lemma EachCodeIsLimited(k: Key, issue: nat)
      requires Valid()
      ensures CountOf(Of(k).tries, issue) <= Attempts(limits) && CountOf(Of(k).wins, issue) <= 1
    {
      assert Kept(SlotOf(k), Of(k), limits, clock);
    }

    /** Codes issued at least the resend interval apart can be guessed at only so fast. */
    lemma GuessBound(k: Key, from: nat, span: nat)
      requires Valid() && limits.resendInterval > 0 && Spaced(Of(k).starts, limits.resendInterval)
      ensures CountIn(Of(k).tries, from, from + span) <= Attempts(limits) * (span / limits.resendInterval + 2)
    {
      assert Kept(SlotOf(k), Of(k), limits, clock);
      CountBound(Of(k).starts, Of(k).tries, limits.resendInterval, Attempts(limits), from, span);
    }
  }
}
