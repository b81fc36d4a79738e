/** Fixed-window counters for failed sign-ins and for sent codes. */
module RateLimitModel {
  import opened Redis
  import opened Spacing
  import opened Texts

  datatype RateLimitConfig = RateLimitConfig(loginMaxFailures: int, loginLockWindow: nat, sendMax: int, sendWindow: nat)

  datatype FailureScope = Login | PasswordReset

  function ScopeName(s: FailureScope): string {
    match s
    case Login => "login"
    case PasswordReset => "pwreset"
  }

  function FailKey(scope: FailureScope, identifier: string, ip: string): string {
    "rl:" + ScopeName(scope) + ":" + identifier + ":" + ip
  }

  function SendQuotaKey(dest: string, ip: string): string {
    "rl:send:" + dest + ":" + ip
  }

  const SEND_PREFIX := "rl:send:"

  lemma SendKeysAreNotFailKeys(scope: FailureScope, identifier: string, ip: string)
    ensures !(SEND_PREFIX <= FailKey(scope, identifier, ip))
  {
    assert FailKey(scope, identifier, ip)[3] == ScopeName(scope)[0] != SEND_PREFIX[3];
  }

  /** The second pair moves a piece m, with its colon, from the address into the first part. */
  ghost predicate Shifted(a: string, x: string, b: string, y: string) {
    exists m: string :: b == a + ":" + m && x == m + ":" + y
  }

  /** Two pairs joined by a colon read alike exactly when they are the same pair or one is the
      other shifted. */
  lemma JoinedAlike(a: string, x: string, b: string, y: string)
    requires |a| <= |b|
    ensures a + ":" + x == b + ":" + y <==> (a == b && x == y) || Shifted(a, x, b, y)
  {
    var s, t := a + ":" + x, b + ":" + y;
    if s == t {
      assert a == s[..|a|] == t[..|a|] == b[..|a|];
      assert x == s[|a| + 1..] == t[|a| + 1..];
      if |a| == |b| {
        assert y == t[|b| + 1..];
      } else {
        assert b[|a|] == s[|a|] == ':';
        var m := b[|a| + 1..];
        assert b == a + ":" + m;
        assert x == m + ":" + y;
      }
    }
    if Shifted(a, x, b, y) {
      var m: string :| b == a + ":" + m && x == m + ":" + y;
      assert s == a + ":" + m + ":" + y == t;
    }
  }

  /** Exactly which pairs of destination and address share a counter. */
  lemma SendKeysCollideIff(dest: string, ip: string, dest': string, ip': string)
    ensures SendQuotaKey(dest, ip) == SendQuotaKey(dest', ip') <==>
              (dest == dest' && ip == ip') || Shifted(dest, ip, dest', ip') || Shifted(dest', ip', dest, ip)
  {
    var s, t := dest + ":" + ip, dest' + ":" + ip';
    assert SendQuotaKey(dest, ip) == SEND_PREFIX + s && SendQuotaKey(dest', ip') == SEND_PREFIX + t;
    SamePrefix(SEND_PREFIX, s, t);
    if |dest| <= |dest'| { JoinedAlike(dest, ip, dest', ip'); }
    if |dest'| <= |dest| { JoinedAlike(dest', ip', dest, ip); }
  }

  lemma ShiftNeedsAColon(a: string, x: string, b: string, y: string)
    requires Shifted(a, x, b, y)
    ensures ':' in b && ':' in x
  {
    var m: string :| b == a + ":" + m && x == m + ":" + y;
    assert b[|a|] == ':' && x[|m|] == ':';
  }

  /** Destinations without a colon, as mail addresses and telephone numbers are, never share a
      counter whatever the addresses; nor do addresses without one whatever the destinations. */
  lemma ColonFreeKeysDiffer(dest: string, ip: string, dest': string, ip': string)
    requires (':' !in dest && ':' !in dest') || (':' !in ip && ':' !in ip')
    ensures SendQuotaKey(dest, ip) == SendQuotaKey(dest', ip') <==> dest == dest' && ip == ip'
  {
    SendKeysCollideIff(dest, ip, dest', ip');
    if Shifted(dest, ip, dest', ip') { ShiftNeedsAColon(dest, ip, dest', ip'); }
    if Shifted(dest', ip', dest, ip) { ShiftNeedsAColon(dest', ip', dest, ip); }
  }

  /** With a colon in the destination and an IPv6 address two different pairs share a counter. */
  lemma SendKeysCanCollide()
    ensures SendQuotaKey("u", "2001:db8::1") == SendQuotaKey("u:2001", "db8::1")
  {
    assert "u:2001" == "u" + ":" + "2001" && "2001:db8::1" == "2001" + ":" + "db8::1";
    assert Shifted("u", "2001:db8::1", "u:2001", "db8::1");
    SendKeysCollideIff("u", "2001:db8::1", "u:2001", "db8::1");
  }

  /** The same for failures, whose scopes never mix. */
  lemma FailKeysCollideIff(scope: FailureScope, id: string, ip: string, scope': FailureScope, id': string, ip': string)
    ensures FailKey(scope, id, ip) == FailKey(scope', id', ip') <==>
              scope == scope'
              && ((id == id' && ip == ip') || Shifted(id, ip, id', ip') || Shifted(id', ip', id, ip))
  {
    assert FailKey(scope, id, ip)[3] == ScopeName(scope)[0] && FailKey(scope', id', ip')[3] == ScopeName(scope')[0];
    if scope == scope' {
      var p, s, t := "rl:" + ScopeName(scope) + ":", id + ":" + ip, id' + ":" + ip';
      assert FailKey(scope, id, ip) == p + s && FailKey(scope', id', ip') == p + t;
      SamePrefix(p, s, t);
      if |id| <= |id'| { JoinedAlike(id, ip, id', ip'); }
      if |id'| <= |id| { JoinedAlike(id', ip', id, ip); }
    }
  }

  /** The allowed sends of a counter key, each in the window that counted it. */
  datatype SendLog = SendLog(windows: seq<nat>, sends: seq<Item>)

  /** Never more than the quota in a window, and windows never overlap. */
  ghost predicate Sound(log: SendLog, cfg: RateLimitConfig, now: nat) {
    && Spaced(log.windows, cfg.sendWindow) && Batched(log.windows, log.sends) && AtMost(log.sends, Quota(cfg))
    && UpTo(log.sends, now) && (log.windows != [] ==> log.windows[|log.windows| - 1] <= now)
  }

  /** The counter is the running window's: it ends with it, and has counted every send in it. */
  ghost predicate Stands(counters: map<string, Entry<nat>>, k: string, log: SendLog, cfg: RateLimitConfig) {
    var n := |log.windows|;
    && (k in counters <==> n > 0)
    && (n > 0 ==>
          && counters[k].expiry == log.windows[n - 1] + cfg.sendWindow
          && CountOf(log.sends, n - 1) <= counters[k].value)
  }

  ghost predicate Kept(counters: map<string, Entry<nat>>, k: string, log: SendLog, cfg: RateLimitConfig, now: nat) {
    Sound(log, cfg, now) && Stands(counters, k, log, cfg)
  }

  function Quota(cfg: RateLimitConfig): nat { if cfg.sendMax < 0 then 0 else cfg.sendMax }

  /** INCR, and EXPIRE when it made the key. */
  function Bump(counters: map<string, Entry<nat>>, k: string, now: nat, window: nat): map<string, Entry<nat>> {
    if Live(counters, k, now) then counters[k := Entry(counters[k].value + 1, counters[k].expiry)]
    else counters[k := Entry(1, now + window)]
  }

  /** The log after a bump: a new window if none was running, a new send if within the quota. */
  function Logged(counters: map<string, Entry<nat>>, k: string, log: SendLog, cfg: RateLimitConfig, now: nat): SendLog
    requires Live(counters, k, now) ==> log.windows != []
  {
    var windows := if Live(counters, k, now) then log.windows else log.windows + [now];
    SendLog(windows,
            if Bump(counters, k, now, cfg.sendWindow)[k].value <= cfg.sendMax
            then log.sends + [Item(now, |windows| - 1)] else log.sends)
  }

  lemma WindowKept(log: SendLog, cfg: RateLimitConfig, clock: nat, now: nat)
    requires Sound(log, cfg, clock) && clock <= now
    requires log.windows != [] ==> log.windows[|log.windows| - 1] + cfg.sendWindow <= now
    ensures Sound(SendLog(log.windows + [now], log.sends), cfg, now) && CountOf(log.sends, |log.windows|) == 0
  {
    UpToLater(log.sends, clock, now);
    BatchAdded(log.windows, log.sends, now);
    SpacedAdded(log.windows, cfg.sendWindow, now);
  }

  lemma SendKept(log: SendLog, cfg: RateLimitConfig, now: nat)
    requires Sound(log, cfg, now) && log.windows != [] && CountOf(log.sends, |log.windows| - 1) < Quota(cfg)
    ensures var n := |log.windows| - 1; var more := log.sends + [Item(now, n)];
            Sound(SendLog(log.windows, more), cfg, now) && CountOf(more, n) == CountOf(log.sends, n) + 1
  {
    ItemAdded(log.windows, log.sends, Quota(cfg), Item(now, |log.windows| - 1));
    UpToAdded(log.sends, Item(now, |log.windows| - 1), now);
    CountOfAppend(log.sends, Item(now, |log.windows| - 1), |log.windows| - 1);
  }

  lemma LaterSound(log: SendLog, cfg: RateLimitConfig, clock: nat, now: nat)
    requires Sound(log, cfg, clock) && clock <= now
    ensures Sound(log, cfg, now)
  {
    UpToLater(log.sends, clock, now);
  }

  lemma BumpKeepsOpen(counters: map<string, Entry<nat>>, k: string, log: SendLog, cfg: RateLimitConfig, clock: nat,
                      now: nat)
    requires Kept(counters, k, log, cfg, clock) && clock <= now && Live(counters, k, now)
    ensures Kept(Bump(counters, k, now, cfg.sendWindow), k, Logged(counters, k, log, cfg, now), cfg, now)
  {
    LaterSound(log, cfg, clock, now);
    if counters[k].value + 1 <= cfg.sendMax {
      SendKept(log, cfg, now);
      assert Logged(counters, k, log, cfg, now) == SendLog(log.windows, log.sends + [Item(now, |log.windows| - 1)]);
    } else {
      assert Logged(counters, k, log, cfg, now) == log;
    }
  }

  lemma BumpKeepsNew(counters: map<string, Entry<nat>>, k: string, log: SendLog, cfg: RateLimitConfig, clock: nat,
                     now: nat)
    requires Kept(counters, k, log, cfg, clock) && clock <= now && !Live(counters, k, now)
    ensures Kept(Bump(counters, k, now, cfg.sendWindow), k, Logged(counters, k, log, cfg, now), cfg, now)
  {
    WindowKept(log, cfg, clock, now);
    var begun := SendLog(log.windows + [now], log.sends);
    if 1 <= cfg.sendMax {
      SendKept(begun, cfg, now);
      assert Logged(counters, k, log, cfg, now) == SendLog(begun.windows, log.sends + [Item(now, |log.windows|)]);
    } else {
      assert Logged(counters, k, log, cfg, now) == begun;
    }
  }

  lemma BumpKeeps(counters: map<string, Entry<nat>>, k: string, log: SendLog, cfg: RateLimitConfig, clock: nat,
                  now: nat)
    requires Kept(counters, k, log, cfg, clock) && clock <= now
    ensures Live(counters, k, now) ==> log.windows != []
    ensures Kept(Bump(counters, k, now, cfg.sendWindow), k, Logged(counters, k, log, cfg, now), cfg, now)
  {
    if Live(counters, k, now) {
      BumpKeepsOpen(counters, k, log, cfg, clock, now);
    } else {
      BumpKeepsNew(counters, k, log, cfg, clock, now);
    }
  }

  function LogOf(logs: map<string, SendLog>, k: string): SendLog {
    if k in logs then logs[k] else SendLog([], [])
  }

  ghost predicate AllKept(counters: map<string, Entry<nat>>, logs: map<string, SendLog>, cfg: RateLimitConfig,
                          now: nat)
  {
    forall k: string | SEND_PREFIX <= k :: Kept(counters, k, LogOf(logs, k), cfg, now)
  }

  lemma AllKeptBump(counters: map<string, Entry<nat>>, logs: map<string, SendLog>, cfg: RateLimitConfig, clock: nat,
                    k: string, now: nat)
    requires AllKept(counters, logs, cfg, clock) && clock <= now && SEND_PREFIX <= k
    ensures Live(counters, k, now) ==> LogOf(logs, k).windows != []
    ensures AllKept(Bump(counters, k, now, cfg.sendWindow), logs[k := Logged(counters, k, LogOf(logs, k), cfg, now)],
                    cfg, now)
  {
    assert Kept(counters, k, LogOf(logs, k), cfg, clock);
    BumpKeeps(counters, k, LogOf(logs, k), cfg, clock, now);
    var counters' := Bump(counters, k, now, cfg.sendWindow);
    var logs' := logs[k := Logged(counters, k, LogOf(logs, k), cfg, now)];
    forall j: string | SEND_PREFIX <= j && j != k
      ensures Kept(counters', j, LogOf(logs', j), cfg, now)
    {
      assert Kept(counters, j, LogOf(logs, j), cfg, clock);
      LaterSound(LogOf(logs, j), cfg, clock, now);
    }
  }

  /** Whatever happens to a counter of failures, those of sent codes stay as they were. */
  lemma AllKeptElsewhere(counters: map<string, Entry<nat>>, next: map<string, Entry<nat>>, logs: map<string, SendLog>,
                         cfg: RateLimitConfig, clock: nat, k: string)
    requires AllKept(counters, logs, cfg, clock) && !(SEND_PREFIX <= k)
    requires forall j: string | j != k :: (j in counters <==> j in next) && (j in next ==> counters[j] == next[j])
    ensures AllKept(next, logs, cfg, clock)
  {
    forall j: string | SEND_PREFIX <= j
      ensures Kept(next, j, LogOf(logs, j), cfg, clock)
    {
      assert Kept(counters, j, LogOf(logs, j), cfg, clock);
    }
  }

  lemma WindowBound(l: SendLog, window: nat, quota: nat, from: nat, span: nat)
    requires window > 0 && Spaced(l.windows, window) && Batched(l.windows, l.sends) && AtMost(l.sends, quota)
    ensures CountIn(l.sends, from, from + window - 1) <= 2 * quota
    ensures CountIn(l.sends, from, from + span) <= quota * (span / window + 2)
  {
    CountBound(l.windows, l.sends, window, quota, from, span);
    CountBound(l.windows, l.sends, window, quota, from, window - 1);
    ShortSpan(window);
  }

  lemma ShortSpan(window: nat)
    requires window > 0
    ensures (window - 1) / window == 0
  {
  }

}

/** The limiter's counters in Redis. */
module RateLimit {
  import opened Redis
  import opened Spacing
  import opened RateLimitModel

  class RateLimiter {
    const cfg: RateLimitConfig
    var counters: map<string, Entry<nat>>
    ghost var logs: map<string, SendLog>
    ghost var clock: nat

    ghost function Log(k: string): SendLog
      reads this
    {
      LogOf(logs, k)
    }

    /** Every counter of sent codes agrees with the log of what it has let through. */
    ghost predicate Valid()
      reads this
    {
      AllKept(counters, logs, cfg, clock)
    }

    constructor (cfg: RateLimitConfig)
      ensures Valid() && this.cfg == cfg && counters == map[] && clock == 0
    {
      this.cfg, counters, logs, clock := cfg, map[], map[], 0;
    }

    /** Counting a hit starts a window only when none is running; it never moves a running one. */
    method IncrWithWindow(k: string, window: nat, now: nat) returns (n: nat)
      modifies this`counters
      ensures counters == Bump(old(counters), k, now, window) && n == counters[k].value
      ensures Live(old(counters), k, now) ==> counters[k].expiry == old(counters)[k].expiry
      ensures var runs := k in old(counters) && now < old(counters)[k].expiry;
              && n == (if runs then old(counters)[k].value + 1 else 1)
              && counters == old(counters)[k := Entry(n, if runs then old(counters)[k].expiry else now + window)]
    {
      if Live(counters, k, now) {
        n := counters[k].value + 1;
        counters := counters[k := Entry(n, counters[k].expiry)];
      } else {
        n := 1;
        counters := counters[k := Entry(n, now + window)];
      }
    }

    method AllowSend(dest: string, ip: string, now: nat) returns (ok: bool)
      requires Valid() && clock <= now
      modifies this
      ensures Valid() && clock == now
      ensures var k := SendQuotaKey(dest, ip);
              && counters == Bump(old(counters), k, now, cfg.sendWindow)
              && (ok <==> counters[k].value <= cfg.sendMax)
              && Log(k).sends == (if ok then old(Log(k)).sends + [Item(now, |Log(k).windows| - 1)]
                                  else old(Log(k)).sends)
              && (forall j | j != k :: Log(j) == old(Log(j)))
      ensures var k := SendQuotaKey(dest, ip);
              Live(old(counters), k, now) ==> counters[k].expiry == old(counters)[k].expiry
      // Allowed exactly if, in the running window or a new one, this attempt is within the quota.
      ensures var k := SendQuotaKey(dest, ip);
              ok <==> (if k in old(counters) && now < old(counters)[k].expiry then old(counters)[k].value + 1 else 1)
                      <= cfg.sendMax
    {
      var k := SendQuotaKey(dest, ip);
      assert SEND_PREFIX <= k;
      AllKeptBump(counters, logs, cfg, clock, k, now);
      logs := logs[k := Logged(counters, k, LogOf(logs, k), cfg, now)];
      clock := now;
      var n := IncrWithWindow(k, cfg.sendWindow, now);
      ok := n <= cfg.sendMax;
    }

    /** In any half-open interval as long as the window, at most twice the quota goes out, and
        over longer spans proportionally. */
    lemma SlidingBound(dest: string, ip: string, from: nat, span: nat)
      requires Valid() && cfg.sendWindow > 0
      ensures var sends := Log(SendQuotaKey(dest, ip)).sends;
              && CountIn(sends, from, from + cfg.sendWindow - 1) <= 2 * Quota(cfg)
              && CountIn(sends, from, from + span) <= Quota(cfg) * (span / cfg.sendWindow + 2)
    {
      LogIsBatched(SendQuotaKey(dest, ip));
      WindowBound(Log(SendQuotaKey(dest, ip)), cfg.sendWindow, Quota(cfg), from, span);
    }

    lemma LogIsBatched(k: string)
      requires Valid() && SEND_PREFIX <= k
      ensures Spaced(Log(k).windows, cfg.sendWindow) && Batched(Log(k).windows, Log(k).sends)
      ensures AtMost(Log(k).sends, Quota(cfg))
    {
      assert Kept(counters, k, LogOf(logs, k), cfg, clock);
    }

    /** Failures counted in the running lock window. */
    function Failures(scope: FailureScope, identifier: string, ip: string, now: nat): nat
      reads this
    {
      var k := FailKey(scope, identifier, ip);
      if Live(counters, k, now) then counters[k].value else 0
    }

    method RecordFailure(scope: FailureScope, identifier: string, ip: string, now: nat)
      requires Valid() && clock <= now
      modifies this`counters
      ensures Valid() && clock == old(clock)
      ensures counters == Bump(old(counters), FailKey(scope, identifier, ip), now, cfg.loginLockWindow)
      ensures cfg.loginLockWindow > 0 ==>
                Failures(scope, identifier, ip, now) == old(Failures(scope, identifier, ip, now)) + 1
      // A failure while the window runs does not lengthen it.
      ensures var k := FailKey(scope, identifier, ip);
              counters[k].expiry
              == if Live(old(counters), k, now) then old(counters)[k].expiry else now + cfg.loginLockWindow
    {
      var k := FailKey(scope, identifier, ip);
      SendKeysAreNotFailKeys(scope, identifier, ip);
      var n := IncrWithWindow(k, cfg.loginLockWindow, now);
      AllKeptElsewhere(old(counters), counters, logs, cfg, clock, k);
    }

    method IsLocked(scope: FailureScope, identifier: string, ip: string, now: nat) returns (locked: bool)
      ensures locked <==> Live(counters, FailKey(scope, identifier, ip), now)
                          && Failures(scope, identifier, ip, now) >= cfg.loginMaxFailures
      ensures var k := FailKey(scope, identifier, ip);
              locked <==> k in counters && now < counters[k].expiry && counters[k].value >= cfg.loginMaxFailures
    {
      var n := Get(counters, FailKey(scope, identifier, ip), now);
      return n.Some? && n.value >= cfg.loginMaxFailures;
    }

    method ResetFailures(scope: FailureScope, identifier: string, ip: string)
      requires Valid()
      modifies this`counters
      ensures Valid() && counters == Redis.Del(old(counters), FailKey(scope, identifier, ip))
      ensures forall now :: Failures(scope, identifier, ip, now) == 0
    {
      var k := FailKey(scope, identifier, ip);
      SendKeysAreNotFailKeys(scope, identifier, ip);
      counters := Redis.Del(counters, k);
      AllKeptElsewhere(old(counters), counters, logs, cfg, clock, k);
    }
  }
}
