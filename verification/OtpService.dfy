/** Sending a code: channel, resend interval, quota, then issue and hand to the channel. */
module OtpService {
  import opened Spacing
  import opened RateLimit
  import opened RateLimitModel
  import opened OtpModel
  import Otp

  datatype Outcome = Sent | UnknownChannel | ResendTooSoon | SendRateLimited | SendFailed

  class OTPService {
    const otp: Otp.OTPStore
    const limiter: RateLimiter
    /** Each configured channel's name. */
    const senders: set<string>

    /** Codes are issued only here, so under every key they are a resend interval apart. */
    ghost predicate Valid()
      reads otp, limiter
    {
      && otp.Valid() && limiter.Valid()
      && forall k: Key :: Spaced(LedgerAt(otp.ledgers, k).starts, otp.limits.resendInterval)
    }

    constructor (otp: Otp.OTPStore, limiter: RateLimiter, senders: set<string>)
      requires otp.Valid() && limiter.Valid() && otp.ledgers == map[]
      ensures Valid() && this.otp == otp && this.limiter == limiter && this.senders == senders
    {
      this.otp, this.limiter, this.senders := otp, limiter, senders;
    }

    method IssueSpaced(dest: string, code: Code, purpose: seq<Purpose>, now: nat)
      requires Valid() && otp.clock <= now
      requires var g := otp.Of(Key(ResolvePurpose(purpose), dest));
               g.starts != [] ==> now >= g.starts[|g.starts| - 1] + otp.limits.resendInterval
      modifies otp
      ensures Valid()
      ensures var k := Key(ResolvePurpose(purpose), dest);
              && otp.SlotOf(k) == Issued(otp.limits, code, now)
              && otp.ledgers == old(otp.ledgers)[k := Opened(old(otp.Of(k)), code, now)]
    {
      SpacedAdded(otp.Of(Key(ResolvePurpose(purpose), dest)).starts, otp.limits.resendInterval, now);
      otp.Issue(dest, code, purpose, now);
    }

    /** A sign-in or a password reset checks a code.  Nothing is issued by it: every code handed
        out and every resend gate stays as it was, under every key. */
    method CheckCode(dest: string, code: Code, purpose: seq<Purpose>, now: nat) returns (ok: bool)
      requires Valid() && otp.clock <= now && otp.bypassCode == ""
      modifies otp
      ensures Valid() && otp.resends == old(otp.resends)
      ensures forall k: Key :: var g, was := LedgerAt(otp.ledgers, k), LedgerAt(old(otp.ledgers), k);
                g.starts == was.starts && g.codes == was.codes
      ensures ok ==> Accepted(otp.Of(Key(ResolvePurpose(purpose), dest)), otp.limits, code, now)
      // Accepted is exactly the code issued last, within its lifetime, not accepted before, and after fewer
      // than the allowed attempts at it.
      ensures ok <==> Good(old(otp.Of(Key(ResolvePurpose(purpose), dest))), otp.limits, code, now)
      // Every submission while the code can be tried is counted, right or wrong.
      ensures var k := Key(ResolvePurpose(purpose), dest); TriedOnce(old(otp.Of(k)), otp.Of(k), otp.limits, ok, now)
    {
      ok := otp.Verify(dest, code, purpose, now);
    }

    /** The gates in order: a request stopped by the resend interval costs no quota, one stopped by
        the quota issues nothing, and one that passes both has issued its code even if handing it
        to the channel then fails. */
    method SendCode(channel: string, dest: string, ip: string, purpose: seq<Purpose>, code: Code, delivered: bool,
                    now: nat)
      returns (r: Outcome)
      requires Valid() && otp.clock <= now && limiter.clock <= now
      modifies otp, limiter
      ensures Valid()
      ensures r == UnknownChannel <==> channel !in senders
      ensures r == ResendTooSoon <==>
                channel in senders
                && var g := old(otp.Of(Key(ResolvePurpose(purpose), dest)));
                   g.starts != [] && now < g.starts[|g.starts| - 1] + otp.limits.resendInterval
      ensures r == UnknownChannel || r == ResendTooSoon ==>
                limiter.counters == old(limiter.counters) && limiter.logs == old(limiter.logs)
      ensures r != UnknownChannel && r != ResendTooSoon ==>
                var k := SendQuotaKey(dest, ip);
                && limiter.counters == Bump(old(limiter.counters), k, now, limiter.cfg.sendWindow)
                && (r == SendRateLimited <==> limiter.counters[k].value > limiter.cfg.sendMax)
      ensures r == SendRateLimited <==>
                && r != UnknownChannel && r != ResendTooSoon
                && var k := SendQuotaKey(dest, ip);
                   (if k in old(limiter.counters) && now < old(limiter.counters)[k].expiry
                    then old(limiter.counters)[k].value + 1 else 1) > limiter.cfg.sendMax
      ensures r == Sent || r == SendFailed ==>
                && (r == Sent <==> delivered)
                && var k := Key(ResolvePurpose(purpose), dest);
                   && otp.SlotOf(k) == Issued(otp.limits, code, now)
                   && otp.ledgers == old(otp.ledgers)[k := Opened(old(otp.Of(k)), code, now)]
      ensures r != Sent && r != SendFailed ==> otp.Data() == old(otp.Data()) && otp.ledgers == old(otp.ledgers)
    {
      if channel !in senders { return UnknownChannel; }
      var can := otp.CanResend(dest, purpose, now);
      if !can { return ResendTooSoon; }
      var allowed := limiter.AllowSend(dest, ip, now);
      if !allowed { return SendRateLimited; }
      IssueSpaced(dest, code, purpose, now);
      return if delivered then Sent else SendFailed;
    }

    /** However codes are requested and guessed, no destination's codes of one purpose can be
        guessed at faster than this. */
    lemma GuessBound(purpose: Purpose, dest: string, from: nat, span: nat)
      requires Valid() && otp.limits.resendInterval > 0
      ensures CountIn(otp.Of(Key(purpose, dest)).tries, from, from + span)
           <= Attempts(otp.limits) * (span / otp.limits.resendInterval + 2)
    {
      otp.GuessBound(Key(purpose, dest), from, span);
    }
  }
}
