/** The chat endpoint: gates in order, then forwarding, then the charge. */
module LLMHandler {
  import opened Redis
  import opened Decimal
  import opened MeteringModel
  import opened Metering

  datatype Subscription = Active | Inactive | Unknown

  /** What the client sends: the declared length, how many bytes really come, and whether the
      connection breaks before they all have. */
  datatype Body = Body(declared: int, length: nat, broken: bool, promptChars: int)

  datatype Upstream = Failed | Answered(status: nat, usage: Option<Usage>, completionChars: int)

  datatype Reply = Reply(status: nat, forwarded: bool)

  const OK: nat := 200
  const BAD_REQUEST: nat := 400
  const PAYMENT_REQUIRED: nat := 402
  const TOO_LARGE: nat := 413
  const TOO_MANY: nat := 429
  const BAD_GATEWAY: nat := 502

  /** The upstream's usage if it reported one, otherwise an estimate from the characters seen. */
  function Due(b: Body, usage: Option<Usage>, completionChars: int): Usage {
    if usage.Some? then usage.value else EstimateUsage(b.promptChars, completionChars)
  }

  /** A token for every four characters begun. */
  predicate Quarter(tokens: int, chars: int) {
    if chars <= 0 then tokens == 0 else 4 * (tokens - 1) < chars <= 4 * tokens
  }

  /** One charge of the price of the tokens rounded up, and at least one if there are any; none for nothing. */
  ghost predicate Charged(p: Pricing, prompt: int, completion: int, was: seq<Charge>, h: seq<Charge>, u: User,
                          at: nat, server: nat, nonce: string)
  {
    var cost := prompt as real * p.promptCreditPerToken + completion as real * p.completionCreditPerToken;
    if cost <= 0.0 && prompt <= 0 && completion <= 0 then h == was
    else
      && |h| == |was| + 1 && h[..|was|] == was
      && var c := h[|was|];
      && c == Charge(u, at, server, c.credits, nonce)
      && if cost <= 0.0 then c.credits == 1 else c.credits as real - 1.0 < cost <= c.credits as real
  }

  lemma ChargeIsDue(p: Pricing, usage: Usage, was: seq<Charge>, h: seq<Charge>, u: User, at: nat, server: nat,
                    nonce: string)
    requires var credits := CreditsFor(p, usage);
             h == if credits <= 0 then was else was + [Charge(u, at, server, credits, nonce)]
    ensures Charged(p, usage.promptTokens, usage.completionTokens, was, h, u, at, server, nonce)
  {
    CreditsCoverTheCost(p, usage);
  }

  /** The calls to the metering store that fail. */
  datatype Outage = Outage(precheck: bool, record: bool)

  /** Some tokens, those reported or else estimated from the characters, are what the history is charged. */
  ghost predicate Billed(p: Pricing, usage: Option<Usage>, promptChars: int, completionChars: int,
                         was: seq<Charge>, h: seq<Charge>, u: User, at: nat, server: nat, nonce: string)
  {
    exists prompt: int, completion: int ::
      && (if usage.Some? then usage.value == Usage(prompt, completion)
          else Quarter(prompt, promptChars) && Quarter(completion, completionChars))
      && Charged(p, prompt, completion, was, h, u, at, server, nonce)
  }

  /** After the answer: the reported usage is charged, or else the estimate. */
  method RecordUsage(meter: MeteringService, u: User, b: Body, usage: Option<Usage>, completionChars: int,
                     nonce: string, now: nat, server: nat)
    requires meter.Valid() && meter.Later(now, server) && now >= 1000
    requires CreditsFor(meter.pricing, Due(b, usage, completionChars)) <= MAX_INT64
    requires forall i | 0 <= i < |meter.history| :: meter.history[i].nonce != nonce
    modifies meter
    ensures meter.Valid()
    ensures var credits := CreditsFor(meter.pricing, Due(b, usage, completionChars));
            meter.history == if credits <= 0 then old(meter.history)
                             else old(meter.history) + [Charge(u, now, server, credits, nonce)]
    ensures Billed(meter.pricing, usage, b.promptChars, completionChars, old(meter.history), meter.history, u, now,
                   server, nonce)
    ensures usage.None? && (b.promptChars > 0 || completionChars > 0) ==> |meter.history| == |old(meter.history)| + 1
  {
    var due := Due(b, usage, completionChars);
    CreditsCoverTheCost(meter.pricing, due);
    EstimateIsCeiling(b.promptChars);
    EstimateIsCeiling(completionChars);
    meter.Record(u, due, nonce, now, server);
    ChargeIsDue(meter.pricing, due, old(meter.history), meter.history, u, now, server, nonce);
    assert usage.Some? ==> usage.value == Usage(due.promptTokens, due.completionTokens);
  }

  method ChatCompletions(meter: MeteringService, maxBytes: nat, u: User, sub: Subscription, b: Body, upstream: Upstream,
                         outage: Outage, nonce: string, now: nat, server: nat, later: nat, serverLater: nat)
    returns (r: Reply)
    requires meter.Valid() && meter.Later(now, server)
    requires now <= later && server <= serverLater && Drift(later, serverLater, meter.skew) && now >= 1000
    requires forall w | w in meter.windows :: Unix(now) + w.size / 1000 <= MAX_INT64
    requires forall i | 0 <= i < |meter.history| :: meter.history[i].nonce != nonce
    requires upstream.Answered? ==>
               CreditsFor(meter.pricing, Due(b, upstream.usage, upstream.completionChars)) <= MAX_INT64
    modifies meter
    ensures meter.Valid()
    // A request is forwarded exactly when every gate lets it through; an unreadable meter lets it through.
    ensures r.forwarded <==>
              && sub.Active? && b.declared <= maxBytes && b.length <= maxBytes && !b.broken
              && (outage.precheck || !SomeFull(meter.windows, old(meter.history), u, now))
    // An earlier gate decides before a later one is looked at.
    ensures sub.Unknown? ==> r.status == 502
    ensures sub.Inactive? ==> r.status == 402
    ensures sub.Active? && (b.declared > maxBytes || b.length > maxBytes) ==> r.status == 413
    ensures sub.Active? && b.declared <= maxBytes && b.length <= maxBytes && b.broken ==> r.status == 400
    ensures sub.Active? && b.declared <= maxBytes && b.length <= maxBytes && !b.broken && !r.forwarded ==>
              r.status == 429
    ensures r.forwarded ==> r.status == if upstream.Failed? then 502 else upstream.status
    // Only an answer of 200 is charged for, once, and any token or character costs something.
    ensures !(r.forwarded && upstream.Answered? && upstream.status == 200) || outage.record ==>
              meter.history == old(meter.history)
    ensures r.forwarded && upstream.Answered? && upstream.status == 200 && !outage.record ==>
              var credits := CreditsFor(meter.pricing, Due(b, upstream.usage, upstream.completionChars));
              meter.history == if credits <= 0 then old(meter.history)
                               else old(meter.history) + [Charge(u, later, serverLater, credits, nonce)]
    ensures r.forwarded && upstream.Answered? && upstream.status == 200 && !outage.record
            && upstream.usage.None? && (b.promptChars > 0 || upstream.completionChars > 0) ==>
              |meter.history| == |old(meter.history)| + 1
    // What is charged is the cost, rounded up, of the tokens the upstream reported, or else of a token for
    // every four characters of the prompt and of the answer; tokens that would cost nothing cost one.
    ensures r.forwarded && upstream.Answered? && upstream.status == 200 && !outage.record ==>
              Billed(meter.pricing, upstream.usage, b.promptChars, upstream.completionChars, old(meter.history),
                     meter.history, u, later, serverLater, nonce)
  {
    if sub.Unknown? { return Reply(BAD_GATEWAY, false); }
    if sub.Inactive? { return Reply(PAYMENT_REQUIRED, false); }
    if b.declared > maxBytes { return Reply(TOO_LARGE, false); }
    if b.length > maxBytes { return Reply(TOO_LARGE, false); }
    if b.broken { return Reply(BAD_REQUEST, false); }
    if !outage.precheck {
      var pre := meter.Precheck(u, now, server);
      if pre.exceeded { return Reply(TOO_MANY, false); }
    }
    if upstream.Failed? { return Reply(BAD_GATEWAY, true); }
    if upstream.status != OK { return Reply(upstream.status, true); }
    if !outage.record {
      RecordUsage(meter, u, b, upstream.usage, upstream.completionChars, nonce, later, serverLater);
    }
    return Reply(OK, true);
  }
}
