/** The authorization-code grant: the requests kept for the login page, the one-time codes
    and the checks made when a code is exchanged (RFC 6749 sections 4.1.1 to 4.1.3, RFC
    7636 section 4.6).
  */
module CodeFlow {
  type Id = nat

  /** A code_challenge: the S256 transform is taken to be injective, and any other string
      matches no verifier. */
  datatype Challenge = S256(verifier: string) | Opaque(text: string)

  datatype AuthzRequest = AuthzRequest(origState: string, challenge: Challenge, redirect: string)

  datatype GWCode = GWCode(challenge: Challenge, user: Id, redirect: string)

  /** Lifetimes in milliseconds. */
  datatype Config = Config(authzTTL: nat, codeTTL: nat)

  predicate VerifyS256(verifier: string, challenge: Challenge) {
    verifier != "" && challenge == S256(verifier)
  }

  /** The two checks of the token endpoint on a consumed code. */
  predicate CodeMatches(gw: GWCode, verifier: string, redirect: string) {
    gw.redirect == redirect && VerifyS256(verifier, gw.challenge)
  }
}

/** Store operations interleaved: any number of authorize requests, login submissions and
    code exchanges at once, each Redis command and each transaction one step. */
module CodeFlowMachine {
  import opened CodeFlow
  import opened Redis

  datatype Login =
    | Submitted(lk: Id, user: Id)
    | Taken(lk: Id, user: Id, req: AuthzRequest, takenAt: nat)
    | Issued(lk: Id, user: Id, req: AuthzRequest, takenAt: nat, code: Id, issuedAt: nat)
    | Refused

  datatype Exchange =
    | Presented(code: Id, verifier: string, redirect: string)
    | Consumed(code: Id, verifier: string, redirect: string, gw: GWCode, at: nat)
    | Created(code: Id, verifier: string, redirect: string, gw: GWCode, at: nat, device: Id)
    | Rejected

  datatype Asked = Asked(req: AuthzRequest, at: nat)

  /** asked, minted and born record each authorize request, the login call behind each code
      and the exchange behind each device; no step reads them. */
  datatype Sys = Sys(
    now: nat, ids: set<Id>,
    authz: map<Id, Entry<AuthzRequest>>,
    codes: map<Id, Entry<GWCode>>,
    devices: map<Id, Id>,
    logins: map<nat, Login>,
    exchanges: map<nat, Exchange>,
    asked: map<Id, Asked>, minted: map<Id, nat>, born: map<Id, nat>)

  datatype Action =
    | Tick(dt: nat)
    | Authorize(lk: Id, req: AuthzRequest)
    | Submit(t: nat, lk: Id, user: Id)
    | Take(t: nat)
    | Issue(t: nat, code: Id)
    | RefuseLogin(t: nat)
    | Present(t: nat, code: Id, verifier: string, redirect: string)
    | Consume(t: nat)
    | Create(t: nat, device: Id)
    | RejectExchange(t: nat)

  predicate Init(s: Sys) {
    && s.ids == {} && s.authz == map[] && s.codes == map[] && s.devices == map[]
    && s.logins == map[] && s.exchanges == map[] && s.asked == map[] && s.minted == map[] && s.born == map[]
  }

  predicate Enabled(s: Sys, a: Action) {
    match a
    case Tick(_) => true
    case Authorize(lk, req) => lk !in s.ids && req.challenge != Opaque("") && req.origState != ""
    case Submit(t, lk, _) => t !in s.logins && Live(s.authz, lk, s.now)
    case Take(t) => t in s.logins && s.logins[t].Submitted?
    case Issue(t, code) => t in s.logins && s.logins[t].Taken? && code !in s.ids
    case RefuseLogin(t) => t in s.logins && !s.logins[t].Issued?
    case Present(t, _, _, _) => t !in s.exchanges
    case Consume(t) => t in s.exchanges && s.exchanges[t].Presented?
    case Create(t, device) =>
      && t in s.exchanges && s.exchanges[t].Consumed? && device !in s.ids
      && CodeMatches(s.exchanges[t].gw, s.exchanges[t].verifier, s.exchanges[t].redirect)
    case RejectExchange(t) => t in s.exchanges && !s.exchanges[t].Created?
  }

  /** Take: GETDEL, after the credentials have been verified. */
  function DoTake(s: Sys, t: nat): Sys
    requires t in s.logins && s.logins[t].Submitted?
  {
    var Submitted(lk, user) := s.logins[t];
    var live := Live(s.authz, lk, s.now);
    s.(authz := if live then Del(s.authz, lk) else s.authz,
       logins := s.logins[t := if live then Taken(lk, user, s.authz[lk].value, s.now) else Refused])
  }

  function DoIssue(cfg: Config, s: Sys, t: nat, code: Id): Sys
    requires t in s.logins && s.logins[t].Taken?
  {
    var Taken(lk, user, req, at) := s.logins[t];
    s.(ids := s.ids + {code},
       codes := SetEx(s.codes, code, GWCode(req.challenge, user, req.redirect), s.now, cfg.codeTTL),
       logins := s.logins[t := Issued(lk, user, req, at, code, s.now)],
       minted := s.minted[code := t])
  }

  /** Consume: GETDEL, before any check. */
  function DoConsume(s: Sys, t: nat): Sys
    requires t in s.exchanges && s.exchanges[t].Presented?
  {
    var Presented(code, verifier, redirect) := s.exchanges[t];
    var live := Live(s.codes, code, s.now);
    s.(codes := if live then Del(s.codes, code) else s.codes,
       exchanges := s.exchanges[t :=
         if live then Consumed(code, verifier, redirect, s.codes[code].value, s.now) else Rejected])
  }

  function DoCreate(s: Sys, t: nat, device: Id): Sys
    requires t in s.exchanges && s.exchanges[t].Consumed?
  {
    var Consumed(code, verifier, redirect, gw, at) := s.exchanges[t];
    s.(ids := s.ids + {device}, devices := s.devices[device := gw.user], born := s.born[device := t],
       exchanges := s.exchanges[t := Created(code, verifier, redirect, gw, at, device)])
  }

  function Next(cfg: Config, s: Sys, a: Action): Sys
    requires Enabled(s, a)
  {
    match a
    case Tick(dt) => s.(now := s.now + dt)
    case Authorize(lk, req) =>
      s.(ids := s.ids + {lk}, authz := SetEx(s.authz, lk, req, s.now, cfg.authzTTL),
         asked := s.asked[lk := Asked(req, s.now)])
    case Submit(t, lk, user) => s.(logins := s.logins[t := Submitted(lk, user)])
    case Take(t) => DoTake(s, t)
    case Issue(t, code) => DoIssue(cfg, s, t, code)
    case RefuseLogin(t) => s.(logins := s.logins[t := Refused])
    case Present(t, code, verifier, redirect) =>
      s.(exchanges := s.exchanges[t := Presented(code, verifier, redirect)])
    case Consume(t) => DoConsume(s, t)
    case Create(t, device) => DoCreate(s, t, device)
    case RejectExchange(t) => s.(exchanges := s.exchanges[t := Rejected])
  }

  predicate Run(cfg: Config, states: seq<Sys>, acts: seq<Action>) {
    && |states| == |acts| + 1
    && Init(states[0])
    && forall i | 0 <= i < |acts| :: Enabled(states[i], acts[i]) && states[i + 1] == Next(cfg, states[i], acts[i])
  }

  // ---- invariants ----

  predicate Took(l: Login) { l.Taken? || l.Issued? }

  predicate Ate(e: Exchange) { e.Consumed? || e.Created? }

  ghost predicate AuthzInv(cfg: Config, s: Sys) {
    && (forall lk | lk in s.asked :: lk in s.ids && s.asked[lk].at <= s.now)
    && (forall lk | lk in s.authz ::
          lk in s.asked && s.authz[lk] == Entry(s.asked[lk].req, s.asked[lk].at + cfg.authzTTL))
  }

  predicate TookOnce(cfg: Config, s: Sys, l: Login)
    requires Took(l)
  {
    && l.lk in s.asked && l.lk !in s.authz && l.req == s.asked[l.lk].req
    && s.asked[l.lk].at <= l.takenAt < s.asked[l.lk].at + cfg.authzTTL
  }

  /** The request a login call took was saved once, is gone, and was taken inside its TTL. */
  ghost predicate TakenInv(cfg: Config, s: Sys) {
    && (forall t | t in s.logins && Took(s.logins[t]) :: TookOnce(cfg, s, s.logins[t]))
    && (forall t, u | t in s.logins && u in s.logins && Took(s.logins[t]) && Took(s.logins[u]) ::
          s.logins[t].lk == s.logins[u].lk ==> t == u)
  }

  predicate MintedBy(s: Sys, code: Id, t: nat) {
    t in s.logins && s.logins[t].Issued? && s.logins[t].code == code
  }

  function CodeOf(l: Login): GWCode
    requires l.Issued?
  {
    GWCode(l.req.challenge, l.user, l.req.redirect)
  }

  ghost predicate CodeInv(cfg: Config, s: Sys) {
    && (forall c | c in s.minted ::
          c in s.ids && MintedBy(s, c, s.minted[c]) && s.logins[s.minted[c]].issuedAt <= s.now)
    && (forall t | t in s.logins && s.logins[t].Issued? ::
          s.logins[t].code in s.minted && s.minted[s.logins[t].code] == t)
    && (forall c | c in s.codes ::
          c in s.minted
          && s.codes[c] == Entry(CodeOf(s.logins[s.minted[c]]), s.logins[s.minted[c]].issuedAt + cfg.codeTTL))
  }

  predicate AteOnce(cfg: Config, s: Sys, e: Exchange)
    requires Ate(e)
  {
    && e.code in s.minted && e.code !in s.codes && MintedBy(s, e.code, s.minted[e.code])
    && var l := s.logins[s.minted[e.code]];
    e.gw == CodeOf(l) && l.issuedAt <= e.at < l.issuedAt + cfg.codeTTL
  }

  ghost predicate ConsumedInv(cfg: Config, s: Sys) {
    && (forall t | t in s.exchanges && Ate(s.exchanges[t]) :: AteOnce(cfg, s, s.exchanges[t]))
    && (forall t, u | t in s.exchanges && u in s.exchanges && Ate(s.exchanges[t]) && Ate(s.exchanges[u]) ::
          s.exchanges[t].code == s.exchanges[u].code ==> t == u)
  }

  predicate BornBy(s: Sys, d: Id, t: nat) {
    && t in s.exchanges && s.exchanges[t].Created? && s.exchanges[t].device == d
    && CodeMatches(s.exchanges[t].gw, s.exchanges[t].verifier, s.exchanges[t].redirect)
  }

  ghost predicate DeviceInv(s: Sys) {
    forall d | d in s.devices ::
      d in s.ids && d in s.born && BornBy(s, d, s.born[d]) && s.devices[d] == s.exchanges[s.born[d]].gw.user
  }

  ghost predicate Inv(cfg: Config, s: Sys) {
    AuthzInv(cfg, s) && TakenInv(cfg, s) && CodeInv(cfg, s) && ConsumedInv(cfg, s) && DeviceInv(s)
  }

  /** Which action touches which table. */
  lemma Frame(cfg: Config, s: Sys, a: Action)
    requires Enabled(s, a)
    ensures var s' := Next(cfg, s, a);
            && s.now <= s'.now && s.ids <= s'.ids
            && (!a.Authorize? ==> s'.asked == s.asked)
            && (!a.Authorize? && !a.Take? ==> s'.authz == s.authz)
            && (!a.Issue? ==> s'.minted == s.minted)
            && (!a.Issue? && !a.Consume? ==> s'.codes == s.codes)
            && (!a.Create? ==> s'.devices == s.devices && s'.born == s.born)
  {
  }

  lemma FrameLogins(cfg: Config, s: Sys, a: Action, t: nat)
    requires Enabled(s, a) && t in Next(cfg, s, a).logins && Took(Next(cfg, s, a).logins[t])
    ensures t in s.logins && s.logins[t].lk == Next(cfg, s, a).logins[t].lk
    ensures s.logins[t] == Next(cfg, s, a).logins[t]
            || (a == Take(t) && Live(s.authz, s.logins[t].lk, s.now)
                && s.authz[s.logins[t].lk].value == Next(cfg, s, a).logins[t].req
                && Next(cfg, s, a).logins[t].takenAt == s.now)
            || (a.Issue? && a.t == t && Next(cfg, s, a).logins[t] ==
                Issued(s.logins[t].lk, s.logins[t].user, s.logins[t].req, s.logins[t].takenAt, a.code, s.now))
  {
  }

  /** A login that has issued its code stays as it is. */
  lemma IssuedStays(cfg: Config, s: Sys, a: Action, t: nat)
    requires Enabled(s, a) && t in s.logins && s.logins[t].Issued?
    ensures t in Next(cfg, s, a).logins && Next(cfg, s, a).logins[t] == s.logins[t]
  {
  }

  lemma FrameExchanges(cfg: Config, s: Sys, a: Action, t: nat)
    requires Enabled(s, a) && t in Next(cfg, s, a).exchanges && Ate(Next(cfg, s, a).exchanges[t])
    ensures t in s.exchanges && s.exchanges[t].code == Next(cfg, s, a).exchanges[t].code
    ensures var e, e' := s.exchanges[t], Next(cfg, s, a).exchanges[t];
            || (Ate(e) && e'.gw == e.gw && e'.at == e.at)
            || (a == Consume(t) && Live(s.codes, e.code, s.now) && s.codes[e.code].value == e'.gw && e'.at == s.now)
  {
  }

  lemma CreatedStays(cfg: Config, s: Sys, a: Action, t: nat)
    requires Enabled(s, a) && t in s.exchanges && s.exchanges[t].Created?
    ensures t in Next(cfg, s, a).exchanges && Next(cfg, s, a).exchanges[t] == s.exchanges[t]
  {
  }

  lemma AuthzStep(cfg: Config, s: Sys, a: Action)
    requires AuthzInv(cfg, s) && Enabled(s, a)
    ensures AuthzInv(cfg, Next(cfg, s, a))
  {
    Frame(cfg, s, a);
    if a.Take? { TakeDeletes(cfg, s, a.t); }
  }

  lemma TakeDeletes(cfg: Config, s: Sys, t: nat)
    requires Enabled(s, Take(t))
    ensures forall lk | lk in Next(cfg, s, Take(t)).authz ::
              lk in s.authz && Next(cfg, s, Take(t)).authz[lk] == s.authz[lk]
    ensures Live(s.authz, s.logins[t].lk, s.now) ==> s.logins[t].lk !in Next(cfg, s, Take(t)).authz
  {
  }

  lemma TakenOne(cfg: Config, s: Sys, a: Action, t: nat)
    requires AuthzInv(cfg, s) && TakenInv(cfg, s) && Enabled(s, a)
    requires t in Next(cfg, s, a).logins && Took(Next(cfg, s, a).logins[t])
    ensures TookOnce(cfg, Next(cfg, s, a), Next(cfg, s, a).logins[t])
  {
    Frame(cfg, s, a);
    FrameLogins(cfg, s, a, t);
    if a.Take? { TakeDeletes(cfg, s, a.t); }
  }

  lemma TakenTwo(cfg: Config, s: Sys, a: Action, t: nat, u: nat)
    requires AuthzInv(cfg, s) && TakenInv(cfg, s) && Enabled(s, a)
    requires t in Next(cfg, s, a).logins && Took(Next(cfg, s, a).logins[t])
    requires u in Next(cfg, s, a).logins && Took(Next(cfg, s, a).logins[u])
    requires Next(cfg, s, a).logins[t].lk == Next(cfg, s, a).logins[u].lk
    ensures t == u
  {
    FrameLogins(cfg, s, a, t);
    FrameLogins(cfg, s, a, u);
    assert forall v | v in s.logins && Took(s.logins[v]) :: TookOnce(cfg, s, s.logins[v]);
  }

  lemma TakenStep(cfg: Config, s: Sys, a: Action)
    requires AuthzInv(cfg, s) && TakenInv(cfg, s) && Enabled(s, a)
    ensures TakenInv(cfg, Next(cfg, s, a))
  {
    var s' := Next(cfg, s, a);
    forall t | t in s'.logins && Took(s'.logins[t]) ensures TookOnce(cfg, s', s'.logins[t]) {
      TakenOne(cfg, s, a, t);
    }
    forall t, u | t in s'.logins && u in s'.logins && Took(s'.logins[t]) && Took(s'.logins[u])
                  && s'.logins[t].lk == s'.logins[u].lk
      ensures t == u
    {
      TakenTwo(cfg, s, a, t, u);
    }
  }

  lemma ConsumeDeletes(cfg: Config, s: Sys, t: nat)
    requires Enabled(s, Consume(t))
    ensures forall c | c in Next(cfg, s, Consume(t)).codes ::
              c in s.codes && Next(cfg, s, Consume(t)).codes[c] == s.codes[c]
    ensures Live(s.codes, s.exchanges[t].code, s.now) ==> s.exchanges[t].code !in Next(cfg, s, Consume(t)).codes
  {
  }

  lemma MintedStays(cfg: Config, s: Sys, a: Action, c: Id)
    requires CodeInv(cfg, s) && Enabled(s, a) && c in s.minted
    ensures var s' := Next(cfg, s, a);
            c in s'.minted && s'.minted[c] == s.minted[c] && MintedBy(s', c, s'.minted[c])
            && s'.logins[s.minted[c]] == s.logins[s.minted[c]]
  {
    assert MintedBy(s, c, s.minted[c]);
    IssuedStays(cfg, s, a, s.minted[c]);
    Frame(cfg, s, a);
  }

  lemma CodeIssue(cfg: Config, s: Sys, t: nat, code: Id)
    requires CodeInv(cfg, s) && Enabled(s, Issue(t, code))
    ensures CodeInv(cfg, Next(cfg, s, Issue(t, code)))
  {
    forall c | c in s.minted { MintedStays(cfg, s, Issue(t, code), c); }
  }

  lemma CodeQuiet(cfg: Config, s: Sys, a: Action)
    requires CodeInv(cfg, s) && Enabled(s, a) && !a.Issue?
    ensures CodeInv(cfg, Next(cfg, s, a))
  {
    var s' := Next(cfg, s, a);
    Frame(cfg, s, a);
    forall c | c in s.minted { MintedStays(cfg, s, a, c); }
    forall t | t in s'.logins && s'.logins[t].Issued?
      ensures s'.logins[t].code in s'.minted && s'.minted[s'.logins[t].code] == t
    {
      FrameLogins(cfg, s, a, t);
    }
    if a.Consume? { ConsumeDeletes(cfg, s, a.t); }
  }

  lemma ConsumedOne(cfg: Config, s: Sys, a: Action, t: nat)
    requires CodeInv(cfg, s) && ConsumedInv(cfg, s) && Enabled(s, a)
    requires t in Next(cfg, s, a).exchanges && Ate(Next(cfg, s, a).exchanges[t])
    ensures AteOnce(cfg, Next(cfg, s, a), Next(cfg, s, a).exchanges[t])
  {
    Frame(cfg, s, a);
    FrameExchanges(cfg, s, a, t);
    if Ate(s.exchanges[t]) { assert AteOnce(cfg, s, s.exchanges[t]); }
    MintedStays(cfg, s, a, s.exchanges[t].code);
    if a.Consume? { ConsumeDeletes(cfg, s, a.t); }
  }

  lemma ConsumedTwo(cfg: Config, s: Sys, a: Action, t: nat, u: nat)
    requires CodeInv(cfg, s) && ConsumedInv(cfg, s) && Enabled(s, a)
    requires t in Next(cfg, s, a).exchanges && Ate(Next(cfg, s, a).exchanges[t])
    requires u in Next(cfg, s, a).exchanges && Ate(Next(cfg, s, a).exchanges[u])
    requires Next(cfg, s, a).exchanges[t].code == Next(cfg, s, a).exchanges[u].code
    ensures t == u
  {
    FrameExchanges(cfg, s, a, t);
    FrameExchanges(cfg, s, a, u);
    assert forall v | v in s.exchanges && Ate(s.exchanges[v]) :: AteOnce(cfg, s, s.exchanges[v]);
  }

  lemma ConsumedStep(cfg: Config, s: Sys, a: Action)
    requires CodeInv(cfg, s) && ConsumedInv(cfg, s) && Enabled(s, a)
    ensures ConsumedInv(cfg, Next(cfg, s, a))
  {
    var s' := Next(cfg, s, a);
    forall t | t in s'.exchanges && Ate(s'.exchanges[t]) ensures AteOnce(cfg, s', s'.exchanges[t]) {
      ConsumedOne(cfg, s, a, t);
    }
    forall t, u | t in s'.exchanges && u in s'.exchanges && Ate(s'.exchanges[t]) && Ate(s'.exchanges[u])
                  && s'.exchanges[t].code == s'.exchanges[u].code
      ensures t == u
    {
      ConsumedTwo(cfg, s, a, t, u);
    }
  }

  lemma DeviceStep(cfg: Config, s: Sys, a: Action)
    requires DeviceInv(s) && Enabled(s, a)
    ensures DeviceInv(Next(cfg, s, a))
  {
    Frame(cfg, s, a);
    forall d | d in s.devices { CreatedStays(cfg, s, a, s.born[d]); }
    if a.Create? { DeviceCreate(cfg, s, a.t, a.device); }
  }

  lemma DeviceCreate(cfg: Config, s: Sys, t: nat, device: Id)
    requires Enabled(s, Create(t, device))
    ensures var s' := Next(cfg, s, Create(t, device));
            && s'.devices == s.devices[device := s.exchanges[t].gw.user] && s'.born == s.born[device := t]
            && BornBy(s', device, t) && s'.exchanges[t].gw == s.exchanges[t].gw && device in s'.ids
  {
  }

  lemma {:induction false} Reachable(cfg: Config, states: seq<Sys>, acts: seq<Action>, i: nat)
    requires Run(cfg, states, acts) && i < |states|
    ensures Inv(cfg, states[i])
  {
    if i > 0 {
      Reachable(cfg, states, acts, i - 1);
      var s, a := states[i - 1], acts[i - 1];
      AuthzStep(cfg, s, a);
      TakenStep(cfg, s, a);
      if a.Issue? { CodeIssue(cfg, s, a.t, a.code); } else { CodeQuiet(cfg, s, a); }
      ConsumedStep(cfg, s, a);
      DeviceStep(cfg, s, a);
    }
  }

  // ---- the theorem ----

  /** Device d goes back through exchange x and login l to the authorize request under lk:
      one code, one request, the same redirect_uri all the way, a verifier for the very
      challenge asked for, the user who logged in, and each hop inside its lifetime. */
  predicate Traces(cfg: Config, s: Sys, d: Id, x: nat, l: nat, lk: Id) {
    && d in s.devices && lk in s.asked
    && x in s.exchanges && s.exchanges[x].Created? && s.exchanges[x].device == d
    && l in s.logins && s.logins[l].Issued? && s.logins[l].lk == lk && s.logins[l].code == s.exchanges[x].code
    && var ask, login, exchange := s.asked[lk], s.logins[l], s.exchanges[x];
    && s.devices[d] == login.user
    && exchange.redirect == ask.req.redirect
    && VerifyS256(exchange.verifier, ask.req.challenge)
    && ask.at <= login.takenAt < ask.at + cfg.authzTTL
    && login.issuedAt <= exchange.at < login.issuedAt + cfg.codeTTL
  }

  lemma DeviceIsTraceable(cfg: Config, states: seq<Sys>, acts: seq<Action>, i: nat, d: Id)
    requires Run(cfg, states, acts) && i < |states| && d in states[i].devices
    ensures exists x, l, lk :: Traces(cfg, states[i], d, x, l, lk)
  {
    Reachable(cfg, states, acts, i);
    var s := states[i];
    var x := s.born[d];
    assert BornBy(s, d, x);
    var l := s.minted[s.exchanges[x].code];
    assert MintedBy(s, s.exchanges[x].code, l);
    assert Took(s.logins[l]);
    assert Traces(cfg, s, d, x, l, s.logins[l].lk);
  }

  /** No two devices share an exchange, a code, a login or an authorize request. */
  lemma TracesAreInjective(cfg: Config, states: seq<Sys>, acts: seq<Action>, i: nat,
                           d: Id, x: nat, l: nat, lk: Id, d': Id, x': nat, l': nat, lk': Id)
    requires Run(cfg, states, acts) && i < |states|
    requires Traces(cfg, states[i], d, x, l, lk) && Traces(cfg, states[i], d', x', l', lk')
    requires x == x' || states[i].exchanges[x].code == states[i].exchanges[x'].code || l == l' || lk == lk'
    ensures d == d' && x == x' && l == l' && lk == lk'
  {
    Reachable(cfg, states, acts, i);
    assert Ate(states[i].exchanges[x]) && Ate(states[i].exchanges[x']);
    assert Took(states[i].logins[l]) && Took(states[i].logins[l']);
  }

  // ---- and it does complete ----

  /** A login within the request's lifetime gets a code that carries what was asked. */
  lemma LoginCompletes(cfg: Config, s: Sys, lk: Id, req: AuthzRequest, wait: nat, t: nat, user: Id, code: Id)
    returns (end: Sys)
    requires lk !in s.ids && code !in s.ids && lk != code && t !in s.logins && wait < cfg.authzTTL
    requires req.challenge != Opaque("") && req.origState != ""
    ensures Enabled(s, Authorize(lk, req)) && var s1 := Next(cfg, s, Authorize(lk, req));
            && Enabled(s1, Tick(wait)) && var s2 := Next(cfg, s1, Tick(wait));
            && Enabled(s2, Submit(t, lk, user)) && var s3 := Next(cfg, s2, Submit(t, lk, user));
            && Enabled(s3, Take(t)) && var s4 := Next(cfg, s3, Take(t));
            && Enabled(s4, Issue(t, code)) && end == Next(cfg, s4, Issue(t, code))
    ensures end.now == s.now + wait && end.ids == s.ids + {lk, code} && end.exchanges == s.exchanges
    ensures code in end.codes
            && end.codes[code] == Entry(GWCode(req.challenge, user, req.redirect), s.now + wait + cfg.codeTTL)
  {
    var s2 := Next(cfg, Next(cfg, s, Authorize(lk, req)), Tick(wait));
    var s4 := Next(cfg, Next(cfg, s2, Submit(t, lk, user)), Take(t));
    end := Next(cfg, s4, Issue(t, code));
  }

  /** An exchange within the code's lifetime, with the verifier of its challenge and its redirect_uri, makes
      a device for its user. */
  lemma ExchangeCompletes(cfg: Config, s: Sys, gw: GWCode, expiry: nat, wait: nat, x: nat, code: Id, verifier: string,
                          device: Id)
    returns (end: Sys)
    requires code in s.codes && s.codes[code] == Entry(gw, expiry) && s.now + wait < expiry
    requires gw.challenge == S256(verifier) && verifier != "" && x !in s.exchanges && device !in s.ids
    ensures Enabled(s, Tick(wait)) && var s1 := Next(cfg, s, Tick(wait));
            && Enabled(s1, Present(x, code, verifier, gw.redirect))
            && var s2 := Next(cfg, s1, Present(x, code, verifier, gw.redirect));
            && Enabled(s2, Consume(x)) && var s3 := Next(cfg, s2, Consume(x));
            && Enabled(s3, Create(x, device)) && end == Next(cfg, s3, Create(x, device))
    ensures device in end.devices && end.devices[device] == gw.user && code !in end.codes
  {
    var s2 := Next(cfg, Next(cfg, s, Tick(wait)), Present(x, code, verifier, gw.redirect));
    var s3 := Next(cfg, s2, Consume(x));
    end := Next(cfg, s3, Create(x, device));
  }
}
