/** Whole requests, one at a time: what revoking a device ends, for good, and what it
    leaves alone. */
module DeadStaysDead {
  import opened Redis
  import opened TokenStore

  datatype Request =
    | Wait(dt: nat)
    | Authorize(user: Id, device: Id, family: Id, next: Id)
    | RefreshToken(token: Id, next: Id)
    | Logout(bearer: Option<Jwt>, token: Id)
    | DeleteDevice(jwt: Jwt, target: Id)
    | CallApi(jwt: Jwt)

  datatype Response = Success | Tokens(pair: Pair) | Denied | NotFound

  /** Identifiers drawn during the request are new. */
  predicate Valid(st: Store, r: Request) {
    match r
    case Authorize(_, d, f, next) =>
      d !in st.ids && f !in st.ids && next !in st.ids && d != f && d != next && f != next
    case RefreshToken(_, next) => next !in st.ids
    case _ => true
  }

  predicate MayDelete(st: Store, bearer: Jwt, target: Id) {
    Accepts(st, bearer) && target in st.devices && st.devices[target].user == bearer.user
  }

  /** The device a logout request revokes: a signed, unexpired bearer is enough; otherwise
      the refresh token in the body decides, silently if it is unknown. */
  function LogoutTarget(st: Store, bearer: Option<Jwt>, token: Id): Option<Id> {
    if bearer.Some? && Verifies(st, bearer.value) then Some(bearer.value.device)
    else if Sha256(token) in st.rows then Some(st.rows[Sha256(token)].device)
    else None
  }

  function Apply(cfg: Config, st: Store, r: Request): (Store, Response) {
    match r
    case Wait(dt) => (st.(now := st.now + dt), Success)
    case Authorize(user, d, f, next) =>
      var (st', pair) := ExchangeCode(cfg, st, user, d, f, next);
      (st', Tokens(pair))
    case RefreshToken(token, next) =>
      var (st', o) := Refresh(cfg, st, token, next);
      (st', if o.Granted? then Tokens(o.pair) else Denied)
    case Logout(bearer, token) =>
      var target := LogoutTarget(st, bearer, token);
      if target.Some? then (RevokeDevice(st, target.value), Success)
      else (st, if token == NO_TOKEN then Denied else Success)
    case DeleteDevice(bearer, target) =>
      if !Accepts(st, bearer) then (st, Denied)
      else if !MayDelete(st, bearer, target) then (st, NotFound)
      else (RevokeDevice(st, target), Success)
    case CallApi(bearer) => (st, if Accepts(st, bearer) then Success else Denied)
  }

  predicate Stolen(st: Store, token: Id) {
    var h := Sha256(token);
    token != NO_TOKEN && Usable(st, h) && st.rows[h].used && Get(st.replays, h, st.now).None?
  }

  /** The request revokes d: a logout by either route, a device deletion, or a theft verdict. */
  predicate Kills(st: Store, r: Request, d: Id) {
    match r
    case RefreshToken(token, _) => Stolen(st, token) && st.rows[Sha256(token)].device == d
    case Logout(bearer, token) => LogoutTarget(st, bearer, token) == Some(d)
    case DeleteDevice(bearer, target) => MayDelete(st, bearer, target) && target == d
    case _ => false
  }

  /** The request succeeds on credentials of d. */
  predicate Serves(cfg: Config, st: Store, r: Request, d: Id) {
    match r
    case RefreshToken(token, next) =>
      var o := Refresh(cfg, st, token, next).1;
      o.Granted? && (o.device == d || o.pair.access.device == d || st.rows[Sha256(token)].device == d)
    case DeleteDevice(bearer, _) => Accepts(st, bearer) && bearer.device == d
    case CallApi(bearer) => Accepts(st, bearer) && bearer.device == d
    case _ => false
  }

  predicate Empty(st: Store) {
    && st.ids == {NO_TOKEN} && st.devices == map[] && st.rows == map[] && st.replays == map[]
    && st.locks == map[] && st.versions == map[] && st.issued == {}
  }

  predicate Run(cfg: Config, sts: seq<Store>, rs: seq<Request>) {
    && |sts| == |rs| + 1
    && Empty(sts[0])
    && forall i | 0 <= i < |rs| :: Valid(sts[i], rs[i]) && sts[i + 1] == Apply(cfg, sts[i], rs[i]).0
  }

  // ---- the invariant of whole requests ----

  ghost predicate RowsKnown(st: Store) {
    && NO_TOKEN in st.ids && Sha256(NO_TOKEN) !in st.rows
    && (forall h | h in st.rows ::
          && h.plain in st.ids && st.rows[h].family in st.ids && st.rows[h].device in st.ids
          && st.rows[h].device in st.versions)
    && (forall h, k | h in st.rows && k in st.rows ::
          st.rows[h].family == st.rows[k].family <==> st.rows[h].device == st.rows[k].device)
  }

  ghost predicate JwtsKnown(st: Store) {
    forall j | j in st.issued :: j.device in st.ids && j.device in st.versions && j.version <= st.versions[j.device]
  }

  ghost predicate ReplaysKnown(st: Store) {
    forall h | h in st.replays :: h in st.rows && st.replays[h].value.access.device == st.rows[h].device
  }

  ghost predicate DevicesKnown(st: Store) {
    (forall d | d in st.devices :: d in st.ids && d in st.versions) && (forall d | d in st.versions :: d in st.ids)
  }

  ghost predicate Inv(st: Store) {
    RowsKnown(st) && JwtsKnown(st) && ReplaysKnown(st) && DevicesKnown(st)
  }

  lemma InvRevoke(st: Store, d: Id)
    requires Inv(st) && d in st.ids
    ensures Inv(RevokeDevice(st, d))
  {
  }

  lemma InvRotate(cfg: Config, st: Store, h: Hash, next: Id)
    requires Inv(st) && h in st.rows && next !in st.ids
    ensures Inv(Rotate(cfg, st, h, st.rows[h], next).0)
  {
    RowsRotate(cfg, st, h, next);
  }

  lemma RowsRotate(cfg: Config, st: Store, h: Hash, next: Id)
    requires RowsKnown(st) && h in st.rows && next !in st.ids
    ensures RowsKnown(Rotate(cfg, st, h, st.rows[h], next).0)
  {
    var st' := Rotate(cfg, st, h, st.rows[h], next).0;
    forall x, y | x in st'.rows && y in st'.rows
      ensures st'.rows[x].family == st'.rows[y].family <==> st'.rows[x].device == st'.rows[y].device
    {
      var x0 := if x in st.rows then x else h;
      var y0 := if y in st.rows then y else h;
      assert st.rows[x0].family == st.rows[y0].family <==> st.rows[x0].device == st.rows[y0].device;
    }
  }

  lemma InvSteal(st: Store, h: Hash)
    requires Inv(st) && h in st.rows
    ensures Inv(Steal(st, st.rows[h]))
  {
  }

  lemma InvRefresh(cfg: Config, st: Store, token: Id, next: Id)
    requires Inv(st) && next !in st.ids
    ensures Inv(Refresh(cfg, st, token, next).0)
  {
    var h := Sha256(token);
    var s0 := st.(locks := Del(st.locks, h));
    assert Inv(s0);
    if token != NO_TOKEN && Usable(st, h) {
      InvRotate(cfg, s0, h, next);
      InvSteal(s0, h);
    }
  }

  lemma InvExchange(cfg: Config, st: Store, user: Id, d: Id, f: Id, next: Id)
    requires Inv(st) && Valid(st, Authorize(user, d, f, next))
    ensures Inv(ExchangeCode(cfg, st, user, d, f, next).0)
  {
    var st' := ExchangeCode(cfg, st, user, d, f, next).0;
    assert RowsKnown(st');
    assert JwtsKnown(st');
  }

  lemma InvStep(cfg: Config, st: Store, r: Request)
    requires Inv(st) && Valid(st, r)
    ensures Inv(Apply(cfg, st, r).0)
  {
    match r
    case Wait(_) =>
    case Authorize(user, d, f, next) => InvExchange(cfg, st, user, d, f, next);
    case RefreshToken(token, next) => InvRefresh(cfg, st, token, next);
    case Logout(bearer, token) =>
      var target := LogoutTarget(st, bearer, token);
      if target.Some? { InvRevoke(st, target.value); }
    case DeleteDevice(bearer, target) =>
      if MayDelete(st, bearer, target) { InvRevoke(st, target); }
    case CallApi(_) =>
  }

  lemma {:induction false} Reachable(cfg: Config, sts: seq<Store>, rs: seq<Request>, i: nat)
    requires Run(cfg, sts, rs) && i < |sts|
    ensures Inv(sts[i])
  {
    if i > 0 {
      Reachable(cfg, sts, rs, i - 1);
      InvStep(cfg, sts[i - 1], rs[i - 1]);
    }
  }

  // ---- death ----

  /** Every refresh token of d is revoked and every JWT of d is behind d's version. */
  ghost predicate Dead(st: Store, d: Id) {
    && d in st.ids && d in st.versions
    && (forall h | h in st.rows && st.rows[h].device == d :: st.rows[h].revoked)
    && (forall j | j in st.issued && j.device == d :: j.version < st.versions[d])
  }

  lemma KillKills(cfg: Config, st: Store, r: Request, d: Id)
    requires Inv(st) && Valid(st, r) && Kills(st, r, d)
    ensures Dead(Apply(cfg, st, r).0, d)
  {
  }

  lemma RefreshKeepsDead(cfg: Config, st: Store, token: Id, next: Id, d: Id)
    requires Inv(st) && next !in st.ids && Dead(st, d)
    ensures Dead(Refresh(cfg, st, token, next).0, d)
  {
    var h := Sha256(token);
    if token != NO_TOKEN && Usable(st, h) {
      assert st.rows[h].device != d;
    }
  }

  lemma DeathLasts(cfg: Config, st: Store, r: Request, d: Id)
    requires Inv(st) && Valid(st, r) && Dead(st, d)
    ensures Dead(Apply(cfg, st, r).0, d)
  {
    match r
    case RefreshToken(token, next) => RefreshKeepsDead(cfg, st, token, next, d);
    case _ =>
  }

  lemma DeadServesNothing(cfg: Config, st: Store, r: Request, d: Id)
    requires Inv(st) && Dead(st, d)
    ensures !Serves(cfg, st, r, d)
  {
  }

  lemma {:induction false} DeadForever(cfg: Config, sts: seq<Store>, rs: seq<Request>, j: nat, k: nat, d: Id)
    requires Run(cfg, sts, rs) && j <= k < |sts| && Dead(sts[j], d)
    ensures Dead(sts[k], d)
  {
    if j < k {
      DeadForever(cfg, sts, rs, j, k - 1, d);
      Reachable(cfg, sts, rs, k - 1);
      DeathLasts(cfg, sts[k - 1], rs[k - 1], d);
    }
  }

  /** Once request i has revoked device d, no later request ever succeeds on d's credentials. */
  lemma DeadStaysDead(cfg: Config, sts: seq<Store>, rs: seq<Request>, i: nat, k: nat, d: Id)
    requires Run(cfg, sts, rs) && i < k < |rs| && Kills(sts[i], rs[i], d)
    ensures !Serves(cfg, sts[k], rs[k], d)
  {
    Reachable(cfg, sts, rs, i);
    KillKills(cfg, sts[i], rs[i], d);
    DeadForever(cfg, sts, rs, i + 1, k, d);
    Reachable(cfg, sts, rs, k);
    DeadServesNothing(cfg, sts[k], rs[k], d);
  }

  // ---- everyone else ----

  /** Revoking d changes nothing another device can observe: every one of its access JWTs
      and refresh tokens is answered just as before. */
  lemma OthersUnaffected(cfg: Config, sts: seq<Store>, rs: seq<Request>, i: nat, d: Id, jwt: Jwt, token: Id, next: Id)
    requires Run(cfg, sts, rs) && i < |rs| && Kills(sts[i], rs[i], d)
    requires jwt.device != d
    requires Sha256(token) in sts[i].rows && sts[i].rows[Sha256(token)].device != d
    ensures Accepts(sts[i + 1], jwt) <==> Accepts(sts[i], jwt)
    ensures Refresh(cfg, sts[i + 1], token, next).1 == Refresh(cfg, sts[i], token, next).1
  {
    Reachable(cfg, sts, rs, i);
  }

  /** The converse: a device nobody has revoked is fully alive. */
  ghost predicate Alive(st: Store, d: Id) {
    && (forall h | h in st.rows && st.rows[h].device == d :: !st.rows[h].revoked)
    && (forall j | j in st.issued && j.device == d :: d in st.versions && j.version == st.versions[d])
  }

  lemma RefreshKeepsAlive(cfg: Config, st: Store, token: Id, next: Id, d: Id)
    requires Inv(st) && next !in st.ids && Alive(st, d)
    requires !(Stolen(st, token) && st.rows[Sha256(token)].device == d)
    ensures Alive(Refresh(cfg, st, token, next).0, d)
  {
  }

  lemma ExchangeKeepsAlive(cfg: Config, st: Store, r: Request, d: Id)
    requires Inv(st) && Valid(st, r) && r.Authorize? && Alive(st, d)
    ensures Alive(Apply(cfg, st, r).0, d)
  {
    assert forall h | h in st.rows :: st.rows[h].device != r.device;
    assert forall j | j in st.issued :: j.device != r.device;
  }

  lemma LifeLasts(cfg: Config, st: Store, r: Request, d: Id)
    requires Inv(st) && Valid(st, r) && Alive(st, d) && !Kills(st, r, d)
    ensures Alive(Apply(cfg, st, r).0, d)
  {
    match r
    case RefreshToken(token, next) => RefreshKeepsAlive(cfg, st, token, next, d);
    case Authorize(_, _, _, _) => ExchangeKeepsAlive(cfg, st, r, d);
    case _ =>
  }

  lemma {:induction false} AliveUntilKilled(cfg: Config, sts: seq<Store>, rs: seq<Request>, k: nat, d: Id)
    requires Run(cfg, sts, rs) && k < |sts|
    requires forall i | 0 <= i < k :: !Kills(sts[i], rs[i], d)
    ensures Alive(sts[k], d)
  {
    if k > 0 {
      AliveUntilKilled(cfg, sts, rs, k - 1, d);
      Reachable(cfg, sts, rs, k - 1);
      LifeLasts(cfg, sts[k - 1], rs[k - 1], d);
    }
  }

  /** Until some request revokes d, every unexpired JWT of d is accepted and d's live
      refresh token is rotated whenever it has not idled out. */
  lemma ServedUntilKilled(cfg: Config, sts: seq<Store>, rs: seq<Request>, k: nat, d: Id, jwt: Jwt, token: Id, next: Id)
    requires Run(cfg, sts, rs) && k < |sts|
    requires forall i | 0 <= i < k :: !Kills(sts[i], rs[i], d)
    ensures jwt.device == d && Verifies(sts[k], jwt) ==> Accepts(sts[k], jwt)
    ensures var h := Sha256(token);
            h in sts[k].rows && sts[k].rows[h].device == d && !sts[k].rows[h].used
            && sts[k].rows[h].expiresAt >= Unix(sts[k].now)
            ==> Refresh(cfg, sts[k], token, next).1.Granted?
  {
    AliveUntilKilled(cfg, sts, rs, k, d);
    Reachable(cfg, sts, rs, k);
  }
}
