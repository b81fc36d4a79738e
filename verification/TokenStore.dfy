/** The tables behind the OAuth endpoints and the effect of each single database
    transaction or Redis command on them.

    An identifier drawn by idgen is an opaque number; the refresh-token table is
    keyed by the hash of the token, and SHA-256 is taken to be injective.
  */
module TokenStore {
  import opened Redis

  type Id = nat

  /** The empty string: the one token value that is refused before any lookup. */
  const NO_TOKEN: Id := 0

  datatype Hash = Sha256(plain: Id)

  datatype Row = Row(
    family: Id, device: Id, user: Id,
    used: bool, revoked: bool,
    lastUsedAt: nat, expiresAt: nat)

  datatype Device = Device(user: Id, lastActiveAt: nat)

  /** The claims of an access JWT.  A JWT verifies iff it is in Store.issued and unexpired. */
  datatype Jwt = Jwt(user: Id, device: Id, version: int, expiresAt: nat)

  datatype Pair = Pair(access: Jwt, refresh: Id)

  /** Lifetimes in milliseconds. */
  datatype Config = Config(refreshTTL: nat, grace: nat, accessTTL: nat)

  const LOCK_TTL: nat := 10_000
  const LOCK_MAX_WAIT: nat := 2_000
  const LOCK_RETRY: nat := 20
  const INITIAL_VERSION: int := 1

  datatype Store = Store(
    now: nat,
    ids: set<Id>,
    devices: map<Id, Device>,
    rows: map<Hash, Row>,
    replays: map<Hash, Entry<Pair>>,
    locks: map<Hash, Entry<()>>,
    versions: map<Id, int>,
    issued: set<Jwt>)

  datatype Outcome = Granted(pair: Pair, device: Id) | InvalidGrant | SystemError

  // ---- refresh_tokens and devices ----

  function MarkUsed(rows: map<Hash, Row>, h: Hash): map<Hash, Row>
    requires h in rows
  {
    rows[h := rows[h].(used := true)]
  }

  function RevokeFamily(rows: map<Hash, Row>, family: Id): map<Hash, Row> {
    map h | h in rows :: if rows[h].family == family then rows[h].(revoked := true) else rows[h]
  }

  function RevokeByDevice(rows: map<Hash, Row>, device: Id): map<Hash, Row> {
    map h | h in rows :: if rows[h].device == device then rows[h].(revoked := true) else rows[h]
  }

  function TouchDevice(devices: map<Id, Device>, d: Id, at: nat): map<Id, Device> {
    if d in devices then devices[d := devices[d].(lastActiveAt := at)] else devices
  }

  function NewRow(cfg: Config, family: Id, device: Id, user: Id, at: nat): Row {
    Row(family, device, user, false, false, Unix(at), Unix(at + cfg.refreshTTL))
  }

  /** The first row of a device counts its lifetime in whole seconds from a whole second. */
  function FirstRow(cfg: Config, family: Id, device: Id, user: Id, at: nat): Row {
    Row(family, device, user, false, false, Unix(at), Unix(at) + Unix(cfg.refreshTTL))
  }

  /** The transaction of a rotation whose conditional update matched: the presented row
      becomes used, its successor is inserted and the device is touched. */
  function CommitRotation(cfg: Config, st: Store, h: Hash, row: Row, next: Id, at: nat): Store
    requires h in st.rows
  {
    st.(ids := st.ids + {next},
        rows := MarkUsed(st.rows, h)[Sha256(next) := NewRow(cfg, row.family, row.device, row.user, at)],
        devices := TouchDevice(st.devices, row.device, Unix(at)))
  }

  /** The transaction of the authorization-code grant. */
  function CommitDevice(cfg: Config, st: Store, user: Id, device: Id, family: Id, next: Id): Store {
    st.(ids := st.ids + {device, family, next},
        devices := st.devices[device := Device(user, Unix(st.now))],
        rows := st.rows[Sha256(next) := FirstRow(cfg, family, device, user, st.now)])
  }

  // ---- token_version ----

  function BumpVersion(versions: map<Id, int>, d: Id): map<Id, int> {
    versions[d := (if d in versions then versions[d] else 0) + 1]
  }

  // ---- access JWTs ----

  function MintJwt(cfg: Config, user: Id, device: Id, version: int, now: nat): Jwt {
    Jwt(user, device, version, Unix(now + cfg.accessTTL))
  }

  /** Signer.Verify: the signature is ours and the expiry second has not begun. */
  predicate Verifies(st: Store, jwt: Jwt) {
    jwt in st.issued && st.now < jwt.expiresAt * 1000
  }

  /** The middleware's acceptance test. */
  predicate Accepts(st: Store, jwt: Jwt) {
    Verifies(st, jwt) && jwt.device in st.versions && st.versions[jwt.device] == jwt.version
  }

  // ---- whole requests, each as one step ----

  function SavePair(cfg: Config, st: Store, h: Hash, pair: Pair): Store {
    st.(issued := st.issued + {pair.access},
        replays := SetEx(st.replays, h, pair, st.now, cfg.grace))
  }

  function Rotate(cfg: Config, st: Store, h: Hash, row: Row, next: Id): (Store, Outcome)
    requires h in st.rows
  {
    if row.device !in st.versions then
      (st, InvalidGrant)
    else
      var pair := Pair(MintJwt(cfg, row.user, row.device, st.versions[row.device], st.now), next);
      (SavePair(cfg, CommitRotation(cfg, st, h, row, next, st.now), h, pair), Granted(pair, row.device))
  }

  function Steal(st: Store, row: Row): Store {
    st.(rows := RevokeFamily(st.rows, row.family), versions := BumpVersion(st.versions, row.device))
  }

  function ReplayOrTheft(st: Store, h: Hash, row: Row): (Store, Outcome) {
    match Get(st.replays, h, st.now)
    case Some(pair) => (st, Granted(pair, row.device))
    case None => (Steal(st, row), InvalidGrant)
  }

  /** Neither half of a refresh looks at the locks. */
  lemma LocksIgnored(cfg: Config, st: Store, locks: map<Hash, Entry<()>>, h: Hash, next: Id)
    requires h in st.rows
    ensures Rotate(cfg, st.(locks := locks), h, st.rows[h], next)
            == (Rotate(cfg, st, h, st.rows[h], next).0.(locks := locks), Rotate(cfg, st, h, st.rows[h], next).1)
    ensures ReplayOrTheft(st.(locks := locks), h, st.rows[h])
            == (ReplayOrTheft(st, h, st.rows[h]).0.(locks := locks), ReplayOrTheft(st, h, st.rows[h]).1)
  {
  }

  predicate Usable(st: Store, h: Hash) {
    h in st.rows && !st.rows[h].revoked && st.rows[h].expiresAt >= Unix(st.now)
  }

  /** A refresh request that got the lock and gave it back. */
  function Refresh(cfg: Config, st: Store, token: Id, next: Id): (Store, Outcome) {
    var h := Sha256(token);
    var s0 := st.(locks := Del(st.locks, h));
    if token == NO_TOKEN then
      (st, InvalidGrant)
    else if !Usable(st, h) then
      (s0, InvalidGrant)
    else if st.rows[h].used then
      ReplayOrTheft(s0, h, st.rows[h])
    else
      Rotate(cfg, s0, h, st.rows[h], next)
  }

  /** Whatever the locks are, a refresh deletes its own and looks at none. */
  lemma RefreshIgnoresLocks(cfg: Config, st: Store, locks: map<Hash, Entry<()>>, token: Id, next: Id)
    requires token != NO_TOKEN
    ensures Refresh(cfg, st.(locks := locks), token, next)
            == (Refresh(cfg, st, token, next).0.(locks := Del(locks, Sha256(token))),
                Refresh(cfg, st, token, next).1)
  {
    var h := Sha256(token);
    var s0 := st.(locks := Del(st.locks, h));
    if h in st.rows { LocksIgnored(cfg, s0, Del(locks, h), h, next); }
    assert st.(locks := locks).(locks := Del(locks, h)) == s0.(locks := Del(locks, h));
  }

  /** The token was found good: known, not revoked, and its last second not over. */
  predicate InForce(st: Store, token: Id) {
    && token != NO_TOKEN && Sha256(token) in st.rows && !st.rows[Sha256(token)].revoked
    && st.now / 1000 <= st.rows[Sha256(token)].expiresAt
  }

  /** Every answer to a refresh request, and what it leaves behind. */
  lemma RefreshMeans(cfg: Config, st: Store, token: Id, next: Id)
    ensures var (st', o) := Refresh(cfg, st, token, next); var h := Sha256(token);
            && (o.Granted? <==>
                  InForce(st, token)
                  && if st.rows[h].used then h in st.replays && st.now < st.replays[h].expiry
                     else st.rows[h].device in st.versions)
            && (!o.Granted? ==> o == InvalidGrant)
            // A rotation: one more row, the old one used, a fresh access token, and the pair kept.
            && (o.Granted? && !st.rows[h].used ==>
                  var row := st.rows[h];
                  && o.device == row.device && o.pair.refresh == next
                  && o.pair.access
                     == Jwt(row.user, row.device, st.versions[row.device], (st.now + cfg.accessTTL) / 1000)
                  && st'.rows == st.rows[h := row.(used := true)]
                                   [Sha256(next) := Row(row.family, row.device, row.user, false, false, st.now / 1000,
                                                        (st.now + cfg.refreshTTL) / 1000)]
                  && st'.replays == st.replays[h := Entry(o.pair, st.now + cfg.grace)]
                  && st'.issued == st.issued + {o.pair.access} && st'.versions == st.versions)
            // A replay: the pair kept, and nothing new.
            && (o.Granted? && st.rows[h].used ==>
                  && o == Granted(st.replays[h].value, st.rows[h].device) && st' == st.(locks := st'.locks))
            // A theft: the family revoked, and its device's access tokens with it.
            && (InForce(st, token) && st.rows[h].used && !o.Granted? ==>
                  && st'.rows.Keys == st.rows.Keys
                  && (forall k | k in st.rows ::
                        st'.rows[k] == if st.rows[k].family == st.rows[h].family then st.rows[k].(revoked := true)
                                       else st.rows[k])
                  && st.rows[h].device in st'.versions
                  && (st.rows[h].device in st.versions ==>
                        st'.versions[st.rows[h].device] > st.versions[st.rows[h].device])
                  && st'.issued == st.issued && st'.replays == st.replays)
            && (!o.Granted? && !(InForce(st, token) && st.rows[h].used) ==> st' == st.(locks := st'.locks))
  {
  }

  function RevokeDevice(st: Store, d: Id): Store {
    st.(rows := RevokeByDevice(st.rows, d), versions := BumpVersion(st.versions, d))
  }

  function ExchangeCode(cfg: Config, st: Store, user: Id, device: Id, family: Id, next: Id): (Store, Pair) {
    var s1 := CommitDevice(cfg, st, user, device, family, next);
    var jwt := MintJwt(cfg, user, device, INITIAL_VERSION, st.now);
    (s1.(versions := s1.versions[device := INITIAL_VERSION], issued := s1.issued + {jwt}), Pair(jwt, next))
  }
}
