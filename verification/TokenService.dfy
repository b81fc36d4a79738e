/** The token endpoints as the service runs them: stores that are updated in place and
    services that call them, each method tied to the request it implements. */
module TokenService {
  import opened Redis
  import opened TokenStore
  import C = CodeFlow

  class Clock {
    var now: nat

    constructor (now: nat)
      ensures this.now == now
    {
      this.now := now;
    }

    method Sleep(ms: nat)
      modifies this
      ensures now == old(now) + ms
    {
      now := now + ms;
    }
  }

  /** idgen: every identifier drawn is new. */
  class IdGenerator {
    var used: set<Id>
    var next: Id

    ghost predicate Valid()
      reads this
    {
      NO_TOKEN in used && forall id | id in used :: id < next
    }

    constructor ()
      ensures Valid() && used == {NO_TOKEN}
    {
      used, next := {NO_TOKEN}, NO_TOKEN + 1;
    }

    method New() returns (id: Id)
      requires Valid()
      modifies this
      ensures Valid() && id == old(next) && next == id + 1
      ensures id !in old(used) && used == old(used) + {id}
    {
      id := next;
      used, next := used + {id}, next + 1;
    }
  }

  class RefreshTokenDAO {
    var rows: map<Hash, Row>

    constructor ()
      ensures rows == map[]
    {
      rows := map[];
    }

    method Create(h: Hash, row: Row)
      modifies this
      ensures rows == old(rows)[h := row]
    {
      rows := rows[h := row];
    }

    method FindByHash(h: Hash) returns (row: Option<Row>)
      ensures row == if h in rows then Some(rows[h]) else None
    {
      row := if h in rows then Some(rows[h]) else None;
    }

    /** At most one caller ever sees flipped for a given row. */
    method MarkUsedIfUnused(h: Hash) returns (flipped: bool)
      modifies this
      ensures flipped <==> h in old(rows) && !old(rows)[h].used
      ensures rows.Keys == old(rows).Keys
      ensures forall k | k in rows :: rows[k] == if k == h then old(rows)[k].(used := true) else old(rows)[k]
    {
      flipped := h in rows && !rows[h].used;
      if flipped {
        rows := MarkUsed(rows, h);
      }
    }

    method RevokeFamily(family: Id)
      modifies this
      ensures rows.Keys == old(rows).Keys
      ensures forall k | k in rows ::
                rows[k] == if old(rows)[k].family == family then old(rows)[k].(revoked := true) else old(rows)[k]
      ensures rows == TokenStore.RevokeFamily(old(rows), family)
    {
      rows := TokenStore.RevokeFamily(rows, family);
    }

    method RevokeByDevice(device: Id)
      modifies this
      ensures rows.Keys == old(rows).Keys
      ensures forall k | k in rows ::
                rows[k] == if old(rows)[k].device == device then old(rows)[k].(revoked := true) else old(rows)[k]
      ensures rows == TokenStore.RevokeByDevice(old(rows), device)
    {
      rows := TokenStore.RevokeByDevice(rows, device);
    }
  }

  class DeviceDAO {
    var devices: map<Id, Device>

    constructor ()
      ensures devices == map[]
    {
      devices := map[];
    }

    method Create(uuid: Id, device: Device)
      modifies this
      ensures devices == old(devices)[uuid := device]
    {
      devices := devices[uuid := device];
    }

    method UpdateLastActive(uuid: Id, at: nat)
      modifies this
      ensures devices == TouchDevice(old(devices), uuid, at)
    {
      devices := TouchDevice(devices, uuid, at);
    }
  }

  class TokenVersionStore {
    var versions: map<Id, int>

    constructor ()
      ensures versions == map[]
    {
      versions := map[];
    }

    method Current(d: Id) returns (version: Option<int>)
      ensures version == if d in versions then Some(versions[d]) else None
    {
      version := if d in versions then Some(versions[d]) else None;
    }

    method Set(d: Id, version: int)
      modifies this
      ensures versions == old(versions)[d := version]
    {
      versions := versions[d := version];
    }

    /** INCR: a missing key counts as zero. */
    method Bump(d: Id) returns (version: int)
      modifies this
      ensures versions == BumpVersion(old(versions), d) && version == versions[d]
      ensures d in old(versions) ==> version > old(versions)[d]
    {
      versions := BumpVersion(versions, d);
      version := versions[d];
    }
  }

  class RefreshReplayStore {
    const ttl: nat
    var entries: map<Hash, Entry<Pair>>

    constructor (ttl: nat)
      ensures this.ttl == ttl && entries == map[]
    {
      this.ttl := ttl;
      entries := map[];
    }

    /** From now on, and for exactly the grace window, the token is answered with this pair. */
    method Save(h: Hash, pair: Pair, now: nat)
      modifies this
      ensures forall t: nat :: Redis.Get(entries, h, t) == if t < now + ttl then Some(pair) else None
      ensures forall k, t: nat | k != h :: Redis.Get(entries, k, t) == Redis.Get(old(entries), k, t)
      ensures entries == SetEx(old(entries), h, pair, now, ttl)
    {
      entries := SetEx(entries, h, pair, now, ttl);
    }

    method Get(h: Hash, now: nat) returns (pair: Option<Pair>)
      ensures pair == Redis.Get(entries, h, now)
    {
      pair := Redis.Get(entries, h, now);
    }
  }

  class Locker {
    var locks: map<Hash, Entry<()>>

    constructor ()
      ensures locks == map[]
    {
      locks := map[];
    }

    method Acquire(h: Hash, ttl: nat, now: nat) returns (acquired: bool)
      modifies this
      ensures acquired <==> !Live(old(locks), h, now)
      ensures locks == if acquired then SetEx(old(locks), h, (), now, ttl) else old(locks)
    {
      acquired := !Live(locks, h, now);
      if acquired {
        locks := SetEx(locks, h, (), now, ttl);
      }
    }

    /** Frees the key at once, whoever holds it by now: the next to ask gets it. */
    method Release(h: Hash)
      modifies this
      ensures forall t: nat :: !Live(locks, h, t)
      ensures forall k, t: nat | k != h :: Live(locks, k, t) <==> Live(old(locks), k, t)
      ensures locks == Del(old(locks), h)
    {
      locks := Del(locks, h);
    }
  }

  /** Signing is modelled by remembering what was signed. */
  class Signer {
    var issued: set<Jwt>

    constructor ()
      ensures issued == {}
    {
      issued := {};
    }

    predicate Good(jwt: Jwt, t: nat)
      reads this
    {
      jwt in issued && t < jwt.expiresAt * 1000
    }

    /** The claims are the caller's, and the token verifies for its lifetime less at most the
        second its expiry is rounded down by, and not a moment longer. */
    method Issue(cfg: Config, user: Id, device: Id, version: int, now: nat) returns (jwt: Jwt)
      modifies this
      ensures jwt.user == user && jwt.device == device && jwt.version == version
      ensures forall t: nat :: t + 1000 <= now + cfg.accessTTL ==> Good(jwt, t)
      ensures forall t: nat :: t >= now + cfg.accessTTL ==> !Good(jwt, t)
      ensures forall other, t: nat | other != jwt :: Good(other, t) <==> old(Good(other, t))
      ensures jwt == MintJwt(cfg, user, device, version, now) && issued == old(issued) + {jwt}
    {
      jwt := MintJwt(cfg, user, device, version, now);
      issued := issued + {jwt};
    }

    method Verify(jwt: Jwt, now: nat) returns (ok: bool)
      ensures ok <==> Good(jwt, now)
    {
      ok := jwt in issued && now < jwt.expiresAt * 1000;
    }
  }

  class GWCodeStore {
    const ttl: nat
    var codes: map<Id, Entry<C.GWCode>>

    constructor (ttl: nat)
      ensures this.ttl == ttl && codes == map[]
    {
      this.ttl := ttl;
      codes := map[];
    }

    method Issue(data: C.GWCode, ids: IdGenerator, now: nat) returns (code: Id)
      requires ids.Valid()
      modifies this, ids
      ensures ids.Valid() && code == old(ids.next) && code !in old(ids.used) && ids.used == old(ids.used) + {code}
      ensures codes == SetEx(old(codes), code, data, now, ttl)
    {
      code := ids.New();
      codes := SetEx(codes, code, data, now, ttl);
    }

    /** GETDEL: a code is returned while it lives, and at most once. */
    method Consume(code: Id, now: nat) returns (data: Option<C.GWCode>)
      modifies this
      ensures data.Some? <==> Live(old(codes), code, now)
      ensures data.Some? ==> data.value == old(codes)[code].value
      ensures forall t: nat :: Get(codes, code, t).None?
      ensures forall c, t: nat | c != code :: Get(codes, c, t) == Get(old(codes), c, t)
      ensures codes == Del(old(codes), code)
    {
      data := Get(codes, code, now);
      codes := Del(codes, code);
    }
  }

  class AuthzStore {
    const ttl: nat
    var requests: map<Id, Entry<C.AuthzRequest>>

    constructor (ttl: nat)
      ensures this.ttl == ttl && requests == map[]
    {
      this.ttl := ttl;
      requests := map[];
    }

    method Save(lk: Id, req: C.AuthzRequest, now: nat)
      modifies this
      ensures requests == SetEx(old(requests), lk, req, now, ttl)
    {
      requests := SetEx(requests, lk, req, now, ttl);
    }

    method Peek(lk: Id, now: nat) returns (req: Option<C.AuthzRequest>)
      ensures req == Get(requests, lk, now)
    {
      req := Get(requests, lk, now);
    }

    /** GETDEL: a request is taken while it lives, and by one login only. */
    method Take(lk: Id, now: nat) returns (req: Option<C.AuthzRequest>)
      modifies this
      ensures req.Some? <==> Live(old(requests), lk, now)
      ensures req.Some? ==> req.value == old(requests)[lk].value
      ensures forall t: nat :: Get(requests, lk, t).None?
      ensures forall k, t: nat | k != lk :: Get(requests, k, t) == Get(old(requests), k, t)
      ensures requests == Del(old(requests), lk)
    {
      req := Get(requests, lk, now);
      requests := Del(requests, lk);
    }
  }

  /** Login once the method's Verify has decided: user is the account it resolved, if any.
      The stored request is consumed only by a login that succeeds. */
  method Login(authz: AuthzStore, codes: GWCodeStore, ids: IdGenerator, lk: Id, user: Option<Id>, now: nat)
    returns (code: Option<Id>)
    requires ids.Valid()
    modifies authz, codes, ids
    ensures ids.Valid()
    ensures code.Some? <==> user.Some? && Live(old(authz.requests), lk, now)
    ensures code.None? ==> codes.codes == old(codes.codes) && ids.used == old(ids.used)
    ensures user.None? ==> authz.requests == old(authz.requests)
    ensures code.Some? ==>
              var req := old(authz.requests)[lk].value;
              && code.value !in old(ids.used)
              && authz.requests == Del(old(authz.requests), lk)
              && codes.codes == SetEx(old(codes.codes), code.value,
                                      C.GWCode(req.challenge, user.value, req.redirect), now, codes.ttl)
  {
    var peeked := authz.Peek(lk, now);
    if peeked.None? || user.None? {
      assert authz.requests == old(authz.requests);
      return None;
    }
    var req := authz.Take(lk, now);
    if req.None? { return None; }
    var c := codes.Issue(C.GWCode(req.value.challenge, user.value, req.value.redirect), ids, now);
    return Some(c);
  }

  class OAuthService {
    const cfg: Config
    const clock: Clock
    const ids: IdGenerator
    const devices: DeviceDAO
    const refreshes: RefreshTokenDAO
    const codes: GWCodeStore
    const tvs: TokenVersionStore
    const replays: RefreshReplayStore
    const locker: Locker
    const signer: Signer

    constructor (cfg: Config, clock: Clock, ids: IdGenerator, devices: DeviceDAO, refreshes: RefreshTokenDAO,
                 codes: GWCodeStore, tvs: TokenVersionStore, replays: RefreshReplayStore, locker: Locker,
                 signer: Signer)
      requires replays.ttl == cfg.grace && ids.Valid()
      ensures Valid() && this.clock == clock && this.ids == ids && this.devices == devices
      ensures this.refreshes == refreshes && this.codes == codes && this.tvs == tvs && this.replays == replays
      ensures this.locker == locker && this.signer == signer && this.cfg == cfg
    {
      this.cfg, this.clock, this.ids, this.devices, this.refreshes := cfg, clock, ids, devices, refreshes;
      this.codes, this.tvs, this.replays, this.locker, this.signer := codes, tvs, replays, locker, signer;
    }

    ghost predicate Valid()
      reads this, ids, replays
    {
      ids.Valid() && replays.ttl == cfg.grace
    }

    /** All the tables at once. */
    function View(): Store
      reads clock, ids, devices, refreshes, tvs, replays, locker, signer
    {
      Store(clock.now, ids.used, devices.devices, refreshes.rows, replays.entries, locker.locks, tvs.versions,
            signer.issued)
    }

    /** The authorization-code grant.  A code is gone once presented, whatever the checks say;
        a device, its first refresh token and its first JWT appear only if they pass. */
    method ExchangeAuthorizationCode(code: Id, verifier: string, redirect: string) returns (r: Outcome)
      requires Valid()
      modifies ids, devices, refreshes, codes, tvs, signer
      ensures Valid() && codes.codes == Del(old(codes.codes), code)
      ensures r.Granted? <==>
                Live(old(codes.codes), code, clock.now)
                && C.CodeMatches(old(codes.codes)[code].value, verifier, redirect)
      ensures !r.Granted? ==> r == InvalidGrant && View() == old(View())
      ensures r.Granted? ==>
                var id := old(ids.next);
                && id !in old(ids.used) && id + 1 !in old(ids.used) && id + 2 !in old(ids.used)
                && (View(), r.pair)
                   == ExchangeCode(cfg, old(View()), old(codes.codes)[code].value.user, id, id + 2, id + 1)
                && r.device == id
      // Everything made belongs to the user the code was issued for, and is made for the device returned.
      ensures r.Granted? ==>
                var user, d, now := old(codes.codes)[code].value.user, r.device, clock.now;
                && r.pair.access == Jwt(user, d, 1, (now + cfg.accessTTL) / 1000)
                && signer.issued == old(signer.issued) + {r.pair.access}
                && tvs.versions == old(tvs.versions)[d := 1]
                && devices.devices == old(devices.devices)[d := Device(user, now / 1000)]
      ensures r.Granted? ==>
                var user, d, h, now := old(codes.codes)[code].value.user, r.device, Sha256(r.pair.refresh), clock.now;
                && h in refreshes.rows
                && var row := refreshes.rows[h];
                && row.device == d && row.user == user && !row.used && !row.revoked
                && row.lastUsedAt == now / 1000 && row.expiresAt == now / 1000 + cfg.refreshTTL / 1000
                && {d, r.pair.refresh, row.family} !! old(ids.used)
                && d != r.pair.refresh && d != row.family && r.pair.refresh != row.family
                && refreshes.rows == old(refreshes.rows)[h := row]
    {
      var gw := codes.Consume(code, clock.now);
      if gw.None? || gw.value.redirect != redirect || !C.VerifyS256(verifier, gw.value.challenge) {
        return InvalidGrant;
      }
      var now := clock.now;
      var deviceId := ids.New();
      var refreshPlain := ids.New();
      var family := ids.New();
      devices.Create(deviceId, Device(gw.value.user, Unix(now)));
      refreshes.Create(Sha256(refreshPlain), FirstRow(cfg, family, deviceId, gw.value.user, now));
      tvs.Set(deviceId, INITIAL_VERSION);
      var access := signer.Issue(cfg, gw.value.user, deviceId, INITIAL_VERSION, clock.now);
      assert ids.used == old(ids.used) + {deviceId, family, refreshPlain};
      return Granted(Pair(access, refreshPlain), deviceId);
    }

    /** Polls until the lock is free or the wait is over. */
    method AcquireRefreshLock(h: Hash) returns (ok: bool)
      modifies clock, locker
      ensures clock.now >= old(clock.now)
      ensures ok <==> !Live(old(locker.locks), h, clock.now)
      ensures locker.locks == if ok then SetEx(old(locker.locks), h, (), clock.now, LOCK_TTL) else old(locker.locks)
      ensures !ok ==> clock.now > old(clock.now) + 2_000
      // Whoever gets it holds it for ten seconds, and nobody waits longer than needed.
      ensures ok ==> h in locker.locks && locker.locks[h].expiry == clock.now + 10_000
      ensures ok && clock.now > old(clock.now) ==> clock.now >= 20 && Live(old(locker.locks), h, clock.now - 20)
      ensures !Live(old(locker.locks), h, old(clock.now)) ==> clock.now == old(clock.now)
    {
      var deadline := clock.now + LOCK_MAX_WAIT;
      ok := locker.Acquire(h, LOCK_TTL, clock.now);
      while !ok && clock.now <= deadline
        invariant old(clock.now) <= clock.now
        invariant ok <==> !Live(old(locker.locks), h, clock.now)
        invariant locker.locks == if ok then SetEx(old(locker.locks), h, (), clock.now, LOCK_TTL) else old(locker.locks)
        invariant !Live(old(locker.locks), h, old(clock.now)) ==> clock.now == old(clock.now)
        invariant clock.now > old(clock.now) ==> clock.now >= 20 && Live(old(locker.locks), h, clock.now - 20)
        decreases deadline + LOCK_RETRY - clock.now, !ok
      {
        clock.Sleep(LOCK_RETRY);
        ok := locker.Acquire(h, LOCK_TTL, clock.now);
      }
    }

    /** The refresh grant: with the lock obtained at the clock's final reading, exactly the
        request Refresh; otherwise nothing at all. */
    method ExchangeRefreshToken(token: Id) returns (r: Outcome)
      requires Valid()
      modifies clock, ids, devices, refreshes, tvs, replays, locker, signer
      ensures Valid() && clock.now >= old(clock.now)
      ensures r.SystemError? <==> token != NO_TOKEN && Live(old(locker.locks), Sha256(token), clock.now)
      ensures r.SystemError? ==> View() == old(View()).(now := clock.now)
      ensures !r.SystemError? ==>
                (View(), r) == Refresh(cfg, old(View()).(now := clock.now), token, old(ids.next))
      ensures !Live(old(locker.locks), Sha256(token), old(clock.now)) ==> clock.now == old(clock.now)
      // Tokens are granted exactly for a known, unrevoked, unexpired token, if it is unused and its
      // device has a version, or if the pair it was rotated to is still kept.
      ensures r.Granted? <==>
                var h := Sha256(token);
                && !r.SystemError? && token != NO_TOKEN && h in old(refreshes.rows)
                && !old(refreshes.rows)[h].revoked && clock.now / 1000 <= old(refreshes.rows)[h].expiresAt
                && if old(refreshes.rows)[h].used
                   then h in old(replays.entries) && clock.now < old(replays.entries)[h].expiry
                   else old(refreshes.rows)[h].device in old(tvs.versions)
      ensures r.Granted? && !old(refreshes.rows)[Sha256(token)].used ==>
                var h := Sha256(token); var row := old(refreshes.rows)[h];
                && r.device == row.device && r.pair.refresh !in old(ids.used)
                && r.pair.access
                   == Jwt(row.user, row.device, old(tvs.versions)[row.device], (clock.now + cfg.accessTTL) / 1000)
                && refreshes.rows
                   == old(refreshes.rows)[h := row.(used := true)]
                      [Sha256(r.pair.refresh) := Row(row.family, row.device, row.user, false, false, clock.now / 1000,
                                                     (clock.now + cfg.refreshTTL) / 1000)]
                && replays.entries == old(replays.entries)[h := Entry(r.pair, clock.now + cfg.grace)]
      ensures r.Granted? && old(refreshes.rows)[Sha256(token)].used ==>
                && r == Granted(old(replays.entries)[Sha256(token)].value, old(refreshes.rows)[Sha256(token)].device)
                && View().(now := 0, locks := map[]) == old(View()).(now := 0, locks := map[])
    {
      if token == NO_TOKEN { return InvalidGrant; }
      var h := Sha256(token);
      var ok := AcquireRefreshLock(h);
      if !ok { return SystemError; }
      ghost var st := old(View()).(now := clock.now);
      RefreshIgnoresLocks(cfg, st, locker.locks, token, ids.next);
      RefreshMeans(cfg, st, token, ids.next);
      assert Del(locker.locks, h) == Del(old(locker.locks), h);
      r := Answer(token);
      locker.Release(h);
    }

    /** What is done under the lock. */
    method Answer(token: Id) returns (r: Outcome)
      requires Valid() && token != NO_TOKEN
      modifies ids, devices, refreshes, tvs, replays, signer
      ensures Valid() && !r.SystemError?
      ensures var (st', o) := Refresh(cfg, old(View()), token, old(ids.next));
              r == o && View() == st'.(locks := locker.locks)
    {
      var h := Sha256(token);
      ghost var st := View();
      if h in st.rows { LocksIgnored(cfg, st, Del(st.locks, h), h, ids.next); }
      var row := refreshes.FindByHash(h);
      if row.None? || row.value.revoked || row.value.expiresAt < Unix(clock.now) {
        return InvalidGrant;
      }
      if row.value.used {
        r := ReplayOrTheft(h, row.value);
      } else {
        r := Rotate(h, row.value);
      }
    }

    /** The row is what was read before; if it has been used since, the transaction is undone and
        the pair that rotation saved is the answer. */
    method Rotate(h: Hash, row: Row) returns (r: Outcome)
      requires Valid()
      modifies ids, devices, refreshes, replays, signer
      ensures Valid()
      ensures row.device !in tvs.versions ==> r == InvalidGrant && View() == old(View())
      ensures row.device in tvs.versions && !old(Unused(h)) ==>
                && r == (match Get(old(replays.entries), h, clock.now)
                         case Some(pair) => Granted(pair, row.device)
                         case None => InvalidGrant)
                && View() == old(View()).(ids := old(ids.used) + {old(ids.next)})
      ensures old(Unused(h)) ==> (View(), r) == TokenStore.Rotate(cfg, old(View()), h, row, old(ids.next))
      // The successor and the access token are the presented row's family, device and user once more.
      ensures row.device in tvs.versions && old(Unused(h)) ==>
                && r.Granted? && r.device == row.device && r.pair.refresh !in old(ids.used)
                && r.pair.access
                   == Jwt(row.user, row.device, tvs.versions[row.device], (clock.now + cfg.accessTTL) / 1000)
                && signer.issued == old(signer.issued) + {r.pair.access}
                && refreshes.rows
                   == old(refreshes.rows)[h := old(refreshes.rows)[h].(used := true)]
                      [Sha256(r.pair.refresh) := Row(row.family, row.device, row.user, false, false, clock.now / 1000,
                                                     (clock.now + cfg.refreshTTL) / 1000)]
      ensures row.device in tvs.versions && old(Unused(h)) ==>
                && (forall t: nat :: Get(replays.entries, h, t) == if t < clock.now + cfg.grace then Some(r.pair)
                    else None)
                && (forall d | d in devices.devices ::
                      devices.devices[d] == if d == row.device then Device(old(devices.devices)[d].user,
                                                                           clock.now / 1000)
                                            else old(devices.devices)[d])
    {
      var version := tvs.Current(row.device);
      if version.None? { return InvalidGrant; }
      var now := clock.now;
      var newPlain := ids.New();
      var flipped := refreshes.MarkUsedIfUnused(h);
      if !flipped {
        assert refreshes.rows == old(refreshes.rows);
        var pair := replays.Get(h, clock.now);
        return if pair.Some? then Granted(pair.value, row.device) else InvalidGrant;
      }
      assert refreshes.rows == MarkUsed(old(refreshes.rows), h);
      refreshes.Create(Sha256(newPlain), NewRow(cfg, row.family, row.device, row.user, now));
      devices.UpdateLastActive(row.device, Unix(now));
      var access := signer.Issue(cfg, row.user, row.device, version.value, clock.now);
      var pair := Pair(access, newPlain);
      replays.Save(h, pair, clock.now);
      return Granted(pair, row.device);
    }

    /** The guard of the conditional update. */
    predicate Unused(h: Hash)
      reads refreshes
    {
      h in refreshes.rows && !refreshes.rows[h].used
    }

    method ReplayOrTheft(h: Hash, row: Row) returns (r: Outcome)
      requires Valid()
      modifies refreshes, tvs
      ensures Valid() && (View(), r) == TokenStore.ReplayOrTheft(old(View()), h, row)
      ensures r.Granted? <==> h in replays.entries && clock.now < replays.entries[h].expiry
      ensures r.Granted? ==> r == Granted(replays.entries[h].value, row.device) && View() == old(View())
      // Otherwise exactly the family is revoked, and its device's access tokens fall behind.
      ensures !r.Granted? ==>
                && r == InvalidGrant && refreshes.rows.Keys == old(refreshes.rows).Keys
                && (forall k | k in refreshes.rows ::
                      refreshes.rows[k] == if old(refreshes.rows)[k].family == row.family
                                           then old(refreshes.rows)[k].(revoked := true) else old(refreshes.rows)[k])
                && tvs.versions.Keys == old(tvs.versions).Keys + {row.device}
                && (forall d | d in old(tvs.versions) ::
                      tvs.versions[d] == old(tvs.versions)[d] + if d == row.device then 1 else 0)
    {
      var pair := replays.Get(h, clock.now);
      if pair.Some? { return Granted(pair.value, row.device); }
      refreshes.RevokeFamily(row.family);
      var _ := tvs.Bump(row.device);
      return InvalidGrant;
    }
  }

  datatype RevokeResult = Done | DeviceNotFound

  /** Revocation; svc names the tables it shares with the OAuth service. */
  class DeviceService {
    const svc: OAuthService

    constructor (svc: OAuthService)
      ensures this.svc == svc
    {
      this.svc := svc;
    }

    method Revoke(d: Id)
      modifies svc.refreshes, svc.tvs
      ensures svc.View() == TokenStore.RevokeDevice(old(svc.View()), d)
      ensures svc.refreshes.rows.Keys == old(svc.refreshes.rows).Keys
      ensures forall k | k in svc.refreshes.rows :: var row := old(svc.refreshes.rows)[k];
                svc.refreshes.rows[k] == if row.device == d then row.(revoked := true) else row
      ensures svc.tvs.versions.Keys == old(svc.tvs.versions).Keys + {d}
      ensures forall e | e in old(svc.tvs.versions) ::
                svc.tvs.versions[e] == old(svc.tvs.versions)[e] + if e == d then 1 else 0
    {
      svc.refreshes.RevokeByDevice(d);
      var _ := svc.tvs.Bump(d);
    }

    /** An unknown token is a silent success. */
    method LogoutByRefreshToken(token: Id)
      modifies svc.refreshes, svc.tvs
      ensures var rows := old(svc.refreshes.rows); var h := Sha256(token);
              svc.View() == if token != NO_TOKEN && h in rows
                            then TokenStore.RevokeDevice(old(svc.View()), rows[h].device) else old(svc.View())
    {
      if token == NO_TOKEN { return; }
      var row := svc.refreshes.FindByHash(Sha256(token));
      if row.Some? {
        Revoke(row.value.device);
      }
    }

    /** Only its owner can revoke a device. */
    method RevokeDevice(user: Id, target: Id) returns (r: RevokeResult)
      modifies svc.refreshes, svc.tvs
      ensures r.Done? <==> target in svc.devices.devices && svc.devices.devices[target].user == user
      ensures svc.View() == if r.Done? then TokenStore.RevokeDevice(old(svc.View()), target) else old(svc.View())
    {
      if target !in svc.devices.devices || svc.devices.devices[target].user != user {
        return DeviceNotFound;
      }
      Revoke(target);
      return Done;
    }
  }

  datatype AuthResult = Public | Passed(sub: Id, device: Id) | Unauthorized | RevokedDevice

  /** The middleware: public paths pass, then the token must verify, then its version must be
      the device's current one. */
  method JwtAuth(svc: OAuthService, publicPaths: seq<string>, path: string, bearer: Option<Jwt>)
    returns (r: AuthResult)
    ensures r.Public? <==> path in publicPaths
    ensures r.Unauthorized? <==> path !in publicPaths && (bearer.None? || !Verifies(svc.View(), bearer.value))
    ensures r.Passed? <==> path !in publicPaths && bearer.Some? && Accepts(svc.View(), bearer.value)
    ensures r.Passed? ==> r == Passed(bearer.value.user, bearer.value.device)
    // A token is accepted exactly if it was signed here, its last second has not begun, and it
    // carries its device's current version.
    ensures r.Passed? <==>
              && path !in publicPaths && bearer.Some? && bearer.value in svc.signer.issued
              && svc.clock.now < bearer.value.expiresAt * 1000
              && bearer.value.device in svc.tvs.versions
              && svc.tvs.versions[bearer.value.device] == bearer.value.version
  {
    var public: set<string> := {};
    for i := 0 to |publicPaths|
      invariant public == set p | p in publicPaths[..i]
    {
      public := public + {publicPaths[i]};
    }
    if path in public { return Public; }
    if bearer.None? { return Unauthorized; }
    var ok := svc.signer.Verify(bearer.value, svc.clock.now);
    if !ok { return Unauthorized; }
    var current := svc.tvs.Current(bearer.value.device);
    if current.None? || current.value != bearer.value.version { return RevokedDevice; }
    return Passed(bearer.value.user, bearer.value.device);
  }
}
