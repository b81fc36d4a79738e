/** The virtual-key service run by one request at a time, with any of its outside calls
    failing, and the self-healing retry built on it. */
module VirtualKeyService {
  import opened Redis
  import opened VirtualKeyMachine

  type User = nat

  /** The empty user id, which is refused. */
  const NO_USER: User := 0

  const LOCK_TTL: nat := 10_000
  const LOCK_RETRY: nat := 50
  const LOCK_MAX_WAIT: nat := 3_000

  datatype Team = Team(alias: string, id: string)

  /** Which outside calls fail during one service call. */
  datatype Faults = Faults(
    cacheGet: bool, cacheSet: bool, cacheDel: bool,
    lookUp: bool, recheck: bool, requery: bool, write: bool,
    list: bool, generate: bool, delete: bool, lock: bool)

  class VKeyCache {
    var entries: map<User, Key>

    constructor ()
      ensures entries == map[]
    {
      entries := map[];
    }

    method Get(u: User, fails: bool) returns (key: Option<Key>)
      ensures key == if !fails && u in entries then Some(entries[u]) else None
    {
      key := if !fails && u in entries then Some(entries[u]) else None;
    }

    method Set(u: User, key: Key, fails: bool)
      modifies this
      ensures entries == if fails then old(entries) else old(entries)[u := key]
    {
      if !fails { entries := entries[u := key]; }
    }

    method Del(u: User, fails: bool)
      modifies this
      ensures entries == if fails then old(entries) else old(entries) - {u}
    {
      if !fails { entries := entries - {u}; }
    }
  }

  class UserVirtualKeyDAO {
    var rows: map<User, Row>

    constructor ()
      ensures rows == map[]
    {
      rows := map[];
    }

    method GetByUserUUID(u: User) returns (row: Option<Row>)
      ensures row == if u in rows then Some(rows[u]) else None
    {
      row := if u in rows then Some(rows[u]) else None;
    }

    /** The first insert for a user wins; a later one changes nothing and says so. */
    method Create(u: User, key: Key) returns (inserted: bool)
      modifies this
      ensures inserted <==> u !in old(rows)
      ensures rows == if inserted then old(rows)[u := Row(key, true)] else old(rows)
    {
      inserted := u !in rows;
      if inserted { rows := rows[u := Row(key, true)]; }
    }

    method Replace(u: User, key: Key)
      modifies this
      ensures rows == if u in old(rows) then old(rows)[u := Row(key, true)] else old(rows)
    {
      if u in rows { rows := rows[u := Row(key, true)]; }
    }
  }

  /** The key server: live is the set of keys it accepts. */
  class AdminClient {
    var live: set<Key>
    var next: Key
    var teams: seq<Team>

    ghost predicate Valid()
      reads this
    {
      forall k | k in live :: k < next
    }

    constructor (teams: seq<Team>)
      ensures Valid() && live == {} && this.teams == teams
    {
      live, next, this.teams := {}, 1, teams;
    }

    method GenerateKey() returns (key: Key)
      requires Valid()
      modifies this
      ensures Valid() && teams == old(teams) && key == old(next) && next == key + 1
      ensures key !in old(live) && live == old(live) + {key}
    {
      key := next;
      live, next := live + {key}, next + 1;
    }

    method DeleteKey(key: Key, fails: bool)
      requires Valid()
      modifies this
      ensures Valid() && teams == old(teams) && next == old(next)
      ensures live == if fails then old(live) else old(live) - {key}
    {
      if !fails { live := live - {key}; }
    }
  }

  class VKeyLocker {
    var now: nat
    var locks: map<User, Entry<()>>

    constructor (now: nat)
      ensures this.now == now && locks == map[]
    {
      this.now, locks := now, map[];
    }

    method Acquire(u: User) returns (ok: bool)
      modifies this
      ensures now == old(now) && (ok <==> !Live(old(locks), u, now))
      ensures locks == if ok then SetEx(old(locks), u, (), now, LOCK_TTL) else old(locks)
    {
      ok := !Live(locks, u, now);
      if ok { locks := SetEx(locks, u, (), now, LOCK_TTL); }
    }

    method Release(u: User)
      modifies this
      ensures now == old(now) && locks == Redis.Del(old(locks), u)
    {
      locks := Redis.Del(locks, u);
    }

    method Sleep(ms: nat)
      modifies this
      ensures now == old(now) + ms && locks == old(locks)
    {
      now := now + ms;
    }
  }

  class Service {
    const repo: UserVirtualKeyDAO
    const admin: AdminClient
    const cache: VKeyCache
    const locker: VKeyLocker
    const defaultTeamAlias: string

    constructor (repo: UserVirtualKeyDAO, admin: AdminClient, cache: VKeyCache, locker: VKeyLocker, alias: string)
      ensures this.repo == repo && this.admin == admin && this.cache == cache && this.locker == locker
      ensures this.defaultTeamAlias == alias
    {
      this.repo, this.admin, this.cache, this.locker := repo, admin, cache, locker;
      this.defaultTeamAlias := alias;
    }

    /** Every stored or cached key was generated by the key server. */
    ghost predicate Valid()
      reads repo, admin, cache
    {
      && admin.Valid()
      && (forall u | u in repo.rows :: repo.rows[u].key < admin.next)
      && (forall u | u in cache.entries :: cache.entries[u] < admin.next)
    }

    /** The team id iff exactly one team carries the configured alias. */
    method ResolveTeamID(listFails: bool) returns (id: Option<string>)
      ensures id.Some? <==>
                !listFails
                && exists i | 0 <= i < |admin.teams| ::
                     admin.teams[i].alias == defaultTeamAlias
                     && forall j | 0 <= j < |admin.teams| :: admin.teams[j].alias == defaultTeamAlias ==> j == i
      ensures id.Some? ==> exists i | 0 <= i < |admin.teams| ::
                admin.teams[i].alias == defaultTeamAlias && id.value == admin.teams[i].id
    {
      if listFails { return None; }
      var matched: seq<nat> := [];
      for i := 0 to |admin.teams|
        invariant forall m | 0 <= m < |matched| :: matched[m] < i && admin.teams[matched[m]].alias == defaultTeamAlias
        invariant forall m, n | 0 <= m < n < |matched| :: matched[m] != matched[n]
        invariant forall j | 0 <= j < i && admin.teams[j].alias == defaultTeamAlias :: j in matched
      {
        if admin.teams[i].alias == defaultTeamAlias {
          matched := matched + [i];
        }
      }
      if |matched| == 1 {
        assert forall j | 0 <= j < |admin.teams| && admin.teams[j].alias == defaultTeamAlias :: j == matched[0];
        return Some(admin.teams[matched[0]].id);
      }
      if |matched| > 1 {
        assert admin.teams[matched[0]].alias == admin.teams[matched[1]].alias && matched[0] != matched[1];
      }
      return None;
    }

    /** Polls for the lock; a refusal only means the work goes ahead without it. */
    method TryLock(u: User, fails: bool) returns (ok: bool)
      modifies locker
      ensures locker.now >= old(locker.now)
      ensures ok <==> !fails && !Live(old(locker.locks), u, locker.now)
      ensures locker.locks == if ok then SetEx(old(locker.locks), u, (), locker.now, LOCK_TTL) else old(locker.locks)
      ensures !ok && !fails ==> locker.now > old(locker.now) + 3_000
      ensures ok ==> u in locker.locks && locker.locks[u].expiry == locker.now + 10_000
    {
      if fails { return false; }
      var deadline := locker.now + LOCK_MAX_WAIT;
      ok := locker.Acquire(u);
      while !ok && locker.now <= deadline
        invariant old(locker.now) <= locker.now
        invariant ok <==> !Live(old(locker.locks), u, locker.now)
        invariant locker.locks
                  == if ok then SetEx(old(locker.locks), u, (), locker.now, LOCK_TTL) else old(locker.locks)
        decreases deadline + LOCK_RETRY - locker.now, !ok
      {
        locker.Sleep(LOCK_RETRY);
        ok := locker.Acquire(u);
      }
    }

    /** Whether a key can be generated at all. */
    ghost predicate CanSign(f: Faults)
      reads admin
    {
      && !f.list && !f.generate
      && exists i | 0 <= i < |admin.teams| ::
           admin.teams[i].alias == defaultTeamAlias
           && forall j | 0 <= j < |admin.teams| :: admin.teams[j].alias == defaultTeamAlias ==> j == i
    }

    method Sign(f: Faults) returns (key: Option<Key>)
      requires admin.Valid()
      modifies admin
      ensures admin.Valid() && admin.teams == old(admin.teams)
      ensures key.Some? <==> old(CanSign(f))
      ensures key.Some? <==>
                && !f.list && !f.generate
                && exists i | 0 <= i < |admin.teams| ::
                     admin.teams[i].alias == defaultTeamAlias
                     && forall j | 0 <= j < |admin.teams| :: admin.teams[j].alias == defaultTeamAlias ==> j == i
      ensures key.Some? ==> key.value !in old(admin.live) && admin.live == old(admin.live) + {key.value}
      ensures key.Some? ==> key.value == old(admin.next) && admin.next == key.value + 1
      ensures key.None? ==> admin.live == old(admin.live) && admin.next == old(admin.next)
    {
      var team := ResolveTeamID(f.list);
      if team.None? || f.generate { return None; }
      var k := admin.GenerateKey();
      return Some(k);
    }

    /** Stores a freshly signed key.  Losing to an existing row deletes the new key and answers
        with the row's. */
    method PersistFirst(u: User, key: Key, f: Faults) returns (r: Result)
      requires Valid() && key < admin.next
      modifies repo, admin, cache
      ensures Valid() && admin.teams == old(admin.teams) && admin.next == old(admin.next)
      ensures repo.rows == if f.write || u in old(repo.rows) then old(repo.rows)
                           else old(repo.rows)[u := Row(key, true)]
      ensures r.Got? <==> !f.write && (u !in old(repo.rows) || (!f.requery && old(repo.rows)[u].active))
      ensures r.Got? ==> u in repo.rows && repo.rows[u] == Row(r.key, true)
      ensures u !in old(repo.rows) && r.Got? ==> admin.live == old(admin.live) && r.key == key
      ensures u in old(repo.rows) || r.Error? ==>
                admin.live == if f.delete then old(admin.live) else old(admin.live) - {key}
      ensures cache.entries == if r.Got? && !f.cacheSet then old(cache.entries)[u := r.key] else old(cache.entries)
    {
      if f.write {
        admin.DeleteKey(key, f.delete);
        return Error;
      }
      var inserted := repo.Create(u, key);
      if !inserted {
        admin.DeleteKey(key, f.delete);
        var row := repo.GetByUserUUID(u);
        if f.requery || row.None? || !row.value.active { return Error; }
        cache.Set(u, row.value.key, f.cacheSet);
        return Got(row.value.key);
      }
      cache.Set(u, key, f.cacheSet);
      return Got(key);
    }

    /** What one GetOrCreateVirtualKey call does when nothing runs beside it. */
    method GetOrCreateVirtualKey(u: User, f: Faults) returns (r: Result)
      requires Valid()
      modifies repo, admin, cache, locker
      ensures Valid() && admin.teams == old(admin.teams) && admin.next >= old(admin.next)
      ensures u == NO_USER ==> r.Error?
      // A cache hit is returned as it is.
      ensures u != NO_USER && !f.cacheGet && u in old(cache.entries) ==>
                r == Got(old(cache.entries)[u]) && repo.rows == old(repo.rows) && admin.live == old(admin.live)
                && cache.entries == old(cache.entries)
      // Otherwise the answer is the row's key, and a usable row is not touched.
      ensures r.Got? && !(!f.cacheGet && u in old(cache.entries)) ==>
                u in repo.rows && repo.rows[u] == Row(r.key, true)
                && (u in old(repo.rows) && old(repo.rows)[u].active
                    ==> repo.rows == old(repo.rows) && admin.live == old(admin.live))
      // What it answers after a miss it also puts in the cache, if that command gets through.
      ensures r.Got? && !(!f.cacheGet && u in old(cache.entries)) ==>
                cache.entries == if f.cacheSet then old(cache.entries) else old(cache.entries)[u := r.key]
      ensures r.Error? ==> cache.entries == old(cache.entries)
      // Nobody else's row or cache entry changes.
      ensures forall v | v != u :: v in repo.rows <==> v in old(repo.rows)
      ensures forall v | v != u && v in repo.rows :: repo.rows[v] == old(repo.rows)[v]
      ensures forall v | v != u :: v in cache.entries <==> v in old(cache.entries)
      ensures forall v | v != u && v in cache.entries :: cache.entries[v] == old(cache.entries)[v]
      // A call that fails leaves no key behind, and one that signs adds just the row's.
      ensures r.Error? ==> repo.rows == old(repo.rows) && (!f.delete ==> admin.live == old(admin.live))
      ensures r.Got? ==> admin.live == old(admin.live) || admin.live == old(admin.live) + {r.key}
      // It succeeds exactly on a hit, on a row that is usable, or by signing a key and storing it.
      ensures r.Got? <==>
                u != NO_USER
                && ((!f.cacheGet && u in old(cache.entries))
                    || (!f.lookUp && (old(Usable(u)) || (!f.recheck && old(CanSign(f)) && !f.write))))
      ensures old(Usable(u)) ==> repo.rows == old(repo.rows) && admin.live == old(admin.live)
      // A key is signed exactly when neither the cache nor the row has one.
      ensures r.Got? && !(!f.cacheGet && u in old(cache.entries))
              && !(u in old(repo.rows) && old(repo.rows)[u].active) ==>
                && r.key !in old(admin.live) && admin.live == old(admin.live) + {r.key}
                && repo.rows == old(repo.rows)[u := Row(r.key, true)]
    {
      if u == NO_USER { return Error; }
      var hit := cache.Get(u, f.cacheGet);
      if hit.Some? { return Got(hit.value); }
      if f.lookUp { return Error; }
      var row := repo.GetByUserUUID(u);
      if row.Some? && row.value.active {
        cache.Set(u, row.value.key, f.cacheSet);
        return Got(row.value.key);
      }
      r := SignUnderLock(u, f);
    }

    /** Whether the user's row can be used as it is. */
    ghost predicate Usable(u: User)
      reads repo
    {
      u in repo.rows && repo.rows[u].active
    }

    /** Signs a key into the user's unusable row, or into a new one. */
    method SignInto(u: User, present: bool, f: Faults) returns (r: Result)
      requires Valid() && !Usable(u) && (present <==> u in repo.rows)
      modifies repo, admin, cache
      ensures Valid() && admin.teams == old(admin.teams) && admin.next >= old(admin.next)
      ensures r.Got? <==> old(CanSign(f)) && !f.write
      ensures repo.rows == if r.Got? then old(repo.rows)[u := Row(r.key, true)] else old(repo.rows)
      ensures cache.entries == if r.Got? && !f.cacheSet then old(cache.entries)[u := r.key] else old(cache.entries)
      ensures r.Got? ==> r.key !in old(admin.live) && admin.live == old(admin.live) + {r.key}
      ensures r.Error? && !f.delete ==> admin.live == old(admin.live)
    {
      var gen := Sign(f);
      if gen.None? { return Error; }
      if !present {
        r := PersistFirst(u, gen.value, f);
      } else if f.write {
        admin.DeleteKey(gen.value, f.delete);
        r := Error;
      } else {
        repo.Replace(u, gen.value);
        cache.Set(u, gen.value, f.cacheSet);
        r := Got(gen.value);
      }
    }

    /** A row that has become usable while the lock was awaited is answered as it is; otherwise a
        fresh key is signed into it. */
    method SignUnderLock(u: User, f: Faults) returns (r: Result)
      requires Valid()
      modifies repo, admin, cache, locker
      ensures Valid() && admin.teams == old(admin.teams) && admin.next >= old(admin.next)
      ensures r.Got? <==> !f.recheck && (old(Usable(u)) || (old(CanSign(f)) && !f.write))
      ensures repo.rows == if r.Got? then old(repo.rows)[u := Row(r.key, true)] else old(repo.rows)
      ensures cache.entries == if r.Got? && !f.cacheSet then old(cache.entries)[u := r.key] else old(cache.entries)
      ensures r.Got? && old(Usable(u)) ==> repo.rows == old(repo.rows) && admin.live == old(admin.live)
      ensures r.Got? && !old(Usable(u)) ==> r.key !in old(admin.live) && admin.live == old(admin.live) + {r.key}
      ensures r.Error? && !f.delete ==> admin.live == old(admin.live)
    {
      var acquired := TryLock(u, f.lock);
      r := Error;
      if !f.recheck {
        var row := repo.GetByUserUUID(u);
        if row.Some? && row.value.active {
          cache.Set(u, row.value.key, f.cacheSet);
          r := Got(row.value.key);
        } else {
          r := SignInto(u, row.Some?, f);
        }
      }
      if acquired { locker.Release(u); }
    }

    /** Overwrites the row in place, then deletes the key it held. */
    method Displace(u: User, dead: Key, key: Key, f: Faults) returns (r: Result)
      requires Valid() && key < admin.next && u in repo.rows
      modifies repo, admin, cache
      ensures Valid() && admin.teams == old(admin.teams) && admin.next == old(admin.next)
      ensures r == if f.write then Error else Got(key)
      ensures repo.rows == if f.write then old(repo.rows) else old(repo.rows)[u := Row(key, true)]
      ensures admin.live == if f.delete || (!f.write && dead == key) then old(admin.live)
                            else old(admin.live) - {if f.write then key else dead}
      ensures cache.entries == if f.write || f.cacheSet then old(cache.entries) else old(cache.entries)[u := key]
    {
      if f.write {
        admin.DeleteKey(key, f.delete);
        return Error;
      }
      repo.Replace(u, key);
      if dead != key {
        admin.DeleteKey(dead, f.delete);
      }
      cache.Set(u, key, f.cacheSet);
      return Got(key);
    }

    /** Rotation: a fresh key takes over the row, the old one is deleted, and the cache no
        longer holds the old one if either of its two commands got through. */
    method RevokeAndRegenerate(u: User, f: Faults) returns (r: Result)
      requires Valid()
      modifies repo, admin, cache, locker
      ensures Valid() && admin.teams == old(admin.teams) && admin.next >= old(admin.next)
      ensures r.Got? <==> u != NO_USER && !f.recheck && old(CanSign(f)) && !f.write
      ensures repo.rows == if r.Got? then old(repo.rows)[u := Row(r.key, true)] else old(repo.rows)
      ensures r.Got? ==>
                && r.key !in old(admin.live) && r.key == old(admin.next)
                && admin.live == old(admin.live) + {r.key}
                                 - (if u in old(repo.rows) && !f.delete then {old(repo.rows)[u].key} else {})
                && cache.entries == (if !f.cacheSet then old(cache.entries)[u := r.key]
                                     else if !f.cacheDel then old(cache.entries) - {u}
                                     else old(cache.entries))
      ensures r.Error? && !f.delete ==> admin.live == old(admin.live)
      ensures admin.live <= old(admin.live) + {old(admin.next)}
    {
      if u == NO_USER { return Error; }
      var acquired := TryLock(u, f.lock);
      cache.Del(u, f.cacheDel);
      r := Error;
      if !f.recheck {
        var was := repo.GetByUserUUID(u);
        var gen := Sign(f);
        if gen.Some? {
          if was.None? {
            r := PersistFirst(u, gen.value, f);
          } else {
            r := Displace(u, was.value.key, gen.value, f);
          }
        }
      }
      if acquired { locker.Release(u); }
    }
  }

  /** One forwarded request: the keys it was sent with, and whether the last was accepted. */
  datatype Forwarded = Forwarded(tried: seq<Key>, accepted: bool) | Unavailable

  /** The key a request is first sent with: the cached one if it can be read, the usable row's, or one just
      signed, which is live. */
  method ResolveKey(svc: Service, u: User, f: Faults) returns (r: Result)
    requires svc.Valid()
    modifies svc.repo, svc.admin, svc.cache, svc.locker
    ensures svc.Valid() && svc.admin.teams == old(svc.admin.teams)
    ensures var cached, usable := !f.cacheGet && u in old(svc.cache.entries), old(svc.Usable(u));
            && (r.Got? <==>
                  u != NO_USER && (cached || (!f.lookUp
                                              && (usable || (!f.recheck && old(svc.CanSign(f)) && !f.write)))))
            && (r.Got? && cached ==> r.key == old(svc.cache.entries)[u])
            && (r.Got? && !cached && usable ==> r.key == old(svc.repo.rows)[u].key)
            && (r.Got? && !cached && !usable ==> r.key in svc.admin.live)
            && (r.Got? && (cached || usable) ==> svc.admin.live == old(svc.admin.live))
    ensures r.Got? ==>
              && r.key < svc.admin.next
              && (u in svc.cache.entries <==> u in old(svc.cache.entries) || !f.cacheSet)
              && (u in svc.cache.entries && !(u in old(svc.cache.entries) && f.cacheGet && f.cacheSet) ==>
                    svc.cache.entries[u] == r.key)
  {
    r := svc.GetOrCreateVirtualKey(u, f);
  }

  /** The rotation after a refusal, and the key the retry is then made with: the new one, unless both of
      the rotation's cache commands failed and an entry is left that can be read. */
  method RotateAndResolve(svc: Service, u: User, heal: Faults, again: Faults) returns (rotated: Result, retry: Result)
    requires svc.Valid()
    modifies svc.repo, svc.admin, svc.cache, svc.locker
    ensures svc.Valid() && svc.admin.teams == old(svc.admin.teams)
    ensures rotated.Got? <==> u != NO_USER && !heal.recheck && old(svc.CanSign(heal)) && !heal.write
    ensures rotated.Error? ==> retry.Error?
    ensures svc.admin.live <= old(svc.admin.live) + {old(svc.admin.next)}
    ensures rotated.Got? ==>
              && rotated.key !in old(svc.admin.live) && rotated.key == old(svc.admin.next)
              && u in svc.repo.rows && svc.repo.rows[u] == Row(rotated.key, true)
              && rotated.key in svc.admin.live
    ensures rotated.Got? ==>
              var left := heal.cacheDel && heal.cacheSet && u in old(svc.cache.entries);
              && (retry.Got? <==> !again.lookUp || (!again.cacheGet && (left || !heal.cacheSet)))
              && (retry.Got? ==> retry.key == if left && !again.cacheGet then old(svc.cache.entries)[u]
                  else rotated.key)
  {
    rotated := svc.RevokeAndRegenerate(u, heal);
    if rotated.Error? { return rotated, Error; }
    retry := svc.GetOrCreateVirtualKey(u, again);
  }

  /** One-shot self-healing.  The server answers 401 to a dead key and only then is the key
      rotated, once; fs gives the failures of the first resolution, the rotation and the retry. */
  method ForwardChat(svc: Service, u: User, first: Faults, heal: Faults, again: Faults) returns (r: Forwarded)
    requires svc.Valid()
    modifies svc.repo, svc.admin, svc.cache, svc.locker
    ensures svc.Valid()
    ensures r.Forwarded? ==> 1 <= |r.tried| <= 2
    // The last key tried is accepted exactly if it is live, and a second is tried only after a dead one.
    ensures r.Forwarded? ==> (r.accepted <==> r.tried[|r.tried| - 1] in svc.admin.live)
    ensures r.Forwarded? && |r.tried| == 2 ==> r.tried[0] !in svc.admin.live
    // The retry is made with the rotated key, except exactly when both cache commands of the
    // rotation failed, the cache can be read again, and the refused key was in it.
    ensures r.Forwarded? && |r.tried| == 2 ==>
              (u in svc.repo.rows && svc.repo.rows[u] == Row(r.tried[1], true)
               <==> !(heal.cacheDel && heal.cacheSet && !again.cacheGet
                      && (u in old(svc.cache.entries) || !first.cacheSet)))
    // A retry is made with the rotated key, which is live, unless both cache commands failed.
    ensures r.Forwarded? && |r.tried| == 2 && (!heal.cacheDel || !heal.cacheSet) ==>
              && r.accepted && r.tried[1] != r.tried[0]
              && u in svc.repo.rows && svc.repo.rows[u] == Row(r.tried[1], true)
    // If both failed, a cached dead key that can be read is what the retry is made with again.
    ensures r.Forwarded? && |r.tried| == 2 && heal.cacheDel && heal.cacheSet
            && u in old(svc.cache.entries) && !first.cacheGet && !again.cacheGet ==>
              r.tried[1] == r.tried[0] && !r.accepted
    // No key at all exactly if the first resolution fails, or its key is dead, the rotation succeeds and
    // the second resolution can read neither the row nor an entry of the cache.
    ensures r.Unavailable? <==>
              var cached, usable := !first.cacheGet && u in old(svc.cache.entries), old(svc.Usable(u));
              || u == NO_USER
              || (!cached && (first.lookUp || (!usable && (first.recheck || !old(svc.CanSign(first)) || first.write))))
              || ((if cached then old(svc.cache.entries)[u] !in old(svc.admin.live)
                   else usable && old(svc.repo.rows)[u].key !in old(svc.admin.live))
                  && !heal.recheck && old(svc.CanSign(heal)) && !heal.write && again.lookUp
                  && (again.cacheGet
                      || (heal.cacheSet
                          && (!heal.cacheDel || (u !in old(svc.cache.entries) && first.cacheSet)))))
    // A single attempt that was refused means the rotation failed.
    ensures r.Forwarded? && |r.tried| == 1 && !r.accepted ==>
              u == NO_USER || heal.recheck || heal.write || !svc.CanSign(heal)
  {
    var key := ResolveKey(svc, u, first);
    if key.Error? { return Unavailable; }
    if key.key in svc.admin.live { return Forwarded([key.key], true); }
    var healed, retry := RotateAndResolve(svc, u, heal, again);
    if healed.Error? { return Forwarded([key.key], false); }
    if retry.Error? { return Unavailable; }
    return Forwarded([key.key, retry.key], retry.key in svc.admin.live);
  }
}
