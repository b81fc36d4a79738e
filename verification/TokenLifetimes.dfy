/** Whole requests, one at a time: how long a token is good for, to the second, what every request
    that presents one is answered, and whose the tokens are. */
module TokenLifetimes {
  import opened Redis
  import opened TokenStore
  import opened DeadStaysDead

  // ---- what one request leaves of a row ----

  predicate SameRow(a: Row, b: Row) {
    && a.family == b.family && a.device == b.device && a.user == b.user
    && a.lastUsedAt == b.lastUsedAt && a.expiresAt == b.expiresAt
    && (a.used ==> b.used) && (a.revoked ==> b.revoked)
  }

  lemma RefreshKeepsRow(cfg: Config, st: Store, token: Id, next: Id, h: Hash)
    requires Inv(st) && next !in st.ids && h in st.rows
    ensures var rows := Refresh(cfg, st, token, next).0.rows; h in rows && SameRow(st.rows[h], rows[h])
  {
    RefreshMeans(cfg, st, token, next);
  }

  /** A row is never removed, and only its two flags ever change, from false to true. */
  lemma RowStays(cfg: Config, st: Store, r: Request, h: Hash)
    requires Inv(st) && Valid(st, r) && h in st.rows
    ensures h in Apply(cfg, st, r).0.rows && SameRow(st.rows[h], Apply(cfg, st, r).0.rows[h])
  {
    if r.RefreshToken? { RefreshKeepsRow(cfg, st, r.token, r.next, h); }
  }

  /** The row in one state is the row in another, a later one. */
  predicate Stays(st: Store, st': Store, h: Hash) {
    h in st.rows && h in st'.rows && SameRow(st.rows[h], st'.rows[h])
  }

  lemma StaysOn(st: Store, st': Store, st'': Store, h: Hash)
    requires Stays(st, st', h) && Stays(st', st'', h)
    ensures Stays(st, st'', h)
  {
  }

  lemma RowStaysAt(cfg: Config, sts: seq<Store>, rs: seq<Request>, i: nat, h: Hash)
    requires Run(cfg, sts, rs) && i < |rs| && h in sts[i].rows
    ensures Stays(sts[i], sts[i + 1], h)
  {
    Reachable(cfg, sts, rs, i);
    RowStays(cfg, sts[i], rs[i], h);
  }

  lemma {:induction false} RowsStay(cfg: Config, sts: seq<Store>, rs: seq<Request>, j: nat, k: nat, h: Hash)
    requires Run(cfg, sts, rs) && j <= k < |sts| && h in sts[j].rows
    ensures Stays(sts[j], sts[k], h)
    decreases k
  {
    if j < k {
      RowsStay(cfg, sts, rs, j, k - 1, h);
      RowStaysAt(cfg, sts, rs, k - 1, h);
      StaysOn(sts[j], sts[k - 1], sts[k], h);
    }
  }

  // ---- the pairs kept for replay ----

  /** A pair is kept for a used token, and its refresh token has a row of the same device. */
  ghost predicate KeptPairs(st: Store) {
    forall h | h in st.replays ::
      && h in st.rows && st.rows[h].used
      && Sha256(st.replays[h].value.refresh) in st.rows
  }

  lemma KeptPairsStep(cfg: Config, st: Store, r: Request)
    requires Inv(st) && Valid(st, r) && KeptPairs(st)
    ensures KeptPairs(Apply(cfg, st, r).0)
  {
    var st' := Apply(cfg, st, r).0;
    if r.RefreshToken? { RefreshMeans(cfg, st, r.token, r.next); }
    forall h | h in st'.replays
      ensures h in st'.rows && st'.rows[h].used && Sha256(st'.replays[h].value.refresh) in st'.rows
    {
      if h in st.replays && st'.replays[h] == st.replays[h] {
        RowStays(cfg, st, r, h);
        RowStays(cfg, st, r, Sha256(st.replays[h].value.refresh));
      }
    }
  }

  lemma {:induction false} PairsAreKept(cfg: Config, sts: seq<Store>, rs: seq<Request>, i: nat)
    requires Run(cfg, sts, rs) && i < |sts|
    ensures Inv(sts[i]) && KeptPairs(sts[i])
    decreases i
  {
    Reachable(cfg, sts, rs, i);
    if i > 0 {
      PairsAreKept(cfg, sts, rs, i - 1);
      KeptPairsStep(cfg, sts[i - 1], rs[i - 1]);
    }
  }

  // ---- first handed out, first presented ----

  /** The request is answered with a pair whose refresh token nobody had before. */
  predicate Mints(cfg: Config, st: Store, r: Request, pair: Pair) {
    Apply(cfg, st, r).1 == Tokens(pair) && Sha256(pair.refresh) !in st.rows
  }

  lemma MintedRow(cfg: Config, st: Store, r: Request, pair: Pair)
    requires Inv(st) && KeptPairs(st) && Valid(st, r) && Mints(cfg, st, r, pair)
    ensures var st' := Apply(cfg, st, r).0; var h := Sha256(pair.refresh);
            && h in st'.rows && !st'.rows[h].used && !st'.rows[h].revoked
            && st'.rows[h].expiresAt == (if r.Authorize? then st.now / 1000 + cfg.refreshTTL / 1000
                                         else (st.now + cfg.refreshTTL) / 1000)
            && pair.access in st'.issued && pair.access.expiresAt == (st.now + cfg.accessTTL) / 1000
            && pair.access.device in st'.versions && st'.versions[pair.access.device] == pair.access.version
  {
    if r.RefreshToken? { RefreshMeans(cfg, st, r.token, r.next); }
  }

  /** Step i answered the token by rotating it. */
  predicate RotatedAt(cfg: Config, sts: seq<Store>, rs: seq<Request>, i: nat, token: Id)
    requires |sts| == |rs| + 1
  {
    && i < |rs| && rs[i].RefreshToken? && rs[i].token == token
    && Sha256(token) in sts[i].rows && !sts[i].rows[Sha256(token)].used
    && Apply(cfg, sts[i], rs[i]).1.Tokens?
  }

  /** The pair step i answered with is kept until the grace window is over. */
  predicate KeptFrom(cfg: Config, sts: seq<Store>, rs: seq<Request>, i: nat, k: nat, h: Hash)
    requires |sts| == |rs| + 1 && k < |sts|
  {
    && RotatedAt(cfg, sts, rs, i, h.plain) && i < k && h in sts[k].replays
    && sts[k].replays[h] == Entry(Apply(cfg, sts[i], rs[i]).1.pair, sts[i].now + cfg.grace)
  }

  lemma RotationIsKept(cfg: Config, st: Store, r: Request, h: Hash)
    requires Inv(st) && Valid(st, r) && h in Apply(cfg, st, r).0.rows && Apply(cfg, st, r).0.rows[h].used
    ensures h in st.rows
    ensures !st.rows[h].used ==>
              && r.RefreshToken? && r.token == h.plain && Apply(cfg, st, r).1.Tokens?
              && h in Apply(cfg, st, r).0.replays
              && Apply(cfg, st, r).0.replays[h] == Entry(Apply(cfg, st, r).1.pair, st.now + cfg.grace)
    ensures st.rows[h].used && h in st.replays ==>
              h in Apply(cfg, st, r).0.replays && Apply(cfg, st, r).0.replays[h] == st.replays[h]
  {
    if r.RefreshToken? { RefreshMeans(cfg, st, r.token, r.next); }
  }

  lemma {:induction false} UsedWasRotated(cfg: Config, sts: seq<Store>, rs: seq<Request>, k: nat, h: Hash)
    returns (i: nat)
    requires Run(cfg, sts, rs) && k < |sts| && h in sts[k].rows && sts[k].rows[h].used
    ensures KeptFrom(cfg, sts, rs, i, k, h)
    decreases k
  {
    Reachable(cfg, sts, rs, k - 1);
    RotationIsKept(cfg, sts[k - 1], rs[k - 1], h);
    if sts[k - 1].rows[h].used {
      i := UsedWasRotated(cfg, sts, rs, k - 1, h);
    } else {
      i := k - 1;
    }
  }

  // ---- the theorems ----

  /** What every later presentation of a refresh token first handed out by request j is answered.
      Unused, it is rotated exactly while it is unrevoked and its lifetime is not over, to the
      second; used, it is answered with the pair of the request that rotated it, exactly while in
      addition that request's grace window is not over. */
  lemma RefreshAnswers(cfg: Config, sts: seq<Store>, rs: seq<Request>, j: nat, k: nat, pair: Pair)
    requires Run(cfg, sts, rs) && j < k < |rs| && Mints(cfg, sts[j], rs[j], pair)
    requires rs[k].RefreshToken? && rs[k].token == pair.refresh
    ensures var h := Sha256(pair.refresh); var answer := Apply(cfg, sts[k], rs[k]).1;
            && h in sts[k].rows && (answer.Tokens? || answer == Denied)
            && var good := !sts[k].rows[h].revoked
                           && sts[k].now / 1000 <= (if rs[j].Authorize? then sts[j].now / 1000 + cfg.refreshTTL / 1000
                                                    else (sts[j].now + cfg.refreshTTL) / 1000);
            if !sts[k].rows[h].used then
              && (answer.Tokens? <==> good)
              // With a lifetime of whole seconds, as configured, both bounds are the same.
              && (cfg.refreshTTL % 1000 == 0 ==>
                    (good <==> !sts[k].rows[h].revoked && sts[k].now / 1000 <= (sts[j].now + cfg.refreshTTL) / 1000))
            else
              exists i: nat :: RotatedAt(cfg, sts, rs, i, pair.refresh) && j < i < k
                               && answer == if good && sts[k].now < sts[i].now + cfg.grace
                                            then Apply(cfg, sts[i], rs[i]).1 else Denied
  {
    var h := Sha256(pair.refresh);
    PairsAreKept(cfg, sts, rs, j);
    MintedRow(cfg, sts[j], rs[j], pair);
    RowsStay(cfg, sts, rs, j + 1, k, h);
    Reachable(cfg, sts, rs, k);
    RefreshMeans(cfg, sts[k], rs[k].token, rs[k].next);
    if sts[k].rows[h].used {
      var i := UsedWasRotated(cfg, sts, rs, k, h);
      if i <= j { RowsStay(cfg, sts, rs, i, j, h); }
      assert RotatedAt(cfg, sts, rs, i, pair.refresh);
    }
  }

  lemma {:induction false} IssuedGrows(cfg: Config, sts: seq<Store>, rs: seq<Request>, j: nat, k: nat)
    requires Run(cfg, sts, rs) && j <= k < |sts|
    ensures sts[j].issued <= sts[k].issued
    decreases k
  {
    if j < k {
      IssuedGrows(cfg, sts, rs, j, k - 1);
      if rs[k - 1].RefreshToken? { RefreshMeans(cfg, sts[k - 1], rs[k - 1].token, rs[k - 1].next); }
    }
  }

  /** An access token handed out by request j passes at request k exactly while its lifetime, up to the
      last whole second, is not over and its device's version is still what it was. */
  lemma AccessAnswers(cfg: Config, sts: seq<Store>, rs: seq<Request>, j: nat, k: nat, pair: Pair)
    requires Run(cfg, sts, rs) && j < k < |rs| && Mints(cfg, sts[j], rs[j], pair) && rs[k] == CallApi(pair.access)
    ensures var d := pair.access.device; var answer := Apply(cfg, sts[k], rs[k]).1;
            && d in sts[j + 1].versions && (answer == Success || answer == Denied)
            && (answer == Success <==>
                  && sts[k].now < (sts[j].now + cfg.accessTTL) / 1000 * 1000
                  && d in sts[k].versions && sts[k].versions[d] == sts[j + 1].versions[d])
  {
    PairsAreKept(cfg, sts, rs, j);
    MintedRow(cfg, sts[j], rs[j], pair);
    IssuedGrows(cfg, sts, rs, j + 1, k);
  }

  // ---- what ends a device ----

  /** A row is revoked exactly when some request before has ended its device. */
  lemma RevokedIffEnded(cfg: Config, sts: seq<Store>, rs: seq<Request>, k: nat, h: Hash)
    requires Run(cfg, sts, rs) && k < |sts| && h in sts[k].rows
    ensures sts[k].rows[h].revoked <==> exists i: nat :: i < k && Kills(sts[i], rs[i], sts[k].rows[h].device)
  {
    var d := sts[k].rows[h].device;
    if i: nat :| i < k && Kills(sts[i], rs[i], d) {
      Reachable(cfg, sts, rs, i);
      KillKills(cfg, sts[i], rs[i], d);
      DeadForever(cfg, sts, rs, i + 1, k, d);
    } else {
      AliveUntilKilled(cfg, sts, rs, k, d);
    }
  }

  /** A logout by either route, a deletion by the device's owner, or a replay outside the grace window:
      from then on every access token and every refresh token of the device is denied. */
  lemma EndedForGood(cfg: Config, sts: seq<Store>, rs: seq<Request>, i: nat, k: nat, d: Id)
    requires Run(cfg, sts, rs) && i < k < |rs|
    requires var st := sts[i];
             match rs[i]
             case Logout(bearer, token) =>
               var signedIn := bearer.Some? && bearer.value in st.issued && st.now < bearer.value.expiresAt * 1000;
               if signedIn then bearer.value.device == d
               else Sha256(token) in st.rows && st.rows[Sha256(token)].device == d
             case DeleteDevice(bearer, target) =>
               && bearer in st.issued && st.now < bearer.expiresAt * 1000
               && bearer.device in st.versions && st.versions[bearer.device] == bearer.version
               && target == d && d in st.devices && st.devices[d].user == bearer.user
             case RefreshToken(token, _) =>
               && InForce(st, token) && st.rows[Sha256(token)].used && st.rows[Sha256(token)].device == d
               && !(Sha256(token) in st.replays && st.now < st.replays[Sha256(token)].expiry)
             case _ => false
    ensures rs[k].CallApi? && rs[k].jwt.device == d ==> Apply(cfg, sts[k], rs[k]).1 == Denied
    ensures rs[k].DeleteDevice? && rs[k].jwt.device == d ==> Apply(cfg, sts[k], rs[k]).1 == Denied
    ensures rs[k].RefreshToken? && Sha256(rs[k].token) in sts[k].rows
            && sts[k].rows[Sha256(rs[k].token)].device == d ==>
              Apply(cfg, sts[k], rs[k]).1 == Denied
  {
    assert Kills(sts[i], rs[i], d);
    DeadStaysDead.DeadStaysDead(cfg, sts, rs, i, k, d);
  }

  // ---- whose the tokens are ----

  /** Some request before i made device d for this user, and none made it for another. */
  ghost predicate MadeFor(rs: seq<Request>, i: nat, d: Id, user: Id)
    requires i <= |rs|
  {
    && (exists m: nat :: m < i && rs[m].Authorize? && rs[m].device == d && rs[m].user == user)
    && (forall m: nat | m < i && rs[m].Authorize? && rs[m].device == d :: rs[m].user == user)
  }

  /** Everything that names a user names the owner of its device. */
  ghost predicate Owned(st: Store) {
    && (forall h | h in st.rows :: st.rows[h].device in st.devices
                                   && st.devices[st.rows[h].device].user == st.rows[h].user)
    && (forall j | j in st.issued :: j.device in st.devices && st.devices[j.device].user == j.user)
  }

  /** The request makes a device for its user, and no other request changes whose devices are. */
  ghost predicate KeepsOwners(st: Store, r: Request, st': Store) {
    && st'.devices.Keys == st.devices.Keys + (if r.Authorize? then {r.device} else {})
    && (forall d | d in st.devices :: d in st'.devices && st'.devices[d].user == st.devices[d].user)
    && (r.Authorize? ==> r.device !in st.devices && st'.devices[r.device].user == r.user)
  }

  lemma OwnersKept(cfg: Config, st: Store, r: Request)
    requires Inv(st) && Valid(st, r)
    ensures KeepsOwners(st, r, Apply(cfg, st, r).0)
  {
  }

  lemma OwnedRefresh(cfg: Config, st: Store, token: Id, next: Id)
    requires Inv(st) && next !in st.ids && Owned(st)
    ensures Owned(Refresh(cfg, st, token, next).0)
  {
    OwnersKept(cfg, st, RefreshToken(token, next));
    RefreshMeans(cfg, st, token, next);
  }

  lemma OwnedStep(cfg: Config, st: Store, r: Request)
    requires Inv(st) && Valid(st, r) && Owned(st)
    ensures Owned(Apply(cfg, st, r).0)
  {
    if r.RefreshToken? { OwnedRefresh(cfg, st, r.token, r.next); }
  }

  lemma {:induction false} DevicesAreMade(cfg: Config, sts: seq<Store>, rs: seq<Request>, i: nat)
    requires Run(cfg, sts, rs) && i < |sts|
    ensures Inv(sts[i]) && Owned(sts[i])
    ensures forall d | d in sts[i].devices :: MadeFor(rs, i, d, sts[i].devices[d].user)
    ensures forall m: nat | m < i && rs[m].Authorize? :: rs[m].device in sts[i].devices
    decreases i
  {
    Reachable(cfg, sts, rs, i);
    if i > 0 {
      DevicesAreMade(cfg, sts, rs, i - 1);
      OwnedStep(cfg, sts[i - 1], rs[i - 1]);
      OwnersKept(cfg, sts[i - 1], rs[i - 1]);
      forall d | d in sts[i].devices ensures MadeFor(rs, i, d, sts[i].devices[d].user) {
        if d in sts[i - 1].devices { assert MadeFor(rs, i - 1, d, sts[i - 1].devices[d].user); }
      }
    }
  }

  /** In every state, every access token and every row names the user of the request that made its
      device. */
  lemma TokensNameTheOwner(cfg: Config, sts: seq<Store>, rs: seq<Request>, i: nat)
    requires Run(cfg, sts, rs) && i < |sts|
    ensures forall jwt | jwt in sts[i].issued :: MadeFor(rs, i, jwt.device, jwt.user)
    ensures forall h | h in sts[i].rows :: MadeFor(rs, i, sts[i].rows[h].device, sts[i].rows[h].user)
  {
    DevicesAreMade(cfg, sts, rs, i);
  }
}
