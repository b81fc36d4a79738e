/** At operation granularity, for every interleaving: how long each row lives from the moment it was
    made, and whose every row and every access token is. */
module TokenOwners {
  import opened Redis
  import opened TokenStore
  import opened TokenMachine
  import opened TokenChain

  // ---- lifetimes ----

  /** Only the flags of a row ever change. */
  predicate SameButFlags(a: Row, b: Row) {
    a == b.(used := a.used, revoked := a.revoked)
  }

  lemma RowKept(cfg: Config, s: Sys, a: Action, h: Hash)
    requires IdsCover(s.st) && Enabled(s, a) && h in s.st.rows
    ensures h in Next(cfg, s, a).st.rows && SameButFlags(s.st.rows[h], Next(cfg, s, a).st.rows[h])
  {
  }

  /** The exchange of step m made the row for its user, on a new device. */
  predicate CreatedAt(cfg: Config, states: seq<Sys>, acts: seq<Action>, m: nat, h: Hash, row: Row)
    requires Run(cfg, states, acts)
  {
    && m < |acts| && acts[m].CreateDevice? && acts[m].next == h.plain
    && row.device == acts[m].device && row.family == acts[m].family
    && row.user == states[m].exchanges[acts[m].t].user
    && row.expiresAt == states[m].st.now / 1000 + cfg.refreshTTL / 1000
  }

  /** The rotation that read the version at step r made the row at step m, in the presented row's place. */
  predicate RotatedAt(cfg: Config, states: seq<Sys>, acts: seq<Action>, m: nat, r: nat, h: Hash, row: Row)
    requires Run(cfg, states, acts)
  {
    && r < m < |acts| && acts[m].Commit? && acts[m].next == h.plain && acts[r] == ReadVersion(acts[m].t)
    && HashOf(states[m], acts[m].t) in states[m].st.rows
    && var was := states[m].st.rows[HashOf(states[m], acts[m].t)];
    && !was.used && row.device == was.device && row.family == was.family && row.user == was.user
    && row.expiresAt == (states[r].st.now + cfg.refreshTTL) / 1000
  }

  predicate MadeAt(cfg: Config, states: seq<Sys>, acts: seq<Action>, m: nat, r: nat, h: Hash, row: Row)
    requires Run(cfg, states, acts)
  {
    CreatedAt(cfg, states, acts, m, h, row) || RotatedAt(cfg, states, acts, m, r, h, row)
  }

  /** A rotation about to commit stamps its row with the time at which it read the version. */
  lemma {:induction false} StampedAt(cfg: Config, states: seq<Sys>, acts: seq<Action>, i: nat, t: nat)
    returns (r: nat)
    requires Run(cfg, states, acts) && i < |states|
    requires t in states[i].calls && states[i].calls[t].pc.Committing?
    ensures r < i && acts[r] == ReadVersion(t) && states[i].calls[t].pc.at == states[r].st.now
    decreases i
  {
    if acts[i - 1] == ReadVersion(t) {
      r := i - 1;
    } else {
      CommittingOrigin(cfg, states[i - 1], acts[i - 1], t);
      r := StampedAt(cfg, states, acts, i - 1, t);
    }
  }

  lemma CommittingOrigin(cfg: Config, s: Sys, a: Action, t: nat)
    requires Enabled(s, a) && a != ReadVersion(t)
    requires t in Next(cfg, s, a).calls && Next(cfg, s, a).calls[t].pc.Committing?
    ensures t in s.calls && s.calls[t] == Next(cfg, s, a).calls[t]
  {
  }

  /** A row that is new was made by this very step. */
  lemma NewRowOrigin(cfg: Config, s: Sys, a: Action, h: Hash)
    requires Enabled(s, a) && h in Next(cfg, s, a).st.rows && h !in s.st.rows
    ensures var row := Next(cfg, s, a).st.rows[h];
            || (a.CreateDevice? && a.next == h.plain && row.device == a.device && row.family == a.family
                && row.user == s.exchanges[a.t].user
                && row.expiresAt == s.st.now / 1000 + cfg.refreshTTL / 1000)
            || (a.Commit? && a.next == h.plain && Flips(s, HashOf(s, a.t))
                && var was := s.calls[a.t].pc.row;
                   row.device == was.device && row.family == was.family && row.user == was.user
                   && row.expiresAt == (s.calls[a.t].pc.at + cfg.refreshTTL) / 1000)
  {
  }

  /** A rotation's successor takes over what the presented row was. */
  lemma Succeeds(cfg: Config, s: Sys, a: Action, h: Hash)
    requires FamilyInv(s) && Enabled(s, a) && a.Commit? && h in Next(cfg, s, a).st.rows && h !in s.st.rows
    ensures a.next == h.plain && Flips(s, HashOf(s, a.t))
    ensures var row, was := Next(cfg, s, a).st.rows[h], s.st.rows[HashOf(s, a.t)];
            && row.device == was.device && row.family == was.family && row.user == was.user
            && row.expiresAt == (s.calls[a.t].pc.at + cfg.refreshTTL) / 1000
  {
    NewRowOrigin(cfg, s, a, h);
    assert Carried(s.calls[a.t].pc) == Some(s.calls[a.t].pc.row);
  }

  lemma MadeByRotation(cfg: Config, states: seq<Sys>, acts: seq<Action>, m: nat, h: Hash) returns (r: nat)
    requires Run(cfg, states, acts) && m < |acts| && acts[m].Commit?
    requires h in states[m + 1].st.rows && h !in states[m].st.rows
    ensures RotatedAt(cfg, states, acts, m, r, h, states[m + 1].st.rows[h])
  {
    r := StampedAt(cfg, states, acts, m, acts[m].t);
    Reachable(cfg, states, acts, m);
    Succeeds(cfg, states[m], acts[m], h);
  }

  lemma MadeNow(cfg: Config, states: seq<Sys>, acts: seq<Action>, m: nat, h: Hash) returns (r: nat)
    requires Run(cfg, states, acts) && m < |acts| && h in states[m + 1].st.rows && h !in states[m].st.rows
    ensures MadeAt(cfg, states, acts, m, r, h, states[m + 1].st.rows[h])
  {
    NewRowOrigin(cfg, states[m], acts[m], h);
    r := 0;
    if acts[m].Commit? { r := MadeByRotation(cfg, states, acts, m, h); }
  }

  lemma MadeAlike(cfg: Config, states: seq<Sys>, acts: seq<Action>, m: nat, r: nat, h: Hash, row: Row, row': Row)
    requires Run(cfg, states, acts) && MadeAt(cfg, states, acts, m, r, h, row) && SameButFlags(row, row')
    ensures MadeAt(cfg, states, acts, m, r, h, row')
  {
  }

  lemma RowKeptAt(cfg: Config, states: seq<Sys>, acts: seq<Action>, i: nat, h: Hash)
    requires Run(cfg, states, acts) && i < |acts| && h in states[i].st.rows
    ensures h in states[i + 1].st.rows && SameButFlags(states[i].st.rows[h], states[i + 1].st.rows[h])
  {
    Reachable(cfg, states, acts, i);
    RowKept(cfg, states[i], acts[i], h);
  }

  /** For every interleaving each row was made, at some step m, either by an exchange, for its user and a
      new device, good for the lifetime from that step on, or by a rotation of an unused row of the same
      family, device and user, good for the lifetime from the step r at which it read the version. */
  lemma {:induction false} RowLifetime(cfg: Config, states: seq<Sys>, acts: seq<Action>, i: nat, h: Hash)
    returns (m: nat, r: nat)
    requires Run(cfg, states, acts) && i < |states| && h in states[i].st.rows
    ensures m < i && MadeAt(cfg, states, acts, m, r, h, states[i].st.rows[h])
    decreases i
  {
    if h in states[i - 1].st.rows {
      m, r := RowLifetime(cfg, states, acts, i - 1, h);
      RowKeptAt(cfg, states, acts, i - 1, h);
      MadeAlike(cfg, states, acts, m, r, h, states[i - 1].st.rows[h], states[i].st.rows[h]);
    } else {
      m := i - 1;
      r := MadeNow(cfg, states, acts, i - 1, h);
    }
  }

  /** And a call goes on past its checks exactly with a row that it found unrevoked and whose last second
      is not over. */
  lemma DecidedByLifetime(cfg: Config, states: seq<Sys>, acts: seq<Action>, i: nat, t: nat)
    requires Run(cfg, states, acts) && i < |acts| && acts[i] == Decide(t)
    ensures var got, pc' := states[i].calls[t].pc.got, states[i + 1].calls[t].pc;
            && (pc'.ReadingVersion? || pc'.ReadingReplay? <==>
                  got.Some? && !got.value.revoked && states[i].st.now / 1000 <= got.value.expiresAt)
            && (pc'.ReadingVersion? ==> !got.value.used && pc'.row == got.value)
            && (pc'.ReadingReplay? ==> got.value.used && pc'.row == got.value)
            && (!pc'.ReadingVersion? && !pc'.ReadingReplay? ==> pc'.Releasing? && pc'.result == InvalidGrant)
  {
  }

  // ---- owners ----

  /** user owns device d. */
  predicate Owns(s: Sys, d: Id, user: Id) {
    d in s.st.devices && s.st.devices[d].user == user
  }

  ghost predicate OwnerInv(s: Sys) {
    && (forall d | d in s.st.devices :: d in s.st.ids)
    && (forall h | h in s.st.rows :: Owns(s, s.st.rows[h].device, s.st.rows[h].user))
    && (forall j | j in s.st.issued :: Owns(s, j.device, j.user))
    && (forall t | t in s.exchanges && (s.exchanges[t].Versioning? || s.exchanges[t].Signing?) ::
          Owns(s, s.exchanges[t].device, s.exchanges[t].user))
  }

  lemma OwnsStays(cfg: Config, s: Sys, a: Action, d: Id, user: Id)
    requires OwnerInv(s) && Enabled(s, a) && Owns(s, d, user)
    ensures Owns(Next(cfg, s, a), d, user)
  {
  }

  lemma DevicesCovered(cfg: Config, s: Sys, a: Action)
    requires FamilyInv(s) && OwnerInv(s) && Enabled(s, a)
    ensures forall d | d in Next(cfg, s, a).st.devices :: d in Next(cfg, s, a).st.ids
  {
  }

  lemma RowOwned(cfg: Config, s: Sys, a: Action, h: Hash)
    requires FamilyInv(s) && OwnerInv(s) && Enabled(s, a) && h in Next(cfg, s, a).st.rows
    ensures Owns(Next(cfg, s, a), Next(cfg, s, a).st.rows[h].device, Next(cfg, s, a).st.rows[h].user)
  {
    if h in s.st.rows {
      RowKept(cfg, s, a, h);
      OwnsStays(cfg, s, a, s.st.rows[h].device, s.st.rows[h].user);
    } else {
      NewRowOrigin(cfg, s, a, h);
      if a.Commit? {
        assert Carried(s.calls[a.t].pc) == Some(s.calls[a.t].pc.row);
        var was := s.st.rows[HashOf(s, a.t)];
        OwnsStays(cfg, s, a, was.device, was.user);
      }
    }
  }

  lemma NewJwt(cfg: Config, s: Sys, a: Action, j: Jwt)
    requires Enabled(s, a) && j in Next(cfg, s, a).st.issued && j !in s.st.issued
    ensures || (a.Save? && j.device == s.calls[a.t].pc.row.device && j.user == s.calls[a.t].pc.row.user)
            || (a.Sign? && j.device == s.exchanges[a.t].device && j.user == s.exchanges[a.t].user)
  {
  }

  lemma JwtOwned(cfg: Config, s: Sys, a: Action, j: Jwt)
    requires FamilyInv(s) && OwnerInv(s) && Enabled(s, a) && j in Next(cfg, s, a).st.issued
    ensures Owns(Next(cfg, s, a), j.device, j.user)
  {
    if j !in s.st.issued {
      NewJwt(cfg, s, a, j);
      if a.Save? {
        assert Carried(s.calls[a.t].pc) == Some(s.calls[a.t].pc.row);
        assert Owns(s, s.st.rows[HashOf(s, a.t)].device, s.st.rows[HashOf(s, a.t)].user);
      }
    }
    OwnsStays(cfg, s, a, j.device, j.user);
  }

  lemma ExchangeOwned(cfg: Config, s: Sys, a: Action, t: nat)
    requires OwnerInv(s) && Enabled(s, a) && t in Next(cfg, s, a).exchanges
    requires Next(cfg, s, a).exchanges[t].Versioning? || Next(cfg, s, a).exchanges[t].Signing?
    ensures Owns(Next(cfg, s, a), Next(cfg, s, a).exchanges[t].device, Next(cfg, s, a).exchanges[t].user)
  {
    var e := Next(cfg, s, a).exchanges[t];
    if !(a.CreateDevice? && a.t == t) {
      assert Owns(s, e.device, e.user);
      OwnsStays(cfg, s, a, e.device, e.user);
    }
  }

  lemma OwnerStep(cfg: Config, s: Sys, a: Action)
    requires FamilyInv(s) && OwnerInv(s) && Enabled(s, a)
    ensures OwnerInv(Next(cfg, s, a))
  {
    var s' := Next(cfg, s, a);
    DevicesCovered(cfg, s, a);
    forall h | h in s'.st.rows ensures Owns(s', s'.st.rows[h].device, s'.st.rows[h].user) {
      RowOwned(cfg, s, a, h);
    }
    forall j | j in s'.st.issued ensures Owns(s', j.device, j.user) {
      JwtOwned(cfg, s, a, j);
    }
    forall t | t in s'.exchanges && (s'.exchanges[t].Versioning? || s'.exchanges[t].Signing?)
      ensures Owns(s', s'.exchanges[t].device, s'.exchanges[t].user)
    {
      ExchangeOwned(cfg, s, a, t);
    }
  }

  lemma {:induction false} ReachableOwners(cfg: Config, states: seq<Sys>, acts: seq<Action>, i: nat)
    requires Run(cfg, states, acts) && i < |states|
    ensures FamilyInv(states[i]) && OwnerInv(states[i])
    decreases i
  {
    Reachable(cfg, states, acts, i);
    if i > 0 {
      ReachableOwners(cfg, states, acts, i - 1);
      OwnerStep(cfg, states[i - 1], acts[i - 1]);
    }
  }

  /** Some exchange was begun for the user at step b and made the device at step c. */
  predicate MadeFor(acts: seq<Action>, i: nat, b: nat, c: nat, d: Id, user: Id) {
    && b < c < i <= |acts| && acts[b].BeginExchange? && acts[b].user == user
    && acts[c].CreateDevice? && acts[c].t == acts[b].t && acts[c].device == d
  }

  lemma {:induction false} BegunBy(cfg: Config, states: seq<Sys>, acts: seq<Action>, i: nat, t: nat)
    returns (b: nat)
    requires Run(cfg, states, acts) && i < |states|
    requires t in states[i].exchanges && states[i].exchanges[t].Creating?
    ensures b < i && acts[b] == BeginExchange(t, states[i].exchanges[t].user)
    decreases i
  {
    if acts[i - 1].BeginExchange? && acts[i - 1].t == t {
      b := i - 1;
    } else {
      CreatingOrigin(cfg, states[i - 1], acts[i - 1], t);
      b := BegunBy(cfg, states, acts, i - 1, t);
    }
  }

  lemma CreatingOrigin(cfg: Config, s: Sys, a: Action, t: nat)
    requires Enabled(s, a) && t in Next(cfg, s, a).exchanges && Next(cfg, s, a).exchanges[t].Creating?
    requires !(a.BeginExchange? && a.t == t)
    ensures t in s.exchanges && s.exchanges[t] == Next(cfg, s, a).exchanges[t]
  {
  }

  lemma DeviceOrigin(cfg: Config, s: Sys, a: Action, d: Id)
    requires Enabled(s, a) && d in Next(cfg, s, a).st.devices
    ensures (d in s.st.devices && s.st.devices[d].user == Next(cfg, s, a).st.devices[d].user)
            || (a.CreateDevice? && a.device == d && Next(cfg, s, a).st.devices[d].user == s.exchanges[a.t].user)
  {
  }

  lemma {:induction false} DeviceMade(cfg: Config, states: seq<Sys>, acts: seq<Action>, i: nat, d: Id)
    returns (b: nat, c: nat)
    requires Run(cfg, states, acts) && i < |states| && d in states[i].st.devices
    ensures MadeFor(acts, i, b, c, d, states[i].st.devices[d].user)
    decreases i
  {
    var s, a := states[i - 1], acts[i - 1];
    DeviceOrigin(cfg, s, a, d);
    if d in s.st.devices && s.st.devices[d].user == states[i].st.devices[d].user {
      b, c := DeviceMade(cfg, states, acts, i - 1, d);
    } else {
      b := BegunBy(cfg, states, acts, i - 1, a.t);
      c := i - 1;
    }
  }

  lemma OwnerMadeIt(cfg: Config, states: seq<Sys>, acts: seq<Action>, i: nat, d: Id, user: Id)
    requires Run(cfg, states, acts) && i < |states| && Owns(states[i], d, user)
    ensures exists b: nat, c: nat :: MadeFor(acts, i, b, c, d, user)
  {
    var b, c := DeviceMade(cfg, states, acts, i, d);
  }

  /** For every interleaving, every access token ever signed and every row names the user for whom the
      exchange that made its device was begun. */
  lemma TokensNameTheOwner(cfg: Config, states: seq<Sys>, acts: seq<Action>, i: nat)
    requires Run(cfg, states, acts) && i < |states|
    ensures forall jwt | jwt in states[i].st.issued ::
              exists b: nat, c: nat :: MadeFor(acts, i, b, c, jwt.device, jwt.user)
    ensures forall h | h in states[i].st.rows :: var row := states[i].st.rows[h];
              exists b: nat, c: nat :: MadeFor(acts, i, b, c, row.device, row.user)
  {
    ReachableOwners(cfg, states, acts, i);
    forall jwt | jwt in states[i].st.issued
      ensures exists b: nat, c: nat :: MadeFor(acts, i, b, c, jwt.device, jwt.user)
    {
      OwnerMadeIt(cfg, states, acts, i, jwt.device, jwt.user);
    }
    forall h | h in states[i].st.rows
      ensures var row := states[i].st.rows[h];
              exists b: nat, c: nat :: MadeFor(acts, i, b, c, row.device, row.user)
    {
      OwnerMadeIt(cfg, states, acts, i, states[i].st.rows[h].device, states[i].st.rows[h].user);
    }
  }
}
