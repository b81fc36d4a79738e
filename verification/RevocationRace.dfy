/** When a revocation wins against the refreshes running beside it.

    MarkUsedIfUnused looks only at the used flag, so a rotation that has read its row before the
    rows are revoked still inserts a fresh one.  That is the only way to lose: a revocation is
    final exactly when no such rotation is in flight.
  */
module RevocationRace {
  import opened Redis
  import opened TokenStore
  import opened TokenMachine
  import opened TokenChain
  import opened TokenVersions

  /** The row a call will rotate unless it finds it already used: it has been read and judged
      usable, or would be at this moment. */
  function Rotates(pc: Pc, now: nat): Option<Row> {
    if pc.Found? && pc.got.Some? && !pc.got.value.revoked && !pc.got.value.used && pc.got.value.expiresAt >= Unix(now)
    then pc.got
    else if pc.ReadingVersion? || pc.Committing? then Some(pc.row)
    else None
  }

  /** Call t is between reading an unused row of d and the transaction that will replace it. */
  predicate InFlight(s: Sys, t: nat, d: Id) {
    && t in s.calls && Rotates(s.calls[t].pc, s.st.now).Some?
    && Rotates(s.calls[t].pc, s.st.now).value.device == d && Flips(s, HashOf(s, t))
  }

  ghost predicate NoneInFlight(s: Sys, d: Id) {
    forall t | t in s.calls :: !InFlight(s, t, d)
  }

  ghost predicate AllRevoked(s: Sys, d: Id) {
    d in s.st.ids && forall h | h in s.st.rows && s.st.rows[h].device == d :: s.st.rows[h].revoked
  }

  /** The step marks every row of d revoked. */
  predicate Revokes(s: Sys, a: Action, d: Id)
    requires Enabled(s, a)
  {
    || (a.RevokeRows? && s.revocations[a.t].device == d)
    || (a.Condemn? && s.calls[a.t].pc.row.device == d)
  }

  // ---- no rotation in flight: the rows stay revoked ----

  /** What a call will rotate after a step it would have rotated before, or it has just read it. */
  lemma RotatesOrigin(cfg: Config, s: Sys, a: Action, t: nat)
    requires Enabled(s, a) && t in Next(cfg, s, a).calls
    requires Rotates(Next(cfg, s, a).calls[t].pc, Next(cfg, s, a).st.now).Some?
    ensures t in s.calls && s.calls[t].token == Next(cfg, s, a).calls[t].token
    ensures var row := Rotates(Next(cfg, s, a).calls[t].pc, Next(cfg, s, a).st.now).value;
            || Rotates(s.calls[t].pc, s.st.now) == Some(row)
            || (a == Find(t) && HashOf(s, t) in s.st.rows && row == s.st.rows[HashOf(s, t)] && !row.revoked)
  {
  }

  /** A known row that can still be flipped after a step could be before. */
  lemma FlipsOrigin(cfg: Config, s: Sys, a: Action, h: Hash)
    requires IdsCover(s.st) && Enabled(s, a) && h in s.st.rows && Flips(Next(cfg, s, a), h)
    ensures Flips(s, h)
  {
    if s.st.rows[h].used { UsedStaysUsed(cfg, s, a, h); }
  }

  /** A rotation in flight was in flight before, or has just read an unrevoked row. */
  lemma InFlightOrigin(cfg: Config, s: Sys, a: Action, t: nat, d: Id)
    requires FamilyInv(s) && Enabled(s, a) && InFlight(Next(cfg, s, a), t, d)
    ensures InFlight(s, t, d)
            || (a == Find(t) && t in s.calls && HashOf(s, t) in s.st.rows
                && s.st.rows[HashOf(s, t)].device == d && !s.st.rows[HashOf(s, t)].revoked)
  {
    RotatesOrigin(cfg, s, a, t);
    RotatedRowIsKnown(s, t);
    if HashOf(s, t) in s.st.rows { FlipsOrigin(cfg, s, a, HashOf(s, t)); }
  }

  lemma NoneInFlightStep(cfg: Config, s: Sys, a: Action, d: Id)
    requires FamilyInv(s) && Enabled(s, a) && NoneInFlight(s, d)
    requires a.Find? ==> AllRevoked(s, d)
    ensures NoneInFlight(Next(cfg, s, a), d)
  {
    forall t | t in Next(cfg, s, a).calls
      ensures !InFlight(Next(cfg, s, a), t, d)
    {
      if InFlight(Next(cfg, s, a), t, d) { InFlightOrigin(cfg, s, a, t, d); }
    }
  }

  lemma RotatedRowIsKnown(s: Sys, t: nat)
    requires FamilyInv(s) && t in s.calls
    ensures Rotates(s.calls[t].pc, s.st.now).Some? ==> HashOf(s, t) in s.st.rows
  {
    assert Rotates(s.calls[t].pc, s.st.now).Some? ==> Carried(s.calls[t].pc).Some?;
  }

  lemma RowsOfDevice(cfg: Config, s: Sys, a: Action, h: Hash)
    requires IdsCover(s.st) && Enabled(s, a) && h in Next(cfg, s, a).st.rows
    ensures var row' := Next(cfg, s, a).st.rows[h];
            || (h in s.st.rows && row'.device == s.st.rows[h].device && (s.st.rows[h].revoked ==> row'.revoked))
            || (a.Commit? && Flips(s, HashOf(s, a.t)) && row'.device == s.calls[a.t].pc.row.device)
            || (a.CreateDevice? && row'.device == a.device)
  {
  }

  lemma AllRevokedStep(cfg: Config, s: Sys, a: Action, d: Id)
    requires FamilyInv(s) && Enabled(s, a) && AllRevoked(s, d) && NoneInFlight(s, d)
    ensures AllRevoked(Next(cfg, s, a), d)
  {
    var s' := Next(cfg, s, a);
    Grows(cfg, s, a);
    if a.Commit? { assert !InFlight(s, a.t, d); }
    forall h | h in s'.st.rows && s'.st.rows[h].device == d
      ensures s'.st.rows[h].revoked
    {
      RowsOfDevice(cfg, s, a, h);
    }
  }

  lemma RevokingStep(cfg: Config, s: Sys, a: Action, d: Id)
    requires FamilyInv(s) && Enabled(s, a) && Revokes(s, a, d) && d in s.st.ids
    ensures AllRevoked(Next(cfg, s, a), d)
  {
    if a.Condemn? { CondemnRevokes(cfg, s, a, d); }
  }

  lemma CondemnRevokes(cfg: Config, s: Sys, a: Action, d: Id)
    requires FamilyInv(s) && Enabled(s, a) && a.Condemn? && Revokes(s, a, d) && d in s.st.ids
    ensures AllRevoked(Next(cfg, s, a), d)
  {
    var row := s.calls[a.t].pc.row;
    assert Carried(s.calls[a.t].pc) == Some(row);
    forall h | h in s.st.rows && s.st.rows[h].device == d
      ensures s.st.rows[h].family == row.family
    {
      OneFamilyPerDevice(s.st.rows, s.hist.chain, h, HashOf(s, a.t));
    }
  }

  lemma OneFamilyPerDevice(rows: map<Hash, Row>, chain: map<Id, seq<Hash>>, h: Hash, k: Hash)
    requires Chains(rows, chain) && h in rows && k in rows && rows[h].device == rows[k].device
    ensures rows[h].family == rows[k].family
  {
    assert IsChain(rows, rows[h].family, chain[rows[h].family]);
    assert IsChain(rows, rows[k].family, chain[rows[k].family]);
  }

  lemma {:induction false} StaysRevoked(cfg: Config, states: seq<Sys>, acts: seq<Action>, i: nat, k: nat, d: Id)
    requires Run(cfg, states, acts) && i <= k < |states|
    requires AllRevoked(states[i], d) && NoneInFlight(states[i], d)
    ensures AllRevoked(states[k], d) && NoneInFlight(states[k], d)
  {
    if i < k {
      StaysRevoked(cfg, states, acts, i, k - 1, d);
      Reachable(cfg, states, acts, k - 1);
      AllRevokedStep(cfg, states[k - 1], acts[k - 1], d);
      NoneInFlightStep(cfg, states[k - 1], acts[k - 1], d);
    }
  }

  /** A revocation, by logout or by a theft verdict, that no rotation of the device was in flight
      beside leaves it without a usable refresh token in every later state. */
  lemma RevokedForGood(cfg: Config, states: seq<Sys>, acts: seq<Action>, i: nat, k: nat, d: Id)
    requires Run(cfg, states, acts) && i < k < |states|
    requires Revokes(states[i], acts[i], d) && d in states[i].st.ids && NoneInFlight(states[i], d)
    ensures forall h | h in states[k].st.rows && states[k].st.rows[h].device == d :: !Usable(states[k].st, h)
  {
    Reachable(cfg, states, acts, i);
    RevokingStep(cfg, states[i], acts[i], d);
    NoneInFlightStep(cfg, states[i], acts[i], d);
    StaysRevoked(cfg, states, acts, i + 1, k, d);
  }

  // ---- a rotation in flight: the device can come back ----

  /** d has a refresh token that is neither revoked nor used. */
  ghost predicate HasFreshToken(s: Sys, d: Id) {
    exists h :: h in s.st.rows && s.st.rows[h].device == d && !s.st.rows[h].revoked && !s.st.rows[h].used
  }

  lemma CommitRevives(cfg: Config, s: Sys, t: nat, next: Id)
    requires IdsCover(s.st) && Enabled(s, Commit(t, next)) && Flips(s, HashOf(s, t))
    ensures HasFreshToken(Next(cfg, s, Commit(t, next)), s.calls[t].pc.row.device)
  {
    var s' := Next(cfg, s, Commit(t, next));
    assert Sha256(next) in s'.st.rows;
  }

  /** The three steps of the rotation that were still ahead. */
  function Ahead(pc: Pc, t: nat, next: Id): seq<Action> {
    if pc.Found? then [Decide(t), ReadVersion(t), Commit(t, next)]
    else if pc.ReadingVersion? then [ReadVersion(t), Commit(t, next)]
    else [Commit(t, next)]
  }

  ghost predicate Leads(cfg: Config, s: Sys, run: seq<Action>, end: Sys)
    decreases |run|
  {
    if run == [] then s == end
    else Enabled(s, run[0]) && Leads(cfg, Next(cfg, s, run[0]), run[1..], end)
  }

  lemma VersionThenCommit(cfg: Config, s: Sys, t: nat, next: Id) returns (end: Sys)
    requires IdsCover(s.st) && next !in s.st.ids && Enabled(s, ReadVersion(t)) && Flips(s, HashOf(s, t))
    requires s.calls[t].pc.row.device in s.st.versions
    ensures Leads(cfg, s, [ReadVersion(t), Commit(t, next)], end) && HasFreshToken(end, s.calls[t].pc.row.device)
  {
    var mid := Next(cfg, s, ReadVersion(t));
    end := Next(cfg, mid, Commit(t, next));
    CommitRevives(cfg, mid, t, next);
    var run := [ReadVersion(t), Commit(t, next)];
    assert run[1..] == [Commit(t, next)] && run[1..][1..] == [];
  }

  lemma DecideThenCommit(cfg: Config, s: Sys, t: nat, next: Id, d: Id) returns (end: Sys)
    requires IdsCover(s.st) && next !in s.st.ids && InFlight(s, t, d) && s.calls[t].pc.Found? && d in s.st.versions
    ensures Leads(cfg, s, Ahead(s.calls[t].pc, t, next), end) && HasFreshToken(end, d)
  {
    var mid := Next(cfg, s, Decide(t));
    assert mid.calls[t].pc.ReadingVersion? && mid.st == s.st;
    end := VersionThenCommit(cfg, mid, t, next);
    assert Ahead(s.calls[t].pc, t, next)[1..] == [ReadVersion(t), Commit(t, next)];
  }

  /** If one is in flight, then right after the revocation that rotation can finish and leave the
      device with a fresh, unrevoked refresh token. */
  lemma InFlightRevives(cfg: Config, states: seq<Sys>, acts: seq<Action>, i: nat, t: nat, d: Id, next: Id)
    returns (end: Sys)
    requires Run(cfg, states, acts) && i < |acts| && Revokes(states[i], acts[i], d)
    requires InFlight(states[i], t, d) && next !in states[i].st.ids
    ensures Leads(cfg, states[i + 1], Ahead(states[i + 1].calls[t].pc, t, next), end) && HasFreshToken(end, d)
  {
    ReachableVersions(cfg, states, acts, i + 1);
    StillInFlight(cfg, states[i], acts[i], t, d);
    RotatorIsVersioned(states[i + 1], t, d);
    end := Finishes(cfg, states[i + 1], t, next, d);
  }

  /** A rotation in flight can finish undisturbed. */
  lemma Finishes(cfg: Config, s: Sys, t: nat, next: Id, d: Id) returns (end: Sys)
    requires IdsCover(s.st) && next !in s.st.ids && InFlight(s, t, d) && d in s.st.versions
    ensures Leads(cfg, s, Ahead(s.calls[t].pc, t, next), end) && HasFreshToken(end, d)
  {
    if s.calls[t].pc.Found? {
      end := DecideThenCommit(cfg, s, t, next, d);
    } else if s.calls[t].pc.ReadingVersion? {
      end := VersionThenCommit(cfg, s, t, next);
    } else {
      end := Next(cfg, s, Commit(t, next));
      CommitRevives(cfg, s, t, next);
      assert [Commit(t, next)][1..] == [];
    }
  }

  lemma StillInFlight(cfg: Config, s: Sys, a: Action, t: nat, d: Id)
    requires Enabled(s, a) && Revokes(s, a, d) && InFlight(s, t, d)
    ensures InFlight(Next(cfg, s, a), t, d) && Next(cfg, s, a).st.ids == s.st.ids
    ensures t in Next(cfg, s, a).calls
  {
    assert a.Condemn? ==> a.t != t;
  }

  lemma RotatorIsVersioned(s: Sys, t: nat, d: Id)
    requires FamilyInv(s) && ClearedInv(s) && LedgerInv(s) && InFlight(s, t, d)
    ensures d in s.st.versions
  {
    assert Carried(s.calls[t].pc) == Rotates(s.calls[t].pc, s.st.now);
    assert Cleared(s, s.calls[t].token);
    assert d in s.hist.settled;
  }

  // ---- access tokens ----

  /** Some code exchange that created d has yet to write d's first version. */
  ghost predicate Unversioned(s: Sys, d: Id) {
    exists x :: x in s.exchanges && s.exchanges[x].Versioning? && s.exchanges[x].device == d
  }

  /** An exchange about to sign d's first JWT will sign a version already bumped away. */
  ghost predicate SignsRetired(s: Sys, d: Id) {
    forall x | x in s.exchanges && s.exchanges[x].Signing? && s.exchanges[x].device == d ::
      (d, INITIAL_VERSION) in s.hist.retired
  }

  /** Nothing signed or still to be signed for d carries a version that has not been bumped away. */
  ghost predicate NoFreshJwt(s: Sys, d: Id) {
    && (forall j | j in s.st.issued && j.device == d :: (d, j.version) in s.hist.retired)
    && (forall t | t in s.calls && s.calls[t].pc.Saving? && s.calls[t].pc.row.device == d ::
          (d, s.calls[t].pc.version) in s.hist.retired)
    && !Unversioned(s, d) && SignsRetired(s, d)
  }

  lemma ExchangesStep(cfg: Config, s: Sys, a: Action, d: Id)
    requires Enabled(s, a) && d in s.st.ids && !Unversioned(s, d) && SignsRetired(s, d)
    ensures !Unversioned(Next(cfg, s, a), d) && SignsRetired(Next(cfg, s, a), d)
  {
    Grows(cfg, s, a);
    var s' := Next(cfg, s, a);
    forall x | x in s'.exchanges && (s'.exchanges[x].Versioning? || s'.exchanges[x].Signing?)
               && s'.exchanges[x].device == d
      ensures x in s.exchanges && s.exchanges[x] == s'.exchanges[x]
    {
    }
  }

  /** A JWT is signed from what a saving rotation or a signing exchange holds. */
  lemma SignedFrom(cfg: Config, s: Sys, a: Action, j: Jwt)
    requires Enabled(s, a) && j in Next(cfg, s, a).st.issued
    ensures j in s.st.issued
            || (a.Save? && j.device == s.calls[a.t].pc.row.device && j.version == s.calls[a.t].pc.version)
            || (a.Sign? && j.device == s.exchanges[a.t].device && j.version == INITIAL_VERSION)
  {
  }

  lemma SavingFrom(cfg: Config, s: Sys, a: Action, t: nat, d: Id)
    requires Enabled(s, a) && NoneInFlight(s, d)
    requires t in Next(cfg, s, a).calls && Next(cfg, s, a).calls[t].pc.Saving?
             && Next(cfg, s, a).calls[t].pc.row.device == d
    ensures t in s.calls && s.calls[t] == Next(cfg, s, a).calls[t]
  {
    assert !InFlight(s, t, d);
    SavingOrigin(cfg, s, a, t);
    if s.calls[t] != Next(cfg, s, a).calls[t] { CommitKeepsRow(cfg, s, a, t); }
  }

  lemma CommitKeepsRow(cfg: Config, s: Sys, a: Action, t: nat)
    requires Enabled(s, a) && t in s.calls && s.calls[t].pc.Committing? && t in Next(cfg, s, a).calls
    requires Next(cfg, s, a).calls[t].pc.Saving?
    ensures Next(cfg, s, a).calls[t].pc.row == s.calls[t].pc.row
  {
  }

  lemma NoFreshJwtStep(cfg: Config, s: Sys, a: Action, d: Id)
    requires Enabled(s, a) && d in s.st.ids && NoneInFlight(s, d) && NoFreshJwt(s, d)
    ensures NoFreshJwt(Next(cfg, s, a), d)
  {
    var s' := Next(cfg, s, a);
    Grows(cfg, s, a);
    ExchangesStep(cfg, s, a, d);
    forall j | j in s'.st.issued && j.device == d
      ensures (d, j.version) in s'.hist.retired
    {
      SignedFrom(cfg, s, a, j);
    }
    forall t | t in s'.calls && s'.calls[t].pc.Saving? && s'.calls[t].pc.row.device == d
      ensures (d, s'.calls[t].pc.version) in s'.hist.retired
    {
      SavingFrom(cfg, s, a, t, d);
    }
  }

  lemma BumpingStep(cfg: Config, s: Sys, a: Action, d: Id)
    requires SettledInv(s) && BearerInv(s) && Enabled(s, a) && Bumps(s, a, d) && !Unversioned(s, d)
    ensures NoFreshJwt(Next(cfg, s, a), d)
  {
    var s' := Next(cfg, s, a);
    assert s'.hist.retired == s.hist.retired + (set p | p in s.hist.seen && p.0 == d);
    assert s'.exchanges == s.exchanges && s'.st.issued == s.st.issued;
    forall t | t in s'.calls && s'.calls[t].pc.Saving?
      ensures t in s.calls && s.calls[t] == s'.calls[t]
    {
      SavingOrigin(cfg, s, a, t);
    }
  }

  /** Nothing of d works, and nothing in flight can change that. */
  ghost predicate Silent(cfg: Config, s: Sys, d: Id) {
    && Inv(cfg, s) && VersionInv(s)
    && AllRevoked(s, d) && NoneInFlight(s, d) && NoFreshJwt(s, d)
  }

  lemma SilentRejects(cfg: Config, s: Sys, d: Id, jwt: Jwt)
    requires Silent(cfg, s, d) && jwt.device == d
    ensures !Accepts(s.st, jwt)
    ensures forall h | h in s.st.rows && s.st.rows[h].device == d :: !Usable(s.st, h)
  {
  }

  lemma SilentStep(cfg: Config, s: Sys, a: Action, d: Id)
    requires Silent(cfg, s, d) && Enabled(s, a)
    ensures Silent(cfg, Next(cfg, s, a), d)
  {
    Step(cfg, s, a);
    VersionStep(cfg, s, a);
    AllRevokedStep(cfg, s, a, d);
    NoneInFlightStep(cfg, s, a, d);
    NoFreshJwtStep(cfg, s, a, d);
  }

  lemma {:induction false} StaysSilent(cfg: Config, s: Sys, run: seq<Action>, end: Sys, d: Id)
    requires Silent(cfg, s, d) && Leads(cfg, s, run, end)
    ensures Silent(cfg, end, d)
    decreases |run|
  {
    if run != [] {
      SilentStep(cfg, s, run[0], d);
      StaysSilent(cfg, Next(cfg, s, run[0]), run[1..], end, d);
    }
  }

  lemma SilentAfterBump(cfg: Config, states: seq<Sys>, acts: seq<Action>, i: nat, j: nat, d: Id)
    requires Run(cfg, states, acts) && i < j < |acts|
    requires Revokes(states[i], acts[i], d) && d in states[i].st.ids && NoneInFlight(states[i], d)
    requires Bumps(states[j], acts[j], d) && !Unversioned(states[j], d)
    ensures Silent(cfg, states[j + 1], d)
  {
    Reachable(cfg, states, acts, i);
    RevokingStep(cfg, states[i], acts[i], d);
    NoneInFlightStep(cfg, states[i], acts[i], d);
    StaysRevoked(cfg, states, acts, i + 1, j + 1, d);
    ReachableVersions(cfg, states, acts, j);
    ReachableVersions(cfg, states, acts, j + 1);
    BumpingStep(cfg, states[j], acts[j], d);
  }

  lemma {:induction false} SilentInRun(cfg: Config, states: seq<Sys>, acts: seq<Action>, j: nat, k: nat, d: Id)
    requires Run(cfg, states, acts) && j <= k < |states| && Silent(cfg, states[j], d)
    ensures Silent(cfg, states[k], d)
  {
    if j < k {
      SilentInRun(cfg, states, acts, j, k - 1, d);
      SilentStep(cfg, states[k - 1], acts[k - 1], d);
    }
  }

  /** Dead stays dead with every operation interleaved: when the rows of d are revoked with no
      rotation of d in flight, and its version is bumped after that with no exchange of d still to
      write its first version, then in every later state d has no usable refresh token and no
      access JWT of d is accepted, whatever runs. */
  lemma RevocationIsFinal(cfg: Config, states: seq<Sys>, acts: seq<Action>, i: nat, j: nat, k: nat, d: Id, jwt: Jwt)
    requires Run(cfg, states, acts) && i < j < k < |states|
    requires Revokes(states[i], acts[i], d) && d in states[i].st.ids && NoneInFlight(states[i], d)
    requires Bumps(states[j], acts[j], d) && !Unversioned(states[j], d) && jwt.device == d
    ensures forall h | h in states[k].st.rows && states[k].st.rows[h].device == d :: !Usable(states[k].st, h)
    ensures !Accepts(states[k].st, jwt)
  {
    SilentAfterBump(cfg, states, acts, i, j, d);
    SilentInRun(cfg, states, acts, j + 1, k, d);
    SilentRejects(cfg, states[k], d, jwt);
  }

  /** An access JWT of d that some continuation accepts. */
  ghost predicate AcceptedLater(cfg: Config, s: Sys, run: seq<Action>, end: Sys, d: Id, jwt: Jwt) {
    Leads(cfg, s, run, end) && jwt.device == d && Accepts(end.st, jwt)
  }

  /** Some continuation from here accepts an access JWT of d. */
  ghost predicate JwtLives(cfg: Config, s: Sys, d: Id) {
    exists run, end, jwt :: AcceptedLater(cfg, s, run, end, d, jwt)
  }

  lemma SilentNeverAccepts(cfg: Config, s: Sys, d: Id)
    requires Silent(cfg, s, d)
    ensures !JwtLives(cfg, s, d)
  {
    forall run, end, jwt
      ensures !AcceptedLater(cfg, s, run, end, d, jwt)
    {
      if AcceptedLater(cfg, s, run, end, d, jwt) {
        StaysSilent(cfg, s, run, end, d);
        SilentRejects(cfg, end, d, jwt);
      }
    }
  }

  /** And that is the exact condition for access tokens: after the bump some continuation accepts
      one if and only if, at the bump, an exchange of d had yet to write its first version. */
  lemma BumpIsFinalIff(cfg: Config, states: seq<Sys>, acts: seq<Action>, i: nat, j: nat, d: Id)
    requires Run(cfg, states, acts) && i < j < |acts| && cfg.accessTTL > 0
    requires Revokes(states[i], acts[i], d) && d in states[i].st.ids && NoneInFlight(states[i], d)
    requires Bumps(states[j], acts[j], d)
    ensures JwtLives(cfg, states[j + 1], d) <==> Unversioned(states[j], d)
  {
    if Unversioned(states[j], d) {
      var x :| x in states[j].exchanges && states[j].exchanges[x].Versioning? && states[j].exchanges[x].device == d;
      BumpLeavesExchanges(cfg, states[j], acts[j], d);
      SignsAfterAll(cfg, states[j + 1], x);
    } else {
      SilentAfterBump(cfg, states, acts, i, j, d);
      SilentNeverAccepts(cfg, states[j + 1], d);
    }
  }

  lemma BumpLeavesExchanges(cfg: Config, s: Sys, a: Action, d: Id)
    requires Enabled(s, a) && Bumps(s, a, d)
    ensures Next(cfg, s, a).exchanges == s.exchanges
  {
  }

  lemma OneStep(cfg: Config, s: Sys, a: Action, rest: seq<Action>, end: Sys)
    requires Enabled(s, a) && Leads(cfg, Next(cfg, s, a), rest, end)
    ensures Leads(cfg, s, [a] + rest, end)
  {
    assert ([a] + rest)[1..] == rest;
  }

  /** The exchange writes the version, signs, and its JWT is accepted; waiting for the end of a
      second makes it live at least a moment. */
  lemma SignsAfterAll(cfg: Config, s: Sys, x: nat)
    requires x in s.exchanges && s.exchanges[x].Versioning? && cfg.accessTTL > 0
    ensures JwtLives(cfg, s, s.exchanges[x].device)
  {
    var tick := Tick(999 - s.st.now % 1000);
    var s1 := Next(cfg, s, tick);
    var end := SignsNow(cfg, s1, x);
    var last := [SetVersion(x)] + ([Sign(x)] + []);
    OneStep(cfg, s, tick, last, end);
    assert AcceptedLater(cfg, s, [tick] + last, end, s.exchanges[x].device, end.exchanges[x].pair.access);
  }

  lemma SignsNow(cfg: Config, s: Sys, x: nat) returns (end: Sys)
    requires x in s.exchanges && s.exchanges[x].Versioning? && cfg.accessTTL > 0 && s.st.now % 1000 == 999
    ensures Leads(cfg, s, [SetVersion(x)] + ([Sign(x)] + []), end)
    ensures x in end.exchanges && end.exchanges[x].Exchanged? && Accepts(end.st, end.exchanges[x].pair.access)
    ensures end.exchanges[x].pair.access.device == s.exchanges[x].device
  {
    var s1 := Next(cfg, s, SetVersion(x));
    end := Next(cfg, s1, Sign(x));
    OneStep(cfg, s1, Sign(x), [], end);
    OneStep(cfg, s, SetVersion(x), [Sign(x)] + [], end);
    RoundsUp(s.st.now, cfg.accessTTL);
  }

  lemma RoundsUp(now: nat, ttl: nat)
    requires now % 1000 == 999 && ttl > 0
    ensures now < Unix(now + ttl) * 1000
  {
  }
}
