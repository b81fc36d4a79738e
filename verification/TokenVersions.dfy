/** Instant revocation at operation granularity: a bump kills every access JWT whose
    version was read or written before it, including those a concurrent rotation has
    yet to sign.
  */
module TokenVersions {
  import opened Redis
  import opened TokenStore
  import opened TokenMachine
  import opened TokenChain

  // ---- which devices have their first version ----

  ghost predicate SettledInv(s: Sys) {
    && (forall d | d in s.hist.settled :: d in s.st.ids)
    && (forall t | t in s.exchanges && s.exchanges[t].Versioning? ::
          var e := s.exchanges[t];
          && e.device in s.st.ids && e.device !in s.hist.settled && e.minted in s.st.ids
          && Sha256(e.minted) in s.st.rows && s.st.rows[Sha256(e.minted)].device == e.device)
    && (forall t | t in s.exchanges && s.exchanges[t].Signing? ::
          var e := s.exchanges[t];
          e.minted in s.st.ids && Cleared(s, e.minted) && (e.device, INITIAL_VERSION) in s.hist.seen)
    && (forall t, u | t in s.exchanges && u in s.exchanges
                      && s.exchanges[t].Versioning? && s.exchanges[u].Versioning? ::
          s.exchanges[t].device == s.exchanges[u].device ==> t == u)
  }

  /** If the token names a row, that row's device has its first version. */
  predicate Cleared(s: Sys, token: Id) {
    Sha256(token) in s.st.rows ==> s.st.rows[Sha256(token)].device in s.hist.settled
  }

  /** Clients hold only tokens of settled devices. */
  ghost predicate ClearedInv(s: Sys) {
    && (forall x | x in s.hist.handed :: x in s.st.ids && Cleared(s, x))
    && (forall t | t in s.calls :: s.calls[t].token in s.st.ids && Cleared(s, s.calls[t].token))
    && (forall t | t in s.calls && s.calls[t].pc.Saving? ::
          s.calls[t].pc.minted in s.st.ids && Cleared(s, s.calls[t].pc.minted))
    && (forall h | h in s.hist.saved ::
          s.hist.saved[h].pair.refresh in s.st.ids && Cleared(s, s.hist.saved[h].pair.refresh))
  }

  // ---- the version ledger ----

  ghost predicate LedgerInv(s: Sys) {
    && (forall p | p in s.hist.seen :: p.0 in s.hist.settled && p.0 in s.st.versions && p.1 <= s.st.versions[p.0])
    && (forall p | p in s.hist.retired :: p.0 in s.hist.settled && p.0 in s.st.versions && p.1 < s.st.versions[p.0])
    && (forall d | d in s.hist.settled && d !in s.hist.bumped ::
          d in s.st.versions && s.st.versions[d] == INITIAL_VERSION)
    && (forall p | p in s.hist.seen && p.0 !in s.hist.bumped :: p.1 == INITIAL_VERSION)
    && (forall d | d in s.hist.bumped :: d in s.st.versions)
  }

  /** Every version a JWT carries, or is about to carry, has been seen. */
  ghost predicate BearerInv(s: Sys) {
    && (forall j | j in s.st.issued :: (j.device, j.version) in s.hist.seen)
    && (forall t | t in s.calls && s.calls[t].pc.Committing? ::
          (s.calls[t].pc.row.device, s.calls[t].pc.version) in s.hist.seen)
    && (forall t | t in s.calls && s.calls[t].pc.Saving? ::
          (s.calls[t].pc.row.device, s.calls[t].pc.version) in s.hist.seen)
  }

  ghost predicate VersionInv(s: Sys) {
    SettledInv(s) && ClearedInv(s) && LedgerInv(s) && BearerInv(s)
  }

  // ---- preservation ----

  /** Identifiers, settled devices and what has been seen only grow. */
  lemma Grows(cfg: Config, s: Sys, a: Action)
    requires Enabled(s, a)
    ensures var s' := Next(cfg, s, a);
            && s.st.ids <= s'.st.ids && s.hist.settled <= s'.hist.settled
            && s.hist.seen <= s'.hist.seen && s.hist.retired <= s'.hist.retired && s.hist.bumped <= s'.hist.bumped
  {
  }

  /** A device named by a known token stays as it was: new rows have new tokens. */
  lemma ClearedStep(cfg: Config, s: Sys, a: Action, token: Id)
    requires FamilyInv(s) && Enabled(s, a) && token in s.st.ids && Cleared(s, token)
    ensures Cleared(Next(cfg, s, a), token)
  {
    Grows(cfg, s, a);
    if Sha256(token) in Next(cfg, s, a).st.rows { RowOrigin(cfg, s, a, Sha256(token)); }
  }

  lemma RowOrigin(cfg: Config, s: Sys, a: Action, h: Hash)
    requires FamilyInv(s) && Enabled(s, a) && h.plain in s.st.ids && h in Next(cfg, s, a).st.rows
    ensures h in s.st.rows && s.st.rows[h].device == Next(cfg, s, a).st.rows[h].device
  {
    if KeepsFamilies(a) { QuietRows(cfg, s, a); }
  }

  lemma RowsPersist(cfg: Config, s: Sys, a: Action, h: Hash)
    requires FamilyInv(s) && Enabled(s, a) && h in s.st.rows
    ensures h in Next(cfg, s, a).st.rows && s.st.rows[h].device == Next(cfg, s, a).st.rows[h].device
  {
    if KeepsFamilies(a) { QuietRows(cfg, s, a); }
  }

  lemma SettledQuiet(cfg: Config, s: Sys, a: Action)
    requires FamilyInv(s) && SettledInv(s) && Enabled(s, a) && !a.CreateDevice? && !a.SetVersion?
    ensures SettledInv(Next(cfg, s, a))
  {
    var s' := Next(cfg, s, a);
    Grows(cfg, s, a);
    assert s'.hist.settled == s.hist.settled;
    forall t | t in s'.exchanges && (s'.exchanges[t].Versioning? || s'.exchanges[t].Signing?)
      ensures t in s.exchanges && s.exchanges[t] == s'.exchanges[t]
    {
    }
    forall t | t in s'.exchanges && s'.exchanges[t].Versioning?
      ensures Sha256(s'.exchanges[t].minted) in s'.st.rows
      ensures s'.st.rows[Sha256(s'.exchanges[t].minted)].device == s'.exchanges[t].device
    {
      RowsPersist(cfg, s, a, Sha256(s.exchanges[t].minted));
    }
    forall t | t in s'.exchanges && s'.exchanges[t].Signing? ensures Cleared(s', s'.exchanges[t].minted) {
      ClearedStep(cfg, s, a, s.exchanges[t].minted);
    }
  }

  lemma SettledCreate(cfg: Config, s: Sys, t: nat, d: Id, f: Id, next: Id)
    requires FamilyInv(s) && SettledInv(s) && Enabled(s, CreateDevice(t, d, f, next))
    ensures SettledInv(Next(cfg, s, CreateDevice(t, d, f, next)))
  {
    var a := CreateDevice(t, d, f, next);
    var s' := Next(cfg, s, a);
    assert Sha256(next) !in s.st.rows;
    forall u | u in s'.exchanges && s'.exchanges[u].Signing? ensures Cleared(s', s'.exchanges[u].minted) {
      ClearedStep(cfg, s, a, s.exchanges[u].minted);
    }
  }

  lemma SettledSet(cfg: Config, s: Sys, t: nat)
    requires FamilyInv(s) && SettledInv(s) && Enabled(s, SetVersion(t))
    ensures SettledInv(Next(cfg, s, SetVersion(t)))
  {
    var s' := Next(cfg, s, SetVersion(t));
    forall u | u in s'.exchanges && s'.exchanges[u].Signing? ensures Cleared(s', s'.exchanges[u].minted) {
      if u != t { ClearedStep(cfg, s, SetVersion(t), s.exchanges[u].minted); }
    }
  }

  lemma SettledStep(cfg: Config, s: Sys, a: Action)
    requires FamilyInv(s) && SettledInv(s) && Enabled(s, a)
    ensures SettledInv(Next(cfg, s, a))
  {
    if a.CreateDevice? {
      SettledCreate(cfg, s, a.t, a.device, a.family, a.next);
    } else if a.SetVersion? {
      SettledSet(cfg, s, a.t);
    } else {
      SettledQuiet(cfg, s, a);
    }
  }

  lemma HandedOrigin(cfg: Config, s: Sys, a: Action, x: Id)
    requires AnswerInv(cfg, s) && SettledInv(s) && ClearedInv(s) && Enabled(s, a) && x in Next(cfg, s, a).hist.handed
    ensures x in s.st.ids && Cleared(s, x)
  {
    if x !in s.hist.handed {
      NewlyHanded(cfg, s, a, x);
      if a.Release? { assert Answer(s.calls[a.t].pc).Some?; }
    }
  }

  lemma NewlyHanded(cfg: Config, s: Sys, a: Action, x: Id)
    requires Enabled(s, a) && x in Next(cfg, s, a).hist.handed && x !in s.hist.handed
    ensures (a.Release? && s.calls[a.t].pc.result.Granted? && x == s.calls[a.t].pc.result.pair.refresh)
            || (a.Sign? && x == s.exchanges[a.t].minted)
  {
  }

  lemma TokenOrigin(cfg: Config, s: Sys, a: Action, t: nat)
    requires Enabled(s, a) && t in Next(cfg, s, a).calls
    ensures var x := Next(cfg, s, a).calls[t].token;
            (t in s.calls && s.calls[t].token == x) || (a == Present(t, x))
  {
  }

  lemma NewTokenCleared(cfg: Config, s: Sys, t: nat, token: Id)
    requires FamilyInv(s) && ClearedInv(s) && Enabled(s, Present(t, token))
    ensures Cleared(Next(cfg, s, Present(t, token)), token)
  {
    if token in s.hist.handed {
      ClearedStep(cfg, s, Present(t, token), token);
    } else {
      assert token == NO_TOKEN || Sha256(token) !in s.st.rows;
    }
  }

  lemma MintedCleared(cfg: Config, s: Sys, t: nat, next: Id)
    requires FamilyInv(s) && ClearedInv(s) && Enabled(s, Commit(t, next)) && Flips(s, HashOf(s, t))
    ensures Cleared(Next(cfg, s, Commit(t, next)), next)
  {
    assert Carried(s.calls[t].pc) == Some(s.calls[t].pc.row);
  }

  lemma ClearedInvStep(cfg: Config, s: Sys, a: Action)
    requires Inv(cfg, s) && SettledInv(s) && ClearedInv(s) && Enabled(s, a)
    ensures ClearedInv(Next(cfg, s, a))
  {
    var s' := Next(cfg, s, a);
    Grows(cfg, s, a);
    forall x | x in s'.hist.handed ensures x in s'.st.ids && Cleared(s', x) {
      HandedOrigin(cfg, s, a, x);
      ClearedStep(cfg, s, a, x);
    }
    forall t | t in s'.calls ensures s'.calls[t].token in s'.st.ids && Cleared(s', s'.calls[t].token) {
      TokenOrigin(cfg, s, a, t);
      if t in s.calls && s.calls[t].token == s'.calls[t].token {
        ClearedStep(cfg, s, a, s.calls[t].token);
      } else {
        NewTokenCleared(cfg, s, t, s'.calls[t].token);
      }
    }
    forall t | t in s'.calls && s'.calls[t].pc.Saving?
      ensures s'.calls[t].pc.minted in s'.st.ids && Cleared(s', s'.calls[t].pc.minted)
    {
      SavingOrigin(cfg, s, a, t);
      if s.calls[t] == s'.calls[t] {
        ClearedStep(cfg, s, a, s.calls[t].pc.minted);
      } else {
        MintedCleared(cfg, s, t, a.next);
      }
    }
    forall h | h in s'.hist.saved
      ensures s'.hist.saved[h].pair.refresh in s'.st.ids && Cleared(s', s'.hist.saved[h].pair.refresh)
    {
      SavedCleared(cfg, s, a, h);
      ClearedStep(cfg, s, a, s'.hist.saved[h].pair.refresh);
    }
  }

  lemma SavedCleared(cfg: Config, s: Sys, a: Action, h: Hash)
    requires ClearedInv(s) && Enabled(s, a) && h in Next(cfg, s, a).hist.saved
    ensures var x := Next(cfg, s, a).hist.saved[h].pair.refresh; x in s.st.ids && Cleared(s, x)
  {
    if !a.Save? { QuietReplays(cfg, s, a); }
  }

  lemma LedgerQuiet(cfg: Config, s: Sys, a: Action)
    requires Enabled(s, a) && !a.ReadVersion? && !a.BumpStolen? && !a.BumpRevoked? && !a.SetVersion?
    ensures var s' := Next(cfg, s, a);
            && s'.st.versions == s.st.versions && s'.hist.seen == s.hist.seen && s'.hist.retired == s.hist.retired
            && s'.hist.settled == s.hist.settled && s'.hist.bumped == s.hist.bumped
  {
  }

  lemma LedgerBump(cfg: Config, s: Sys, a: Action)
    requires LedgerInv(s) && Enabled(s, a) && (a.BumpStolen? || a.BumpRevoked?)
    ensures LedgerInv(Next(cfg, s, a))
  {
  }

  lemma LedgerRead(cfg: Config, s: Sys, t: nat)
    requires FamilyInv(s) && ClearedInv(s) && LedgerInv(s) && Enabled(s, ReadVersion(t))
    ensures LedgerInv(Next(cfg, s, ReadVersion(t)))
  {
    ReaderIsSettled(s, t);
    ReadKeepsLedger(cfg, s, t);
  }

  /** A rotation reads the version of a settled device. */
  lemma ReaderIsSettled(s: Sys, t: nat)
    requires FamilyInv(s) && ClearedInv(s) && Enabled(s, ReadVersion(t))
    ensures s.calls[t].pc.row.device in s.hist.settled
  {
    assert Carried(s.calls[t].pc) == Some(s.calls[t].pc.row);
  }

  lemma ReadKeepsLedger(cfg: Config, s: Sys, t: nat)
    requires LedgerInv(s) && Enabled(s, ReadVersion(t)) && s.calls[t].pc.row.device in s.hist.settled
    ensures LedgerInv(Next(cfg, s, ReadVersion(t)))
  {
    assert Bumped(s, ReadVersion(t)).None?;
  }

  lemma LedgerSet(cfg: Config, s: Sys, t: nat)
    requires SettledInv(s) && LedgerInv(s) && Enabled(s, SetVersion(t))
    ensures LedgerInv(Next(cfg, s, SetVersion(t)))
  {
  }

  lemma LedgerStep(cfg: Config, s: Sys, a: Action)
    requires FamilyInv(s) && VersionInv(s) && Enabled(s, a)
    ensures LedgerInv(Next(cfg, s, a))
  {
    if a.ReadVersion? {
      LedgerRead(cfg, s, a.t);
    } else if a.SetVersion? {
      LedgerSet(cfg, s, a.t);
    } else if a.BumpStolen? || a.BumpRevoked? {
      LedgerBump(cfg, s, a);
    } else {
      LedgerQuiet(cfg, s, a);
    }
  }

  /** A JWT comes from a rotation that is saving or an exchange that is signing. */
  lemma JwtOrigin(cfg: Config, s: Sys, a: Action, j: Jwt)
    requires Enabled(s, a) && SettledInv(s) && BearerInv(s) && j in Next(cfg, s, a).st.issued
    ensures (j.device, j.version) in s.hist.seen
  {
    if a.Save? {
    } else if a.Sign? {
    } else {
      assert j in s.st.issued;
    }
  }

  lemma CarrierOrigin(cfg: Config, s: Sys, a: Action, t: nat)
    requires Enabled(s, a) && BearerInv(s) && t in Next(cfg, s, a).calls
    ensures var s' := Next(cfg, s, a); var pc := s'.calls[t].pc;
            pc.Committing? || pc.Saving? ==> (pc.row.device, pc.version) in s'.hist.seen
  {
    Grows(cfg, s, a);
  }

  lemma BearerStep(cfg: Config, s: Sys, a: Action)
    requires VersionInv(s) && Enabled(s, a)
    ensures BearerInv(Next(cfg, s, a))
  {
    var s' := Next(cfg, s, a);
    Grows(cfg, s, a);
    forall j | j in s'.st.issued ensures (j.device, j.version) in s'.hist.seen {
      JwtOrigin(cfg, s, a, j);
    }
    forall t | t in s'.calls && (s'.calls[t].pc.Committing? || s'.calls[t].pc.Saving?)
      ensures (s'.calls[t].pc.row.device, s'.calls[t].pc.version) in s'.hist.seen
    {
      CarrierOrigin(cfg, s, a, t);
    }
  }

  lemma VersionStep(cfg: Config, s: Sys, a: Action)
    requires Inv(cfg, s) && VersionInv(s) && Enabled(s, a)
    ensures VersionInv(Next(cfg, s, a))
  {
    SettledStep(cfg, s, a);
    ClearedInvStep(cfg, s, a);
    LedgerStep(cfg, s, a);
    BearerStep(cfg, s, a);
  }

  lemma {:induction false} ReachableVersions(cfg: Config, states: seq<Sys>, acts: seq<Action>, i: nat)
    requires Run(cfg, states, acts) && i < |states|
    ensures Inv(cfg, states[i]) && VersionInv(states[i])
  {
    Reachable(cfg, states, acts, i);
    if i > 0 {
      ReachableVersions(cfg, states, acts, i - 1);
      VersionStep(cfg, states[i - 1], acts[i - 1]);
    }
  }

  // ---- the theorems ----

  /** The step increments d's token_version. */
  predicate Bumps(s: Sys, a: Action, d: Id)
    requires Enabled(s, a)
  {
    Bumped(s, a) == Some(d)
  }

  lemma {:induction false} HistoryGrows(cfg: Config, states: seq<Sys>, acts: seq<Action>, i: nat, k: nat)
    requires Run(cfg, states, acts) && i <= k < |states|
    ensures states[i].hist.retired <= states[k].hist.retired && states[i].hist.seen <= states[k].hist.seen
  {
    if i < k {
      HistoryGrows(cfg, states, acts, i, k - 1);
      Grows(cfg, states[k - 1], acts[k - 1]);
    }
  }

  /** Once step i bumps a device, no JWT carrying a version that was read or written for
      that device before step i is accepted in any later state, whenever it was signed. */
  lemma VersionDominance(cfg: Config, states: seq<Sys>, acts: seq<Action>, i: nat, k: nat, jwt: Jwt)
    requires Run(cfg, states, acts) && i < k < |states|
    requires Bumps(states[i], acts[i], jwt.device)
    requires (jwt.device, jwt.version) in states[i].hist.seen
    ensures !Accepts(states[k].st, jwt)
  {
    assert (jwt.device, jwt.version) in states[i + 1].hist.retired;
    HistoryGrows(cfg, states, acts, i + 1, k);
    ReachableVersions(cfg, states, acts, k);
  }

  /** In particular every JWT already signed, and every JWT a rotation in flight will sign
      from the version it has already read. */
  lemma SeenCoversEveryJwt(cfg: Config, states: seq<Sys>, acts: seq<Action>, i: nat)
    requires Run(cfg, states, acts) && i < |states|
    ensures forall j | j in states[i].st.issued :: (j.device, j.version) in states[i].hist.seen
    ensures forall t | t in states[i].calls && (states[i].calls[t].pc.Committing? || states[i].calls[t].pc.Saving?) ::
              (states[i].calls[t].pc.row.device, states[i].calls[t].pc.version) in states[i].hist.seen
  {
    ReachableVersions(cfg, states, acts, i);
  }

  lemma {:induction false} BumpedByAStep(cfg: Config, states: seq<Sys>, acts: seq<Action>, i: nat, d: Id)
    requires Run(cfg, states, acts) && i < |states|
    requires forall k | 0 <= k < i :: !Bumps(states[k], acts[k], d)
    ensures d !in states[i].hist.bumped
  {
    if i > 0 {
      BumpedByAStep(cfg, states, acts, i - 1, d);
      var s, a := states[i - 1], acts[i - 1];
      assert !Bumps(s, a, d);
    }
  }

  /** A device no step has bumped has all its unexpired JWTs accepted. */
  lemma NeverBumpedNeverRejected(cfg: Config, states: seq<Sys>, acts: seq<Action>, i: nat, jwt: Jwt)
    requires Run(cfg, states, acts) && i < |states|
    requires forall k | 0 <= k < i :: !Bumps(states[k], acts[k], jwt.device)
    requires Verifies(states[i].st, jwt)
    ensures Accepts(states[i].st, jwt)
  {
    ReachableVersions(cfg, states, acts, i);
    BumpedByAStep(cfg, states, acts, i, jwt.device);
    assert (jwt.device, jwt.version) in states[i].hist.seen;
  }

  /** The hypothesis that the version was seen before the bump matters.  A device exists
      from its transaction on but gets its version afterwards; a revocation that bumps in
      between is overwritten, and the access JWT signed next is accepted. */
  lemma BumpBeforeFirstVersionIsLost(cfg: Config, s: Sys, x: nat, r: nat)
    requires x in s.exchanges && s.exchanges[x].Versioning?
    requires r in s.revocations && s.revocations[r] == BumpingDevice(s.exchanges[x].device)
    requires cfg.accessTTL >= 1000
    ensures Enabled(s, BumpRevoked(r))
    ensures var s1 := Next(cfg, s, BumpRevoked(r));
            && Enabled(s1, SetVersion(x))
            && var s2 := Next(cfg, s1, SetVersion(x));
            && Enabled(s2, Sign(x))
            && var s3 := Next(cfg, s2, Sign(x));
            && s3.revocations[r].Revoked? && s3.exchanges[x].Exchanged?
            && Accepts(s3.st, s3.exchanges[x].pair.access)
  {
    var s1 := Next(cfg, s, BumpRevoked(r));
    var s2 := Next(cfg, s1, SetVersion(x));
    var s3 := Next(cfg, s2, Sign(x));
    assert s3.exchanges[x].pair.access.expiresAt * 1000 > s.st.now;
  }
}
