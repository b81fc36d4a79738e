/** One refresh call run without interruption has exactly the effect of the one-step
    request, so what is proved of whole requests is about the same endpoint. */
module TokenSerial {
  import opened Redis
  import opened TokenStore
  import opened TokenMachine

  /** The step a refresh call takes next. */
  function Own(pc: Pc, t: nat, next: Id): Action
    requires !pc.Done?
  {
    match pc
    case Waiting(_) => Acquire(t)
    case Finding(_) => Find(t)
    case Found(_, _) => Decide(t)
    case ReadingVersion(_, _) => ReadVersion(t)
    case Committing(_, _, _, _) => Commit(t, next)
    case Saving(_, _, _, _) => Save(t)
    case Refetching(_, _) => Refetch(t)
    case ReadingReplay(_, _) => ReadReplay(t)
    case Condemning(_, _) => Condemn(t)
    case Bumping(_, _) => BumpStolen(t)
    case Releasing(_, _) => Release(t)
  }

  /** n steps of call t, or fewer if it finishes. */
  ghost function Alone(cfg: Config, s: Sys, t: nat, next: Id, n: nat): Sys
    requires t in s.calls
    decreases n
  {
    if n == 0 || s.calls[t].pc.Done? || !Enabled(s, Own(s.calls[t].pc, t, next)) then s
    else
      var s' := Next(cfg, s, Own(s.calls[t].pc, t, next));
      if t in s'.calls then Alone(cfg, s', t, next, n - 1) else s
  }

  lemma AloneStep(cfg: Config, s: Sys, t: nat, next: Id, n: nat)
    requires t in s.calls && !s.calls[t].pc.Done? && n > 0 && Enabled(s, Own(s.calls[t].pc, t, next))
    ensures t in Next(cfg, s, Own(s.calls[t].pc, t, next)).calls
    ensures Alone(cfg, s, t, next, n) == Alone(cfg, Next(cfg, s, Own(s.calls[t].pc, t, next)), t, next, n - 1)
  {
  }

  /** From a held lock, releasing it and returning o. */
  lemma AloneRelease(cfg: Config, s: Sys, t: nat, next: Id, n: nat)
    requires t in s.calls && s.calls[t].pc.Releasing? && n > 0
    ensures var s' := Alone(cfg, s, t, next, n);
            && t in s'.calls && s'.calls[t].pc == Done(s.calls[t].pc.result)
            && s'.st == s.st.(locks := Del(s.st.locks, HashOf(s, t)))
  {
    AloneStep(cfg, s, t, next, n);
    assert Next(cfg, s, Release(t)).calls[t].pc.Done?;
  }

  lemma AloneRotate(cfg: Config, s: Sys, t: nat, next: Id, n: nat)
    requires t in s.calls && s.calls[t].pc.ReadingVersion? && n >= 4 && next !in s.st.ids
    requires Flips(s, HashOf(s, t)) && s.calls[t].pc.row == s.st.rows[HashOf(s, t)]
    ensures var s' := Alone(cfg, s, t, next, n);
            var (st', o) := Rotate(cfg, s.st, HashOf(s, t), s.calls[t].pc.row, next);
            && t in s'.calls && s'.calls[t].pc == Done(o)
            && s'.st == st'.(locks := Del(s.st.locks, HashOf(s, t)))
  {
    AloneStep(cfg, s, t, next, n);
    var s1 := Next(cfg, s, ReadVersion(t));
    if s1.calls[t].pc.Releasing? {
      AloneRelease(cfg, s1, t, next, n - 1);
    } else {
      AloneStep(cfg, s1, t, next, n - 1);
      var s2 := Next(cfg, s1, Commit(t, next));
      assert s2.calls[t].pc.Saving?;
      AloneStep(cfg, s2, t, next, n - 2);
      var s3 := Next(cfg, s2, Save(t));
      AloneRelease(cfg, s3, t, next, n - 3);
    }
  }

  lemma AloneReplay(cfg: Config, s: Sys, t: nat, next: Id, n: nat)
    requires t in s.calls && s.calls[t].pc.ReadingReplay? && n >= 4
    ensures var s' := Alone(cfg, s, t, next, n);
            var (st', o) := ReplayOrTheft(s.st, HashOf(s, t), s.calls[t].pc.row);
            && t in s'.calls && s'.calls[t].pc == Done(o)
            && s'.st == st'.(locks := Del(s.st.locks, HashOf(s, t)))
  {
    AloneStep(cfg, s, t, next, n);
    var s1 := Next(cfg, s, ReadReplay(t));
    if s1.calls[t].pc.Releasing? {
      AloneRelease(cfg, s1, t, next, n - 1);
    } else {
      AloneStep(cfg, s1, t, next, n - 1);
      var s2 := Next(cfg, s1, Condemn(t));
      AloneStep(cfg, s2, t, next, n - 2);
      var s3 := Next(cfg, s2, BumpStolen(t));
      AloneRelease(cfg, s3, t, next, n - 3);
    }
  }

  lemma AloneDecided(cfg: Config, s: Sys, t: nat, next: Id)
    requires t in s.calls && s.calls[t].pc.Found? && next !in s.st.ids
    requires var h := HashOf(s, t); s.calls[t].pc.got == if h in s.st.rows then Some(s.st.rows[h]) else None
    requires s.calls[t].token != NO_TOKEN
    ensures var s' := Alone(cfg, s, t, next, 5);
            var (st', o) := Refresh(cfg, s.st, s.calls[t].token, next);
            t in s'.calls && s'.st == st' && s'.calls[t].pc == Done(o)
  {
    AloneStep(cfg, s, t, next, 5);
    var s1 := Next(cfg, s, Decide(t));
    assert s1.st == s.st;
    match s1.calls[t].pc
    case Releasing(_, _) => AloneRelease(cfg, s1, t, next, 4);
    case ReadingReplay(_, _) => AloneReplay(cfg, s1, t, next, 4);
    case ReadingVersion(_, _) => AloneRotate(cfg, s1, t, next, 4);
  }

  /** Which lock entry is held while the request runs does not matter: it is deleted. */
  lemma RefreshIgnoresOwnLock(cfg: Config, st: Store, st': Store, token: Id, next: Id)
    requires st' == st.(locks := st'.locks) && Del(st'.locks, Sha256(token)) == Del(st.locks, Sha256(token))
    requires token != NO_TOKEN
    ensures Refresh(cfg, st', token, next) == Refresh(cfg, st, token, next)
  {
    var h := Sha256(token);
    assert st'.(locks := Del(st'.locks, h)) == st.(locks := Del(st.locks, h));
  }

  lemma AcquireOnly(cfg: Config, s: Sys, t: nat)
    requires Enabled(s, Acquire(t)) && Free(s, t)
    ensures var s' := Next(cfg, s, Acquire(t));
            && t in s'.calls && s'.calls[t] == Call(s.calls[t].token, Finding(s.st.now))
            && s'.st == s.st.(locks := s'.st.locks)
            && Del(s'.st.locks, HashOf(s, t)) == Del(s.st.locks, HashOf(s, t))
  {
  }

  lemma FindOnly(cfg: Config, s: Sys, t: nat)
    requires Enabled(s, Find(t))
    ensures var s' := Next(cfg, s, Find(t)); var h := HashOf(s, t);
            && t in s'.calls && s'.st == s.st && s'.calls[t].token == s.calls[t].token
            && s'.calls[t].pc.Found? && s'.calls[t].pc.got == if h in s.st.rows then Some(s.st.rows[h]) else None
  {
  }

  /** Seven undisturbed steps of a call that finds its lock free are the request Refresh. */
  lemma SerialCallIsRefresh(cfg: Config, s: Sys, t: nat, next: Id)
    requires t in s.calls && s.calls[t].pc.Waiting? && s.calls[t].token != NO_TOKEN && next !in s.st.ids
    requires !Live(s.st.locks, HashOf(s, t), s.st.now)
    ensures var s' := Alone(cfg, s, t, next, 7);
            var (st', o) := Refresh(cfg, s.st, s.calls[t].token, next);
            t in s'.calls && s'.st == st' && s'.calls[t].pc == Done(o)
  {
    AloneStep(cfg, s, t, next, 7);
    var s1 := Next(cfg, s, Acquire(t));
    AcquireOnly(cfg, s, t);
    AloneStep(cfg, s1, t, next, 6);
    var s2 := Next(cfg, s1, Find(t));
    FindOnly(cfg, s1, t);
    AloneDecided(cfg, s2, t, next);
    RefreshIgnoresOwnLock(cfg, s.st, s2.st, s.calls[t].token, next);
  }

  lemma ExchangeCreates(cfg: Config, s: Sys, t: nat, user: Id, d: Id, f: Id, next: Id)
    requires t in s.exchanges && s.exchanges[t] == Creating(user)
    requires d !in s.st.ids && f !in s.st.ids && next !in s.st.ids && d != f && d != next && f != next
    ensures Enabled(s, CreateDevice(t, d, f, next)) && var s' := Next(cfg, s, CreateDevice(t, d, f, next));
            && s'.st == CommitDevice(cfg, s.st, user, d, f, next)
            && t in s'.exchanges && s'.exchanges[t] == Versioning(user, d, next)
  {
  }

  lemma ExchangeSigns(cfg: Config, s: Sys, t: nat, user: Id, d: Id, next: Id)
    requires t in s.exchanges && s.exchanges[t] == Versioning(user, d, next)
    ensures Enabled(s, SetVersion(t)) && var s' := Next(cfg, s, SetVersion(t));
            && Enabled(s', Sign(t)) && var end := Next(cfg, s', Sign(t));
            && var jwt := MintJwt(cfg, user, d, INITIAL_VERSION, s.st.now);
            && end.st == s.st.(versions := s.st.versions[d := INITIAL_VERSION], issued := s.st.issued + {jwt})
            && t in end.exchanges && end.exchanges[t] == Exchanged(Pair(jwt, next))
  {
  }

  /** An exchange run without interruption is the one-step grant, and returns its pair. */
  lemma SerialExchangeIsExchangeCode(cfg: Config, s: Sys, t: nat, user: Id, d: Id, f: Id, next: Id) returns (end: Sys)
    requires t in s.exchanges && s.exchanges[t] == Creating(user)
    requires d !in s.st.ids && f !in s.st.ids && next !in s.st.ids && d != f && d != next && f != next
    ensures Enabled(s, CreateDevice(t, d, f, next)) && var s1 := Next(cfg, s, CreateDevice(t, d, f, next));
            && Enabled(s1, SetVersion(t)) && var s2 := Next(cfg, s1, SetVersion(t));
            && Enabled(s2, Sign(t)) && end == Next(cfg, s2, Sign(t))
    ensures t in end.exchanges && end.exchanges[t].Exchanged?
    ensures (end.st, end.exchanges[t].pair) == ExchangeCode(cfg, s.st, user, d, f, next)
  {
    ExchangeCreates(cfg, s, t, user, d, f, next);
    var s1 := Next(cfg, s, CreateDevice(t, d, f, next));
    ExchangeSigns(cfg, s1, t, user, d, next);
    end := Next(cfg, Next(cfg, s1, SetVersion(t)), Sign(t));
  }

  /** So is a revocation. */
  lemma SerialRevocationIsRevokeDevice(cfg: Config, s: Sys, t: nat, d: Id)
    requires t in s.revocations && s.revocations[t] == RevokingRows(d)
    ensures Enabled(s, RevokeRows(t)) && var s1 := Next(cfg, s, RevokeRows(t));
            && Enabled(s1, BumpRevoked(t)) && Next(cfg, s1, BumpRevoked(t)).st == TokenStore.RevokeDevice(s.st, d)
  {
  }
}
