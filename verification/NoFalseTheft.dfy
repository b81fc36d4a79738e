/** While every holder of a refresh lock finishes before the lock expires and no step
    fails, a token is judged stolen only after the whole grace window has passed.
  */
module NoFalseTheft {
  import opened Redis
  import opened TokenStore
  import opened TokenMachine
  import opened TokenChain

  /** No lock has expired under its holder. */
  ghost predicate Timely(s: Sys) {
    forall t | t in s.calls && Critical(s.calls[t].pc) :: s.st.now < Acquired(s.calls[t].pc) + LOCK_TTL
  }

  function Acquired(pc: Pc): nat
    requires Critical(pc)
  {
    pc.acq
  }

  ghost predicate Orderly(cfg: Config, states: seq<Sys>, acts: seq<Action>) {
    && Run(cfg, states, acts)
    && (forall i | 0 <= i < |states| :: Timely(states[i]))
    && (forall i | 0 <= i < |acts| :: !acts[i].Fail?)
  }

  // ---- mutual exclusion ----

  ghost predicate LockInv(s: Sys) {
    && (forall t | t in s.calls && Critical(s.calls[t].pc) ::
          HashOf(s, t) in s.st.locks && s.st.locks[HashOf(s, t)].expiry == Acquired(s.calls[t].pc) + LOCK_TTL)
    && (forall t, u | t in s.calls && u in s.calls && Critical(s.calls[t].pc) && Critical(s.calls[u].pc) ::
          s.calls[t].token == s.calls[u].token ==> t == u)
  }

  /** A call enters its critical section only by acquiring the lock. */
  lemma CriticalOrigin(cfg: Config, s: Sys, a: Action, t: nat)
    requires Enabled(s, a) && t in Next(cfg, s, a).calls && Critical(Next(cfg, s, a).calls[t].pc)
    ensures t in s.calls && s.calls[t].token == Next(cfg, s, a).calls[t].token
    ensures (Critical(s.calls[t].pc) && Acquired(s.calls[t].pc) == Acquired(Next(cfg, s, a).calls[t].pc))
            || (a == Acquire(t) && !Live(s.st.locks, HashOf(s, t), s.st.now)
                && Acquired(Next(cfg, s, a).calls[t].pc) == s.st.now)
  {
  }

  lemma QuietLocks(cfg: Config, s: Sys, a: Action)
    requires Enabled(s, a) && !a.Acquire? && !a.Release?
    ensures Next(cfg, s, a).st.locks == s.st.locks
  {
  }

  lemma LockStep(cfg: Config, s: Sys, a: Action)
    requires LockInv(s) && Timely(s) && Enabled(s, a)
    ensures LockInv(Next(cfg, s, a))
  {
    var s' := Next(cfg, s, a);
    forall t | t in s'.calls && Critical(s'.calls[t].pc)
      ensures HashOf(s', t) in s'.st.locks && s'.st.locks[HashOf(s', t)].expiry == Acquired(s'.calls[t].pc) + LOCK_TTL
    {
      CriticalOrigin(cfg, s, a, t);
      if !a.Acquire? && !a.Release? { QuietLocks(cfg, s, a); }
    }
    forall t, u | t in s'.calls && u in s'.calls && Critical(s'.calls[t].pc) && Critical(s'.calls[u].pc)
                  && s'.calls[t].token == s'.calls[u].token
      ensures t == u
    {
      CriticalOrigin(cfg, s, a, t);
      CriticalOrigin(cfg, s, a, u);
    }
  }

  // ---- what a holder knows ----

  /** Every used row has its pair saved, except the one whose rotation is between its
      transaction and its save. */
  ghost predicate PairsComplete(s: Sys) {
    forall h | h in s.st.rows && s.st.rows[h].used ::
      h in s.hist.saved || exists t :: t in s.calls && s.calls[t].pc.Saving? && HashOf(s, t) == h
  }

  /** The call has seen its token used. */
  predicate SawUsed(pc: Pc) {
    match pc
    case Found(_, got) => got.Some? && got.value.used
    case ReadingReplay(_, _) => true
    case Condemning(_, _) => true
    case Bumping(_, _) => true
    case _ => false
  }

  /** The call has seen its token unused and not yet committed. */
  predicate SawUnused(pc: Pc) {
    match pc
    case Found(_, got) => got.Some? && !got.value.used
    case ReadingVersion(_, _) => true
    case Committing(_, _, _, _) => true
    case _ => false
  }

  predicate Judged(pc: Pc) {
    pc.Condemning? || pc.Bumping?
  }

  ghost predicate Knows(cfg: Config, s: Sys, t: nat)
    requires t in s.calls
  {
    var h, pc := HashOf(s, t), s.calls[t].pc;
    && (SawUsed(pc) ==> h in s.hist.saved)
    && (SawUnused(pc) ==> h in s.st.rows && !s.st.rows[h].used)
    && (Judged(pc) ==> h in s.hist.saved && s.hist.saved[h].at + cfg.grace <= s.st.now)
    && !pc.Refetching?
  }

  ghost predicate TheftInv(cfg: Config, s: Sys) {
    LockInv(s) && PairsComplete(s) && forall t | t in s.calls :: Knows(cfg, s, t)
  }

  /** A row becomes used only by the commit of a call presenting it. */
  lemma UsedOrigin(cfg: Config, s: Sys, a: Action, h: Hash)
    requires IdsCover(s.st) && Enabled(s, a) && h in Next(cfg, s, a).st.rows && Next(cfg, s, a).st.rows[h].used
    ensures (h in s.st.rows && s.st.rows[h].used) || (a.Commit? && Flips(s, HashOf(s, a.t)) && h == HashOf(s, a.t))
  {
  }

  lemma SavedStays(cfg: Config, s: Sys, a: Action, h: Hash)
    requires SavingInv(s) && Enabled(s, a) && h in s.hist.saved
    ensures h in Next(cfg, s, a).hist.saved && Next(cfg, s, a).hist.saved[h] == s.hist.saved[h]
  {
  }

  lemma SavingMoves(cfg: Config, s: Sys, a: Action, t: nat)
    requires Enabled(s, a) && a != Fail(t) && t in s.calls && s.calls[t].pc.Saving?
    ensures var s' := Next(cfg, s, a);
            && t in s'.calls && HashOf(s', t) == HashOf(s, t)
            && (s'.calls[t].pc.Saving? || HashOf(s, t) in s'.hist.saved)
  {
  }

  lemma CommitMoves(cfg: Config, s: Sys, t: nat, next: Id)
    requires Enabled(s, Commit(t, next)) && Flips(s, HashOf(s, t))
    ensures var s' := Next(cfg, s, Commit(t, next));
            t in s'.calls && s'.calls[t].pc.Saving? && HashOf(s', t) == HashOf(s, t)
  {
  }

  lemma PairsStep(cfg: Config, s: Sys, a: Action)
    requires IdsCover(s.st) && SavingInv(s) && PairsComplete(s) && Enabled(s, a) && !a.Fail?
    ensures PairsComplete(Next(cfg, s, a))
  {
    var s' := Next(cfg, s, a);
    forall h | h in s'.st.rows && s'.st.rows[h].used
      ensures h in s'.hist.saved || exists t :: t in s'.calls && s'.calls[t].pc.Saving? && HashOf(s', t) == h
    {
      UsedOrigin(cfg, s, a, h);
      if h in s.st.rows && s.st.rows[h].used {
        if h in s.hist.saved {
          SavedStays(cfg, s, a, h);
        } else {
          var t :| t in s.calls && s.calls[t].pc.Saving? && HashOf(s, t) == h;
          SavingMoves(cfg, s, a, t);
        }
      } else {
        CommitMoves(cfg, s, a.t, a.next);
      }
    }
  }

  lemma ClockGrows(cfg: Config, s: Sys, a: Action)
    requires Enabled(s, a)
    ensures s.st.now <= Next(cfg, s, a).st.now
  {
  }

  lemma RowStays(cfg: Config, s: Sys, a: Action, h: Hash)
    requires Enabled(s, a) && h in s.st.rows
    ensures h in Next(cfg, s, a).st.rows
  {
  }

  lemma UnusedStays(cfg: Config, s: Sys, a: Action, t: nat)
    requires IdsCover(s.st) && LockInv(s) && Enabled(s, a)
    requires t in s.calls && t in Next(cfg, s, a).calls && Next(cfg, s, a).calls[t] == s.calls[t]
    requires SawUnused(s.calls[t].pc) && HashOf(s, t) in s.st.rows && !s.st.rows[HashOf(s, t)].used
    ensures var rows' := Next(cfg, s, a).st.rows; HashOf(s, t) in rows' && !rows'[HashOf(s, t)].used
  {
    var h := HashOf(s, t);
    RowStays(cfg, s, a, h);
    if Next(cfg, s, a).st.rows[h].used {
      UsedOrigin(cfg, s, a, h);
      CommitMoves(cfg, s, a.t, a.next);
    }
  }

  /** A step of another call leaves what this one knows intact. */
  lemma KnowsOther(cfg: Config, s: Sys, a: Action, t: nat)
    requires IdsCover(s.st) && SavingInv(s) && LockInv(s) && Enabled(s, a)
    requires t in s.calls && t in Next(cfg, s, a).calls && Next(cfg, s, a).calls[t] == s.calls[t]
    requires Knows(cfg, s, t)
    ensures Knows(cfg, Next(cfg, s, a), t)
  {
    ClockGrows(cfg, s, a);
    if HashOf(s, t) in s.hist.saved { SavedStays(cfg, s, a, HashOf(s, t)); }
    if SawUnused(s.calls[t].pc) { UnusedStays(cfg, s, a, t); }
  }

  /** Finding one's token used means its pair is saved: nobody else is in between. */
  lemma KnowsFind(cfg: Config, s: Sys, t: nat)
    requires LockInv(s) && PairsComplete(s) && Enabled(s, Find(t))
    ensures Knows(cfg, Next(cfg, s, Find(t)), t)
  {
  }

  /** Missing the saved pair means its grace window is over. */
  lemma KnowsReplay(cfg: Config, s: Sys, t: nat)
    requires AnswerInv(cfg, s) && Enabled(s, ReadReplay(t)) && Knows(cfg, s, t)
    ensures Knows(cfg, Next(cfg, s, ReadReplay(t)), t)
  {
    assert HashOf(s, t) in s.st.replays;
  }

  lemma KnowsMove(cfg: Config, s: Sys, a: Action, t: nat)
    requires Enabled(s, a) && !a.Find? && !a.ReadReplay?
    requires t in s.calls ==> Knows(cfg, s, t)
    requires t in Next(cfg, s, a).calls && (t !in s.calls || Next(cfg, s, a).calls[t] != s.calls[t])
    ensures Knows(cfg, Next(cfg, s, a), t)
  {
    if a.Commit? {
      KnowsCommit(cfg, s, a, t);
    } else if a.Decide? {
      KnowsDecide(cfg, s, a, t);
    } else {
      KnowsLittle(cfg, s, a, t);
    }
  }

  lemma KnowsCommit(cfg: Config, s: Sys, a: Action, t: nat)
    requires Enabled(s, a) && a.Commit? && a.t == t && Knows(cfg, s, t)
    ensures Knows(cfg, Next(cfg, s, a), t)
  {
    assert Flips(s, HashOf(s, t));
  }

  lemma KnowsDecide(cfg: Config, s: Sys, a: Action, t: nat)
    requires Enabled(s, a) && a.Decide? && a.t == t && Knows(cfg, s, t)
    ensures Knows(cfg, Next(cfg, s, a), t)
  {
    QuietReplays(cfg, s, a);
    QuietRows(cfg, s, a);
  }

  lemma KnowsLittle(cfg: Config, s: Sys, a: Action, t: nat)
    requires Enabled(s, a) && !a.Find? && !a.ReadReplay? && !a.Commit? && !a.Decide?
    requires t in s.calls ==> Knows(cfg, s, t)
    requires t in Next(cfg, s, a).calls && (t !in s.calls || Next(cfg, s, a).calls[t] != s.calls[t])
    ensures Knows(cfg, Next(cfg, s, a), t)
  {
  }

  lemma KnowsStep(cfg: Config, s: Sys, a: Action, t: nat)
    requires IdsCover(s.st) && SavingInv(s) && AnswerInv(cfg, s) && TheftInv(cfg, s) && Enabled(s, a)
    requires t in Next(cfg, s, a).calls
    ensures Knows(cfg, Next(cfg, s, a), t)
  {
    if t in s.calls && Next(cfg, s, a).calls[t] == s.calls[t] {
      KnowsOther(cfg, s, a, t);
    } else if a.Find? {
      KnowsFind(cfg, s, t);
    } else if a.ReadReplay? {
      KnowsReplay(cfg, s, t);
    } else {
      KnowsMove(cfg, s, a, t);
    }
  }

  lemma TheftStep(cfg: Config, s: Sys, a: Action)
    requires Inv(cfg, s) && TheftInv(cfg, s) && Timely(s) && Enabled(s, a) && !a.Fail?
    ensures TheftInv(cfg, Next(cfg, s, a))
  {
    var s' := Next(cfg, s, a);
    LockStep(cfg, s, a);
    PairsStep(cfg, s, a);
    forall t | t in s'.calls ensures Knows(cfg, s', t) {
      KnowsStep(cfg, s, a, t);
    }
  }

  lemma {:induction false} ReachableTheft(cfg: Config, states: seq<Sys>, acts: seq<Action>, i: nat)
    requires Orderly(cfg, states, acts) && i < |states|
    ensures Inv(cfg, states[i]) && TheftInv(cfg, states[i])
  {
    Reachable(cfg, states, acts, i);
    if i > 0 {
      ReachableTheft(cfg, states, acts, i - 1);
      TheftStep(cfg, states[i - 1], acts[i - 1]);
    }
  }

  // ---- the theorems ----

  /** A call about to revoke a family presents a token whose replay pair was saved at
      least one grace window ago. */
  lemma TheftOnlyAfterGrace(cfg: Config, states: seq<Sys>, acts: seq<Action>, i: nat, t: nat)
    requires Orderly(cfg, states, acts) && i < |states|
    requires t in states[i].calls && states[i].calls[t].pc.Condemning?
    ensures HashOf(states[i], t) in states[i].hist.saved
    ensures states[i].hist.saved[HashOf(states[i], t)].at + cfg.grace <= states[i].st.now
  {
    ReachableTheft(cfg, states, acts, i);
    assert Knows(cfg, states[i], t);
  }

  /** No rotation loses the race for its row, and two calls are never inside the critical
      section of one token. */
  lemma LockExcludes(cfg: Config, states: seq<Sys>, acts: seq<Action>, i: nat, t: nat, u: nat)
    requires Orderly(cfg, states, acts) && i < |states|
    requires t in states[i].calls && u in states[i].calls && t != u
    requires states[i].calls[t].token == states[i].calls[u].token
    ensures !states[i].calls[t].pc.Refetching?
    ensures !(Critical(states[i].calls[t].pc) && Critical(states[i].calls[u].pc))
  {
    ReachableTheft(cfg, states, acts, i);
    assert Knows(cfg, states[i], t);
  }

  lemma ReplayStepDecides(cfg: Config, s: Sys, t: nat)
    requires AnswerInv(cfg, s) && Enabled(s, ReadReplay(t)) && HashOf(s, t) in s.hist.saved
    ensures var pc' := Next(cfg, s, ReadReplay(t)).calls[t].pc; var saved := s.hist.saved[HashOf(s, t)];
            && (pc'.Condemning? <==> saved.at + cfg.grace <= s.st.now)
            && (!pc'.Condemning? ==> Answer(pc') == Some(saved.pair))
  {
    assert HashOf(s, t) in s.st.replays;
  }

  /** A used token is condemned exactly when its grace window is over; inside the window the
      same pair is handed out again. */
  lemma TheftExactlyAfterGrace(cfg: Config, states: seq<Sys>, acts: seq<Action>, i: nat, t: nat)
    requires Orderly(cfg, states, acts) && i < |acts| && acts[i] == ReadReplay(t)
    ensures var h := HashOf(states[i], t); var pc' := states[i + 1].calls[t].pc;
            && h in states[i].hist.saved
            && var saved := states[i].hist.saved[h];
            && (pc'.Condemning? <==> saved.at + cfg.grace <= states[i].st.now)
            && (!pc'.Condemning? ==> Answer(pc') == Some(saved.pair))
  {
    ReachableTheft(cfg, states, acts, i);
    assert HashOf(states[i], t) in states[i].hist.saved by { assert Knows(cfg, states[i], t); }
    ReplayStepDecides(cfg, states[i], t);
  }

  // ---- with no hypothesis on the run ----

  /** Exactly when a token presented again is judged stolen, whatever has expired or failed: when
      no pair was saved for it, or its grace window is over; otherwise it gets that pair again. */
  lemma CondemnedIff(cfg: Config, states: seq<Sys>, acts: seq<Action>, i: nat, t: nat)
    requires Run(cfg, states, acts) && i < |acts| && acts[i] == ReadReplay(t)
    ensures var h := HashOf(states[i], t); var pc' := states[i + 1].calls[t].pc; var saved := states[i].hist.saved;
            && (pc'.Condemning? <==> h !in saved || saved[h].at + cfg.grace <= states[i].st.now)
            && (!pc'.Condemning? ==> Answer(pc') == Some(saved[h].pair))
  {
    Reachable(cfg, states, acts, i);
    var s := states[i];
    if HashOf(s, t) in s.hist.saved {
      ReplayStepDecides(cfg, s, t);
    } else {
      assert HashOf(s, t) !in s.st.replays;
    }
  }

  /** The call that used the token has committed and not yet saved its pair. */
  ghost predicate BeingSaved(s: Sys, h: Hash) {
    exists t :: SavesFor(s, t, h)
  }

  predicate SavesFor(s: Sys, t: nat, h: Hash) {
    t in s.calls && s.calls[t].pc.Saving? && HashOf(s, t) == h
  }

  /** Step j is the failure of the call that used the token, between its commit and its save. */
  predicate FailsSaving(states: seq<Sys>, acts: seq<Action>, j: nat, t: nat, h: Hash) {
    j < |acts| && j < |states| && acts[j] == Fail(t) && SavesFor(states[j], t, h)
  }

  ghost predicate SaveFailed(states: seq<Sys>, acts: seq<Action>, i: nat, h: Hash) {
    exists j: nat, t :: j < i && FailsSaving(states, acts, j, t, h)
  }

  ghost predicate Unsaved(s: Sys, h: Hash) {
    h in s.st.rows && s.st.rows[h].used && h !in s.hist.saved
  }

  lemma FailLeavesUnsaved(cfg: Config, s: Sys, t: nat, h: Hash)
    requires IdsCover(s.st) && SavingInv(s) && Enabled(s, Fail(t)) && SavesFor(s, t, h)
    ensures Unsaved(Next(cfg, s, Fail(t)), h) && !BeingSaved(Next(cfg, s, Fail(t)), h)
  {
    UsedStaysUsed(cfg, s, Fail(t), h);
    QuietSaving(cfg, s, Fail(t));
    var s' := Next(cfg, s, Fail(t));
    forall u
      ensures !SavesFor(s', u, h)
    {
      assert SavesFor(s', u, h) ==> SavesFor(s, u, h);
    }
  }

  /** Nobody saves for a used token that nobody is saving for. */
  lemma AbandonedStep(cfg: Config, s: Sys, a: Action, h: Hash)
    requires IdsCover(s.st) && SavingInv(s) && Enabled(s, a) && Unsaved(s, h) && !BeingSaved(s, h)
    ensures Unsaved(Next(cfg, s, a), h) && !BeingSaved(Next(cfg, s, a), h)
  {
    var s' := Next(cfg, s, a);
    UsedStaysUsed(cfg, s, a, h);
    if a.Save? { assert !SavesFor(s, a.t, h); } else { QuietReplays(cfg, s, a); }
    forall u
      ensures !SavesFor(s', u, h)
    {
      assert !SavesFor(s, u, h);
      if SavesFor(s', u, h) { SavingOrigin(cfg, s, a, u); }
    }
  }

  lemma AbandonedAt(cfg: Config, states: seq<Sys>, acts: seq<Action>, i: nat, h: Hash)
    requires Run(cfg, states, acts) && i < |acts| && Unsaved(states[i], h) && !BeingSaved(states[i], h)
    ensures Unsaved(states[i + 1], h) && !BeingSaved(states[i + 1], h)
  {
    Reachable(cfg, states, acts, i);
    AbandonedStep(cfg, states[i], acts[i], h);
  }

  lemma {:induction false} AbandonedSince(cfg: Config, states: seq<Sys>, acts: seq<Action>, i: nat, h: Hash,
                                          j: nat, t: nat)
    requires Run(cfg, states, acts) && j < i < |states| && FailsSaving(states, acts, j, t, h)
    ensures Unsaved(states[i], h) && !BeingSaved(states[i], h)
    decreases i
  {
    if j == i - 1 {
      Reachable(cfg, states, acts, j);
      FailLeavesUnsaved(cfg, states[j], t, h);
    } else {
      AbandonedSince(cfg, states, acts, i - 1, h, j, t);
      AbandonedAt(cfg, states, acts, i - 1, h);
    }
  }

  lemma AbandonedStays(cfg: Config, states: seq<Sys>, acts: seq<Action>, i: nat, h: Hash)
    requires Run(cfg, states, acts) && i < |states| && SaveFailed(states, acts, i, h)
    ensures Unsaved(states[i], h) && !BeingSaved(states[i], h)
  {
    var j: nat, t :| j < i && FailsSaving(states, acts, j, t, h);
    AbandonedSince(cfg, states, acts, i, h, j, t);
  }

  lemma UnsavedStep(cfg: Config, s: Sys, a: Action, h: Hash)
    requires IdsCover(s.st) && SavingInv(s) && Enabled(s, a) && Unsaved(Next(cfg, s, a), h)
    ensures BeingSaved(Next(cfg, s, a), h) || (Unsaved(s, h) && !BeingSaved(s, h))
            || (a.Fail? && SavesFor(s, a.t, h))
  {
    var s' := Next(cfg, s, a);
    UsedOrigin(cfg, s, a, h);
    if h in s.hist.saved { SavedStays(cfg, s, a, h); }
    if h in s.st.rows && s.st.rows[h].used {
      if BeingSaved(s, h) {
        var t :| SavesFor(s, t, h);
        if a != Fail(t) {
          SavingMoves(cfg, s, a, t);
          assert SavesFor(s', t, h);
        }
      }
    } else {
      CommitMoves(cfg, s, a.t, a.next);
      assert SavesFor(s', a.t, h);
    }
  }

  lemma {:induction false} UnsavedWhy(cfg: Config, states: seq<Sys>, acts: seq<Action>, i: nat, h: Hash)
    requires Run(cfg, states, acts) && i < |states| && Unsaved(states[i], h)
    ensures BeingSaved(states[i], h) || SaveFailed(states, acts, i, h)
  {
    if i > 0 {
      Reachable(cfg, states, acts, i - 1);
      UnsavedStep(cfg, states[i - 1], acts[i - 1], h);
      if !BeingSaved(states[i], h) {
        if acts[i - 1].Fail? && SavesFor(states[i - 1], acts[i - 1].t, h) {
          assert FailsSaving(states, acts, i - 1, acts[i - 1].t, h);
        } else {
          UnsavedWhy(cfg, states, acts, i - 1, h);
        }
      }
    }
  }

  lemma RefetchDecides(cfg: Config, s: Sys, t: nat)
    requires AnswerInv(cfg, s) && Enabled(s, Refetch(t))
    ensures var h := HashOf(s, t); var got := Get(s.st.replays, h, s.st.now);
            && (got.Some? <==> h in s.hist.saved && s.st.now < s.hist.saved[h].at + cfg.grace)
            && (got.Some? ==> got.value == s.hist.saved[h].pair)
  {
  }

  lemma RefetchAnswers(cfg: Config, s: Sys, t: nat)
    requires Enabled(s, Refetch(t))
    ensures var got := Get(s.st.replays, HashOf(s, t), s.st.now); var s' := Next(cfg, s, Refetch(t));
            && t in s'.calls && s'.calls[t].pc.Releasing?
            && (if got.Some? then Answer(s'.calls[t].pc) == Some(got.value) else s'.calls[t].pc.result == InvalidGrant)
  {
  }

  /** A rotation that finds its row used by now is answered with the pair saved for it, exactly while that
      pair's window is not over. */
  lemma LoserGetsThePair(cfg: Config, states: seq<Sys>, acts: seq<Action>, i: nat, t: nat)
    requires Run(cfg, states, acts) && i < |acts| && acts[i] == Refetch(t)
    ensures var h := HashOf(states[i], t); var saved := states[i].hist.saved; var pc' := states[i + 1].calls[t].pc;
            && pc'.Releasing?
            && (if h in saved && states[i].st.now < saved[h].at + cfg.grace
                then Answer(pc') == Some(saved[h].pair) else pc'.result == InvalidGrant)
  {
    Reachable(cfg, states, acts, i);
    RefetchDecides(cfg, states[i], t);
    RefetchAnswers(cfg, states[i], t);
  }

  /** Which used tokens have no pair saved: those whose rotation is still between its transaction
      and its save, and those whose rotation failed there. */
  lemma NeverSavedIff(cfg: Config, states: seq<Sys>, acts: seq<Action>, i: nat, h: Hash)
    requires Run(cfg, states, acts) && i < |states|
    ensures Unsaved(states[i], h) <==> BeingSaved(states[i], h) || SaveFailed(states, acts, i, h)
  {
    Reachable(cfg, states, acts, i);
    if Unsaved(states[i], h) { UnsavedWhy(cfg, states, acts, i, h); }
    if SaveFailed(states, acts, i, h) { AbandonedStays(cfg, states, acts, i, h); }
    if BeingSaved(states[i], h) { var t :| SavesFor(states[i], t, h); }
  }

  ghost predicate SeenUsed(s: Sys) {
    forall t | t in s.calls && SawUsed(s.calls[t].pc) :: HashOf(s, t) in s.st.rows && s.st.rows[HashOf(s, t)].used
  }

  /** A call sees its token used by finding it so, or has seen it already. */
  lemma SawUsedOrigin(cfg: Config, s: Sys, a: Action, t: nat)
    requires Enabled(s, a) && t in Next(cfg, s, a).calls && SawUsed(Next(cfg, s, a).calls[t].pc)
    ensures t in s.calls && s.calls[t].token == Next(cfg, s, a).calls[t].token
    ensures SawUsed(s.calls[t].pc) || (a == Find(t) && HashOf(s, t) in s.st.rows && s.st.rows[HashOf(s, t)].used)
  {
  }

  lemma {:induction false} ReachableSeen(cfg: Config, states: seq<Sys>, acts: seq<Action>, i: nat)
    requires Run(cfg, states, acts) && i < |states|
    ensures SeenUsed(states[i])
  {
    if i > 0 {
      ReachableSeen(cfg, states, acts, i - 1);
      Reachable(cfg, states, acts, i - 1);
      var s, a, s' := states[i - 1], acts[i - 1], states[i];
      forall t | t in s'.calls && SawUsed(s'.calls[t].pc)
        ensures HashOf(s', t) in s'.st.rows && s'.st.rows[HashOf(s', t)].used
      {
        SawUsedOrigin(cfg, s, a, t);
        UsedStaysUsed(cfg, s, a, HashOf(s, t));
      }
    }
  }

  /** Put together: a false theft, that is a verdict while no grace window has run out, happens
      exactly when the rotation of the token is still unsaved or has failed to save, which a lock
      that outlives its holder's work and a save that succeeds rule out. */
  lemma FalseTheftIff(cfg: Config, states: seq<Sys>, acts: seq<Action>, i: nat, t: nat)
    requires Run(cfg, states, acts) && i < |acts| && acts[i] == ReadReplay(t)
    ensures var s := states[i]; var h := HashOf(s, t);
            var over := h in s.hist.saved && s.hist.saved[h].at + cfg.grace <= s.st.now;
            (states[i + 1].calls[t].pc.Condemning? && !over) <==> BeingSaved(s, h) || SaveFailed(states, acts, i, h)
  {
    CondemnedIff(cfg, states, acts, i, t);
    NeverSavedIff(cfg, states, acts, i, HashOf(states[i], t));
    ReachableSeen(cfg, states, acts, i);
  }

  /** A used token with no pair saved is condemned as soon as it is presented and the lock is free,
      so not one instant of a grace window has run. */
  lemma UnsavedIsCondemnedAtOnce(cfg: Config, s: Sys, u: nat)
    requires Inv(cfg, s) && u in s.calls && s.calls[u].pc.Waiting?
    requires Unsaved(s, HashOf(s, u)) && Usable(s.st, HashOf(s, u)) && Free(s, u)
    ensures var s1 := Next(cfg, s, Acquire(u));
            && Enabled(s1, Find(u)) && var s2 := Next(cfg, s1, Find(u));
            && Enabled(s2, Decide(u)) && var s3 := Next(cfg, s2, Decide(u));
            && Enabled(s3, ReadReplay(u)) && var s4 := Next(cfg, s3, ReadReplay(u));
            && u in s4.calls && s4.calls[u].pc.Condemning? && HashOf(s4, u) !in s4.hist.saved && s4.st.now == s.st.now
  {
    assert HashOf(s, u) !in s.st.replays;
    var s1 := Next(cfg, s, Acquire(u));
    AcquiresFree(cfg, s, u);
    var s2 := Next(cfg, s1, Find(u));
    FindsRow(cfg, s1, u);
    var s3 := Next(cfg, s2, Decide(u));
    DecidesReplay(cfg, s2, u);
    MissesReplay(cfg, s3, u);
  }

  /** The tables and history a refresh call looks at, apart from the locks. */
  ghost predicate Alike(s: Sys, s': Sys) {
    s'.st.rows == s.st.rows && s'.st.replays == s.st.replays && s'.hist.saved == s.hist.saved && s'.st.now == s.st.now
  }

  lemma AcquiresFree(cfg: Config, s: Sys, u: nat)
    requires Enabled(s, Acquire(u)) && Free(s, u)
    ensures var s' := Next(cfg, s, Acquire(u));
            Alike(s, s') && u in s'.calls && s'.calls[u] == Call(s.calls[u].token, Finding(s.st.now))
  {
  }

  lemma FindsRow(cfg: Config, s: Sys, u: nat)
    requires Enabled(s, Find(u)) && HashOf(s, u) in s.st.rows
    ensures var s' := Next(cfg, s, Find(u));
            Alike(s, s') && u in s'.calls
            && s'.calls[u] == Call(s.calls[u].token, Found(s.calls[u].pc.acq, Some(s.st.rows[HashOf(s, u)])))
  {
  }

  lemma DecidesReplay(cfg: Config, s: Sys, u: nat)
    requires Enabled(s, Decide(u)) && s.calls[u].pc.got.Some?
    requires var r := s.calls[u].pc.got.value; r.used && !r.revoked && r.expiresAt >= Unix(s.st.now)
    ensures var s' := Next(cfg, s, Decide(u));
            Alike(s, s') && u in s'.calls
            && s'.calls[u] == Call(s.calls[u].token, ReadingReplay(s.calls[u].pc.acq, s.calls[u].pc.got.value))
  {
  }

  lemma MissesReplay(cfg: Config, s: Sys, u: nat)
    requires Enabled(s, ReadReplay(u)) && HashOf(s, u) !in s.st.replays
    ensures var s' := Next(cfg, s, ReadReplay(u));
            Alike(s, s') && u in s'.calls && s'.calls[u].token == s.calls[u].token && s'.calls[u].pc.Condemning?
  {
  }
}
