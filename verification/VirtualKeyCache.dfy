/** When the cached virtual key can differ from the row's, and two runs into the bad situations. */
module VirtualKeyCache {
  import opened Redis
  import opened VirtualKeyMachine
  import opened VirtualKeyProofs

  /** The key a call is going to put in the cache. */
  function PendingFill(pc: Pc): Option<Key> {
    match pc
    case Filling(key) => Some(key)
    case DroppingOld(_, key) => Some(key)
    case _ => None
  }

  /** The cache holds a key that is not the row's. */
  predicate Stale(s: Sys) {
    s.cache.Some? && s.cache.value !in RowKeys(s.row)
  }

  /** t is about to cache a key that is not the row's. */
  predicate LateFiller(s: Sys, t: nat) {
    && t in s.threads && PendingFill(s.threads[t].pc).Some?
    && PendingFill(s.threads[t].pc).value !in RowKeys(s.row)
  }

  /** A run from any state that replaces no row. */
  predicate Path(states: seq<Sys>, acts: seq<Action>) {
    && |states| == |acts| + 1
    && forall i | 0 <= i < |acts| ::
         !acts[i].Replace? && Enabled(states[i], acts[i]) && states[i + 1] == Next(states[i], acts[i])
  }

  predicate GoesStale(s: Sys, states: seq<Sys>, acts: seq<Action>) {
    Path(states, acts) && states[0] == s && Stale(states[|acts|])
  }

  /** Before the row is replaced again the cache can come to hold a key that is not the row's. */
  ghost predicate CanGoStale(s: Sys) {
    exists states: seq<Sys>, acts: seq<Action> :: GoesStale(s, states, acts)
  }

  predicate InUse(s: Sys) {
    s.row.Some? && s.row.value.active
  }

  /** What is fetched from the row is the row's, so new staleness takes an old fill. */
  lemma StaleStep(s: Sys, a: Action)
    requires InUse(s) && Enabled(s, a) && !a.Replace?
    ensures Next(s, a).row == s.row
    ensures Stale(Next(s, a)) ==> Stale(s) || (a.Fill? && LateFiller(s, a.t))
    ensures forall t | LateFiller(Next(s, a), t) :: LateFiller(s, t)
  {
    forall t | LateFiller(Next(s, a), t) ensures LateFiller(s, t) {
      if !ThreadAction(a) || a.t != t {
        if !a.Start? || a.t != t { Others(s, a, t); }
      }
    }
  }

  lemma {:induction false} StaleOrigin(states: seq<Sys>, acts: seq<Action>, i: nat)
    requires Path(states, acts) && i <= |acts| && InUse(states[0])
    ensures states[i].row == states[0].row
    ensures Stale(states[i]) ==> Stale(states[0]) || exists t :: LateFiller(states[0], t)
    ensures forall t | LateFiller(states[i], t) :: LateFiller(states[0], t)
    decreases i
  {
    if i > 0 {
      StaleOrigin(states, acts, i - 1);
      StaleStep(states[i - 1], acts[i - 1]);
    }
  }

  lemma LateFillHappens(s: Sys, t: nat)
    requires LateFiller(s, t)
    ensures CanGoStale(s)
  {
    if s.threads[t].pc.Filling? {
      assert GoesStale(s, [s, Next(s, Fill(t, true))], [Fill(t, true)]);
    } else {
      var s1 := Next(s, DropOld(t, true));
      assert GoesStale(s, [s, s1, Next(s1, Fill(t, true))], [DropOld(t, true), Fill(t, true)]);
    }
  }

  /** From any state with a usable row: the cache can go stale before the next rotation exactly when
      it is stale already or some call is about to cache a key that is not the row's. */
  lemma StaleIff(s: Sys)
    requires InUse(s)
    ensures CanGoStale(s) <==> Stale(s) || exists t :: LateFiller(s, t)
  {
    if CanGoStale(s) {
      var states: seq<Sys>, acts: seq<Action> :| GoesStale(s, states, acts);
      StaleOrigin(states, acts, |acts|);
    }
    if Stale(s) { assert GoesStale(s, [s], []); }
    if t :| LateFiller(s, t) { LateFillHappens(s, t); }
  }

  // ---- after a rotation ----

  predicate Finished(pc: Pc) {
    pc.Unlocking? || pc.Done?
  }

  lemma {:induction false} StaysFinished(states: seq<Sys>, acts: seq<Action>, h: nat, j: nat, t: nat)
    requires Run(states, acts) && h <= j < |states| && t in states[h].threads && Finished(states[h].threads[t].pc)
    ensures t in states[j].threads && Finished(states[j].threads[t].pc)
    decreases j
  {
    if h < j {
      StaysFinished(states, acts, h, j - 1, t);
      if !ThreadAction(acts[j - 1]) || acts[j - 1].t != t { Others(states[j - 1], acts[j - 1], t); }
    }
  }

  /** The rotation t has written k and not yet cached it. */
  predicate Writing(s: Sys, t: nat, k: Key) {
    && t in s.threads && s.threads[t].rotates && PendingFill(s.threads[t].pc) == Some(k)
    && s.row == Some(Row(k, true))
  }

  lemma WritingStep(s: Sys, a: Action, t: nat, k: Key)
    requires RowInv(s) && Exclusive(s) && Enabled(s, a) && Writing(s, t, k)
    ensures t in Next(s, a).threads && (Writing(Next(s, a), t, k) || Finished(Next(s, a).threads[t].pc))
  {
    assert Rotating(s.threads[t]);
    if a.Replace? { assert Rotating(s.threads[a.t]); }
    if !ThreadAction(a) || a.t != t { Others(s, a, t); }
  }

  lemma WritingAt(states: seq<Sys>, acts: seq<Action>, i: nat, t: nat, k: Key)
    requires Run(states, acts) && i < |acts| && Writing(states[i], t, k)
    requires forall j | 0 <= j <= i :: Exclusive(states[j])
    ensures t in states[i + 1].threads
    ensures Writing(states[i + 1], t, k) || Finished(states[i + 1].threads[t].pc)
  {
    Reachable(states, acts, i);
    WritingStep(states[i], acts[i], t, k);
  }

  lemma WritingStarts(s: Sys, a: Action)
    requires Inv(s) && Exclusive(s) && Enabled(s, a) && a.Replace?
    ensures Writing(Next(s, a), a.t, s.threads[a.t].pc.key)
  {
    assert Displaces(s.threads[a.t].pc) == s.row;
  }

  lemma {:induction false} WritesUntilItFills(states: seq<Sys>, acts: seq<Action>, m: nat, h: nat, j: nat)
    requires Run(states, acts) && m < h <= j < |acts| && acts[m].Replace? && acts[j].Fill? && acts[j].t == acts[m].t
    requires forall i | 0 <= i <= j :: Exclusive(states[i])
    ensures Writing(states[h], acts[m].t, states[m].threads[acts[m].t].pc.key)
    decreases h
  {
    if h == m + 1 {
      Reachable(states, acts, m);
      WritingStarts(states[m], acts[m]);
    } else {
      WritesUntilItFills(states, acts, m, h - 1, j);
      WritingAt(states, acts, h - 1, acts[m].t, states[m].threads[acts[m].t].pc.key);
      if Finished(states[h].threads[acts[m].t].pc) { StaysFinished(states, acts, h, j, acts[m].t); }
    }
  }

  /** A get-or-create call is about to cache a key that is not the row's. */
  predicate LateReader(s: Sys, u: nat) {
    u in s.threads && !s.threads[u].rotates && s.threads[u].pc.Filling? && s.threads[u].pc.key !in RowKeys(s.row)
  }

  lemma LateFillersAreReaders(s: Sys, t: nat, u: nat, k: Key)
    requires RowInv(s) && Exclusive(s) && Writing(s, t, k)
    ensures LateFiller(s, u) <==> LateReader(s, u)
  {
    assert Rotating(s.threads[t]);
    if LateFiller(s, u) { assert u != t && !Rotating(s.threads[u]); }
  }

  /** Rotations excluding each other: a rotation that writes the row at m and caches its key at j
      leaves a cache that can hold another key before the next rotation exactly when some other
      call was then about to cache an older key, or the write to the cache failed on an entry that
      was stale. */
  lemma StaleAfterRotationIff(states: seq<Sys>, acts: seq<Action>, m: nat, j: nat)
    requires Run(states, acts) && m < j < |acts| && acts[m].Replace? && acts[j].Fill? && acts[j].t == acts[m].t
    requires forall i | 0 <= i <= j :: Exclusive(states[i])
    ensures states[j + 1].row == Some(Row(states[m].threads[acts[m].t].pc.key, true))
    ensures CanGoStale(states[j + 1])
            <==> (exists u :: LateReader(states[j], u)) || (!acts[j].ok && Stale(states[j]))
  {
    var s, s', t := states[j], states[j + 1], acts[m].t;
    var k := states[m].threads[t].pc.key;
    WritesUntilItFills(states, acts, m, j, j);
    Reachable(states, acts, j);
    StaleIff(s');
    forall u ensures LateFiller(s', u) <==> LateReader(s, u) {
      LateFillersAreReaders(s, t, u, k);
      if u != t && (u in s.threads || u in s'.threads) { Others(s, acts[j], u); }
    }
    assert Stale(s') <==> !acts[j].ok && Stale(s);
  }
}
