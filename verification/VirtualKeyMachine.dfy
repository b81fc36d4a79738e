/** Get-or-create and rotation of one user's virtual key, at operation granularity.

    Every store is keyed by user, so the machine follows a single user.  Four stores are
    involved: the Redis cache, the database row (at most one, by its unique constraint),
    the external key server and a lock.  Any number of calls interleave; the lock may be
    refused, skipped or lost at any time; cache entries expire; and any step may fail.
  */
module VirtualKeyMachine {
  import opened Redis

  type Key = nat

  /** active: the row is usable, that is, its status is active and its key is not empty. */
  datatype Row = Row(key: Key, active: bool)

  datatype Result = Got(key: Key) | Error

  datatype Pc =
    | ReadingCache
    | LookingUp
    | Locking
    | ClearingCache
    | ReadingRow
    | Signing(was: Option<Row>)
    | Replacing(was: Option<Row>, key: Key)
    | Inserting(key: Key)
    | Conflicted(key: Key)
    | Requerying
    | Aborting(key: Key)
    | DroppingOld(dead: Key, key: Key)
    | Filling(key: Key)
    | Unlocking(result: Result)
    | Done(result: Result)

  /** rotates: a RevokeAndRegenerate call, as opposed to a GetOrCreateVirtualKey call. */
  datatype Thread = Thread(rotates: bool, locked: bool, pc: Pc)

  /** used: every key ever generated.  leaked: keys whose deletion failed.  gone: keys deleted
      at the key server by someone else. */
  datatype Sys = Sys(
    cache: Option<Key>,
    row: Option<Row>,
    live: set<Key>,
    lock: Option<nat>,
    threads: map<nat, Thread>,
    used: set<Key>, leaked: set<Key>, gone: set<Key>)

  /** ok tells whether a best-effort command reached its store. */
  datatype Action =
    | Start(t: nat, rotates: bool)
    | ReadCache(t: nat, ok: bool)
    | LookUp(t: nat)
    | Lock(t: nat)
    | SkipLock(t: nat)
    | ClearCache(t: nat, ok: bool)
    | ReadRow(t: nat)
    | Sign(t: nat, key: Key)
    | Replace(t: nat)
    | Insert(t: nat)
    | DropOrphan(t: nat, ok: bool)
    | Requery(t: nat)
    | DropOld(t: nat, ok: bool)
    | Fill(t: nat, ok: bool)
    | Unlock(t: nat)
    | Fail(t: nat)
    | ExpireCache
    | ExpireLock
    | Vanish(key: Key)

  predicate Init(s: Sys) {
    && s.cache.None? && s.lock.None? && s.threads == map[] && s.leaked == {} && s.gone == {}
    && (s.row.Some? ==> s.row.value.active)
    && s.used == s.live == RowKeys(s.row)
  }

  function RowKeys(row: Option<Row>): set<Key> {
    if row.Some? then {row.value.key} else {}
  }

  function Active(row: Option<Row>): Option<Key> {
    if row.Some? && row.value.active then Some(row.value.key) else None
  }

  predicate ThreadAction(a: Action) {
    !a.Start? && !a.ExpireCache? && !a.ExpireLock? && !a.Vanish?
  }

  /** The call may take this step next. */
  predicate Ready(s: Sys, th: Thread, a: Action)
    requires ThreadAction(a)
  {
    match a
    case ReadCache(_, _) => th.pc.ReadingCache?
    case LookUp(_) => th.pc.LookingUp?
    case Lock(_) => th.pc.Locking? && s.lock.None?
    case SkipLock(_) => th.pc.Locking?
    case ClearCache(_, _) => th.pc.ClearingCache?
    case ReadRow(_) => th.pc.ReadingRow?
    case Sign(_, key) => th.pc.Signing? && key !in s.used
    case Replace(_) => th.pc.Replacing?
    case Insert(_) => th.pc.Inserting?
    case DropOrphan(_, _) => th.pc.Conflicted? || th.pc.Aborting?
    case Requery(_) => th.pc.Requerying?
    case DropOld(_, _) => th.pc.DroppingOld?
    case Fill(_, _) => th.pc.Filling?
    case Unlock(_) => th.pc.Unlocking?
    case Fail(_) =>
      || th.pc.LookingUp? || th.pc.ReadingRow? || th.pc.Signing? || th.pc.Replacing? || th.pc.Inserting?
      || th.pc.Requerying?
  }

  predicate Enabled(s: Sys, a: Action) {
    if a.Start? then a.t !in s.threads
    else if a.Vanish? then a.key in s.live
    else ThreadAction(a) ==> a.t in s.threads && Ready(s, s.threads[a.t], a)
  }

  // ---- where a step takes its call ----

  function PcAfter(s: Sys, th: Thread, a: Action): Pc
    requires ThreadAction(a) && Ready(s, th, a)
  {
    match a
    case ReadCache(_, ok) => if ok && s.cache.Some? then Unlocking(Got(s.cache.value)) else LookingUp
    case LookUp(_) => if Active(s.row).Some? then Filling(Active(s.row).value) else Locking
    case Lock(_) => if th.rotates then ClearingCache else ReadingRow
    case SkipLock(_) => if th.rotates then ClearingCache else ReadingRow
    case ClearCache(_, _) => ReadingRow
    case ReadRow(_) =>
      if !th.rotates && Active(s.row).Some? then Filling(Active(s.row).value) else Signing(s.row)
    case Sign(_, key) => if th.pc.was.Some? then Replacing(th.pc.was, key) else Inserting(key)
    case Replace(_) =>
      if th.rotates && th.pc.was.Some? && th.pc.was.value.key != th.pc.key
      then DroppingOld(th.pc.was.value.key, th.pc.key)
      else Filling(th.pc.key)
    case Insert(_) => if s.row.None? then Filling(th.pc.key) else Conflicted(th.pc.key)
    case DropOrphan(_, _) => if th.pc.Conflicted? then Requerying else Unlocking(Error)
    case Requery(_) => if Active(s.row).Some? then Filling(Active(s.row).value) else Unlocking(Error)
    case DropOld(_, _) => Filling(th.pc.key)
    case Fill(_, _) => Unlocking(Got(th.pc.key))
    case Unlock(_) => Done(th.pc.result)
    // A failed write leaves a signed key to delete.
    case Fail(_) => if th.pc.Replacing? || th.pc.Inserting? then Aborting(th.pc.key) else Unlocking(Error)
  }

  function ThreadsAfter(s: Sys, a: Action): map<nat, Thread>
    requires Enabled(s, a)
  {
    if a.Start? then
      s.threads[a.t := Thread(a.rotates, false, if a.rotates then Locking else ReadingCache)]
    else if ThreadAction(a) then
      var th := s.threads[a.t];
      s.threads[a.t := Thread(th.rotates, if a.Lock? then true else if a.Unlock? then false else th.locked,
                              PcAfter(s, th, a))]
    else
      s.threads
  }

  // ---- what a step does to each store ----

  /** INSERT ... ON CONFLICT DO NOTHING, and UPDATE ... WHERE user_uuid. */
  function RowAfter(s: Sys, a: Action): Option<Row>
    requires Enabled(s, a)
  {
    if a.Insert? && s.row.None? then Some(Row(s.threads[a.t].pc.key, true))
    else if a.Replace? && s.row.Some? then Some(Row(s.threads[a.t].pc.key, true))
    else s.row
  }

  /** The key a deletion is aimed at. */
  function Target(s: Sys, a: Action): Option<Key>
    requires Enabled(s, a)
  {
    if a.DropOrphan? then Some(s.threads[a.t].pc.key)
    else if a.DropOld? then Some(s.threads[a.t].pc.dead)
    else None
  }

  function LiveAfter(s: Sys, a: Action): set<Key>
    requires Enabled(s, a)
  {
    if a.Sign? then s.live + {a.key}
    else if Target(s, a).Some? && a.ok then s.live - {Target(s, a).value}
    else if a.Vanish? then s.live - {a.key}
    else s.live
  }

  function CacheAfter(s: Sys, a: Action): Option<Key>
    requires Enabled(s, a)
  {
    if a.Fill? && a.ok then Some(s.threads[a.t].pc.key)
    else if (a.ClearCache? && a.ok) || a.ExpireCache? then None
    else s.cache
  }

  /** The release is an unconditional DEL, made only by a call that acquired. */
  function LockAfter(s: Sys, a: Action): Option<nat>
    requires Enabled(s, a)
  {
    if a.Lock? then Some(a.t)
    else if (a.Unlock? && s.threads[a.t].locked) || a.ExpireLock? then None
    else s.lock
  }

  function Next(s: Sys, a: Action): Sys
    requires Enabled(s, a)
  {
    Sys(CacheAfter(s, a), RowAfter(s, a), LiveAfter(s, a), LockAfter(s, a), ThreadsAfter(s, a),
        if a.Sign? then s.used + {a.key} else s.used,
        if Target(s, a).Some? && !a.ok then s.leaked + {Target(s, a).value} else s.leaked,
        if a.Vanish? then s.gone + {a.key} else s.gone)
  }

  predicate Run(states: seq<Sys>, acts: seq<Action>) {
    && |states| == |acts| + 1
    && Init(states[0])
    && forall i | 0 <= i < |acts| :: Enabled(states[i], acts[i]) && states[i + 1] == Next(states[i], acts[i])
  }

  predicate Idle(s: Sys) {
    forall t | t in s.threads :: s.threads[t].pc.Done?
  }
}

/** No orphans: every live key is the row's or is held by a call that will store or delete it. */
module VirtualKeyProofs {
  import opened Redis
  import opened VirtualKeyMachine

  /** The key the call is responsible for: signed and not yet stored, or displaced and not
      yet deleted. */
  function Held(pc: Pc): Option<Key> {
    match pc
    case Replacing(_, key) => Some(key)
    case Inserting(key) => Some(key)
    case Conflicted(key) => Some(key)
    case Aborting(key) => Some(key)
    case DroppingOld(dead, _) => Some(dead)
    case _ => None
  }

  /** t holds k. */
  predicate Holds(s: Sys, t: nat, k: Key) {
    t in s.threads && Held(s.threads[t].pc) == Some(k)
  }

  /** The row a rotation has read and will displace. */
  function Displaces(pc: Pc): Option<Row> {
    match pc
    case Signing(was) => was
    case Replacing(was, _) => was
    case _ => None
  }

  predicate Rotating(th: Thread) {
    th.rotates && !th.pc.Locking? && !th.pc.Unlocking? && !th.pc.Done?
  }

  /** Rotations exclude each other. */
  predicate Exclusive(s: Sys) {
    forall t, u | t in s.threads && u in s.threads && Rotating(s.threads[t]) && Rotating(s.threads[u]) :: t == u
  }

  /** The row, once there, is usable, and a rotation displaces the row it has read. */
  ghost predicate RowInv(s: Sys) {
    && (s.row.Some? ==> s.row.value.active)
    && (forall t | t in s.threads && Displaces(s.threads[t].pc).Some? ::
          s.threads[t].rotates && s.row == Displaces(s.threads[t].pc))
    && (forall t | t in s.threads && s.threads[t].pc.Replacing? :: s.threads[t].pc.was.Some?)
    && (forall t | t in s.threads && s.threads[t].pc.DroppingOld? :: s.threads[t].rotates)
  }

  /** Each generated key has at most one owner. */
  ghost predicate OwnInv(s: Sys) {
    && RowKeys(s.row) <= s.used && s.leaked <= s.used && s.gone <= s.used && RowKeys(s.row) !! s.leaked
    && (forall t, k | Holds(s, t, k) :: k in s.used && k !in RowKeys(s.row) && k !in s.leaked)
    && (forall t, u, k | Holds(s, t, k) && Holds(s, u, k) :: t == u)
  }

  function HeldKeys(s: Sys): set<Key> {
    set t | t in s.threads && Held(s.threads[t].pc).Some? :: Held(s.threads[t].pc).value
  }

  function Accounted(s: Sys): set<Key> {
    RowKeys(s.row) + HeldKeys(s) + s.leaked - s.gone
  }

  ghost predicate Inv(s: Sys) {
    RowInv(s) && OwnInv(s) && s.live == Accounted(s)
  }

  // ---- preservation ----

  /** Nobody but the acting call moves. */
  lemma Others(s: Sys, a: Action, t: nat)
    requires Enabled(s, a) && (!ThreadAction(a) || a.t != t)
    requires t in s.threads || (t in Next(s, a).threads && !a.Start?)
    ensures t in s.threads && t in Next(s, a).threads && Next(s, a).threads[t] == s.threads[t]
  {
  }

  lemma RowChange(s: Sys, a: Action)
    requires RowInv(s) && Enabled(s, a) && Next(s, a).row != s.row
    ensures Next(s, a).row == Some(Row(s.threads[a.t].pc.key, true))
    ensures (a.Insert? && s.row.None?)
            || (a.Replace? && s.threads[a.t].rotates && s.row == s.threads[a.t].pc.was && s.row.Some?)
  {
    if a.Replace? { assert Displaces(s.threads[a.t].pc) == s.threads[a.t].pc.was; }
  }

  lemma OwnDisplaces(s: Sys, a: Action)
    requires RowInv(s) && Enabled(s, a) && ThreadAction(a)
    ensures var pc' := Next(s, a).threads[a.t].pc;
            && (Displaces(pc').Some? ==> s.threads[a.t].rotates && Displaces(pc') == s.row && Next(s, a).row == s.row)
            && (pc'.Replacing? ==> pc'.was.Some?)
            && (pc'.DroppingOld? ==> s.threads[a.t].rotates)
  {
    assert Displaces(s.threads[a.t].pc).Some? ==> s.row == Displaces(s.threads[a.t].pc);
  }

  lemma RowStep(s: Sys, a: Action)
    requires RowInv(s) && Exclusive(s) && Enabled(s, a)
    ensures RowInv(Next(s, a))
  {
    var s' := Next(s, a);
    forall t | t in s'.threads
      ensures Displaces(s'.threads[t].pc).Some? ==> s'.threads[t].rotates && s'.row == Displaces(s'.threads[t].pc)
      ensures s'.threads[t].pc.Replacing? ==> s'.threads[t].pc.was.Some?
      ensures s'.threads[t].pc.DroppingOld? ==> s'.threads[t].rotates
    {
      if ThreadAction(a) && a.t == t {
        OwnDisplaces(s, a);
      } else if t in s.threads {
        Others(s, a, t);
        if s'.row != s.row && Displaces(s.threads[t].pc).Some? {
          RowChange(s, a);
          assert Rotating(s.threads[t]) && (a.Replace? ==> Rotating(s.threads[a.t]));
        }
      }
    }
    if s'.row != s.row { RowChange(s, a); }
  }

  function HeldSet(pc: Pc): set<Key> {
    if Held(pc).Some? then {Held(pc).value} else {}
  }

  lemma HeldOnce(s: Sys, t: nat, u: nat, k: Key)
    requires OwnInv(s) && Holds(s, t, k) && u in s.threads && t != u
    ensures k !in HeldSet(s.threads[u].pc)
  {
    assert Holds(s, u, k) ==> t == u;
  }

  /** A step of call a.t trades what that call held for what it holds now. */
  lemma HeldSwap(s: Sys, a: Action)
    requires OwnInv(s) && Enabled(s, a) && ThreadAction(a)
    ensures HeldKeys(Next(s, a)) == HeldKeys(s) - HeldSet(s.threads[a.t].pc) + HeldSet(Next(s, a).threads[a.t].pc)
  {
    var s' := Next(s, a);
    var mine, mine' := HeldSet(s.threads[a.t].pc), HeldSet(s'.threads[a.t].pc);
    forall k | k in HeldKeys(s') ensures k in HeldKeys(s) - mine + mine' {
      var t :| t in s'.threads && Held(s'.threads[t].pc) == Some(k);
      if t != a.t {
        Others(s, a, t);
        HeldOnce(s, t, a.t, k);
      }
    }
    forall k | k in HeldKeys(s) - mine + mine' ensures k in HeldKeys(s') {
      if k in mine' {
        assert Holds(s', a.t, k);
      } else {
        var t :| t in s.threads && Held(s.threads[t].pc) == Some(k);
        assert t != a.t;
        Others(s, a, t);
        assert Holds(s', t, k);
      }
    }
  }

  lemma HeldUnmoved(s: Sys, a: Action)
    requires Enabled(s, a) && !ThreadAction(a)
    ensures HeldKeys(Next(s, a)) == HeldKeys(s)
  {
    var s' := Next(s, a);
    if a.Start? {
      assert Held(s'.threads[a.t].pc).None?;
      forall t | t in s.threads ensures s'.threads[t] == s.threads[t] {}
    }
  }

  /** What the acting call holds before and after, and what becomes of the row. */
  lemma Trade(s: Sys, a: Action)
    requires RowInv(s) && Enabled(s, a) && ThreadAction(a)
    ensures var pc, pc' := s.threads[a.t].pc, Next(s, a).threads[a.t].pc; var row' := Next(s, a).row;
            && (a.Sign? ==> HeldSet(pc) == {} && HeldSet(pc') == {a.key} && row' == s.row)
            && (a.Replace? ==> HeldSet(pc) == RowKeys(row') == {pc.key}
                               && HeldSet(pc') == RowKeys(s.row) - {pc.key})
            && (a.Insert? && s.row.None? ==> HeldSet(pc) == RowKeys(row') == {pc.key} && HeldSet(pc') == {})
            && (Target(s, a).Some? ==> HeldSet(pc) == {Target(s, a).value} && HeldSet(pc') == {} && row' == s.row)
            && (!a.Sign? && !a.Replace? && !(a.Insert? && s.row.None?) && Target(s, a).None?
                ==> HeldSet(pc') == HeldSet(pc) && row' == s.row)
  {
    if a.Replace? || a.Sign? {
      assert Displaces(s.threads[a.t].pc).Some? ==> s.row == Displaces(s.threads[a.t].pc);
    }
  }

  lemma HeldOf(s: Sys, t: nat)
    requires OwnInv(s) && t in s.threads
    ensures HeldSet(s.threads[t].pc) <= HeldKeys(s) && HeldSet(s.threads[t].pc) !! RowKeys(s.row)
    ensures HeldSet(s.threads[t].pc) !! s.leaked && HeldSet(s.threads[t].pc) <= s.used
  {
    if Held(s.threads[t].pc).Some? { assert Holds(s, t, Held(s.threads[t].pc).value); }
  }

  lemma HeldApart(s: Sys)
    requires OwnInv(s)
    ensures HeldKeys(s) <= s.used && HeldKeys(s) !! RowKeys(s.row) && HeldKeys(s) !! s.leaked
  {
    forall k | k in HeldKeys(s) ensures k in s.used && k !in RowKeys(s.row) && k !in s.leaked {
      var t :| t in s.threads && Held(s.threads[t].pc) == Some(k);
      assert Holds(s, t, k);
    }
  }

  lemma LiveOfThread(s: Sys, a: Action)
    requires Inv(s) && Enabled(s, a) && ThreadAction(a)
    ensures Next(s, a).live == Accounted(Next(s, a))
  {
    HeldApart(s);
    HeldSwap(s, a);
    Trade(s, a);
    HeldOf(s, a.t);
    if a.Sign? {
      assert Next(s, a).live == s.live + {a.key};
    } else if Target(s, a).Some? {
      assert Next(s, a).row == s.row;
    } else {
      assert Next(s, a).live == s.live && Next(s, a).leaked == s.leaked;
    }
  }

  /** Live keys stay accounted for. */
  lemma LiveStep(s: Sys, a: Action)
    requires Inv(s) && Enabled(s, a)
    ensures Next(s, a).live == Accounted(Next(s, a))
  {
    if ThreadAction(a) { LiveOfThread(s, a); } else { HeldUnmoved(s, a); }
  }

  lemma HoldsOrigin(s: Sys, a: Action, t: nat, k: Key)
    requires RowInv(s) && Enabled(s, a) && Holds(Next(s, a), t, k)
    ensures Holds(s, t, k)
            || (ThreadAction(a) && a.t == t && ((a.Sign? && k == a.key) || (a.Replace? && k in RowKeys(s.row))))
  {
    if ThreadAction(a) && a.t == t {
      Trade(s, a);
      assert HeldSet(Next(s, a).threads[t].pc) == {k};
    } else if !a.Start? || a.t != t {
      Others(s, a, t);
    }
  }

  lemma OwnStep(s: Sys, a: Action)
    requires Inv(s) && Enabled(s, a)
    ensures OwnInv(Next(s, a))
  {
    var s' := Next(s, a);
    HeldApart(s);
    if ThreadAction(a) {
      Trade(s, a);
      HeldOf(s, a.t);
    }
    forall t, k | Holds(s', t, k) ensures k in s'.used && k !in RowKeys(s'.row) && k !in s'.leaked {
      OwnOne(s, a, t, k);
    }
    forall t, u, k | Holds(s', t, k) && Holds(s', u, k) ensures t == u {
      HoldsOrigin(s, a, t, k);
      HoldsOrigin(s, a, u, k);
    }
    assert RowKeys(s'.row) <= s'.used && RowKeys(s'.row) !! s'.leaked;
  }

  lemma OwnOne(s: Sys, a: Action, t: nat, k: Key)
    requires Inv(s) && Enabled(s, a) && Holds(Next(s, a), t, k)
    ensures var s' := Next(s, a); k in s'.used && k !in RowKeys(s'.row) && k !in s'.leaked
  {
    HoldsOrigin(s, a, t, k);
    if ThreadAction(a) {
      Trade(s, a);
      HeldOf(s, a.t);
      if t == a.t { assert HeldSet(Next(s, a).threads[t].pc) == {k}; }
      else if Held(s.threads[a.t].pc).Some? { assert Holds(s, a.t, Held(s.threads[a.t].pc).value); }
    }
  }

  lemma {:induction false} Reachable(states: seq<Sys>, acts: seq<Action>, i: nat)
    requires Run(states, acts) && i < |states|
    requires forall j | 0 <= j < i :: Exclusive(states[j])
    ensures Inv(states[i])
  {
    if i == 0 {
      assert HeldKeys(states[0]) == {};
    } else {
      Reachable(states, acts, i - 1);
      RowStep(states[i - 1], acts[i - 1]);
      OwnStep(states[i - 1], acts[i - 1]);
      LiveStep(states[i - 1], acts[i - 1]);
    }
  }

  // ---- the theorems ----

  /** While rotations exclude each other, a live upstream key is always the row's, or held by
      a call in flight, or one whose deletion failed.  GetOrCreate calls need no lock at all. */
  lemma NoOrphans(states: seq<Sys>, acts: seq<Action>, i: nat)
    requires Run(states, acts) && i < |states|
    requires forall j | 0 <= j < i :: Exclusive(states[j])
    ensures var s := states[i]; s.live == RowKeys(s.row) + HeldKeys(s) + s.leaked - s.gone
  {
    Reachable(states, acts, i);
  }

  /** Hence, deletions having succeeded and nobody else deleting keys, the row's key is the only
      live one whenever all calls have finished. */
  lemma OnlyTheRowsKeyWhenIdle(states: seq<Sys>, acts: seq<Action>, i: nat)
    requires Run(states, acts) && i < |states| && Idle(states[i])
    requires forall j | 0 <= j < i :: Exclusive(states[j])
    requires states[i].leaked == {} && states[i].gone == {}
    ensures states[i].live == RowKeys(states[i].row)
  {
    Reachable(states, acts, i);
    assert HeldKeys(states[i]) == {};
  }

  // ---- get-or-create alone: everybody agrees ----

  predicate NoRotations(s: Sys) {
    forall t | t in s.threads :: !s.threads[t].rotates
  }

  /** The key a call is about to return or has returned. */
  function Promised(pc: Pc): Option<Key> {
    match pc
    case Filling(key) => Some(key)
    case Unlocking(Got(key)) => Some(key)
    case Done(Got(key)) => Some(key)
    case _ => None
  }

  ghost predicate AgreeInv(s: Sys) {
    && (s.cache.Some? ==> s.row == Some(Row(s.cache.value, true)))
    && (forall t | t in s.threads && Promised(s.threads[t].pc).Some? ::
          s.row == Some(Row(Promised(s.threads[t].pc).value, true)))
  }

  lemma AgreeStep(s: Sys, a: Action)
    requires RowInv(s) && AgreeInv(s) && NoRotations(s) && Enabled(s, a)
    ensures AgreeInv(Next(s, a))
  {
    var s' := Next(s, a);
    NobodyReplaces(s, a);
    if s'.row != s.row { RowChange(s, a); }
    forall t | t in s'.threads && Promised(s'.threads[t].pc).Some?
      ensures s'.row == Some(Row(Promised(s'.threads[t].pc).value, true))
    {
      if ThreadAction(a) && a.t == t {
        AgreeOwn(s, a);
      } else if t in s.threads {
        Others(s, a, t);
      }
    }
  }

  lemma AgreeOwn(s: Sys, a: Action)
    requires RowInv(s) && AgreeInv(s) && NoRotations(s) && Enabled(s, a) && ThreadAction(a)
    requires Promised(Next(s, a).threads[a.t].pc).Some?
    ensures Next(s, a).row == Some(Row(Promised(Next(s, a).threads[a.t].pc).value, true))
  {
    NobodyReplaces(s, a);
  }

  lemma NobodyReplaces(s: Sys, a: Action)
    requires RowInv(s) && NoRotations(s) && Enabled(s, a)
    ensures !a.Replace?
  {
    assert a.Replace? ==> Displaces(s.threads[a.t].pc).Some?;
  }

  lemma {:induction false} ReachableAgree(states: seq<Sys>, acts: seq<Action>, i: nat)
    requires Run(states, acts) && i < |states|
    requires forall j | 0 <= j < |states| :: NoRotations(states[j])
    ensures Inv(states[i]) && AgreeInv(states[i])
  {
    forall j | 0 <= j < i ensures Exclusive(states[j]) { assert NoRotations(states[j]); }
    Reachable(states, acts, i);
    if i > 0 {
      ReachableAgree(states, acts, i - 1);
      AgreeStep(states[i - 1], acts[i - 1]);
    }
  }

  /** With no lock needed, all successful callers get the same key, it is the row's, and the
      cache never holds another. */
  lemma Agreement(states: seq<Sys>, acts: seq<Action>, i: nat, t: nat)
    requires Run(states, acts) && i < |states|
    requires forall j | 0 <= j < |states| :: NoRotations(states[j])
    requires t in states[i].threads && states[i].threads[t].pc.Done? && states[i].threads[t].pc.result.Got?
    ensures var s := states[i]; var key := s.threads[t].pc.result.key;
            && s.row == Some(Row(key, true))
            && (s.cache.Some? ==> s.cache.value == key)
            && (forall u | u in s.threads && s.threads[u].pc.Done? && s.threads[u].pc.result.Got? ::
                  s.threads[u].pc.result.key == key)
            && (Idle(s) && s.leaked == {} && s.gone == {} ==> s.live == {key})
  {
    ReachableAgree(states, acts, i);
    var s := states[i];
    assert Promised(s.threads[t].pc).Some?;
    forall u | u in s.threads && s.threads[u].pc.Done? && s.threads[u].pc.result.Got?
      ensures Promised(s.threads[u].pc) == Some(s.threads[u].pc.result.key)
    {
    }
    if Idle(s) { assert HeldKeys(s) == {}; }
  }
}
