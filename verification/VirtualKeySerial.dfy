/** A get-or-create call or a rotation that runs alone, every command succeeding, always ends with a key,
    and this says which. */
module VirtualKeySerial {
  import opened Redis
  import opened VirtualKeyMachine

  /** The step a call takes next; k is the key the server generates if asked. */
  function Own(s: Sys, pc: Pc, t: nat, k: Key): Action
    requires !pc.Done?
  {
    match pc
    case ReadingCache => ReadCache(t, true)
    case LookingUp => LookUp(t)
    case Locking => if s.lock.None? then Lock(t) else SkipLock(t)
    case ClearingCache => ClearCache(t, true)
    case ReadingRow => ReadRow(t)
    case Signing(_) => Sign(t, k)
    case Replacing(_, _) => Replace(t)
    case Inserting(_) => Insert(t)
    case Conflicted(_) => DropOrphan(t, true)
    case Requerying => Requery(t)
    case Aborting(_) => DropOrphan(t, true)
    case DroppingOld(_, _) => DropOld(t, true)
    case Filling(_) => Fill(t, true)
    case Unlocking(_) => Unlock(t)
  }

  /** n steps of call t, or fewer if it finishes. */
  ghost function Alone(s: Sys, t: nat, k: Key, n: nat): Sys
    requires t in s.threads
    decreases n
  {
    if n == 0 || s.threads[t].pc.Done? || !Enabled(s, Own(s, s.threads[t].pc, t, k)) then s
    else
      var s' := Next(s, Own(s, s.threads[t].pc, t, k));
      if t in s'.threads then Alone(s', t, k, n - 1) else s
  }

  lemma AloneStep(s: Sys, t: nat, k: Key, n: nat)
    requires t in s.threads && !s.threads[t].pc.Done? && n > 0 && Enabled(s, Own(s, s.threads[t].pc, t, k))
    ensures t in Next(s, Own(s, s.threads[t].pc, t, k)).threads
    ensures Alone(s, t, k, n) == Alone(Next(s, Own(s, s.threads[t].pc, t, k)), t, k, n - 1)
  {
  }

  /** The call has returned key; what it leaves in the cache, in the row and alive. */
  predicate Ends(s: Sys, t: nat, key: Key, cache: Option<Key>, row: Option<Row>, live: set<Key>) {
    && t in s.threads && s.threads[t].pc == Done(Got(key))
    && s.cache == cache && s.row == row && s.live == live
  }

  lemma AloneUnlock(s: Sys, t: nat, k: Key, n: nat)
    requires t in s.threads && s.threads[t].pc.Unlocking? && s.threads[t].pc.result.Got? && n >= 1
    ensures Ends(Alone(s, t, k, n), t, s.threads[t].pc.result.key, s.cache, s.row, s.live)
  {
    AloneStep(s, t, k, n);
  }

  lemma AloneFill(s: Sys, t: nat, k: Key, n: nat)
    requires t in s.threads && s.threads[t].pc.Filling? && n >= 2
    ensures var key := s.threads[t].pc.key; Ends(Alone(s, t, k, n), t, key, Some(key), s.row, s.live)
  {
    AloneStep(s, t, k, n);
    AloneUnlock(Next(s, Fill(t, true)), t, k, n - 1);
  }

  lemma AloneDropOld(s: Sys, t: nat, k: Key, n: nat)
    requires t in s.threads && s.threads[t].pc.DroppingOld? && n >= 3
    ensures var pc := s.threads[t].pc; Ends(Alone(s, t, k, n), t, pc.key, Some(pc.key), s.row, s.live - {pc.dead})
  {
    AloneStep(s, t, k, n);
    AloneFill(Next(s, DropOld(t, true)), t, k, n - 1);
  }

  /** From the row it has read to its return: the new key is the row's, the cache's and alive, and a rotation
      has deleted the one before. */
  lemma AloneSign(s: Sys, t: nat, k: Key, n: nat)
    requires t in s.threads && s.threads[t].pc == Signing(s.row) && k !in s.used && n >= 5
    requires s.row.Some? ==> s.row.value.key in s.used
    ensures Ends(Alone(s, t, k, n), t, k, Some(k), Some(Row(k, true)),
                 s.live + {k} - if s.threads[t].rotates && s.row.Some? then {s.row.value.key} else {})
  {
    AloneStep(s, t, k, n);
    var s1 := Next(s, Sign(t, k));
    AloneStep(s1, t, k, n - 1);
    if s.row.None? {
      AloneFill(Next(s1, Insert(t)), t, k, n - 2);
    } else if s.threads[t].rotates {
      AloneDropOld(Next(s1, Replace(t)), t, k, n - 2);
    } else {
      AloneFill(Next(s1, Replace(t)), t, k, n - 2);
    }
  }

  lemma AloneReadRow(s: Sys, t: nat, k: Key, n: nat)
    requires t in s.threads && s.threads[t].pc.ReadingRow? && k !in s.used && n >= 6
    requires s.row.Some? ==> s.row.value.key in s.used
    requires s.threads[t].rotates || Active(s.row).None?
    ensures Ends(Alone(s, t, k, n), t, k, Some(k), Some(Row(k, true)),
                 s.live + {k} - if s.threads[t].rotates && s.row.Some? then {s.row.value.key} else {})
  {
    AloneStep(s, t, k, n);
    AloneSign(Next(s, ReadRow(t)), t, k, n - 1);
  }

  lemma LockMoves(s: Sys, t: nat, k: Key)
    requires t in s.threads && s.threads[t].pc.Locking?
    ensures var a := Own(s, s.threads[t].pc, t, k);
            && Enabled(s, a) && var s' := Next(s, a);
            && t in s'.threads && s'.threads[t].rotates == s.threads[t].rotates
            && s'.threads[t].pc == (if s.threads[t].rotates then ClearingCache else ReadingRow)
            && s'.cache == s.cache && s'.row == s.row && s'.live == s.live && s'.used == s.used
  {
  }

  /** A rotation: whatever the row and the cache held, the new key is the only one left. */
  lemma RotationAlone(s: Sys, t: nat, k: Key)
    requires t in s.threads && s.threads[t].pc.Locking? && s.threads[t].rotates && k !in s.used
    requires s.row.Some? ==> s.row.value.key in s.used
    ensures Ends(Alone(s, t, k, 8), t, k, Some(k), Some(Row(k, true)),
                 s.live + {k} - if s.row.Some? then {s.row.value.key} else {})
  {
    LockMoves(s, t, k);
    AloneStep(s, t, k, 8);
    var s1 := Next(s, Own(s, s.threads[t].pc, t, k));
    AloneStep(s1, t, k, 7);
    AloneReadRow(Next(s1, ClearCache(t, true)), t, k, 6);
  }

  /** A get-or-create call: the cached key if there is one, otherwise the usable row's, which it caches;
      otherwise a new key, which it stores and caches. */
  lemma GetOrCreateAlone(s: Sys, t: nat, k: Key)
    requires t in s.threads && s.threads[t].pc.ReadingCache? && !s.threads[t].rotates && k !in s.used
    requires s.row.Some? ==> s.row.value.key in s.used
    ensures var end := Alone(s, t, k, 9);
            if s.cache.Some? then Ends(end, t, s.cache.value, s.cache, s.row, s.live)
            else if s.row.Some? && s.row.value.active then
              Ends(end, t, s.row.value.key, Some(s.row.value.key), s.row, s.live)
            else Ends(end, t, k, Some(k), Some(Row(k, true)), s.live + {k})
  {
    AloneStep(s, t, k, 9);
    var s1 := Next(s, ReadCache(t, true));
    if s.cache.Some? {
      AloneUnlock(s1, t, k, 8);
    } else {
      AloneStep(s1, t, k, 8);
      var s2 := Next(s1, LookUp(t));
      if Active(s.row).Some? {
        AloneFill(s2, t, k, 7);
      } else {
        LockMoves(s2, t, k);
        AloneStep(s2, t, k, 7);
        AloneReadRow(Next(s2, Own(s2, s2.threads[t].pc, t, k)), t, k, 6);
      }
    }
  }

  /** A call that loses the insert deletes its own key and answers with the row's. */
  lemma ConflictAlone(s: Sys, t: nat, k: Key, mine: Key)
    requires t in s.threads && s.threads[t].pc == Inserting(mine) && s.row.Some? && s.row.value.active
    ensures var key := s.row.value.key; Ends(Alone(s, t, k, 5), t, key, Some(key), s.row, s.live - {mine})
  {
    AloneStep(s, t, k, 5);
    var s1 := Next(s, Insert(t));
    AloneStep(s1, t, k, 4);
    var s2 := Next(s1, DropOrphan(t, true));
    AloneStep(s2, t, k, 3);
    AloneFill(Next(s2, Requery(t)), t, k, 2);
  }
}
