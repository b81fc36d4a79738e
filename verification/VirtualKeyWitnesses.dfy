/** Runs of one user with a virtual key into the two bad situations: a cached key that is dead, and
    a live key that nobody owns.  Every command of both runs succeeds. */
module VirtualKeyWitnesses {
  import opened Redis
  import opened VirtualKeyMachine
  import opened VirtualKeyLeaks

  const KEY: Key := 1
  const ROW := Some(Row(KEY, true))

  function Last(states: seq<Sys>): Sys
    requires states != []
  {
    states[|states| - 1]
  }

  /** One more step of a run. */
  lemma Go(before: seq<Sys>, done: seq<Action>, a: Action) returns (states: seq<Sys>, acts: seq<Action>)
    requires Run(before, done) && Enabled(Last(before), a)
    ensures Run(states, acts) && acts == done + [a]
    ensures Last(states) == Next(Last(before), a) && states == before + [Last(states)]
  {
    states, acts := before + [Next(Last(before), a)], done + [a];
  }

  lemma Begins() returns (states: seq<Sys>, acts: seq<Action>)
    ensures Run(states, acts) && acts == []
    ensures Last(states) == Sys(None, ROW, {KEY}, None, map[], {KEY}, {}, {})
  {
    states, acts := [Sys(None, ROW, {KEY}, None, map[], {KEY}, {}, {})], [];
  }

  /** A get-or-create call has found the row's key and is about to cache it. */
  lemma Finds() returns (states: seq<Sys>, acts: seq<Action>)
    ensures Run(states, acts)
    ensures Last(states) == Sys(None, ROW, {KEY}, None, map[0 := Thread(false, false, Filling(KEY))], {KEY}, {}, {})
  {
    states, acts := Begins();
    states, acts := Go(states, acts, Start(0, false));
    states, acts := Go(states, acts, ReadCache(0, true));
    states, acts := Go(states, acts, LookUp(0));
  }

  /** A rotation has begun beside it. */
  lemma FindsThenRotates() returns (states: seq<Sys>, acts: seq<Action>)
    ensures Run(states, acts)
    ensures Last(states) == Sys(None, ROW, {KEY}, Some(1),
                                map[0 := Thread(false, false, Filling(KEY)), 1 := Thread(true, true, ReadingRow)],
                                {KEY}, {}, {})
  {
    states, acts := Finds();
    states, acts := Go(states, acts, Start(1, true));
    states, acts := Go(states, acts, Lock(1));
    states, acts := Go(states, acts, ClearCache(1, true));
  }

  lemma ReplacesBesideAFill() returns (states: seq<Sys>, acts: seq<Action>)
    ensures Run(states, acts)
    ensures Last(states) == Sys(None, Some(Row(2, true)), {KEY, 2}, Some(1),
                                map[0 := Thread(false, false, Filling(KEY)),
                                    1 := Thread(true, true, DroppingOld(KEY, 2))],
                                {KEY, 2}, {}, {})
  {
    states, acts := FindsThenRotates();
    states, acts := Go(states, acts, ReadRow(1));
    states, acts := Go(states, acts, Sign(1, 2));
    states, acts := Go(states, acts, Replace(1));
  }

  lemma RotatesBesideAFill() returns (states: seq<Sys>, acts: seq<Action>)
    ensures Run(states, acts)
    ensures Last(states) == Sys(Some(2), Some(Row(2, true)), {2}, None,
                                map[0 := Thread(false, false, Filling(KEY)), 1 := Thread(true, false, Done(Got(2)))],
                                {KEY, 2}, {}, {})
  {
    states, acts := ReplacesBesideAFill();
    states, acts := Go(states, acts, DropOld(1, true));
    assert {KEY, 2} - {KEY} == {2};
    states, acts := Go(states, acts, Fill(1, true));
    states, acts := Go(states, acts, Unlock(1));
  }

  /** A fill that was on its way when the rotation ran puts the dead key back in the cache. */
  lemma ALateFillHappens() returns (states: seq<Sys>, acts: seq<Action>)
    ensures Run(states, acts)
    ensures var s := Last(states);
            Idle(s) && s.leaked == s.gone == {} && s.cache == Some(KEY) && KEY !in s.live && s.live == RowKeys(s.row)
  {
    states, acts := RotatesBesideAFill();
    states, acts := Go(states, acts, Fill(0, true));
    states, acts := Go(states, acts, Unlock(0));
  }

  lemma BothBegin() returns (states: seq<Sys>, acts: seq<Action>)
    ensures Run(states, acts)
    ensures Last(states) == Sys(None, ROW, {KEY}, None,
                                map[0 := Thread(true, false, Locking), 1 := Thread(true, false, Locking)],
                                {KEY}, {}, {})
  {
    states, acts := Begins();
    states, acts := Go(states, acts, Start(0, true));
    states, acts := Go(states, acts, Start(1, true));
  }

  /** Two rotations have both gone on without the lock. */
  lemma BothSkip() returns (states: seq<Sys>, acts: seq<Action>)
    ensures Run(states, acts)
    ensures Last(states) == Sys(None, ROW, {KEY}, None,
                                map[0 := Thread(true, false, ReadingRow), 1 := Thread(true, false, ReadingRow)],
                                {KEY}, {}, {})
  {
    states, acts := BothBegin();
    states, acts := Go(states, acts, SkipLock(0));
    states, acts := Go(states, acts, SkipLock(1));
    states, acts := Go(states, acts, ClearCache(0, true));
    states, acts := Go(states, acts, ClearCache(1, true));
  }

  /** They have read the same row and signed a key each. */
  lemma BothSign() returns (states: seq<Sys>, acts: seq<Action>)
    ensures Run(states, acts)
    ensures Last(states) == Sys(None, ROW, {KEY, 2, 3}, None,
                                map[0 := Thread(true, false, Replacing(ROW, 2)),
                                    1 := Thread(true, false, Replacing(ROW, 3))],
                                {KEY, 2, 3}, {}, {})
  {
    states, acts := BothSkip();
    states, acts := Go(states, acts, ReadRow(0));
    states, acts := Go(states, acts, ReadRow(1));
    states, acts := Go(states, acts, Sign(0, 2));
    states, acts := Go(states, acts, Sign(1, 3));
  }

  lemma BothDrop() returns (states: seq<Sys>, acts: seq<Action>)
    ensures Run(states, acts)
    ensures Last(states) == Sys(None, Some(Row(3, true)), {2, 3}, None,
                                map[0 := Thread(true, false, Filling(2)), 1 := Thread(true, false, Filling(3))],
                                {KEY, 2, 3}, {}, {})
  {
    states, acts := BothSign();
    states, acts := Go(states, acts, Replace(0));
    states, acts := Go(states, acts, Replace(1));
    states, acts := Go(states, acts, DropOld(0, true));
    assert {KEY, 2, 3} - {KEY} == {2, 3} && {2, 3} - {KEY} == {2, 3};
    states, acts := Go(states, acts, DropOld(1, true));
  }

  lemma BothFinish() returns (states: seq<Sys>, acts: seq<Action>)
    ensures Run(states, acts)
    ensures Last(states) == Sys(Some(3), Some(Row(3, true)), {2, 3}, None,
                                map[0 := Thread(true, false, Done(Got(2))), 1 := Thread(true, false, Done(Got(3)))],
                                {KEY, 2, 3}, {}, {})
  {
    states, acts := BothDrop();
    states, acts := Go(states, acts, Fill(0, true));
    states, acts := Go(states, acts, Fill(1, true));
    states, acts := Go(states, acts, Unlock(0));
    states, acts := Go(states, acts, Unlock(1));
  }

  /** At rest the first rotation's key is live, and neither the row nor anybody else has it. */
  lemma ALeakHappens() returns (states: seq<Sys>, acts: seq<Action>)
    ensures Run(states, acts) && Idle(Last(states)) && Last(states).leaked == Last(states).gone == {}
    ensures Last(states).live == {2, 3} && RowKeys(Last(states).row) == {3}
    ensures Overtaken(acts, |acts|)
  {
    states, acts := BothFinish();
    assert 2 !in RowKeys(Last(states).row);
    LeakIff(states, acts, |acts|);
  }
}
