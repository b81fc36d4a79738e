/** Which virtual keys outlive their row, for every interleaving, rotation lock or not.

    A rotation deletes the key of the row it has read, and overwrites the row it finds. */
module VirtualKeyLeaks {
  import opened Redis
  import opened VirtualKeyMachine
  import opened VirtualKeyProofs

  /** The keys a step takes out of the row. */
  function OverwrittenBy(s: Sys, a: Action): set<Key> {
    if a.Replace? then RowKeys(s.row) else {}
  }

  /** The keys a step undertakes to delete, because the call has read them in the row. */
  function DisplacedBy(s: Sys, a: Action): set<Key> {
    if a.Replace? && a.t in s.threads then RowKeys(Displaces(s.threads[a.t].pc)) else {}
  }

  function Overwritten(states: seq<Sys>, acts: seq<Action>, i: nat): set<Key>
    requires |states| == |acts| + 1 && i <= |acts|
  {
    if i == 0 then {} else Overwritten(states, acts, i - 1) + OverwrittenBy(states[i - 1], acts[i - 1])
  }

  function Displaced(states: seq<Sys>, acts: seq<Action>, i: nat): set<Key>
    requires |states| == |acts| + 1 && i <= |acts|
  {
    if i == 0 then {} else Displaced(states, acts, i - 1) + DisplacedBy(states[i - 1], acts[i - 1])
  }

  /** A key that is signed and not yet stored. */
  function Unstored(pc: Pc): Option<Key> {
    if pc.DroppingOld? then None else Held(pc)
  }

  predicate Carries(s: Sys, t: nat, k: Key) {
    t in s.threads && Unstored(s.threads[t].pc) == Some(k)
  }

  // ---- what every run keeps; over: keys overwritten so far, disp: keys displaced so far ----

  predicate PcInv(s: Sys, over: set<Key>, disp: set<Key>, th: Thread) {
    && (Displaces(th.pc).Some? ==>
          th.rotates && s.row.Some? && RowKeys(Displaces(th.pc)) <= RowKeys(s.row) + over)
    && (th.pc.Replacing? ==> th.pc.was.Some?)
    && (th.pc.DroppingOld? ==> th.pc.dead in disp)
    && (Unstored(th.pc).Some? ==> var k := Unstored(th.pc).value;
                                  && k in s.used && k !in RowKeys(s.row) && k !in over && k !in s.leaked
                                  && (k in s.live || k in s.gone))
  }

  ghost predicate Threads(s: Sys, over: set<Key>, disp: set<Key>) {
    && (forall t | t in s.threads :: PcInv(s, over, disp, s.threads[t]))
    && (forall t, u, k | Carries(s, t, k) && Carries(s, u, k) :: t == u)
  }

  predicate Sets(s: Sys, over: set<Key>, disp: set<Key>) {
    && (s.row.Some? ==> s.row.value.active)
    && disp <= over && RowKeys(s.row) !! over && RowKeys(s.row) + over <= s.used
    && s.live <= s.used && s.leaked <= s.used && s.gone <= s.used && s.live !! s.gone
    && s.leaked !! RowKeys(s.row) && s.leaked !! over - disp
    && RowKeys(s.row) + (over - disp) - s.gone <= s.live
  }

  ghost predicate Explained(s: Sys, over: set<Key>, disp: set<Key>, k: Key) {
    k in RowKeys(s.row) || k in over - disp || k in s.leaked || exists t :: Holds(s, t, k)
  }

  ghost predicate Keys(s: Sys, over: set<Key>, disp: set<Key>) {
    Threads(s, over, disp) && Sets(s, over, disp) && forall k | k in s.live :: Explained(s, over, disp, k)
  }

  /** What the acting call's key, the row and the key sets become. */
  lemma Moves(s: Sys, a: Action, over: set<Key>, disp: set<Key>)
    requires Keys(s, over, disp) && Enabled(s, a) && ThreadAction(a)
    ensures var s' := Next(s, a); var pc, pc' := s.threads[a.t].pc, s'.threads[a.t].pc;
            && PcInv(s, over, disp, s.threads[a.t])
            && (a.Sign? ==> Unstored(pc) == None && Unstored(pc') == Some(a.key) && s'.row == s.row)
            && (a.Replace? ==> s.row.Some? && Unstored(pc) == Some(pc.key) && RowKeys(s'.row) == {pc.key}
                               && pc' == DroppingOld(pc.was.value.key, pc.key)
                               && DisplacedBy(s, a) == {pc.was.value.key})
            && (a.Insert? && s.row.None? ==>
                  Unstored(pc) == Some(pc.key) && RowKeys(s'.row) == {pc.key} && Held(pc').None?)
            && (a.DropOrphan? ==> Unstored(pc) == Some(pc.key) && Held(pc').None? && s'.row == s.row)
            && (a.DropOld? ==> pc.DroppingOld? && Held(pc').None? && s'.row == s.row)
            && (!a.Sign? && !a.Replace? && !(a.Insert? && s.row.None?) && Target(s, a).None?
                ==> Held(pc') == Held(pc) && pc'.DroppingOld? == pc.DroppingOld? && s'.row == s.row)
  {
    assert PcInv(s, over, disp, s.threads[a.t]);
  }

  lemma CarriesOrigin(s: Sys, a: Action, over: set<Key>, disp: set<Key>, t: nat, k: Key)
    requires Keys(s, over, disp) && Enabled(s, a) && Carries(Next(s, a), t, k)
    ensures Carries(s, t, k) || (a.Sign? && a.t == t && a.key == k)
  {
    if ThreadAction(a) && a.t == t {
      Moves(s, a, over, disp);
    } else if !a.Start? || a.t != t {
      Others(s, a, t);
    }
  }

  lemma SetsStep(s: Sys, a: Action, over: set<Key>, disp: set<Key>)
    requires Keys(s, over, disp) && Enabled(s, a)
    ensures Sets(Next(s, a), over + OverwrittenBy(s, a), disp + DisplacedBy(s, a))
  {
    if ThreadAction(a) { Moves(s, a, over, disp); }
  }

  lemma PcOwn(s: Sys, a: Action, over: set<Key>, disp: set<Key>)
    requires Keys(s, over, disp) && Enabled(s, a) && ThreadAction(a)
    ensures PcInv(Next(s, a), over + OverwrittenBy(s, a), disp + DisplacedBy(s, a), Next(s, a).threads[a.t])
  {
    Moves(s, a, over, disp);
  }

  /** Nobody else carries the key that the acting call stores or fails to delete. */
  lemma PcOther(s: Sys, a: Action, over: set<Key>, disp: set<Key>, t: nat)
    requires Keys(s, over, disp) && Enabled(s, a) && t in s.threads && (ThreadAction(a) ==> a.t != t)
    ensures PcInv(Next(s, a), over + OverwrittenBy(s, a), disp + DisplacedBy(s, a), s.threads[t])
  {
    assert PcInv(s, over, disp, s.threads[t]);
    if ThreadAction(a) { Moves(s, a, over, disp); }
    if Unstored(s.threads[t].pc).Some? {
      var k := Unstored(s.threads[t].pc).value;
      assert Carries(s, t, k);
      assert ThreadAction(a) ==> !Carries(s, a.t, k);
    }
  }

  lemma PcStep(s: Sys, a: Action, over: set<Key>, disp: set<Key>, t: nat)
    requires Keys(s, over, disp) && Enabled(s, a) && t in Next(s, a).threads
    ensures PcInv(Next(s, a), over + OverwrittenBy(s, a), disp + DisplacedBy(s, a), Next(s, a).threads[t])
  {
    if ThreadAction(a) && a.t == t {
      PcOwn(s, a, over, disp);
    } else if !a.Start? || a.t != t {
      Others(s, a, t);
      PcOther(s, a, over, disp, t);
    }
  }

  lemma ThreadsStep(s: Sys, a: Action, over: set<Key>, disp: set<Key>)
    requires Keys(s, over, disp) && Enabled(s, a)
    ensures Threads(Next(s, a), over + OverwrittenBy(s, a), disp + DisplacedBy(s, a))
  {
    var s' := Next(s, a);
    forall t | t in s'.threads
      ensures PcInv(s', over + OverwrittenBy(s, a), disp + DisplacedBy(s, a), s'.threads[t])
    {
      PcStep(s, a, over, disp, t);
    }
    forall t, u, k | Carries(s', t, k) && Carries(s', u, k) ensures t == u {
      CarriesOrigin(s, a, over, disp, t, k);
      CarriesOrigin(s, a, over, disp, u, k);
      assert Carries(s, t, k) ==> k in s.used by { assert t in s.threads ==> PcInv(s, over, disp, s.threads[t]); }
      assert Carries(s, u, k) ==> k in s.used by { assert u in s.threads ==> PcInv(s, over, disp, s.threads[u]); }
    }
  }

  lemma ExplainedStep(s: Sys, a: Action, over: set<Key>, disp: set<Key>, k: Key)
    requires Keys(s, over, disp) && Enabled(s, a) && k in Next(s, a).live
    ensures Explained(Next(s, a), over + OverwrittenBy(s, a), disp + DisplacedBy(s, a), k)
  {
    var s' := Next(s, a);
    if ThreadAction(a) { Moves(s, a, over, disp); }
    if k in s.live && (exists t :: Holds(s, t, k)) {
      var t :| Holds(s, t, k);
      if !ThreadAction(a) || a.t != t { Others(s, a, t); }
      assert Holds(s', t, k) || (ThreadAction(a) && a.t == t);
      assert ThreadAction(a) && Held(s'.threads[a.t].pc) == Some(k) ==> Holds(s', a.t, k);
    } else {
      assert k in s.live ==> Explained(s, over, disp, k);
      assert ThreadAction(a) && Held(s'.threads[a.t].pc) == Some(k) ==> Holds(s', a.t, k);
    }
  }

  lemma KeysStep(s: Sys, a: Action, over: set<Key>, disp: set<Key>)
    requires Keys(s, over, disp) && Enabled(s, a)
    ensures Keys(Next(s, a), over + OverwrittenBy(s, a), disp + DisplacedBy(s, a))
  {
    SetsStep(s, a, over, disp);
    ThreadsStep(s, a, over, disp);
    forall k | k in Next(s, a).live
      ensures Explained(Next(s, a), over + OverwrittenBy(s, a), disp + DisplacedBy(s, a), k)
    {
      ExplainedStep(s, a, over, disp, k);
    }
  }

  lemma {:induction false} ReachableKeys(states: seq<Sys>, acts: seq<Action>, i: nat)
    requires Run(states, acts) && i < |states|
    ensures Keys(states[i], Overwritten(states, acts, i), Displaced(states, acts, i))
  {
    if i > 0 {
      ReachableKeys(states, acts, i - 1);
      KeysStep(states[i - 1], acts[i - 1], Overwritten(states, acts, i - 1), Displaced(states, acts, i - 1));
    }
  }

  /** In every state of every run: the live keys that nobody holds and whose deletion did not fail are
      the row's key and the overwritten keys that no rotation displaced. */
  lemma LiveKeysExactly(states: seq<Sys>, acts: seq<Action>, i: nat)
    requires Run(states, acts) && i < |states|
    ensures var s := states[i];
            s.live - s.leaked - HeldKeys(s)
            == RowKeys(s.row) + (Overwritten(states, acts, i) - Displaced(states, acts, i)) - s.gone
  {
    ReachableKeys(states, acts, i);
    var s := states[i];
    var over, disp := Overwritten(states, acts, i), Displaced(states, acts, i);
    forall k | k in s.live - s.leaked - HeldKeys(s) ensures k in RowKeys(s.row) + (over - disp) - s.gone {
      assert Explained(s, over, disp, k);
    }
    forall k | k in HeldKeys(s) ensures k !in RowKeys(s.row) + (over - disp) {
      var t :| t in s.threads && Held(s.threads[t].pc) == Some(k);
      assert PcInv(s, over, disp, s.threads[t]);
    }
  }

  // ---- exactly when a key leaks ----

  /** The rotation displaces the row it overwrites. */
  predicate Exact(s: Sys, a: Action) {
    DisplacedBy(s, a) == OverwrittenBy(s, a)
  }

  lemma {:induction false} AllExact(states: seq<Sys>, acts: seq<Action>, i: nat)
    requires Run(states, acts) && i <= |acts|
    requires forall j | 0 <= j < i :: Exact(states[j], acts[j])
    ensures Overwritten(states, acts, i) == Displaced(states, acts, i)
  {
    if i > 0 {
      AllExact(states, acts, i - 1);
      assert Exact(states[i - 1], acts[i - 1]);
    }
  }

  /** A step that displaces another key than it overwrites leaves that key behind; one that does not
      makes up for nothing. */
  lemma InexactStep(s: Sys, a: Action, over: set<Key>, disp: set<Key>)
    requires Keys(s, over, disp) && Enabled(s, a) && (!Exact(s, a) || over != disp)
    ensures over + OverwrittenBy(s, a) != disp + DisplacedBy(s, a)
  {
    if a.Replace? {
      Moves(s, a, over, disp);
      var q, w := s.row.value.key, s.threads[a.t].pc.was.value.key;
      assert q !in over && q !in disp;
      if q == w {
        var k :| k in over && k !in disp;
        assert k in over + OverwrittenBy(s, a) && k !in disp + DisplacedBy(s, a);
      } else {
        assert q in over + OverwrittenBy(s, a) && q !in disp + DisplacedBy(s, a);
      }
    } else {
      assert disp + DisplacedBy(s, a) == disp && over + OverwrittenBy(s, a) == over;
    }
  }

  /** Some overwritten key was not displaced. */
  predicate Behind(over: set<Key>, disp: set<Key>) {
    over != disp
  }

  lemma FallsBehind(states: seq<Sys>, acts: seq<Action>, i: nat)
    requires Run(states, acts) && i < |acts| && !Exact(states[i], acts[i])
    ensures Behind(Overwritten(states, acts, i + 1), Displaced(states, acts, i + 1))
  {
    ReachableKeys(states, acts, i);
    InexactStep(states[i], acts[i], Overwritten(states, acts, i), Displaced(states, acts, i));
  }

  lemma StaysBehind(states: seq<Sys>, acts: seq<Action>, i: nat)
    requires Run(states, acts) && i < |acts| && Behind(Overwritten(states, acts, i), Displaced(states, acts, i))
    ensures Behind(Overwritten(states, acts, i + 1), Displaced(states, acts, i + 1))
  {
    ReachableKeys(states, acts, i);
    InexactStep(states[i], acts[i], Overwritten(states, acts, i), Displaced(states, acts, i));
  }

  lemma {:induction false} SomeInexact(states: seq<Sys>, acts: seq<Action>, i: nat, j: nat)
    requires Run(states, acts) && j < i <= |acts| && !Exact(states[j], acts[j])
    ensures Behind(Overwritten(states, acts, i), Displaced(states, acts, i))
    decreases i
  {
    if j == i - 1 {
      FallsBehind(states, acts, j);
    } else {
      SomeInexact(states, acts, i - 1, j);
      StaysBehind(states, acts, i - 1);
    }
  }

  /** The call has read r, and displaces that row if it still will displace one. */
  predicate HasRead(pc: Pc, r: Option<Row>) {
    if pc.Signing? || pc.Replacing? then Displaces(pc) == r
    else !pc.ReadingCache? && !pc.LookingUp? && !pc.Locking? && !pc.ClearingCache? && !pc.ReadingRow?
  }

  lemma HasReadStep(s: Sys, a: Action, t: nat, r: Option<Row>)
    requires Enabled(s, a) && t in s.threads && HasRead(s.threads[t].pc, r)
    ensures t in Next(s, a).threads && HasRead(Next(s, a).threads[t].pc, r)
  {
    if !ThreadAction(a) || a.t != t { Others(s, a, t); }
  }

  lemma {:induction false} KeepsItsRow(states: seq<Sys>, acts: seq<Action>, h: nat, j: nat, t: nat)
    requires Run(states, acts) && h < j < |states| && acts[h] == ReadRow(t)
    ensures t in states[j].threads && HasRead(states[j].threads[t].pc, states[h].row)
    decreases j
  {
    if j > h + 1 {
      KeepsItsRow(states, acts, h, j - 1, t);
      HasReadStep(states[j - 1], acts[j - 1], t, states[h].row);
    }
  }

  /** A rotation about to write has read the row. */
  lemma {:induction false} HasReadTheRow(states: seq<Sys>, acts: seq<Action>, j: nat, t: nat) returns (h: nat)
    requires Run(states, acts) && j < |states| && t in states[j].threads
    requires states[j].threads[t].pc.Signing? || states[j].threads[t].pc.Replacing?
    ensures h < j && acts[h] == ReadRow(t)
  {
    var s, a := states[j - 1], acts[j - 1];
    if a == ReadRow(t) {
      h := j - 1;
    } else {
      if !ThreadAction(a) || a.t != t { Others(s, a, t); }
      h := HasReadTheRow(states, acts, j - 1, t);
    }
  }

  predicate ReplacesBetween(acts: seq<Action>, h: nat, m: nat, j: nat) {
    h < m < j < |acts| && acts[m].Replace?
  }

  predicate Writes(acts: seq<Action>, m: nat) {
    m < |acts| && acts[m].Replace?
  }

  /** Without a replacement a row stays. */
  lemma {:induction false} RowStays(states: seq<Sys>, acts: seq<Action>, h: nat, j: nat)
    requires Run(states, acts) && h <= j < |acts| && states[h].row.Some?
    requires forall m: nat | h <= m < j :: !Writes(acts, m)
    ensures states[j].row == states[h].row
  {
    if h < j {
      RowStays(states, acts, h, j - 1);
      assert !Writes(acts, j - 1);
    }
  }

  /** The keys of ks have all been in the row. */
  predicate Stored(states: seq<Sys>, acts: seq<Action>, i: nat, ks: set<Key>)
    requires |states| == |acts| + 1 && i <= |acts|
  {
    states[i].row.Some? && ks <= RowKeys(states[i].row) + Overwritten(states, acts, i)
  }

  lemma StoredStep(states: seq<Sys>, acts: seq<Action>, i: nat, ks: set<Key>)
    requires Run(states, acts) && i < |acts| && Stored(states, acts, i, ks)
    ensures Stored(states, acts, i + 1, ks)
  {
    assert Overwritten(states, acts, i + 1) == Overwritten(states, acts, i) + OverwrittenBy(states[i], acts[i]);
  }

  lemma {:induction false} StoredSince(states: seq<Sys>, acts: seq<Action>, h: nat, j: nat)
    requires Run(states, acts) && h <= j < |acts| && states[h].row.Some?
    ensures Stored(states, acts, j, RowKeys(states[h].row))
    decreases j
  {
    if h < j {
      StoredSince(states, acts, h, j - 1);
      StoredStep(states, acts, j - 1, RowKeys(states[h].row));
    }
  }

  lemma {:induction false} OverwrittenGrows(states: seq<Sys>, acts: seq<Action>, i: nat, j: nat)
    requires |states| == |acts| + 1 && i <= j <= |acts|
    ensures Overwritten(states, acts, i) <= Overwritten(states, acts, j)
  {
    if i < j { OverwrittenGrows(states, acts, i, j - 1); }
  }

  /** A row that was replaced is overwritten for good. */
  lemma ReplacedForGood(states: seq<Sys>, acts: seq<Action>, h: nat, m: nat, j: nat)
    requires Run(states, acts) && h <= m < j < |acts| && states[h].row.Some? && Writes(acts, m)
    ensures RowKeys(states[h].row) <= Overwritten(states, acts, j)
  {
    StoredSince(states, acts, h, m);
    OverwrittenGrows(states, acts, m + 1, j);
  }

  /** A rotation displaces another key than it overwrites exactly when some rotation has written since
      it read. */
  lemma InexactIsOvertaken(states: seq<Sys>, acts: seq<Action>, h: nat, j: nat)
    requires Run(states, acts) && h < j < |acts| && acts[j].Replace? && acts[h] == ReadRow(acts[j].t)
    ensures !Exact(states[j], acts[j]) <==> exists m: nat :: ReplacesBetween(acts, h, m, j)
  {
    KeepsItsRow(states, acts, h, j, acts[j].t);
    var s, a := states[j], acts[j];
    ReachableKeys(states, acts, j);
    Moves(s, a, Overwritten(states, acts, j), Displaced(states, acts, j));
    assert DisplacedBy(s, a) == RowKeys(states[h].row);
    if exists m: nat :: ReplacesBetween(acts, h, m, j) {
      var m: nat :| ReplacesBetween(acts, h, m, j);
      ReplacedForGood(states, acts, h, m, j);
    } else {
      forall m: nat | h <= m < j ensures !Writes(acts, m) {
        assert m > h ==> !ReplacesBetween(acts, h, m, j);
      }
      RowStays(states, acts, h, j);
    }
  }

  /** A rotation that reads at h writes at j, and another one writes at m in between. */
  predicate Overtakes(acts: seq<Action>, i: nat, h: nat, m: nat, j: nat) {
    ReplacesBetween(acts, h, m, j) && j < i && acts[j].Replace? && acts[h] == ReadRow(acts[j].t)
  }

  ghost predicate Overtaken(acts: seq<Action>, i: nat) {
    exists h: nat, m: nat, j: nat :: Overtakes(acts, i, h, m, j)
  }

  lemma OvertakenIff(states: seq<Sys>, acts: seq<Action>, i: nat)
    requires Run(states, acts) && i <= |acts|
    ensures Overtaken(acts, i) <==> exists j: nat :: j < i && !Exact(states[j], acts[j])
  {
    if Overtaken(acts, i) {
      var h: nat, m: nat, j: nat :| Overtakes(acts, i, h, m, j);
      InexactIsOvertaken(states, acts, h, j);
    }
    if j: nat :| j < i && !Exact(states[j], acts[j]) {
      var h := HasReadTheRow(states, acts, j, acts[j].t);
      InexactIsOvertaken(states, acts, h, j);
      var m: nat :| ReplacesBetween(acts, h, m, j);
      assert Overtakes(acts, i, h, m, j);
    }
  }

  lemma NobodyHolds(s: Sys)
    requires Idle(s)
    ensures HeldKeys(s) == {}
  {
  }

  lemma EqualIff(states: seq<Sys>, acts: seq<Action>, i: nat)
    requires Run(states, acts) && i <= |acts|
    ensures Overwritten(states, acts, i) != Displaced(states, acts, i) <==> Overtaken(acts, i)
  {
    OvertakenIff(states, acts, i);
    if j: nat :| j < i && !Exact(states[j], acts[j]) {
      SomeInexact(states, acts, i, j);
    } else {
      AllExact(states, acts, i);
    }
  }

  /** At rest, with every deletion having succeeded and nobody else deleting keys, a key other than
      the row's is live exactly when some rotation was overtaken: another one replaced the row
      between its reading of the row and its own replacement. */
  lemma LeakIff(states: seq<Sys>, acts: seq<Action>, i: nat)
    requires Run(states, acts) && i < |states| && Idle(states[i])
    requires states[i].leaked == {} && states[i].gone == {}
    ensures states[i].live != RowKeys(states[i].row) <==> Overtaken(acts, i)
  {
    var s := states[i];
    var over, disp := Overwritten(states, acts, i), Displaced(states, acts, i);
    LiveKeysExactly(states, acts, i);
    ReachableKeys(states, acts, i);
    NobodyHolds(s);
    EqualIff(states, acts, i);
    if over != disp {
      var k :| k in over && k !in disp;
      assert k in s.live;
    }
  }
}
