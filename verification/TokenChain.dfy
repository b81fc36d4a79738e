/** Rotation keeps every family a single chain, with no help from the lock.

    The argument rests on one database fact: MarkUsedIfUnused flips a row at most once,
    in the same transaction that inserts the successor.
  */
module TokenChain {
  import opened Redis
  import opened TokenStore
  import opened TokenMachine

  // ---- families ----

  predicate SameIdentity(a: Row, b: Row) {
    a.family == b.family && a.device == b.device && a.user == b.user
  }

  /** c lists family f from its first token to its live one. */
  ghost predicate IsChain(rows: map<Hash, Row>, f: Id, c: seq<Hash>) {
    && |c| > 0
    && (forall i | 0 <= i < |c| :: c[i] in rows && rows[c[i]].family == f)
    && (forall i | 0 <= i < |c| :: SameIdentity(rows[c[i]], rows[c[0]]))
    && (forall i | 0 <= i < |c| :: rows[c[i]].used <==> i < |c| - 1)
    && (forall i, j | 0 <= i < j < |c| :: c[i] != c[j])
  }

  ghost predicate Chains(rows: map<Hash, Row>, chain: map<Id, seq<Hash>>) {
    && (forall h | h in rows :: rows[h].family in chain && h in chain[rows[h].family])
    && (forall f | f in chain :: IsChain(rows, f, chain[f]))
    && (forall f, g | f in chain && g in chain :: rows[chain[f][0]].device == rows[chain[g][0]].device ==> f == g)
  }

  ghost predicate IdsCover(st: Store) {
    && NO_TOKEN in st.ids && Sha256(NO_TOKEN) !in st.rows
    && (forall h | h in st.rows :: h.plain in st.ids && st.rows[h].family in st.ids && st.rows[h].device in st.ids)
  }

  /** The row a call carries in its local variables, if any. */
  function Carried(pc: Pc): Option<Row> {
    match pc
    case Found(_, got) => got
    case ReadingVersion(_, row) => Some(row)
    case Committing(_, row, _, _) => Some(row)
    case Saving(_, row, _, _) => Some(row)
    case Refetching(_, row) => Some(row)
    case ReadingReplay(_, row) => Some(row)
    case Condemning(_, row) => Some(row)
    case Bumping(_, row) => Some(row)
    case _ => None
  }

  ghost predicate Snapshots(s: Sys) {
    forall t | t in s.calls && Carried(s.calls[t].pc).Some? ::
      HashOf(s, t) in s.st.rows && SameIdentity(Carried(s.calls[t].pc).value, s.st.rows[HashOf(s, t)])
  }

  ghost predicate FamilyInv(s: Sys) {
    Chains(s.st.rows, s.hist.chain) && IdsCover(s.st) && Snapshots(s)
  }

  // Rows keep their identity and their used flag.
  ghost predicate SameButRevoked(a: map<Hash, Row>, b: map<Hash, Row>) {
    a.Keys == b.Keys && forall h | h in a :: SameIdentity(a[h], b[h]) && a[h].used == b[h].used
  }

  lemma ChainsFrame(a: map<Hash, Row>, b: map<Hash, Row>, chain: map<Id, seq<Hash>>)
    requires Chains(a, chain) && SameButRevoked(a, b)
    ensures Chains(b, chain)
  {
    forall f | f in chain ensures IsChain(b, f, chain[f]) {
      assert IsChain(a, f, chain[f]);
    }
    forall f, g | f in chain && g in chain && b[chain[f][0]].device == b[chain[g][0]].device ensures f == g {
      assert IsChain(a, f, chain[f]) && IsChain(a, g, chain[g]);
    }
  }

  lemma UnusedIsLast(rows: map<Hash, Row>, chain: map<Id, seq<Hash>>, h: Hash)
    requires Chains(rows, chain) && h in rows && !rows[h].used
    ensures rows[h].family in chain
    ensures var c := chain[rows[h].family]; |c| > 0 && c[|c| - 1] == h
  {
    var c := chain[rows[h].family];
    assert IsChain(rows, rows[h].family, c);
    var i :| 0 <= i < |c| && c[i] == h;
  }

  ghost predicate Successor(rows: map<Hash, Row>, h: Hash, k: Hash, row: Row) {
    h in rows && !rows[h].used && k !in rows && SameIdentity(row, rows[h]) && !row.used
  }

  lemma GrowOwn(rows: map<Hash, Row>, f: Id, c: seq<Hash>, h: Hash, k: Hash, row: Row)
    requires IsChain(rows, f, c) && Successor(rows, h, k, row) && c[|c| - 1] == h
    ensures IsChain(MarkUsed(rows, h)[k := row], f, c + [k])
  {
    var rows' := MarkUsed(rows, h)[k := row];
    var c' := c + [k];
    assert k !in c;
    assert c'[0] == c[0];
    forall i | 0 <= i < |c'|
      ensures c'[i] in rows' && rows'[c'[i]].family == f && SameIdentity(rows'[c'[i]], rows'[c'[0]])
      ensures rows'[c'[i]].used <==> i < |c'| - 1
    {
      if i < |c| { assert c'[i] == c[i]; }
    }
  }

  lemma GrowOther(rows: map<Hash, Row>, g: Id, c: seq<Hash>, h: Hash, k: Hash, row: Row)
    requires IsChain(rows, g, c) && Successor(rows, h, k, row) && rows[h].family != g
    ensures IsChain(MarkUsed(rows, h)[k := row], g, c)
  {
    assert h !in c && k !in c;
  }

  /** Appending the successor of the live row keeps every family a chain. */
  lemma ChainsGrow(rows: map<Hash, Row>, chain: map<Id, seq<Hash>>, h: Hash, k: Hash, row: Row)
    requires Chains(rows, chain) && Successor(rows, h, k, row)
    ensures row.family in chain
    ensures Chains(MarkUsed(rows, h)[k := row], chain[row.family := chain[row.family] + [k]])
  {
    UnusedIsLast(rows, chain, h);
    var f := row.family;
    var c' := chain[f] + [k];
    var rows', chain' := MarkUsed(rows, h)[k := row], chain[f := c'];
    GrowOwn(rows, f, chain[f], h, k, row);
    forall g | g in chain'
      ensures IsChain(rows', g, chain'[g]) && chain'[g][0] == chain[g][0] && chain[g][0] in rows
      ensures rows'[chain'[g][0]].device == rows[chain[g][0]].device
    {
      assert IsChain(rows, g, chain[g]);
      if g != f { GrowOther(rows, g, chain[g], h, k, row); }
    }
    assert c'[|c'| - 1] == k;
    forall x | x in rows' ensures rows'[x].family in chain' && x in chain'[rows'[x].family] {
      if x != k { assert x in chain[rows[x].family]; }
    }
  }

  lemma ChainsBegin(rows: map<Hash, Row>, chain: map<Id, seq<Hash>>, k: Hash, row: Row)
    requires Chains(rows, chain) && k !in rows && !row.used
    requires row.family !in chain
    requires forall h | h in rows :: rows[h].device != row.device
    ensures Chains(rows[k := row], chain[row.family := [k]])
  {
    var rows' := rows[k := row];
    var chain' := chain[row.family := [k]];
    forall g | g in chain' ensures IsChain(rows', g, chain'[g]) {
      if g != row.family {
        assert IsChain(rows, g, chain[g]);
      }
    }
    forall g, g' | g in chain' && g' in chain' && rows'[chain'[g][0]].device == rows'[chain'[g'][0]].device
      ensures g == g'
    {
      if g != row.family { assert IsChain(rows, g, chain[g]); }
      if g' != row.family { assert IsChain(rows, g', chain[g']); }
    }
  }

  // ---- preservation ----

  /** A step that inserts no row. */
  predicate KeepsFamilies(a: Action) {
    !a.Commit? && !a.CreateDevice?
  }

  lemma QuietRows(cfg: Config, s: Sys, a: Action)
    requires Enabled(s, a) && KeepsFamilies(a)
    ensures var s' := Next(cfg, s, a);
            SameButRevoked(s.st.rows, s'.st.rows) && s'.hist.chain == s.hist.chain && s.st.ids <= s'.st.ids
  {
  }

  /** What a call carries is what it carried before or the row it has just read. */
  lemma QuietCarried(cfg: Config, s: Sys, a: Action, t: nat)
    requires Enabled(s, a) && !a.Commit?
    requires t in Next(cfg, s, a).calls && Carried(Next(cfg, s, a).calls[t].pc).Some?
    ensures t in s.calls && s.calls[t].token == Next(cfg, s, a).calls[t].token
    ensures var got := Carried(Next(cfg, s, a).calls[t].pc);
            got == Carried(s.calls[t].pc) || (HashOf(s, t) in s.st.rows && got.value == s.st.rows[HashOf(s, t)])
  {
  }

  lemma FamilyQuiet(cfg: Config, s: Sys, a: Action)
    requires FamilyInv(s) && Enabled(s, a) && KeepsFamilies(a)
    ensures FamilyInv(Next(cfg, s, a))
  {
    var s' := Next(cfg, s, a);
    QuietRows(cfg, s, a);
    ChainsFrame(s.st.rows, s'.st.rows, s.hist.chain);
    forall t | t in s'.calls && Carried(s'.calls[t].pc).Some?
      ensures HashOf(s', t) in s'.st.rows
      ensures SameIdentity(Carried(s'.calls[t].pc).value, s'.st.rows[HashOf(s', t)])
    {
      QuietCarried(cfg, s, a, t);
    }
  }

  lemma CommitChains(cfg: Config, s: Sys, t: nat, next: Id)
    requires Chains(s.st.rows, s.hist.chain) && Enabled(s, Commit(t, next))
    requires HashOf(s, t) in s.st.rows && SameIdentity(s.calls[t].pc.row, s.st.rows[HashOf(s, t)])
    requires Sha256(next) !in s.st.rows
    ensures var s' := Next(cfg, s, Commit(t, next)); Chains(s'.st.rows, s'.hist.chain)
  {
    var h := HashOf(s, t);
    var row := s.calls[t].pc.row;
    if Flips(s, h) {
      ChainsGrow(s.st.rows, s.hist.chain, h, Sha256(next),
                 NewRow(cfg, row.family, row.device, row.user, s.calls[t].pc.at));
    }
  }

  lemma CommitIds(cfg: Config, s: Sys, t: nat, next: Id)
    requires IdsCover(s.st) && Enabled(s, Commit(t, next))
    requires HashOf(s, t) in s.st.rows && SameIdentity(s.calls[t].pc.row, s.st.rows[HashOf(s, t)])
    ensures IdsCover(Next(cfg, s, Commit(t, next)).st)
  {
  }

  lemma FamilyCommit(cfg: Config, s: Sys, t: nat, next: Id)
    requires FamilyInv(s) && Enabled(s, Commit(t, next))
    ensures FamilyInv(Next(cfg, s, Commit(t, next)))
  {
    assert Carried(s.calls[t].pc) == Some(s.calls[t].pc.row);
    assert Sha256(next) !in s.st.rows by { assert IdsCover(s.st); }
    CommitChains(cfg, s, t, next);
    CommitIds(cfg, s, t, next);
    CommitSnapshots(cfg, s, t, next);
  }

  lemma CommitSnapshots(cfg: Config, s: Sys, t: nat, next: Id)
    requires Snapshots(s) && IdsCover(s.st) && Enabled(s, Commit(t, next))
    ensures Snapshots(Next(cfg, s, Commit(t, next)))
  {
    var s' := Next(cfg, s, Commit(t, next));
    assert Carried(s.calls[t].pc).Some?;
    assert Sha256(next) !in s.st.rows;
    forall u | u in s'.calls && Carried(s'.calls[u].pc).Some?
      ensures HashOf(s', u) in s'.st.rows
      ensures SameIdentity(Carried(s'.calls[u].pc).value, s'.st.rows[HashOf(s', u)])
    {
      assert Carried(s'.calls[u].pc) == Carried(s.calls[u].pc);
    }
  }

  lemma FamiliesKnown(st: Store, chain: map<Id, seq<Hash>>)
    requires Chains(st.rows, chain) && IdsCover(st)
    ensures forall f | f in chain :: f in st.ids
  {
    forall f | f in chain ensures f in st.ids {
      assert IsChain(st.rows, f, chain[f]);
      assert st.rows[chain[f][0]].family == f;
    }
  }

  lemma FamilyCreate(cfg: Config, s: Sys, t: nat, d: Id, f: Id, next: Id)
    requires FamilyInv(s) && Enabled(s, CreateDevice(t, d, f, next))
    ensures FamilyInv(Next(cfg, s, CreateDevice(t, d, f, next)))
  {
    FamiliesKnown(s.st, s.hist.chain);
    ChainsBegin(s.st.rows, s.hist.chain, Sha256(next), FirstRow(cfg, f, d, s.exchanges[t].user, s.st.now));
  }

  lemma FamilyStep(cfg: Config, s: Sys, a: Action)
    requires FamilyInv(s) && Enabled(s, a)
    ensures FamilyInv(Next(cfg, s, a))
  {
    if a.Commit? {
      FamilyCommit(cfg, s, a.t, a.next);
    } else if a.CreateDevice? {
      FamilyCreate(cfg, s, a.t, a.device, a.family, a.next);
    } else {
      FamilyQuiet(cfg, s, a);
    }
  }

  // ---- replay pairs ----

  ghost predicate SavingInv(s: Sys) {
    && (forall t | t in s.calls && s.calls[t].pc.Saving? ::
          HashOf(s, t) in s.st.rows && s.st.rows[HashOf(s, t)].used && HashOf(s, t) !in s.hist.saved)
    && (forall t, u | t in s.calls && u in s.calls && s.calls[t].pc.Saving? && s.calls[u].pc.Saving? ::
          s.calls[t].token == s.calls[u].token ==> t == u)
    && (forall h | h in s.hist.saved :: h in s.st.rows && s.st.rows[h].used)
  }

  /** Every success for a token is the one pair saved for it. */
  ghost predicate AnswerInv(cfg: Config, s: Sys) {
    && (forall h | h in s.st.replays ::
          h in s.hist.saved
          && s.st.replays[h] == Entry(s.hist.saved[h].pair, s.hist.saved[h].at + cfg.grace))
    && (forall h | h in s.hist.saved :: h in s.st.replays)
    && (forall t | t in s.calls && Answer(s.calls[t].pc).Some? ::
          HashOf(s, t) in s.hist.saved && s.hist.saved[HashOf(s, t)].pair == Answer(s.calls[t].pc).value)
  }

  /** The pair a call is returning or has returned. */
  function Answer(pc: Pc): Option<Pair> {
    match pc
    case Releasing(_, Granted(pair, _)) => Some(pair)
    case Done(Granted(pair, _)) => Some(pair)
    case _ => None
  }

  lemma UsedStaysUsed(cfg: Config, s: Sys, a: Action, h: Hash)
    requires IdsCover(s.st) && Enabled(s, a) && h in s.st.rows && s.st.rows[h].used
    ensures var rows' := Next(cfg, s, a).st.rows; h in rows' && rows'[h].used
  {
  }

  /** Only a commit sends a call to Saving, and only a save writes a pair. */
  lemma QuietSaving(cfg: Config, s: Sys, a: Action)
    requires Enabled(s, a) && !a.Commit? && !a.Save?
    ensures var s' := Next(cfg, s, a);
            && s'.hist.saved == s.hist.saved && s'.st.replays == s.st.replays
            && forall t | t in s'.calls && s'.calls[t].pc.Saving? :: t in s.calls && s.calls[t] == s'.calls[t]
  {
  }

  lemma SavingStep(cfg: Config, s: Sys, a: Action)
    requires IdsCover(s.st) && SavingInv(s) && Enabled(s, a)
    ensures SavingInv(Next(cfg, s, a))
  {
    forall h | h in s.st.rows && s.st.rows[h].used { UsedStaysUsed(cfg, s, a, h); }
    if !a.Commit? && !a.Save? {
      QuietSaving(cfg, s, a);
    }
  }

  /** The replay pair under a token is the saved one, and an answer is taken from it. */
  lemma QuietAnswer(cfg: Config, s: Sys, a: Action, t: nat)
    requires Enabled(s, a) && !a.Save?
    requires t in Next(cfg, s, a).calls && Answer(Next(cfg, s, a).calls[t].pc).Some?
    ensures t in s.calls && s.calls[t].token == Next(cfg, s, a).calls[t].token
    ensures var got := Answer(Next(cfg, s, a).calls[t].pc);
            got == Answer(s.calls[t].pc)
            || (HashOf(s, t) in s.st.replays && got.value == s.st.replays[HashOf(s, t)].value)
  {
  }

  lemma AnswerSave(cfg: Config, s: Sys, t: nat)
    requires SavingInv(s) && AnswerInv(cfg, s) && Enabled(s, Save(t))
    ensures AnswerInv(cfg, Next(cfg, s, Save(t)))
  {
    var s' := Next(cfg, s, Save(t));
    var h := HashOf(s, t);
    assert h !in s.hist.saved;
    forall u | u in s'.calls && Answer(s'.calls[u].pc).Some?
      ensures HashOf(s', u) in s'.hist.saved
      ensures s'.hist.saved[HashOf(s', u)].pair == Answer(s'.calls[u].pc).value
    {
      if u != t {
        assert s'.calls[u] == s.calls[u];
        assert HashOf(s, u) in s.hist.saved;
      }
    }
  }

  lemma AnswerQuiet(cfg: Config, s: Sys, a: Action)
    requires AnswerInv(cfg, s) && Enabled(s, a) && !a.Save?
    ensures AnswerInv(cfg, Next(cfg, s, a))
  {
    var s' := Next(cfg, s, a);
    QuietReplays(cfg, s, a);
    forall t | t in s'.calls && Answer(s'.calls[t].pc).Some?
      ensures HashOf(s', t) in s'.hist.saved
      ensures s'.hist.saved[HashOf(s', t)].pair == Answer(s'.calls[t].pc).value
    {
      QuietAnswer(cfg, s, a, t);
    }
  }

  lemma QuietReplays(cfg: Config, s: Sys, a: Action)
    requires Enabled(s, a) && !a.Save?
    ensures var s' := Next(cfg, s, a); s'.hist.saved == s.hist.saved && s'.st.replays == s.st.replays
  {
  }

  lemma AnswerStep(cfg: Config, s: Sys, a: Action)
    requires SavingInv(s) && AnswerInv(cfg, s) && Enabled(s, a)
    ensures AnswerInv(cfg, Next(cfg, s, a))
  {
    if a.Save? { AnswerSave(cfg, s, a.t); } else { AnswerQuiet(cfg, s, a); }
  }

  // ---- a saved pair carries the immediate successor ----

  ghost predicate Adjacent(c: seq<Hash>, h: Hash, k: Hash) {
    exists i | 0 <= i < |c| - 1 :: c[i] == h && c[i + 1] == k
  }

  ghost predicate Follows(s: Sys, h: Hash, k: Hash) {
    h in s.st.rows && s.st.rows[h].family in s.hist.chain && Adjacent(s.hist.chain[s.st.rows[h].family], h, k)
  }

  ghost predicate SuccessorInv(s: Sys) {
    && (forall h | h in s.hist.saved :: Follows(s, h, Sha256(s.hist.saved[h].pair.refresh)))
    && (forall t | t in s.calls && s.calls[t].pc.Saving? :: Follows(s, HashOf(s, t), Sha256(s.calls[t].pc.minted)))
  }

  lemma AdjacentGrows(c: seq<Hash>, h: Hash, k: Hash, x: Hash)
    requires Adjacent(c, h, k)
    ensures Adjacent(c + [x], h, k)
  {
    var i :| 0 <= i < |c| - 1 && c[i] == h && c[i + 1] == k;
    assert (c + [x])[i] == h && (c + [x])[i + 1] == k;
  }

  lemma FollowsCommit(cfg: Config, s: Sys, a: Action, h: Hash, k: Hash)
    requires IdsCover(s.st) && Enabled(s, a) && a.Commit? && Follows(s, h, k)
    ensures Follows(Next(cfg, s, a), h, k)
  {
    var f := s.st.rows[h].family;
    assert Sha256(a.next) !in s.st.rows;
    AdjacentGrows(s.hist.chain[f], h, k, Sha256(a.next));
  }

  lemma FollowsStep(cfg: Config, s: Sys, a: Action, h: Hash, k: Hash)
    requires FamilyInv(s) && Enabled(s, a) && Follows(s, h, k)
    ensures Follows(Next(cfg, s, a), h, k)
  {
    if a.Commit? {
      FollowsCommit(cfg, s, a, h, k);
    } else if a.CreateDevice? {
      FamiliesKnown(s.st, s.hist.chain);
    } else {
      QuietRows(cfg, s, a);
    }
  }

  lemma CommitFollows(cfg: Config, s: Sys, t: nat, next: Id)
    requires FamilyInv(s) && Enabled(s, Commit(t, next)) && Flips(s, HashOf(s, t))
    ensures Follows(Next(cfg, s, Commit(t, next)), HashOf(s, t), Sha256(next))
  {
    var h := HashOf(s, t);
    assert Carried(s.calls[t].pc) == Some(s.calls[t].pc.row);
    UnusedIsLast(s.st.rows, s.hist.chain, h);
    var c := s.hist.chain[s.st.rows[h].family];
    var c' := c + [Sha256(next)];
    assert c'[|c| - 1] == h && c'[|c|] == Sha256(next);
    assert Sha256(next) !in s.st.rows;
  }

  lemma SuccessorStep(cfg: Config, s: Sys, a: Action)
    requires FamilyInv(s) && SavingInv(s) && SuccessorInv(s) && Enabled(s, a)
    ensures SuccessorInv(Next(cfg, s, a))
  {
    var s' := Next(cfg, s, a);
    forall h | h in s'.hist.saved ensures Follows(s', h, Sha256(s'.hist.saved[h].pair.refresh)) {
      SavedOrigin(cfg, s, a, h);
      FollowsStep(cfg, s, a, h, Sha256(s'.hist.saved[h].pair.refresh));
    }
    forall t | t in s'.calls && s'.calls[t].pc.Saving?
      ensures Follows(s', HashOf(s', t), Sha256(s'.calls[t].pc.minted))
    {
      SavingOrigin(cfg, s, a, t);
      if t in s.calls && s.calls[t] == s'.calls[t] {
        FollowsStep(cfg, s, a, HashOf(s, t), Sha256(s.calls[t].pc.minted));
      } else {
        CommitFollows(cfg, s, t, a.next);
      }
    }
  }

  lemma SavedOrigin(cfg: Config, s: Sys, a: Action, h: Hash)
    requires SuccessorInv(s) && Enabled(s, a) && h in Next(cfg, s, a).hist.saved
    ensures Follows(s, h, Sha256(Next(cfg, s, a).hist.saved[h].pair.refresh))
  {
    if !a.Save? { QuietReplays(cfg, s, a); }
  }

  lemma SavingOrigin(cfg: Config, s: Sys, a: Action, t: nat)
    requires Enabled(s, a) && t in Next(cfg, s, a).calls && Next(cfg, s, a).calls[t].pc.Saving?
    ensures t in s.calls && s.calls[t].token == Next(cfg, s, a).calls[t].token
    ensures s.calls[t] == Next(cfg, s, a).calls[t]
            || (a == Commit(t, Next(cfg, s, a).calls[t].pc.minted) && Flips(s, HashOf(s, t)))
  {
  }

  ghost predicate Inv(cfg: Config, s: Sys) {
    FamilyInv(s) && SavingInv(s) && AnswerInv(cfg, s) && SuccessorInv(s)
  }

  lemma Step(cfg: Config, s: Sys, a: Action)
    requires Inv(cfg, s) && Enabled(s, a)
    ensures Inv(cfg, Next(cfg, s, a))
  {
    FamilyStep(cfg, s, a);
    SavingStep(cfg, s, a);
    AnswerStep(cfg, s, a);
    SuccessorStep(cfg, s, a);
  }

  lemma {:induction false} Reachable(cfg: Config, states: seq<Sys>, acts: seq<Action>, i: nat)
    requires Run(cfg, states, acts) && i < |states|
    ensures Inv(cfg, states[i])
  {
    if i > 0 {
      Reachable(cfg, states, acts, i - 1);
      Step(cfg, states[i - 1], acts[i - 1]);
    }
  }

  // ---- the theorems ----

  /** In every reachable state a family has exactly one unused row, its rows share their
      device and user, and no other family belongs to that device. */
  lemma LinearFamilies(cfg: Config, states: seq<Sys>, acts: seq<Action>, i: nat, h: Hash)
    requires Run(cfg, states, acts) && i < |states| && h in states[i].st.rows
    ensures var rows := states[i].st.rows;
            && (exists k | k in rows :: rows[k].family == rows[h].family && !rows[k].used)
            && (forall k | k in rows :: rows[k].family == rows[h].family <==> rows[k].device == rows[h].device)
            && (forall k | k in rows && rows[k].family == rows[h].family :: rows[k].user == rows[h].user)
            && (forall k | k in rows && rows[k].family == rows[h].family && !rows[k].used && !rows[h].used :: k == h)
  {
    Reachable(cfg, states, acts, i);
    var rows, chain := states[i].st.rows, states[i].hist.chain;
    var f := rows[h].family;
    assert IsChain(rows, f, chain[f]);
    assert !rows[chain[f][|chain[f]| - 1]].used;
    forall k | k in rows
      ensures rows[k].family == f <==> rows[k].device == rows[h].device
      ensures rows[k].family == f ==> rows[k].user == rows[h].user
      ensures rows[k].family == f && !rows[k].used && !rows[h].used ==> k == h
    {
      assert IsChain(rows, rows[k].family, chain[rows[k].family]);
    }
  }

  /** Hence judging a family stolen and logging its device out revoke the same rows. */
  lemma TheftAndLogoutHitTheSameRows(cfg: Config, states: seq<Sys>, acts: seq<Action>, i: nat, h: Hash)
    requires Run(cfg, states, acts) && i < |states| && h in states[i].st.rows
    ensures var rows := states[i].st.rows; RevokeFamily(rows, rows[h].family) == RevokeByDevice(rows, rows[h].device)
  {
    LinearFamilies(cfg, states, acts, i, h);
  }

  /** All the successes ever returned for one presented token are the same pair, and the
      refresh token in it is the token's immediate successor in its family. */
  lemma OneAnswerPerToken(cfg: Config, states: seq<Sys>, acts: seq<Action>, i: nat, t: nat, u: nat)
    requires Run(cfg, states, acts) && i < |states|
    requires t in states[i].calls && u in states[i].calls && states[i].calls[t].token == states[i].calls[u].token
    requires Answer(states[i].calls[t].pc).Some? && Answer(states[i].calls[u].pc).Some?
    ensures Answer(states[i].calls[t].pc) == Answer(states[i].calls[u].pc)
    ensures Follows(states[i], HashOf(states[i], t), Sha256(Answer(states[i].calls[t].pc).value.refresh))
  {
    Reachable(cfg, states, acts, i);
  }
}
