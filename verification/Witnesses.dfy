/** Runs from the empty tables into the situations that break a weaker statement: a device
    revoked beside a rotation, a token presented again after its holder's lock has expired, and a
    device revoked before it has its first version. */
module Witnesses {
  import opened Redis
  import opened TokenStore
  import opened TokenMachine
  import opened TokenChain
  import opened TokenVersions
  import opened NoFalseTheft
  import opened RevocationRace

  function Last(states: seq<Sys>): Sys
    requires states != []
  {
    states[|states| - 1]
  }

  /** One more step of a run. */
  lemma Go(cfg: Config, before: seq<Sys>, done: seq<Action>, a: Action) returns (states: seq<Sys>, acts: seq<Action>)
    requires Run(cfg, before, done) && Enabled(Last(before), a)
    ensures Run(cfg, states, acts) && states == before + [Next(cfg, Last(before), a)] && acts == done + [a]
    ensures Last(states) == Next(cfg, Last(before), a)
  {
    states, acts := before + [Next(cfg, Last(before), a)], done + [a];
  }

  function Nothing(): Sys {
    Sys(Store(0, {NO_TOKEN}, map[], map[], map[], map[], map[], {}), map[], map[], map[], InitHistory())
  }

  const USER: Id := 7
  const DEVICE: Id := 1
  const FAMILY: Id := 2
  const TOKEN: Id := 3

  /** One device exists, with the refresh token its client was given, and nobody has used it. */
  ghost predicate Signed(cfg: Config, s: Sys) {
    && s.st.now == 0 && s.calls == map[] && s.revocations == map[] && s.st.locks == map[]
    && s.st.ids == {NO_TOKEN, DEVICE, FAMILY, TOKEN} && TOKEN in s.hist.handed && DEVICE in s.st.devices
    && Sha256(TOKEN) in s.st.rows && s.st.rows[Sha256(TOKEN)] == FirstRow(cfg, FAMILY, DEVICE, USER, 0)
    && s.st.versions == map[DEVICE := INITIAL_VERSION] && s.hist.saved == map[]
  }

  lemma SignsIn(cfg: Config) returns (states: seq<Sys>, acts: seq<Action>)
    ensures Run(cfg, states, acts) && Signed(cfg, Last(states))
  {
    states, acts := Creates(cfg);
    states, acts := Go(cfg, states, acts, SetVersion(0));
    states, acts := Go(cfg, states, acts, Sign(0));
  }

  /** The device is there; its version is not yet. */
  ghost predicate HasDevice(cfg: Config, s: Sys) {
    && s.st.now == 0 && s.calls == map[] && s.revocations == map[] && s.st.locks == map[]
    && s.st.ids == {NO_TOKEN, DEVICE, FAMILY, TOKEN} && DEVICE in s.st.devices
    && Sha256(TOKEN) in s.st.rows && s.st.rows[Sha256(TOKEN)] == FirstRow(cfg, FAMILY, DEVICE, USER, 0)
    && s.st.versions == map[] && s.hist.saved == map[]
    && s.exchanges == map[0 := Versioning(USER, DEVICE, TOKEN)]
  }

  lemma Creates(cfg: Config) returns (states: seq<Sys>, acts: seq<Action>)
    ensures Run(cfg, states, acts) && HasDevice(cfg, Last(states))
  {
    states, acts := [Nothing()], [];
    assert Run(cfg, states, acts);
    states, acts := Go(cfg, states, acts, BeginExchange(0, USER));
    states, acts := Go(cfg, states, acts, CreateDevice(0, DEVICE, FAMILY, TOKEN));
  }

  /** A refresh call has read that device's row. */
  ghost predicate HasRead(cfg: Config, s: Sys) {
    && s.calls == map[0 := Call(TOKEN, Found(0, Some(FirstRow(cfg, FAMILY, DEVICE, USER, 0))))]
    && s.st.locks == map[Sha256(TOKEN) := Entry((), LOCK_TTL)]
    && Signed(cfg, s.(calls := map[], st := s.st.(locks := map[])))
  }

  lemma Reads(cfg: Config) returns (states: seq<Sys>, acts: seq<Action>)
    ensures Run(cfg, states, acts) && HasRead(cfg, Last(states))
  {
    states, acts := SignsIn(cfg);
    var s0 := Last(states);
    states, acts := Go(cfg, states, acts, Present(0, TOKEN));
    Presents(cfg, s0);
    states, acts := Go(cfg, states, acts, Acquire(0));
    states, acts := Go(cfg, states, acts, Find(0));
  }

  lemma Presents(cfg: Config, s: Sys)
    requires Signed(cfg, s)
    ensures var s' := Next(cfg, s, Present(0, TOKEN));
            s'.calls == map[0 := Call(TOKEN, Waiting(0))] && Signed(cfg, s'.(calls := map[]))
  {
    assert s.st.ids + {TOKEN} == s.st.ids;
  }

  /** A logout can reach its first step while a rotation of the same device is in flight. */
  lemma TheRaceHappens(cfg: Config) returns (states: seq<Sys>, acts: seq<Action>)
    ensures Run(cfg, states, acts) && |acts| > 0
    ensures var i := |acts| - 1; Revokes(states[i], acts[i], DEVICE) && InFlight(states[i], 0, DEVICE)
  {
    states, acts := Reads(cfg);
    states, acts := Go(cfg, states, acts, BeginRevocation(0, DEVICE));
    states, acts := Go(cfg, states, acts, RevokeRows(0));
  }

  /** The rotation has read the version and is about to commit. */
  ghost predicate HasDecided(cfg: Config, s: Sys) {
    && s.st.now == 0 && s.calls.Keys == {0} && s.calls[0].token == TOKEN && s.calls[0].pc.Committing?
    && s.st.locks == map[Sha256(TOKEN) := Entry((), LOCK_TTL)] && TOKEN in s.hist.handed
    && s.st.ids == {NO_TOKEN, DEVICE, FAMILY, TOKEN} && s.hist.saved == map[]
    && Sha256(TOKEN) in s.st.rows && s.st.rows[Sha256(TOKEN)] == FirstRow(cfg, FAMILY, DEVICE, USER, 0)
  }

  lemma Decides(cfg: Config) returns (states: seq<Sys>, acts: seq<Action>)
    ensures Run(cfg, states, acts) && HasDecided(cfg, Last(states))
  {
    states, acts := Reads(cfg);
    states, acts := Go(cfg, states, acts, Decide(0));
    states, acts := Go(cfg, states, acts, ReadVersion(0));
  }

  /** The rotation has committed and not yet saved its pair. */
  ghost predicate HasCommitted(cfg: Config, s: Sys) {
    && s.st.now == 0 && s.calls.Keys == {0} && s.calls[0].token == TOKEN && s.calls[0].pc.Saving?
    && s.st.locks == map[Sha256(TOKEN) := Entry((), LOCK_TTL)] && TOKEN in s.hist.handed
    && Sha256(TOKEN) in s.st.rows && s.st.rows[Sha256(TOKEN)] == FirstRow(cfg, FAMILY, DEVICE, USER, 0).(used := true)
    && s.hist.saved == map[]
  }

  lemma Commits(cfg: Config) returns (states: seq<Sys>, acts: seq<Action>)
    ensures Run(cfg, states, acts) && HasCommitted(cfg, Last(states))
  {
    states, acts := Decides(cfg);
    states, acts := Go(cfg, states, acts, Commit(0, 4));
  }

  /** A rotation that outlives its lock: the same token is judged stolen although no pair has been
      saved for it.  With refresh tokens that live as long as a lock, such a run exists. */
  lemma AnOverrunHappens(cfg: Config) returns (states: seq<Sys>, acts: seq<Action>, end: Sys)
    requires cfg.refreshTTL >= LOCK_TTL
    ensures Run(cfg, states, acts) && states != [] && end == Last(states)
    ensures 1 in end.calls && end.calls[1].pc.Condemning? && HashOf(end, 1) !in end.hist.saved
  {
    states, acts := Commits(cfg);
    states, acts := Go(cfg, states, acts, Tick(LOCK_TTL));
    states, acts := Go(cfg, states, acts, Present(1, TOKEN));
    states, acts, end := Condemns(cfg, states, acts);
  }

  /** A save that fails: with no lock expired and no time passed at all, the token its client
      presents again is judged stolen. */
  lemma AFailedSaveHappens(cfg: Config) returns (states: seq<Sys>, acts: seq<Action>, end: Sys)
    ensures Run(cfg, states, acts) && states != [] && end == Last(states) && end.st.now == 0
    ensures 1 in end.calls && end.calls[1].pc.Condemning? && HashOf(end, 1) !in end.hist.saved
  {
    states, acts := Commits(cfg);
    states, acts := Go(cfg, states, acts, Fail(0));
    states, acts := Go(cfg, states, acts, Release(0));
    states, acts := Go(cfg, states, acts, Present(1, TOKEN));
    states, acts, end := Condemns(cfg, states, acts);
  }

  lemma Condemns(cfg: Config, before: seq<Sys>, done: seq<Action>)
    returns (states: seq<Sys>, acts: seq<Action>, end: Sys)
    requires Run(cfg, before, done)
    requires var s := Last(before);
             && 1 in s.calls && s.calls[1].pc.Waiting? && Free(s, 1)
             && Unsaved(s, HashOf(s, 1)) && Usable(s.st, HashOf(s, 1))
    ensures Run(cfg, states, acts) && states != [] && end == Last(states) && end.st.now == Last(before).st.now
    ensures 1 in end.calls && end.calls[1].pc.Condemning? && HashOf(end, 1) !in end.hist.saved
  {
    Reachable(cfg, before, done, |before| - 1);
    UnsavedIsCondemnedAtOnce(cfg, Last(before), 1);
    states, acts := Go(cfg, before, done, Acquire(1));
    states, acts := Go(cfg, states, acts, Find(1));
    states, acts := Go(cfg, states, acts, Decide(1));
    states, acts := Go(cfg, states, acts, ReadReplay(1));
    end := Last(states);
  }

  lemma RevokesEarly(cfg: Config) returns (states: seq<Sys>, acts: seq<Action>)
    ensures Run(cfg, states, acts) && states != []
    ensures var s := Last(states);
            && 0 in s.exchanges && s.exchanges[0] == Versioning(USER, DEVICE, TOKEN)
            && 0 in s.revocations && s.revocations[0] == BumpingDevice(DEVICE)
  {
    states, acts := Creates(cfg);
    states, acts := Go(cfg, states, acts, BeginRevocation(0, DEVICE));
    states, acts := Go(cfg, states, acts, RevokeRows(0));
  }

  /** A device revoked between its creation and the first write of its version: the revocation has
      finished, and the access JWT signed next is accepted. */
  lemma ABumpIsLost(cfg: Config) returns (states: seq<Sys>, acts: seq<Action>, end: Sys)
    requires cfg.accessTTL >= 1000
    ensures Run(cfg, states, acts) && states != [] && end == Last(states)
    ensures 0 in end.revocations && end.revocations[0].Revoked?
    ensures 0 in end.exchanges && end.exchanges[0].Exchanged?
    ensures Accepts(end.st, end.exchanges[0].pair.access)
  {
    states, acts := RevokesEarly(cfg);
    BumpBeforeFirstVersionIsLost(cfg, Last(states), 0, 0);
    states, acts := Go(cfg, states, acts, BumpRevoked(0));
    states, acts := Go(cfg, states, acts, SetVersion(0));
    states, acts := Go(cfg, states, acts, Sign(0));
    end := Last(states);
  }
}
