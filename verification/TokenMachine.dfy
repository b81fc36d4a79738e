/** The token endpoints at operation granularity.

    Every Redis command and every database transaction is one step.  Any number of
    refresh calls, code exchanges and revocations run at once and interleave freely,
    the clock advances between steps, and any step may fail.  Nothing here assumes
    that the lock excludes anyone: it is a key that expires and that its holder
    deletes without looking.
  */
module TokenMachine {
  import opened Redis
  import opened TokenStore

  /** Where a refresh call stands; acq is the instant its lock was acquired. */
  datatype Pc =
    | Waiting(since: nat)
    | Finding(acq: nat)
    | Found(acq: nat, got: Option<Row>)
    | ReadingVersion(acq: nat, row: Row)
    | Committing(acq: nat, row: Row, version: int, at: nat)
    | Saving(acq: nat, row: Row, version: int, minted: Id)
    | Refetching(acq: nat, row: Row)
    | ReadingReplay(acq: nat, row: Row)
    | Condemning(acq: nat, row: Row)
    | Bumping(acq: nat, row: Row)
    | Releasing(acq: nat, result: Outcome)
    | Done(result: Outcome)

  datatype Call = Call(token: Id, pc: Pc)

  datatype Exchange =
    | Creating(user: Id)
    | Versioning(user: Id, device: Id, minted: Id)
    | Signing(user: Id, device: Id, minted: Id)
    | Exchanged(pair: Pair)
    | ExchangeFailed

  datatype Revocation = RevokingRows(device: Id) | BumpingDevice(device: Id) | Revoked(device: Id) | RevocationFailed

  datatype Saved = Saved(pair: Pair, at: nat)

  /** What has happened so far, for stating properties; no step reads it except Present,
      because a client can present only a token it was given or one nobody ever minted.

      chain:   each family's rows, oldest first
      saved:   the replay pair written for a presented token, and when
      handed:  refresh tokens returned to a client
      settled: devices whose initial token_version has been written
      seen:    (device, version) pairs read by a rotation or written by an exchange
      retired: pairs that were seen before some bump of their device
      bumped:  devices bumped at least once */
  datatype History = History(
    chain: map<Id, seq<Hash>>,
    saved: map<Hash, Saved>,
    handed: set<Id>,
    settled: set<Id>,
    seen: set<(Id, int)>,
    retired: set<(Id, int)>,
    bumped: set<Id>)

  datatype Sys = Sys(
    st: Store,
    calls: map<nat, Call>,
    exchanges: map<nat, Exchange>,
    revocations: map<nat, Revocation>,
    hist: History)

  datatype Action =
    | Tick(dt: nat)
    | Present(t: nat, token: Id)
    | Acquire(t: nat)
    | GiveUp(t: nat)
    | Find(t: nat)
    | Decide(t: nat)
    | ReadVersion(t: nat)
    | Commit(t: nat, next: Id)
    | Save(t: nat)
    | Refetch(t: nat)
    | ReadReplay(t: nat)
    | Condemn(t: nat)
    | BumpStolen(t: nat)
    | Release(t: nat)
    | Fail(t: nat)
    | BeginExchange(t: nat, user: Id)
    | CreateDevice(t: nat, device: Id, family: Id, next: Id)
    | SetVersion(t: nat)
    | Sign(t: nat)
    | FailExchange(t: nat)
    | BeginRevocation(t: nat, device: Id)
    | RevokeRows(t: nat)
    | BumpRevoked(t: nat)
    | FailRevocation(t: nat)

  function HashOf(s: Sys, t: nat): Hash
    requires t in s.calls
  {
    Sha256(s.calls[t].token)
  }

  /** The call holds (or believes it holds) its lock. */
  predicate Critical(pc: Pc) {
    !pc.Waiting? && !pc.Done?
  }

  function InitHistory(): History {
    History(map[], map[], {}, {}, {}, {}, {})
  }

  /** Empty tables; the empty string is never drawn as an identifier. */
  predicate Init(s: Sys) {
    && s.st.ids == {NO_TOKEN} && s.st.devices == map[] && s.st.rows == map[]
    && s.st.replays == map[] && s.st.locks == map[] && s.st.versions == map[] && s.st.issued == {}
    && s.calls == map[] && s.exchanges == map[] && s.revocations == map[]
    && s.hist == InitHistory()
  }

  predicate Enabled(s: Sys, a: Action) {
    match a
    case Tick(_) => true
    case Present(t, token) => t !in s.calls && (token == NO_TOKEN || token in s.hist.handed || token !in s.st.ids)
    case Acquire(t) => t in s.calls && s.calls[t].pc.Waiting?
    case GiveUp(t) => t in s.calls && s.calls[t].pc.Waiting? && s.st.now > s.calls[t].pc.since + LOCK_MAX_WAIT
    case Find(t) => t in s.calls && s.calls[t].pc.Finding?
    case Decide(t) => t in s.calls && s.calls[t].pc.Found?
    case ReadVersion(t) => t in s.calls && s.calls[t].pc.ReadingVersion?
    case Commit(t, next) => t in s.calls && s.calls[t].pc.Committing? && next !in s.st.ids
    case Save(t) => t in s.calls && s.calls[t].pc.Saving?
    case Refetch(t) => t in s.calls && s.calls[t].pc.Refetching?
    case ReadReplay(t) => t in s.calls && s.calls[t].pc.ReadingReplay?
    case Condemn(t) => t in s.calls && s.calls[t].pc.Condemning?
    case BumpStolen(t) => t in s.calls && s.calls[t].pc.Bumping?
    case Release(t) => t in s.calls && s.calls[t].pc.Releasing?
    case Fail(t) => t in s.calls && !s.calls[t].pc.Releasing? && !s.calls[t].pc.Done?
    case BeginExchange(t, _) => t !in s.exchanges
    case CreateDevice(t, d, f, next) =>
      && t in s.exchanges && s.exchanges[t].Creating?
      && d !in s.st.ids && f !in s.st.ids && next !in s.st.ids && d != f && d != next && f != next
    case SetVersion(t) => t in s.exchanges && s.exchanges[t].Versioning?
    case Sign(t) => t in s.exchanges && s.exchanges[t].Signing?
    case FailExchange(t) => t in s.exchanges && !s.exchanges[t].Exchanged?
    case BeginRevocation(t, d) => t !in s.revocations && d in s.st.devices
    case RevokeRows(t) => t in s.revocations && s.revocations[t].RevokingRows?
    case BumpRevoked(t) => t in s.revocations && s.revocations[t].BumpingDevice?
    case FailRevocation(t) => t in s.revocations && !s.revocations[t].Revoked?
  }

  // ---- what each step does to the tables ----

  /** UPDATE ... WHERE token_hash = h AND used = false matches a row. */
  predicate Flips(s: Sys, h: Hash) {
    h in s.st.rows && !s.st.rows[h].used
  }

  predicate Free(s: Sys, t: nat)
    requires t in s.calls
  {
    !Live(s.st.locks, HashOf(s, t), s.st.now)
  }

  function SavedPair(cfg: Config, s: Sys, t: nat): Pair
    requires t in s.calls && s.calls[t].pc.Saving?
  {
    var pc := s.calls[t].pc;
    Pair(MintJwt(cfg, pc.row.user, pc.row.device, pc.version, s.st.now), pc.minted)
  }

  function FirstPair(cfg: Config, s: Sys, t: nat): Pair
    requires t in s.exchanges && s.exchanges[t].Signing?
  {
    var e := s.exchanges[t];
    Pair(MintJwt(cfg, e.user, e.device, INITIAL_VERSION, s.st.now), e.minted)
  }

  /** A token nobody minted is never minted later either: identifiers do not repeat. */
  function IdsAfter(cfg: Config, s: Sys, a: Action): set<Id>
    requires Enabled(s, a)
  {
    if a.Present? then s.st.ids + {a.token}
    else if a.Commit? && Flips(s, HashOf(s, a.t)) then s.st.ids + {a.next}
    else if a.CreateDevice? then s.st.ids + {a.device, a.family, a.next}
    else s.st.ids
  }

  /** The conditional update and the insert of a rotation are one transaction. */
  function RowsAfter(cfg: Config, s: Sys, a: Action): map<Hash, Row>
    requires Enabled(s, a)
  {
    if a.Commit? && Flips(s, HashOf(s, a.t)) then
      CommitRotation(cfg, s.st, HashOf(s, a.t), s.calls[a.t].pc.row, a.next, s.calls[a.t].pc.at).rows
    else if a.CreateDevice? then
      CommitDevice(cfg, s.st, s.exchanges[a.t].user, a.device, a.family, a.next).rows
    else if a.Condemn? then
      RevokeFamily(s.st.rows, s.calls[a.t].pc.row.family)
    else if a.RevokeRows? then
      RevokeByDevice(s.st.rows, s.revocations[a.t].device)
    else
      s.st.rows
  }

  function DevicesAfter(cfg: Config, s: Sys, a: Action): map<Id, Device>
    requires Enabled(s, a)
  {
    if a.Commit? && Flips(s, HashOf(s, a.t)) then
      CommitRotation(cfg, s.st, HashOf(s, a.t), s.calls[a.t].pc.row, a.next, s.calls[a.t].pc.at).devices
    else if a.CreateDevice? then
      CommitDevice(cfg, s.st, s.exchanges[a.t].user, a.device, a.family, a.next).devices
    else
      s.st.devices
  }

  /** SETNX to acquire; the deferred release is an unconditional DEL. */
  function LocksAfter(s: Sys, a: Action): map<Hash, Entry<()>>
    requires Enabled(s, a)
  {
    if a.Acquire? && Free(s, a.t) then SetEx(s.st.locks, HashOf(s, a.t), (), s.st.now, LOCK_TTL)
    else if a.Release? then Del(s.st.locks, HashOf(s, a.t))
    else s.st.locks
  }

  /** The device whose version the step increments, if any. */
  function Bumped(s: Sys, a: Action): Option<Id>
    requires Enabled(s, a)
  {
    if a.BumpStolen? then Some(s.calls[a.t].pc.row.device)
    else if a.BumpRevoked? then Some(s.revocations[a.t].device)
    else None
  }

  function VersionsAfter(s: Sys, a: Action): map<Id, int>
    requires Enabled(s, a)
  {
    if a.SetVersion? then s.st.versions[s.exchanges[a.t].device := INITIAL_VERSION]
    else if Bumped(s, a).Some? then BumpVersion(s.st.versions, Bumped(s, a).value)
    else s.st.versions
  }

  function ReplaysAfter(cfg: Config, s: Sys, a: Action): map<Hash, Entry<Pair>>
    requires Enabled(s, a)
  {
    if a.Save? then SavePair(cfg, s.st, HashOf(s, a.t), SavedPair(cfg, s, a.t)).replays else s.st.replays
  }

  function IssuedAfter(cfg: Config, s: Sys, a: Action): set<Jwt>
    requires Enabled(s, a)
  {
    if a.Save? then s.st.issued + {SavedPair(cfg, s, a.t).access}
    else if a.Sign? then s.st.issued + {FirstPair(cfg, s, a.t).access}
    else s.st.issued
  }

  function StoreAfter(cfg: Config, s: Sys, a: Action): Store
    requires Enabled(s, a)
  {
    Store(if a.Tick? then s.st.now + a.dt else s.st.now,
          IdsAfter(cfg, s, a), DevicesAfter(cfg, s, a), RowsAfter(cfg, s, a), ReplaysAfter(cfg, s, a),
          LocksAfter(s, a), VersionsAfter(s, a), IssuedAfter(cfg, s, a))
  }

  // ---- where each step takes a refresh call ----

  function Decision(acq: nat, got: Option<Row>, now: nat): Pc {
    if got.None? || got.value.revoked || got.value.expiresAt < Unix(now) then Releasing(acq, InvalidGrant)
    else if got.value.used then ReadingReplay(acq, got.value)
    else ReadingVersion(acq, got.value)
  }

  predicate CallAction(a: Action) {
    || a.Acquire? || a.GiveUp? || a.Find? || a.Decide? || a.ReadVersion? || a.Commit? || a.Save?
    || a.Refetch? || a.ReadReplay? || a.Condemn? || a.BumpStolen? || a.Release? || a.Fail?
  }

  /** The next position of the call that takes step a. */
  function PcAfter(cfg: Config, s: Sys, t: nat, a: Action): Pc
    requires CallAction(a) && a.t == t && Enabled(s, a) && t in s.calls
  {
    var pc := s.calls[t].pc;
    var h := HashOf(s, t);
    match a
    case Acquire(_) => if Free(s, t) then Finding(s.st.now) else pc
    case GiveUp(_) => Done(SystemError)
    case Find(_) => Found(pc.acq, if h in s.st.rows then Some(s.st.rows[h]) else None)
    case Decide(_) => Decision(pc.acq, pc.got, s.st.now)
    case ReadVersion(_) =>
      if pc.row.device in s.st.versions
      then Committing(pc.acq, pc.row, s.st.versions[pc.row.device], s.st.now)
      else Releasing(pc.acq, InvalidGrant)
    case Commit(_, next) =>
      if Flips(s, h) then Saving(pc.acq, pc.row, pc.version, next) else Refetching(pc.acq, pc.row)
    case Save(_) => Releasing(pc.acq, Granted(SavedPair(cfg, s, t), pc.row.device))
    case Refetch(_) =>
      var got := Get(s.st.replays, h, s.st.now);
      Releasing(pc.acq, if got.Some? then Granted(got.value, pc.row.device) else InvalidGrant)
    case ReadReplay(_) =>
      var got := Get(s.st.replays, h, s.st.now);
      if got.Some? then Releasing(pc.acq, Granted(got.value, pc.row.device)) else Condemning(pc.acq, pc.row)
    case Condemn(_) => Bumping(pc.acq, pc.row)
    case BumpStolen(_) => Releasing(pc.acq, InvalidGrant)
    case Release(_) => Done(pc.result)
    // An error: from the critical section the deferred release still runs.
    case Fail(_) => if pc.Waiting? then Done(SystemError) else Releasing(pc.acq, SystemError)
  }

  function CallsAfter(cfg: Config, s: Sys, a: Action): map<nat, Call>
    requires Enabled(s, a)
  {
    if a.Present? then
      s.calls[a.t := Call(a.token, if a.token == NO_TOKEN then Done(InvalidGrant) else Waiting(s.st.now))]
    else if CallAction(a) then
      s.calls[a.t := s.calls[a.t].(pc := PcAfter(cfg, s, a.t, a))]
    else
      s.calls
  }

  predicate ExchangeAction(a: Action) {
    a.BeginExchange? || a.CreateDevice? || a.SetVersion? || a.Sign? || a.FailExchange?
  }

  function ExchangeAfter(cfg: Config, s: Sys, a: Action): Exchange
    requires ExchangeAction(a) && Enabled(s, a)
  {
    match a
    case BeginExchange(t, user) => Creating(user)
    case CreateDevice(t, d, f, next) => Versioning(s.exchanges[t].user, d, next)
    case SetVersion(t) => Signing(s.exchanges[t].user, s.exchanges[t].device, s.exchanges[t].minted)
    case Sign(t) => Exchanged(FirstPair(cfg, s, t))
    case FailExchange(t) => ExchangeFailed
  }

  function ExchangesAfter(cfg: Config, s: Sys, a: Action): map<nat, Exchange>
    requires Enabled(s, a)
  {
    if !ExchangeAction(a) then s.exchanges else s.exchanges[a.t := ExchangeAfter(cfg, s, a)]
  }

  function RevocationsAfter(s: Sys, a: Action): map<nat, Revocation>
    requires Enabled(s, a)
  {
    if a.BeginRevocation? then s.revocations[a.t := RevokingRows(a.device)]
    else if a.RevokeRows? then s.revocations[a.t := BumpingDevice(s.revocations[a.t].device)]
    else if a.BumpRevoked? then s.revocations[a.t := Revoked(s.revocations[a.t].device)]
    else if a.FailRevocation? then s.revocations[a.t := RevocationFailed]
    else s.revocations
  }

  // ---- what is remembered ----

  function Extend(chain: map<Id, seq<Hash>>, family: Id, h: Hash): map<Id, seq<Hash>> {
    if family in chain then chain[family := chain[family] + [h]] else chain
  }

  /** A refresh token reaches the client when the call that grants it returns. */
  function Hand(handed: set<Id>, o: Outcome): set<Id> {
    if o.Granted? then handed + {o.pair.refresh} else handed
  }

  function SeenAfter(s: Sys, a: Action): set<(Id, int)>
    requires Enabled(s, a)
  {
    if a.SetVersion? then
      s.hist.seen + {(s.exchanges[a.t].device, INITIAL_VERSION)}
    else if a.ReadVersion? && s.calls[a.t].pc.row.device in s.st.versions then
      s.hist.seen + {(s.calls[a.t].pc.row.device, s.st.versions[s.calls[a.t].pc.row.device])}
    else
      s.hist.seen
  }

  function ChainAfter(s: Sys, a: Action): map<Id, seq<Hash>>
    requires Enabled(s, a)
  {
    if a.Commit? && Flips(s, HashOf(s, a.t)) then
      Extend(s.hist.chain, s.calls[a.t].pc.row.family, Sha256(a.next))
    else if a.CreateDevice? then
      s.hist.chain[a.family := [Sha256(a.next)]]
    else
      s.hist.chain
  }

  function HandedAfter(s: Sys, a: Action): set<Id>
    requires Enabled(s, a)
  {
    if a.Release? then Hand(s.hist.handed, s.calls[a.t].pc.result)
    else if a.Sign? then s.hist.handed + {s.exchanges[a.t].minted}
    else s.hist.handed
  }

  function HistAfter(cfg: Config, s: Sys, a: Action): History
    requires Enabled(s, a)
  {
    var d := Bumped(s, a);
    History(
      ChainAfter(s, a),
      if a.Save? then s.hist.saved[HashOf(s, a.t) := Saved(SavedPair(cfg, s, a.t), s.st.now)] else s.hist.saved,
      HandedAfter(s, a),
      if a.SetVersion? then s.hist.settled + {s.exchanges[a.t].device} else s.hist.settled,
      SeenAfter(s, a),
      if d.Some? then s.hist.retired + (set p | p in s.hist.seen && p.0 == d.value) else s.hist.retired,
      if d.Some? then s.hist.bumped + {d.value} else s.hist.bumped)
  }

  function Next(cfg: Config, s: Sys, a: Action): Sys
    requires Enabled(s, a)
  {
    Sys(StoreAfter(cfg, s, a), CallsAfter(cfg, s, a), ExchangesAfter(cfg, s, a), RevocationsAfter(s, a),
        HistAfter(cfg, s, a))
  }

  /** A run: the states visited and the actions between them. */
  predicate Run(cfg: Config, states: seq<Sys>, acts: seq<Action>) {
    && |states| == |acts| + 1
    && Init(states[0])
    && forall i | 0 <= i < |acts| :: Enabled(states[i], acts[i]) && states[i + 1] == Next(cfg, states[i], acts[i])
  }
}
