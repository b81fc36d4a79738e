/** Sliding-window metering: what the usage history says, and the pruned, expiring sorted
    sets in Redis that stand in for it. */
module MeteringModel {
  import opened Redis
  import opened Decimal

  type User = nat

  const HOUR: nat := 3_600_000

  /** Size is in milliseconds; Cap <= 0 means the window has no limit. */
  datatype UsageWindow = UsageWindow(name: string, size: nat, cap: int)

  datatype Usage = Usage(promptTokens: int, completionTokens: int)

  datatype Pricing = Pricing(promptCreditPerToken: real, completionCreditPerToken: real)

  /** One charge: when the gateway made it, when Redis received it, and for how much. */
  datatype Charge = Charge(user: User, at: nat, server: nat, credits: nat, nonce: string)

  datatype WindowReset = WindowReset(window: string, resetUnix: int)

  datatype PrecheckResult = PrecheckResult(exceeded: bool, resets: seq<WindowReset>, retryAfter: int)

  /** math.Ceil. */
  function Ceil(x: real): int { -(-x).Floor }

  function CreditsFor(p: Pricing, u: Usage): int {
    var credits := Ceil(u.promptTokens as real * p.promptCreditPerToken
                        + u.completionTokens as real * p.completionCreditPerToken);
    if credits <= 0 && (u.promptTokens > 0 || u.completionTokens > 0) then 1 else credits
  }

  function EstTokens(chars: int): int {
    if chars <= 0 then 0 else Ceil(chars as real / 4.0)
  }

  function EstimateUsage(promptChars: int, completionChars: int): Usage {
    Usage(EstTokens(promptChars), EstTokens(completionChars))
  }

  /** Every generated or consumed token is paid for, and rounding never costs a whole credit more. */
  lemma CreditsCoverTheCost(p: Pricing, u: Usage)
    ensures var cost := u.promptTokens as real * p.promptCreditPerToken
                        + u.completionTokens as real * p.completionCreditPerToken;
            && CreditsFor(p, u) as real >= cost
            && (u.promptTokens > 0 || u.completionTokens > 0 ==> CreditsFor(p, u) >= 1)
            && (CreditsFor(p, u) > 1 ==> CreditsFor(p, u) as real < cost + 1.0)
            // Exactly the cost rounded up, except that tokens which would cost nothing cost one.
            && (if cost <= 0.0 && (u.promptTokens > 0 || u.completionTokens > 0) then CreditsFor(p, u) == 1
                else CreditsFor(p, u) as real - 1.0 < cost <= CreditsFor(p, u) as real)
  {
  }

  /** Four characters to a token, rounded up, and none for none. */
  lemma EstimateIsCeiling(chars: int)
    ensures chars > 0 ==> 4 * (EstTokens(chars) - 1) < chars <= 4 * EstTokens(chars)
    ensures chars <= 0 ==> EstTokens(chars) == 0
  {
    if chars <= 0 { return; }
    var q := chars as real / 4.0;
    var n := EstTokens(chars);
    assert n as real >= q > (n - 1) as real;
    assert (4 * n) as real >= chars as real > (4 * (n - 1)) as real;
  }

  function Member(credits: nat, nonce: string): string {
    Print(credits) + ":" + nonce
  }

  function MemberOf(c: Charge): string {
    Member(c.credits, c.nonce)
  }

  function CreditsFromMember(member: string): int {
    var i := IndexByte(member, ':');
    if i.None? then 0
    else
      var c := ParseInt(member[..i.value]);
      if c.None? then 0 else c.value
  }

  lemma ColonAfterCredits(credits: nat, nonce: string)
    ensures IndexByte(Member(credits, nonce), ':') == Some(|Print(credits)|)
  {
    PrintIsDigits(credits);
    var m := Member(credits, nonce);
    var n := |Print(credits)|;
    assert m[n] == ':';
    assert forall i | 0 <= i < n :: m[i] == Print(credits)[i];
    assert forall i | 0 <= i < n :: IsDigit(m[i]);
    var found := IndexByte(m, ':');
    assert found.Some? && found.value <= n;
  }

  /** The member written by a charge reads back as its credits, whatever the nonce. */
  lemma MemberRoundTrip(credits: nat, nonce: string)
    requires credits <= MAX_INT64
    ensures CreditsFromMember(Member(credits, nonce)) == credits
  {
    ColonAfterCredits(credits, nonce);
    ParsePrint(credits);
    assert Member(credits, nonce)[..|Print(credits)|] == Print(credits);
  }

  /** Charges of the same amount never collapse into one member. */
  lemma MembersAreDistinct(c: nat, m: string, d: nat, n: string)
    requires Member(c, m) == Member(d, n)
    ensures m == n && c == d
  {
    ColonAfterCredits(c, m);
    ColonAfterCredits(d, n);
    assert Member(c, m)[|Print(c)| + 1..] == m;
    assert Member(d, n)[|Print(d)| + 1..] == n;
    assert Member(c, m)[..|Print(c)|] == Print(c);
    assert Member(d, n)[..|Print(d)|] == Print(d);
    PrintIsDigits(c);
    PrintIsDigits(d);
  }

  // ---- The plain meaning: a sum over everything ever charged ----

  /** The first second that still counts at a moment now. */
  function Cutoff(now: nat, size: nat): int {
    (now - size) / 1000
  }

  predicate Counts(c: Charge, u: User, cut: int) {
    c.user == u && Unix(c.at) >= cut
  }

  function Sum(h: seq<Charge>, u: User, cut: int): int {
    if h == [] then 0
    else
      var c := h[|h| - 1];
      Sum(h[..|h| - 1], u, cut) + if Counts(c, u, cut) then c.credits else 0
  }

  /** The earliest second that counts, or 0 when nothing does. */
  function Oldest(h: seq<Charge>, u: User, cut: int): int {
    if h == [] then 0
    else
      var c := h[|h| - 1];
      var rest := Oldest(h[..|h| - 1], u, cut);
      if Counts(c, u, cut) && (rest == 0 || Unix(c.at) < rest) then Unix(c.at) else rest
  }

  /** Amounts fit int64, seconds are after the epoch, and every nonce is used once. */
  ghost predicate Wellformed(h: seq<Charge>) {
    && (forall i | 0 <= i < |h| :: 1 <= h[i].credits <= MAX_INT64 && h[i].at >= 1000)
    && (forall i, j | 0 <= i < j < |h| :: h[i].nonce != h[j].nonce)
  }

  lemma {:induction false} OldestIsLeast(h: seq<Charge>, u: User, cut: int)
    requires Wellformed(h)
    ensures forall i | 0 <= i < |h| && Counts(h[i], u, cut) :: 0 < Oldest(h, u, cut) <= Unix(h[i].at)
    ensures Oldest(h, u, cut) != 0 ==>
              exists i :: 0 <= i < |h| && Counts(h[i], u, cut) && Oldest(h, u, cut) == Unix(h[i].at)
    ensures Oldest(h, u, cut) == 0 ==> Sum(h, u, cut) == 0
  {
    if h != [] {
      var n := |h| - 1;
      OldestIsLeast(h[..n], u, cut);
      assert forall i | 0 <= i < n :: h[..n][i] == h[i];
      if Counts(h[n], u, cut) {
        assert Unix(h[n].at) > 0;
      }
    }
  }

  lemma {:induction false} OldestIsPast(h: seq<Charge>, u: User, cut: int, now: nat)
    requires forall i | 0 <= i < |h| :: h[i].at <= now
    ensures Oldest(h, u, cut) <= Unix(now)
  {
    if h != [] {
      OldestIsPast(h[..|h| - 1], u, cut, now);
    }
  }

  lemma {:induction false} SumMonotone(h: seq<Charge>, u: User, low: int, high: int)
    requires low <= high
    ensures 0 <= Sum(h, u, high) <= Sum(h, u, low)
  {
    if h != [] {
      SumMonotone(h[..|h| - 1], u, low, high);
    }
  }

  lemma {:induction false} SumGrows(h: seq<Charge>, more: seq<Charge>, u: User, cut: int)
    ensures Sum(h + more, u, cut) >= Sum(h, u, cut)
    decreases |more|
  {
    if more == [] {
      assert h + more == h;
    } else {
      var n := |more| - 1;
      assert (h + more)[..|h + more| - 1] == h + more[..n];
      SumGrows(h, more[..n], u, cut);
      assert (h + more)[|h + more| - 1] == more[n];
    }
  }

  lemma SumSnoc(h: seq<Charge>, c: Charge, u: User, cut: int)
    ensures Sum(h + [c], u, cut) == Sum(h, u, cut) + if Counts(c, u, cut) then c.credits else 0
  {
    assert (h + [c])[..|h|] == h;
  }

  /** Sums that agree on which charges count agree. */
  lemma {:induction false} SumSame(h: seq<Charge>, u: User, a: int, b: int)
    requires forall i | 0 <= i < |h| :: Counts(h[i], u, a) <==> Counts(h[i], u, b)
    ensures Sum(h, u, a) == Sum(h, u, b)
  {
    if h != [] {
      SumSame(h[..|h| - 1], u, a, b);
    }
  }

  /** Leaving out one counted charge leaves a smaller sum. */
  lemma {:induction false} SumDrops(h: seq<Charge>, u: User, low: int, high: int, k: nat)
    requires Wellformed(h) && low <= high && k < |h|
    requires Counts(h[k], u, low) && !Counts(h[k], u, high)
    ensures Sum(h, u, high) < Sum(h, u, low)
  {
    var n := |h| - 1;
    if k == n {
      SumMonotone(h[..n], u, low, high);
    } else {
      SumDrops(h[..n], u, low, high, k);
    }
  }

  // ---- The store: one sorted set for each user and window ----

  /** A sorted set of members by score, gone from its expiry on. */
  datatype ZSet = ZSet(scores: map<string, int>, expiry: nat)

  type Sets = map<(User, string), ZSet>

  function Visible(s: Sets, k: (User, string), server: nat): map<string, int> {
    if k in s && server < s[k].expiry then s[k].scores else map[]
  }

  /** The gateway's clock may run ahead of or behind Redis's, by an amount that itself varies by
      less than the hour of grace the keys are given (a second of it goes to rounding). */
  predicate Drift(now: nat, server: nat, skew: int) {
    skew <= server - now <= skew + HOUR - 1000
  }

  /** What a sorted set must hold for the window to be readable from it. */
  ghost predicate Tracks(s: Sets, w: UsageWindow, h: seq<Charge>, u: User, floor: int) {
    var z := if (u, w.name) in s then s[(u, w.name)] else ZSet(map[], 0);
    && (forall m | m in z.scores :: exists i :: 0 <= i < |h| && h[i].user == u
                                                && m == MemberOf(h[i]) && z.scores[m] == Unix(h[i].at))
    && (forall i | 0 <= i < |h| && Counts(h[i], u, floor) ::
          MemberOf(h[i]) in z.scores
          && z.scores[MemberOf(h[i])] == Unix(h[i].at))
    && (forall i | 0 <= i < |h| && h[i].user == u :: h[i].server + w.size + HOUR <= z.expiry)
  }

  /** Every charge was made in the past and with the clocks in step. */
  ghost predicate Past(h: seq<Charge>, now: nat, server: nat, skew: int) {
    forall i | 0 <= i < |h| :: h[i].at <= now && h[i].server <= server && Drift(h[i].at, h[i].server, skew)
  }

  /** By the time a key has expired, none of its charges counts any more. */
  lemma ExpiredIsIrrelevant(s: Sets, w: UsageWindow, h: seq<Charge>, u: User, floor: int, now: nat, server: nat,
                            skew: int)
    requires Wellformed(h) && Wellformed(h) && Tracks(s, w, h, u, floor)
    requires Past(h, now, server, skew) && Drift(now, server, skew)
    requires (u, w.name) !in s || s[(u, w.name)].expiry <= server
    ensures forall i | 0 <= i < |h| :: !Counts(h[i], u, Cutoff(now, w.size))
  {
    forall i | 0 <= i < |h| && h[i].user == u
      ensures Unix(h[i].at) < Cutoff(now, w.size)
    {
      assert h[i].server + w.size + HOUR <= server;
      assert now - w.size >= h[i].at + 1000;
    }
  }

  /** ZREMRANGEBYSCORE key -inf (cut. */
  function Pruned(s: Sets, k: (User, string), cut: int): Sets {
    if k !in s then s
    else s[k := ZSet(map m | m in s[k].scores && s[k].scores[m] >= cut :: s[k].scores[m], s[k].expiry)]
  }

  lemma PruneKeepsTrack(s: Sets, w: UsageWindow, h: seq<Charge>, u: User, floor: int, cut: int)
    requires Tracks(s, w, h, u, floor) && floor <= cut
    ensures Tracks(Pruned(s, (u, w.name), cut), w, h, u, cut)
  {
  }

  lemma PruneElsewhere(s: Sets, w: UsageWindow, h: seq<Charge>, u: User, floor: int, k: (User, string), cut: int)
    requires Tracks(s, w, h, u, floor) && k != (u, w.name)
    ensures Tracks(Pruned(s, k, cut), w, h, u, floor)
  {
  }

  /** m belongs to some charge that counts. */
  ghost predicate Belongs(m: string, h: seq<Charge>, u: User, cut: int) {
    exists i :: 0 <= i < |h| && Counts(h[i], u, cut) && m == MemberOf(h[i])
  }

  /** From cut on, a sorted set holds exactly the members of the charges that count, at their seconds. */
  ghost predicate Shows(v: map<string, int>, h: seq<Charge>, u: User, cut: int) {
    && (forall m | m in v && v[m] >= cut :: Belongs(m, h, u, cut))
    && (forall i | 0 <= i < |h| && Counts(h[i], u, cut) :: MemberOf(h[i]) in v && v[MemberOf(h[i])] == Unix(h[i].at))
  }

  /** The members a read returns are exactly those of the charges that count. */
  lemma VisibleIsTheWindow(s: Sets, w: UsageWindow, h: seq<Charge>, u: User, floor: int, now: nat, server: nat,
                           skew: int)
    requires Wellformed(h) && Tracks(s, w, h, u, floor) && floor <= Cutoff(now, w.size)
    requires Past(h, now, server, skew) && Drift(now, server, skew)
    ensures Shows(Visible(s, (u, w.name), server), h, u, Cutoff(now, w.size))
  {
    if (u, w.name) !in s || s[(u, w.name)].expiry <= server {
      ExpiredIsIrrelevant(s, w, h, u, floor, now, server, skew);
    }
  }

  /** What adding up a list of members gives. */
  function MemberSum(ms: seq<string>): int {
    if ms == [] then 0 else MemberSum(ms[..|ms| - 1]) + CreditsFromMember(ms[|ms| - 1])
  }

  lemma {:induction false} MemberSumWithout(ms: seq<string>, k: nat)
    requires k < |ms|
    ensures MemberSum(ms) == MemberSum(ms[..k] + ms[k + 1..]) + CreditsFromMember(ms[k])
    decreases |ms|
  {
    var n := |ms| - 1;
    if k == n {
      assert ms[..k] + ms[k + 1..] == ms[..n];
    } else {
      MemberSumWithout(ms[..n], k);
      var rest := ms[..k] + ms[k + 1..];
      assert rest[..|rest| - 1] == ms[..n][..k] + ms[..n][k + 1..];
      assert rest[|rest| - 1] == ms[n];
    }
  }

  ghost predicate Lists(ms: seq<string>, h: seq<Charge>, u: User, cut: int) {
    && (forall a, b | 0 <= a < b < |ms| :: ms[a] != ms[b])
    && (forall a | 0 <= a < |ms| :: Belongs(ms[a], h, u, cut))
    && (forall i | 0 <= i < |h| && Counts(h[i], u, cut) :: MemberOf(h[i]) in ms)
  }

  /** Without the last charge, and without its member, the list still lists. */
  lemma ListsWithoutLast(ms: seq<string>, h: seq<Charge>, u: User, cut: int, k: nat)
    requires Wellformed(h) && Lists(ms, h, u, cut) && h != [] && Counts(h[|h| - 1], u, cut)
    requires k < |ms| && ms[k] == MemberOf(h[|h| - 1])
    ensures Lists(ms[..k] + ms[k + 1..], h[..|h| - 1], u, cut)
  {
    var n := |h| - 1;
    var rest, before := ms[..k] + ms[k + 1..], h[..n];
    forall a | 0 <= a < |rest|
      ensures Belongs(rest[a], before, u, cut)
    {
      var b := if a < k then a else a + 1;
      assert rest[a] == ms[b] && ms[b] != ms[k];
      assert Belongs(ms[b], h, u, cut);
      var i :| 0 <= i < |h| && Counts(h[i], u, cut) && ms[b] == MemberOf(h[i]);
      assert before[i] == h[i];
    }
    forall i | 0 <= i < |before| && Counts(before[i], u, cut)
      ensures MemberOf(before[i]) in rest
    {
      KeptMember(ms, h, u, cut, k, i);
    }
  }

  lemma KeptMember(ms: seq<string>, h: seq<Charge>, u: User, cut: int, k: nat, i: nat)
    requires Wellformed(h) && Lists(ms, h, u, cut) && i < |h| - 1 && Counts(h[i], u, cut)
    requires k < |ms| && ms[k] == MemberOf(h[|h| - 1])
    ensures MemberOf(h[i]) in ms[..k] + ms[k + 1..]
  {
    var last := h[|h| - 1];
    if MemberOf(h[i]) == MemberOf(last) {
      MembersAreDistinct(h[i].credits, h[i].nonce, last.credits, last.nonce);
    }
    var b :| 0 <= b < |ms| && ms[b] == MemberOf(h[i]);
    assert (ms[..k] + ms[k + 1..])[if b < k then b else b - 1] == ms[b];
  }

  lemma ListsSkips(ms: seq<string>, h: seq<Charge>, u: User, cut: int)
    requires Lists(ms, h, u, cut) && h != [] && !Counts(h[|h| - 1], u, cut)
    ensures Lists(ms, h[..|h| - 1], u, cut)
  {
    var before := h[..|h| - 1];
    forall a | 0 <= a < |ms|
      ensures Belongs(ms[a], before, u, cut)
    {
      assert Belongs(ms[a], h, u, cut);
      var i :| 0 <= i < |h| && Counts(h[i], u, cut) && ms[a] == MemberOf(h[i]);
      assert before[i] == h[i];
    }
  }

  lemma MemberSumStep(ms: seq<string>, h: seq<Charge>, u: User, cut: int, k: nat)
    requires h != [] && Counts(h[|h| - 1], u, cut) && h[|h| - 1].credits <= MAX_INT64
    requires k < |ms| && ms[k] == MemberOf(h[|h| - 1])
    requires MemberSum(ms[..k] + ms[k + 1..]) == Sum(h[..|h| - 1], u, cut)
    ensures MemberSum(ms) == Sum(h, u, cut)
  {
    MemberSumWithout(ms, k);
    MemberRoundTrip(h[|h| - 1].credits, h[|h| - 1].nonce);
  }

  /** Adding up the members in any order gives the history's sum. */
  lemma {:induction false} MemberSumIsSum(ms: seq<string>, h: seq<Charge>, u: User, cut: int)
    requires Wellformed(h) && Lists(ms, h, u, cut)
    ensures MemberSum(ms) == Sum(h, u, cut)
    decreases |h|
  {
    if h == [] {
      assert forall m :: !Belongs(m, h, u, cut);
    } else if !Counts(h[|h| - 1], u, cut) {
      ListsSkips(ms, h, u, cut);
      MemberSumIsSum(ms, h[..|h| - 1], u, cut);
    } else {
      var k :| 0 <= k < |ms| && ms[k] == MemberOf(h[|h| - 1]);
      ListsWithoutLast(ms, h, u, cut, k);
      MemberSumIsSum(ms[..k] + ms[k + 1..], h[..|h| - 1], u, cut);
      MemberSumStep(ms, h, u, cut, k);
    }
  }

  /** The smallest score of a list, or 0 for none. */
  function Least(scores: seq<int>): int {
    if scores == [] then 0
    else
      var rest, t := Least(scores[..|scores| - 1]), scores[|scores| - 1];
      if rest == 0 || t < rest then t else rest
  }

  lemma {:induction false} LeastIsLeast(scores: seq<int>)
    requires forall i | 0 <= i < |scores| :: scores[i] > 0
    ensures forall i | 0 <= i < |scores| :: 0 < Least(scores) <= scores[i]
    ensures scores != [] ==> exists i :: 0 <= i < |scores| && scores[i] == Least(scores)
  {
    if scores != [] {
      var before := scores[..|scores| - 1];
      LeastIsLeast(before);
      assert forall i | 0 <= i < |before| :: before[i] == scores[i];
      if Least(scores) != scores[|scores| - 1] {
        var i :| 0 <= i < |before| && before[i] == Least(before);
        assert scores[i] == Least(scores);
      }
    }
  }

  /** The smallest score read is the earliest second that counts. */
  lemma LeastIsOldest(ms: seq<string>, scores: seq<int>, h: seq<Charge>, u: User, cut: int)
    requires Wellformed(h) && Lists(ms, h, u, cut) && |scores| == |ms| && Seconds(ms, scores, h)
    ensures Least(scores) == Oldest(h, u, cut)
  {
    OldestIsLeast(h, u, cut);
    forall a | 0 <= a < |scores|
      ensures scores[a] >= Oldest(h, u, cut) > 0
    {
      assert Belongs(ms[a], h, u, cut);
    }
    LeastIsLeast(scores);
    if exists i :: 0 <= i < |h| && Counts(h[i], u, cut) && Oldest(h, u, cut) == Unix(h[i].at) {
      var i :| 0 <= i < |h| && Counts(h[i], u, cut) && Oldest(h, u, cut) == Unix(h[i].at);
      var a :| 0 <= a < |ms| && ms[a] == MemberOf(h[i]);
      assert Least(scores) <= scores[a];
    }
  }

  /** What a read by score returns: each member from cut on once, with its score. */
  ghost predicate Ranged(ms: seq<string>, scores: seq<int>, v: map<string, int>, cut: int) {
    && |scores| == |ms|
    && (forall a, b | 0 <= a < b < |ms| :: ms[a] != ms[b])
    && (forall m :: m in ms <==> m in v && v[m] >= cut)
    && (forall a | 0 <= a < |ms| :: ms[a] in v && scores[a] == v[ms[a]])
  }

  ghost predicate Seconds(ms: seq<string>, scores: seq<int>, h: seq<Charge>)
    requires |scores| == |ms|
  {
    forall a, i | 0 <= a < |ms| && 0 <= i < |h| && ms[a] == MemberOf(h[i]) :: scores[a] == Unix(h[i].at)
  }

  lemma RangeLists(ms: seq<string>, scores: seq<int>, v: map<string, int>, h: seq<Charge>, u: User, cut: int)
    requires Ranged(ms, scores, v, cut) && Shows(v, h, u, cut)
    ensures Lists(ms, h, u, cut)
  {
    forall i | 0 <= i < |h| && Counts(h[i], u, cut)
      ensures MemberOf(h[i]) in ms
    {
    }
    forall a | 0 <= a < |ms|
      ensures Belongs(ms[a], h, u, cut)
    {
      assert ms[a] in ms;
    }
  }

  lemma ScoresAreSeconds(ms: seq<string>, scores: seq<int>, v: map<string, int>, h: seq<Charge>, u: User, cut: int)
    requires Wellformed(h) && Lists(ms, h, u, cut) && Ranged(ms, scores, v, cut) && Shows(v, h, u, cut)
    ensures Seconds(ms, scores, h)
  {
    forall a, i | 0 <= a < |ms| && 0 <= i < |h| && ms[a] == MemberOf(h[i])
      ensures scores[a] == Unix(h[i].at)
    {
      assert Belongs(ms[a], h, u, cut);
      var j :| 0 <= j < |h| && Counts(h[j], u, cut) && ms[a] == MemberOf(h[j]);
      MembersAreDistinct(h[i].credits, h[i].nonce, h[j].credits, h[j].nonce);
      assert i == j;
    }
  }

  /** ZADD key score member, then EXPIRE key for the window and an hour. */
  function Added(s: Sets, w: UsageWindow, c: Charge): Sets {
    var k := (c.user, w.name);
    s[k := ZSet(Visible(s, k, c.server)[MemberOf(c) := Unix(c.at)], c.server + w.size + HOUR)]
  }

  lemma NewMemberIsNew(h: seq<Charge>, c: Charge, i: nat)
    requires Wellformed(h + [c]) && i < |h|
    ensures MemberOf(h[i]) != MemberOf(c)
  {
    var h' := h + [c];
    assert h'[i].nonce != h'[|h|].nonce;
    if h[i].nonce != c.nonce && MemberOf(h[i]) == MemberOf(c) {
      MembersAreDistinct(h[i].credits, h[i].nonce, c.credits, c.nonce);
    }
  }

  /** Adding to a live key keeps all it held; adding to an expired one starts afresh, and only
      charges that no longer count are lost. */
  lemma AddKeepsTrack(s: Sets, w: UsageWindow, h: seq<Charge>, floor: int, c: Charge, skew: int)
    requires Wellformed(h + [c]) && Tracks(s, w, h, c.user, floor) && floor <= Cutoff(c.at, w.size)
    requires Past(h, c.at, c.server, skew) && Drift(c.at, c.server, skew)
    ensures Tracks(Added(s, w, c), w, h + [c], c.user, Cutoff(c.at, w.size))
  {
    var u, cut, h' := c.user, Cutoff(c.at, w.size), h + [c];
    assert Wellformed(h) by {
      assert forall i | 0 <= i < |h| :: h'[i] == h[i];
    }
    VisibleIsTheWindow(s, w, h, u, floor, c.at, c.server, skew);
    var z := Added(s, w, c)[(u, w.name)];
    forall i | 0 <= i < |h'| && Counts(h'[i], u, cut)
      ensures MemberOf(h'[i]) in z.scores && z.scores[MemberOf(h'[i])] == Unix(h'[i].at)
    {
      if i < |h| {
        NewMemberIsNew(h, c, i);
      }
    }
    forall m | m in z.scores
      ensures exists i :: 0 <= i < |h'| && h'[i].user == u && m == MemberOf(h'[i]) && z.scores[m] == Unix(h'[i].at)
    {
      if m == MemberOf(c) {
        assert h'[|h|] == c;
      } else {
        var i :| 0 <= i < |h| && h[i].user == u && m == MemberOf(h[i]) && z.scores[m] == Unix(h[i].at);
        assert h'[i] == h[i];
      }
    }
  }

  /** Another user's charge disturbs nothing. */
  lemma AddElsewhere(s: Sets, w: UsageWindow, h: seq<Charge>, u: User, floor: int, c: Charge)
    requires Tracks(s, w, h, u, floor) && c.user != u
    ensures Tracks(s, w, h + [c], u, floor)
  {
    var z := if (u, w.name) in s then s[(u, w.name)] else ZSet(map[], 0);
    forall m | m in z.scores
      ensures exists i :: 0 <= i < |h + [c]| && (h + [c])[i].user == u && m == MemberOf((h + [c])[i])
                          && z.scores[m] == Unix((h + [c])[i].at)
    {
      var i :| 0 <= i < |h| && h[i].user == u && m == MemberOf(h[i]) && z.scores[m] == Unix(h[i].at);
      assert (h + [c])[i] == h[i];
    }
  }

  ghost predicate DistinctNames(ws: seq<UsageWindow>) {
    forall i, j | 0 <= i < j < |ws| :: ws[i].name != ws[j].name
  }

  /** Every key tracks its window as of a moment now. */
  ghost predicate AllTrack(s: Sets, ws: seq<UsageWindow>, h: seq<Charge>, now: nat) {
    forall u: User, w | w in ws :: Tracks(s, w, h, u, Cutoff(now, w.size))
  }

  lemma AllTrackLater(s: Sets, ws: seq<UsageWindow>, h: seq<Charge>, now: nat, later: nat)
    requires AllTrack(s, ws, h, now) && now <= later
    ensures AllTrack(s, ws, h, later)
  {
    forall u: User, w | w in ws
      ensures Tracks(s, w, h, u, Cutoff(later, w.size))
    {
      assert Tracks(s, w, h, u, Cutoff(now, w.size));
    }
  }

  lemma AllTrackPruned(s: Sets, ws: seq<UsageWindow>, h: seq<Charge>, u: User, w: UsageWindow, now: nat)
    requires AllTrack(s, ws, h, now) && DistinctNames(ws) && w in ws
    ensures AllTrack(Pruned(s, (u, w.name), Cutoff(now, w.size)), ws, h, now)
  {
    var cut := Cutoff(now, w.size);
    forall v: User, x | x in ws
      ensures Tracks(Pruned(s, (u, w.name), cut), x, h, v, Cutoff(now, x.size))
    {
      assert Tracks(s, x, h, v, Cutoff(now, x.size));
      if v == u && x.name == w.name {
        PruneKeepsTrack(s, w, h, u, cut, cut);
      } else {
        PruneElsewhere(s, x, h, v, Cutoff(now, x.size), (u, w.name), cut);
      }
    }
  }

  /** Reading a window of a store that tracks the history lists the charges that count. */
  lemma ReadIsTheWindow(s: Sets, ws: seq<UsageWindow>, w: UsageWindow, h: seq<Charge>, u: User, now: nat, server: nat,
                        skew: int, ms: seq<string>, scores: seq<int>)
    requires Wellformed(h) && AllTrack(s, ws, h, now) && w in ws
    requires Past(h, now, server, skew) && Drift(now, server, skew)
    requires Ranged(ms, scores, Visible(s, (u, w.name), server), Cutoff(now, w.size))
    ensures Lists(ms, h, u, Cutoff(now, w.size)) && Seconds(ms, scores, h)
  {
    var cut, v := Cutoff(now, w.size), Visible(s, (u, w.name), server);
    assert Tracks(s, w, h, u, cut);
    VisibleIsTheWindow(s, w, h, u, cut, now, server, skew);
    RangeLists(ms, scores, v, h, u, cut);
    ScoresAreSeconds(ms, scores, v, h, u, cut);
  }

  /** Halfway through a charge: the payer's first n windows have it, the others not yet. */
  ghost predicate Charging(s: Sets, ws: seq<UsageWindow>, h: seq<Charge>, c: Charge, n: nat)
    requires n <= |ws|
  {
    && (forall v: User, w | v != c.user && w in ws :: Tracks(s, w, h + [c], v, Cutoff(c.at, w.size)))
    && (forall i | 0 <= i < n :: Tracks(s, ws[i], h + [c], c.user, Cutoff(c.at, ws[i].size)))
    && (forall i | n <= i < |ws| :: Tracks(s, ws[i], h, c.user, Cutoff(c.at, ws[i].size)))
  }

  lemma ChargingStarts(s: Sets, ws: seq<UsageWindow>, h: seq<Charge>, c: Charge)
    requires AllTrack(s, ws, h, c.at)
    ensures Charging(s, ws, h, c, 0)
  {
    forall v: User, w | v != c.user && w in ws
      ensures Tracks(s, w, h + [c], v, Cutoff(c.at, w.size))
    {
      AddElsewhere(s, w, h, v, Cutoff(c.at, w.size), c);
    }
  }

  lemma ChargingStep(s: Sets, ws: seq<UsageWindow>, h: seq<Charge>, c: Charge, n: nat, skew: int)
    requires n < |ws| && DistinctNames(ws) && Charging(s, ws, h, c, n)
    requires Wellformed(h + [c]) && Past(h, c.at, c.server, skew) && Drift(c.at, c.server, skew)
    ensures Charging(Added(s, ws[n], c), ws, h, c, n + 1)
  {
    var next := Added(s, ws[n], c);
    AddKeepsTrack(s, ws[n], h, Cutoff(c.at, ws[n].size), c, skew);
    forall v: User, w | v != c.user && w in ws
      ensures Tracks(next, w, h + [c], v, Cutoff(c.at, w.size))
    {
      SameKeySameTrack(s, next, w, h + [c], v, Cutoff(c.at, w.size));
    }
    forall i | 0 <= i < |ws| && i != n
      ensures Tracks(next, ws[i], if i < n then h + [c] else h, c.user, Cutoff(c.at, ws[i].size))
    {
      SameKeySameTrack(s, next, ws[i], if i < n then h + [c] else h, c.user, Cutoff(c.at, ws[i].size));
    }
  }

  lemma SameKeySameTrack(s: Sets, t: Sets, w: UsageWindow, h: seq<Charge>, u: User, floor: int)
    requires Tracks(s, w, h, u, floor)
    requires (u, w.name) in s <==> (u, w.name) in t
    requires (u, w.name) in s ==> s[(u, w.name)] == t[(u, w.name)]
    ensures Tracks(t, w, h, u, floor)
  {
  }

  lemma ChargingEnds(s: Sets, ws: seq<UsageWindow>, h: seq<Charge>, c: Charge)
    requires Charging(s, ws, h, c, |ws|)
    ensures AllTrack(s, ws, h + [c], c.at)
  {
    forall v: User, w | w in ws
      ensures Tracks(s, w, h + [c], v, Cutoff(c.at, w.size))
    {
      if v == c.user {
        var i :| 0 <= i < |ws| && ws[i] == w;
      }
    }
  }

  // ---- What the precheck reports ----

  predicate Full(w: UsageWindow, h: seq<Charge>, u: User, now: nat) {
    w.cap > 0 && Sum(h, u, Cutoff(now, w.size)) >= w.cap
  }

  function ResetOf(w: UsageWindow, h: seq<Charge>, u: User, now: nat): WindowReset {
    WindowReset(w.name, Oldest(h, u, Cutoff(now, w.size)) + w.size / 1000)
  }

  function Report(w: UsageWindow, h: seq<Charge>, u: User, now: nat): seq<WindowReset> {
    if Full(w, h, u, now) then [ResetOf(w, h, u, now)] else []
  }

  /** One entry for each full window, in order. */
  function Resets(ws: seq<UsageWindow>, h: seq<Charge>, u: User, now: nat): seq<WindowReset> {
    if ws == [] then [] else Resets(ws[..|ws| - 1], h, u, now) + Report(ws[|ws| - 1], h, u, now)
  }

  /** The least of the resets, or the largest number when there is none. */
  ghost predicate Earliest(rs: seq<WindowReset>, e: int) {
    && (forall i | 0 <= i < |rs| :: e <= rs[i].resetUnix)
    && (if rs == [] then e == MAX_INT64 else exists i :: 0 <= i < |rs| && rs[i].resetUnix == e)
  }

  /** Seconds from now to the first of the resets, or none if it is over. */
  ghost predicate Soonest(seconds: int, rs: seq<WindowReset>, now: nat) {
    && seconds >= 0
    && (forall i | 0 <= i < |rs| :: seconds == 0 || seconds <= rs[i].resetUnix - now / 1000)
    && (if seconds > 0 then exists i :: 0 <= i < |rs| && rs[i].resetUnix == now / 1000 + seconds
        else exists i :: 0 <= i < |rs| && rs[i].resetUnix <= now / 1000)
  }

  lemma EarliestIsSoonest(rs: seq<WindowReset>, e: int, now: nat)
    requires Earliest(rs, e) && rs != []
    ensures Soonest(if e - Unix(now) > 0 then e - Unix(now) else 0, rs, now)
  {
    var i :| 0 <= i < |rs| && rs[i].resetUnix == e;
    assert rs[i].resetUnix == e;
  }

  lemma EarliestSnoc(rs: seq<WindowReset>, e: int, r: WindowReset)
    requires Earliest(rs, e) && r.resetUnix <= MAX_INT64
    ensures Earliest(rs + [r], if r.resetUnix < e then r.resetUnix else e)
  {
    var all := rs + [r];
    assert all[|rs|] == r;
    if rs != [] && r.resetUnix >= e {
      var i :| 0 <= i < |rs| && rs[i].resetUnix == e;
      assert all[i] == rs[i];
    }
  }

  lemma {:induction false} FullIsReported(ws: seq<UsageWindow>, h: seq<Charge>, u: User, now: nat, k: nat)
    requires k < |ws| && Full(ws[k], h, u, now)
    ensures ResetOf(ws[k], h, u, now) in Resets(ws, h, u, now)
  {
    if k < |ws| - 1 { FullIsReported(ws[..|ws| - 1], h, u, now, k); }
  }

  lemma {:induction false} ReportedIsFull(ws: seq<UsageWindow>, h: seq<Charge>, u: User, now: nat, r: WindowReset)
    returns (k: nat)
    requires r in Resets(ws, h, u, now)
    ensures k < |ws| && Full(ws[k], h, u, now) && r == ResetOf(ws[k], h, u, now)
  {
    var n := |ws| - 1;
    if Full(ws[n], h, u, now) && r == ResetOf(ws[n], h, u, now) { return n; }
    k := ReportedIsFull(ws[..n], h, u, now, r);
  }

  /** A full window stays full, whatever else is charged, at every moment up to and including the
      second at which its oldest charge leaves it. */
  lemma FullUntilReset(w: UsageWindow, h: seq<Charge>, more: seq<Charge>, u: User, now: nat, later: nat)
    requires Wellformed(h + more) && Sum(h, u, (now - w.size) / 1000) >= w.cap
    requires now <= later && later / 1000 <= Oldest(h, u, (now - w.size) / 1000) + w.size / 1000
    ensures Sum(h + more, u, (later - w.size) / 1000) >= w.cap
  {
    var cut, cut' := (now - w.size) / 1000, (later - w.size) / 1000;
    assert Wellformed(h) by {
      assert forall i | 0 <= i < |h| :: (h + more)[i] == h[i];
    }
    OldestIsLeast(h, u, cut);
    forall i | 0 <= i < |h|
      ensures Counts(h[i], u, cut) ==> Counts(h[i], u, cut')
      ensures Counts(h[i], u, cut') ==> Counts(h[i], u, cut)
    {
      if Counts(h[i], u, cut) {
        assert cut' <= later / 1000 - w.size / 1000;
      }
    }
    SumSame(h, u, cut, cut');
    SumGrows(h, more, u, cut');
  }

  /** That second is exact: just after it, unless something more was charged, the sum is smaller. */
  lemma DropsAfterReset(w: UsageWindow, h: seq<Charge>, u: User, now: nat, later: nat)
    requires Wellformed(h) && w.cap > 0 && Sum(h, u, (now - w.size) / 1000) >= w.cap && w.size % 1000 == 0
    requires now <= later && later / 1000 > Oldest(h, u, (now - w.size) / 1000) + w.size / 1000
    ensures Sum(h, u, (later - w.size) / 1000) < Sum(h, u, (now - w.size) / 1000)
  {
    var cut, cut' := (now - w.size) / 1000, (later - w.size) / 1000;
    OldestIsLeast(h, u, cut);
    var k :| 0 <= k < |h| && Counts(h[k], u, cut) && Oldest(h, u, cut) == Unix(h[k].at);
    SumDrops(h, u, cut, cut', k);
  }

  // ---- the report, said without it ----

  /** The user's charges inside the window come to its cap, if it has one. */
  predicate Reaches(w: UsageWindow, h: seq<Charge>, u: User, now: nat) {
    w.cap > 0 && Sum(h, u, (now - w.size) / 1000) >= w.cap
  }

  /** The windows that refuse, in order. */
  ghost predicate ExactlyFull(ks: seq<nat>, ws: seq<UsageWindow>, h: seq<Charge>, u: User, now: nat) {
    && (forall i, j | 0 <= i < j < |ks| :: ks[i] < ks[j])
    && (forall k: nat :: k in ks <==> k < |ws| && Reaches(ws[k], h, u, now))
  }

  /** e is the second of the user's first charge that counts from the cutoff on. */
  ghost predicate FirstSecond(h: seq<Charge>, u: User, cut: int, e: int) {
    && (exists i :: 0 <= i < |h| && h[i].user == u && h[i].at / 1000 == e >= cut)
    && (forall i | 0 <= i < |h| && h[i].user == u && h[i].at / 1000 >= cut :: e <= h[i].at / 1000)
  }

  /** The reset names the window, and the second at which the first charge that counts leaves it. */
  ghost predicate ResetsAt(r: WindowReset, w: UsageWindow, h: seq<Charge>, u: User, now: nat) {
    r.window == w.name && FirstSecond(h, u, (now - w.size) / 1000, r.resetUnix - w.size / 1000)
  }

  ghost predicate Explains(rs: seq<WindowReset>, ks: seq<nat>, ws: seq<UsageWindow>, h: seq<Charge>, u: User,
                           now: nat) {
    && ExactlyFull(ks, ws, h, u, now) && |rs| == |ks|
    && forall i | 0 <= i < |rs| :: ks[i] < |ws| && ResetsAt(rs[i], ws[ks[i]], h, u, now)
  }

  lemma FullHasFirst(w: UsageWindow, h: seq<Charge>, u: User, now: nat)
    requires Wellformed(h) && Full(w, h, u, now)
    ensures ResetsAt(ResetOf(w, h, u, now), w, h, u, now)
  {
    var cut := (now - w.size) / 1000;
    OldestIsLeast(h, u, cut);
    var i :| 0 <= i < |h| && Counts(h[i], u, cut) && Oldest(h, u, cut) == Unix(h[i].at);
    assert h[i].user == u && h[i].at / 1000 == Oldest(h, u, cut) >= cut;
    forall i | 0 <= i < |h| && h[i].user == u && h[i].at / 1000 >= cut
      ensures Oldest(h, u, cut) <= h[i].at / 1000
    {
      assert Counts(h[i], u, cut);
    }
  }

  lemma ExactlyFullSnoc(ks: seq<nat>, ws: seq<UsageWindow>, h: seq<Charge>, u: User, now: nat)
    requires ws != [] && ExactlyFull(ks, ws[..|ws| - 1], h, u, now)
    ensures ExactlyFull(ks + if Full(ws[|ws| - 1], h, u, now) then [|ws| - 1] else [], ws, h, u, now)
  {
    var n := |ws| - 1;
    var more := ks + if Full(ws[n], h, u, now) then [n] else [];
    forall k: nat
      ensures k in more <==> k < |ws| && Reaches(ws[k], h, u, now)
    {
      if k < n { assert ws[..n][k] == ws[k]; }
      assert k in more <==> k in ks || (Full(ws[n], h, u, now) && k == n);
    }
    forall i | 0 <= i < |ks| ensures ks[i] < n { assert ks[i] in ks; }
  }

  /** What is reported is one reset for each full window, in their order. */
  lemma {:induction false} ResetsExplained(ws: seq<UsageWindow>, h: seq<Charge>, u: User, now: nat)
    returns (ks: seq<nat>)
    requires Wellformed(h)
    ensures Explains(Resets(ws, h, u, now), ks, ws, h, u, now)
  {
    if ws == [] {
      ks := [];
    } else {
      var n := |ws| - 1;
      var init := ResetsExplained(ws[..n], h, u, now);
      ks := init + if Full(ws[n], h, u, now) then [n] else [];
      ExactlyFullSnoc(init, ws, h, u, now);
      if Full(ws[n], h, u, now) { FullHasFirst(ws[n], h, u, now); }
      var rs, all := Resets(ws[..n], h, u, now), Resets(ws, h, u, now);
      forall i | 0 <= i < |all|
        ensures ks[i] < |ws| && ResetsAt(all[i], ws[ks[i]], h, u, now)
      {
        if i < |rs| { assert all[i] == rs[i] && ws[..n][ks[i]] == ws[ks[i]]; }
      }
    }
  }

  /** The precheck's report, explained. */
  ghost predicate Explained(rs: seq<WindowReset>, ws: seq<UsageWindow>, h: seq<Charge>, u: User, now: nat) {
    exists ks: seq<nat> :: Explains(rs, ks, ws, h, u, now)
  }

  ghost predicate SomeFull(ws: seq<UsageWindow>, h: seq<Charge>, u: User, now: nat) {
    exists k :: 0 <= k < |ws| && Reaches(ws[k], h, u, now)
  }

  lemma ReportExplained(ws: seq<UsageWindow>, h: seq<Charge>, u: User, now: nat)
    requires Wellformed(h)
    ensures Explained(Resets(ws, h, u, now), ws, h, u, now)
    ensures Resets(ws, h, u, now) != [] <==> SomeFull(ws, h, u, now)
  {
    var ks := ResetsExplained(ws, h, u, now);
    if ks != [] { assert ks[0] in ks; }
  }

  lemma FirstIsOldest(h: seq<Charge>, u: User, cut: int, e: int)
    requires Wellformed(h) && FirstSecond(h, u, cut, e)
    ensures e == Oldest(h, u, cut)
  {
    OldestIsLeast(h, u, cut);
    var i :| 0 <= i < |h| && h[i].user == u && h[i].at / 1000 == e >= cut;
    assert Counts(h[i], u, cut);
    var k :| 0 <= k < |h| && Counts(h[k], u, cut) && Oldest(h, u, cut) == Unix(h[k].at);
    assert h[k].user == u && h[k].at / 1000 >= cut;
  }

  /** Hence a window that refused, with reset r, still refuses while r is not over, whatever else has
      been charged by then. */
  lemma RefusedUntilReset(w: UsageWindow, h: seq<Charge>, more: seq<Charge>, u: User, now: nat, later: nat,
                          r: WindowReset)
    requires Wellformed(h) && Wellformed(h + more)
    requires Sum(h, u, (now - w.size) / 1000) >= w.cap && ResetsAt(r, w, h, u, now)
    requires now <= later && later / 1000 <= r.resetUnix
    ensures Sum(h + more, u, (later - w.size) / 1000) >= w.cap
  {
    FirstIsOldest(h, u, (now - w.size) / 1000, r.resetUnix - w.size / 1000);
    FullUntilReset(w, h, more, u, now, later);
  }
}

/** The metering service: Redis sorted sets on one side, the history they stand for on the other. */
module Metering {
  import opened Redis
  import opened Decimal
  import opened MeteringModel

  class MeteringService {
    const windows: seq<UsageWindow>
    const pricing: Pricing
    var sets: Sets

    /** Everything charged so far, and the moment of the last call on both clocks. */
    ghost var history: seq<Charge>
    ghost var clock: nat
    ghost var server: nat
    ghost const skew: int

    ghost predicate Valid()
      reads this
    {
      && DistinctNames(windows)
      && Wellformed(history) && Past(history, clock, server, skew)
      && AllTrack(sets, windows, history, clock)
    }

    /** Time has passed on both clocks, and they are still in step. */
    ghost predicate Later(now: nat, server: nat)
      reads this
    {
      clock <= now && this.server <= server && Drift(now, server, skew)
    }

    constructor (windows: seq<UsageWindow>, pricing: Pricing, ghost skew: int)
      requires DistinctNames(windows)
      ensures Valid() && history == [] && clock == 0 && server == 0
      ensures this.windows == windows && this.pricing == pricing && this.skew == skew
    {
      this.windows, this.pricing, this.skew := windows, pricing, skew;
      sets, history, clock, server := map[], [], 0, 0;
    }

    /** ZRANGEBYSCORE cutoff +inf WITHSCORES: each such member once, in whatever order. */
    method Range(k: (User, string), cutoff: int, server: nat) returns (members: seq<string>, scores: seq<int>)
      ensures Ranged(members, scores, Visible(sets, k, server), cutoff)
    {
      var v := Visible(sets, k, server);
      members, scores := [], [];
      var left := v.Keys;
      while left != {}
        invariant left <= v.Keys && |scores| == |members|
        invariant forall a | 0 <= a < |members| :: members[a] in v && members[a] !in left
        invariant forall a | 0 <= a < |members| :: scores[a] == v[members[a]] >= cutoff
        invariant forall m | m in v && v[m] >= cutoff :: m in left || m in members
        invariant forall a, b | 0 <= a < b < |members| :: members[a] != members[b]
        decreases |left|
      {
        var m :| m in left;
        left := left - {m};
        if v[m] >= cutoff { members, scores := members + [m], scores + [v[m]]; }
      }
    }

    /** Prunes a window and reads it back: exactly the charges that count, each with its second. */
    method PruneAndRead(u: User, k: nat, now: nat, server: nat) returns (members: seq<string>, scores: seq<int>)
      requires Valid() && k < |windows| && Later(now, server)
      modifies this`sets, this`clock, this`server
      ensures Valid() && clock == now && this.server == server
      ensures Lists(members, history, u, Cutoff(now, windows[k].size))
      ensures |scores| == |members| && Seconds(members, scores, history)
    {
      var w := windows[k];
      var cutoff := Cutoff(now, w.size);
      AllTrackLater(sets, windows, history, clock, now);
      AllTrackPruned(sets, windows, history, u, w, now);
      sets := Pruned(sets, (u, w.name), cutoff);
      clock, this.server := now, server;
      members, scores := Range((u, w.name), cutoff, server);
      ReadIsTheWindow(sets, windows, w, history, u, now, server, skew, members, scores);
    }

    /** The loop over what was read: the credits added up, the smallest score kept. */
    method AddUp(members: seq<string>, scores: seq<int>) returns (sum: int, oldest: int)
      requires |scores| == |members|
      ensures sum == MemberSum(members) && oldest == Least(scores)
    {
      sum, oldest := 0, 0;
      for i := 0 to |members|
        invariant sum == MemberSum(members[..i])
        invariant oldest == Least(scores[..i])
      {
        sum := sum + CreditsFromMember(members[i]);
        if oldest == 0 || scores[i] < oldest { oldest := scores[i]; }
        assert members[..i + 1][..i] == members[..i] && scores[..i + 1][..i] == scores[..i];
      }
      assert members[..|members|] == members && scores[..|members|] == scores;
    }

    /** Pruning first, then adding up what is left, gives the sum over the whole history. */
    method WindowSum(u: User, k: nat, now: nat, server: nat) returns (sum: int, oldest: int)
      requires Valid() && k < |windows| && Later(now, server)
      modifies this`sets, this`clock, this`server
      ensures Valid() && clock == now && this.server == server
      ensures sum == Sum(history, u, Cutoff(now, windows[k].size))
      ensures oldest == Oldest(history, u, Cutoff(now, windows[k].size))
    {
      var members, scores := PruneAndRead(u, k, now, server);
      MemberSumIsSum(members, history, u, Cutoff(now, windows[k].size));
      LeastIsOldest(members, scores, history, u, Cutoff(now, windows[k].size));
      sum, oldest := AddUp(members, scores);
    }

    /** The entry of one window: none unless it is limited and full. */
    method CheckWindow(u: User, k: nat, now: nat, server: nat) returns (entry: seq<WindowReset>)
      requires Valid() && k < |windows| && Later(now, server)
      requires Unix(now) + windows[k].size / 1000 <= MAX_INT64
      modifies this`sets, this`clock, this`server
      ensures Valid() && Later(now, server)
      ensures entry == Report(windows[k], history, u, now)
      ensures entry != [] ==> entry[0].resetUnix <= MAX_INT64
    {
      var w := windows[k];
      if w.cap <= 0 { return []; }
      var sum, oldest := WindowSum(u, k, now, server);
      OldestIsPast(history, u, Cutoff(now, w.size), now);
      return if sum >= w.cap then [WindowReset(w.name, oldest + w.size / 1000)] else [];
    }

    /** The loop over the windows: the resets of the full ones, and the earliest of them. */
    method CheckWindows(u: User, now: nat, server: nat) returns (resets: seq<WindowReset>, earliest: int)
      requires Valid() && Later(now, server)
      requires forall w | w in windows :: Unix(now) + w.size / 1000 <= MAX_INT64
      modifies this`sets, this`clock, this`server
      ensures Valid() && Later(now, server)
      ensures resets == Resets(windows, history, u, now) && Earliest(resets, earliest)
    {
      resets, earliest := [], MAX_INT64;
      for i := 0 to |windows|
        invariant Valid() && Later(now, server)
        invariant resets == Resets(windows[..i], history, u, now)
        invariant Earliest(resets, earliest)
      {
        assert windows[..i + 1][..i] == windows[..i];
        var entry := CheckWindow(u, i, now, server);
        assert resets + [] == resets;
        if entry != [] {
          EarliestSnoc(resets, earliest, entry[0]);
          if entry[0].resetUnix < earliest { earliest := entry[0].resetUnix; }
          resets := resets + [entry[0]];
        }
      }
      assert windows[..|windows|] == windows;
    }

    /** Refuses iff some limited window is full, reports exactly the full ones, and counts the
        seconds to the earliest of them. */
    method Precheck(u: User, now: nat, server: nat) returns (r: PrecheckResult)
      requires Valid() && Later(now, server)
      requires forall w | w in windows :: Unix(now) + w.size / 1000 <= MAX_INT64
      modifies this`sets, this`clock, this`server
      ensures Valid() && Later(now, server)
      ensures r.resets == Resets(windows, history, u, now)
      ensures r.exceeded <==> r.resets != []
      // It refuses exactly when some limited window's charges reach its cap ...
      ensures r.exceeded <==> SomeFull(windows, history, u, now)
      // ... and reports one reset for each of those, in order, at the second its first charge leaves it.
      ensures Explained(r.resets, windows, history, u, now)
      ensures !r.exceeded ==> r.retryAfter == 0
      // The seconds until the first of them, and none if that is over.
      ensures r.exceeded ==> Soonest(r.retryAfter, r.resets, now)
    {
      var resets, earliest := CheckWindows(u, now, server);
      ReportExplained(windows, history, u, now);
      if resets != [] { EarliestIsSoonest(resets, earliest, now); }
      var ra := if resets != [] && earliest - Unix(now) > 0 then earliest - Unix(now) else 0;
      return PrecheckResult(resets != [], resets, ra);
    }

    /** One charge for every window, or none at all when there is nothing to pay for. */
    method Record(u: User, usage: Usage, nonce: string, now: nat, server: nat)
      requires Valid() && Later(now, server) && CreditsFor(pricing, usage) <= MAX_INT64
      requires now >= 1000 && (forall i | 0 <= i < |history| :: history[i].nonce != nonce)
      modifies this
      ensures Valid() && clock == now && this.server == server
      ensures var credits := CreditsFor(pricing, usage);
              history == if credits <= 0 then old(history) else old(history) + [Charge(u, now, server, credits, nonce)]
    {
      AllTrackLater(sets, windows, history, clock, now);
      clock, this.server := now, server;
      var credits := CreditsFor(pricing, usage);
      if credits <= 0 { return; }
      var c := Charge(u, now, server, credits, nonce);
      assert Wellformed(history + [c]) && Past(history + [c], now, server, skew);
      ChargingStarts(sets, windows, history, c);
      for i := 0 to |windows|
        invariant Charging(sets, windows, history, c, i)
        invariant history == old(history) && clock == now && this.server == server
      {
        ChargingStep(sets, windows, history, c, i, skew);
        sets := Added(sets, windows[i], c);
      }
      ChargingEnds(sets, windows, history, c);
      history := history + [c];
    }
  }
}
