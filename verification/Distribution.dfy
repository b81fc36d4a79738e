/** Choosing the release to offer. */
module DistributionModel {
  import opened Redis
  import opened Versions

  datatype Release = Release(channel: string, platform: string, version: string, mandatory: bool, minVersion: string,
                             downloadURL: string, checksum: string, size: int, releaseNotes: string)

  datatype AppUpdate = AppUpdate(latestVersion: string, mandatory: bool, downloadURL: string, checksum: string,
                                 size: int, releaseNotes: string)

  datatype ResolveResult = NoRelease | Resolved(latestVersion: string, update: Option<AppUpdate>)

  predicate Matches(r: Release, channel: string, platform: string) {
    r.channel == channel && r.platform == platform
  }

  /** The releases a client on this channel and platform may see, in order. */
  function Visible(rs: seq<Release>, channel: string, platform: string): (v: seq<Release>)
    ensures forall r | r in v :: r in rs && Matches(r, channel, platform)
    ensures forall r | r in rs && Matches(r, channel, platform) :: r in v
  {
    if rs == [] then []
    else
      var last := rs[|rs| - 1];
      Visible(rs[..|rs| - 1], channel, platform) + if Matches(last, channel, platform) then [last] else []
  }

  function ByVersion(a: Release, b: Release): int {
    Compare(a.version, b.version)
  }

  /** The first of the greatest, by some comparison. */
  function First<T>(xs: seq<T>, compare: (T, T) -> int): Option<T> {
    if xs == [] then None
    else
      var best, last := First(xs[..|xs| - 1], compare), xs[|xs| - 1];
      if best.None? || compare(last, best.value) > 0 then Some(last) else best
  }

  function Newest(rs: seq<Release>): Option<Release> {
    First(rs, ByVersion)
  }

  function Mandatory(r: Release, current: string): bool {
    r.mandatory || (r.minVersion != "" && Compare(current, r.minVersion) < 0)
  }

  function Offer(latest: Option<Release>, current: string): ResolveResult {
    match latest
    case None => NoRelease
    case Some(r) =>
      Resolved(r.version,
               if Compare(current, r.version) >= 0 then None
               else Some(AppUpdate(r.version, Mandatory(r, current), r.downloadURL, r.checksum, r.size,
                                   r.releaseNotes)))
  }

  function ResolveOf(rs: seq<Release>, channel: string, platform: string, current: string): ResolveResult {
    Offer(Newest(Visible(rs, channel, platform)), current)
  }

  ghost predicate TotalPreorder<T(!new)>(compare: (T, T) -> int) {
    && (forall a, b :: compare(a, b) == -compare(b, a))
    && (forall a, b, c :: compare(a, b) <= 0 && compare(b, c) <= 0 ==> compare(a, c) <= 0)
    && (forall a, b, c :: compare(a, b) <= 0 && compare(b, c) < 0 ==> compare(a, c) < 0)
  }

  /** Not below any other, and above all before it. */
  ghost predicate FirstMaximal<T>(xs: seq<T>, compare: (T, T) -> int, i: nat) {
    && i < |xs|
    && (forall j | 0 <= j < |xs| :: compare(xs[j], xs[i]) <= 0)
    && (forall j | 0 <= j < i :: compare(xs[j], xs[i]) < 0)
  }

  lemma GreaterIsMaximal<T(!new)>(xs: seq<T>, compare: (T, T) -> int, i: nat)
    requires |xs| > 1 && TotalPreorder(compare) && FirstMaximal(xs[..|xs| - 1], compare, i)
    requires compare(xs[|xs| - 1], xs[i]) > 0
    ensures FirstMaximal(xs, compare, |xs| - 1)
  {
    var n := |xs| - 1;
    assert compare(xs[i], xs[n]) == -compare(xs[n], xs[i]);
    assert compare(xs[n], xs[n]) == -compare(xs[n], xs[n]);
    forall j | 0 <= j < n ensures compare(xs[j], xs[n]) < 0 {
      assert xs[..n][j] == xs[j] && xs[..n][i] == xs[i];
    }
  }

  lemma StaysMaximal<T(!new)>(xs: seq<T>, compare: (T, T) -> int, i: nat)
    requires xs != [] && FirstMaximal(xs[..|xs| - 1], compare, i) && compare(xs[|xs| - 1], xs[i]) <= 0
    ensures FirstMaximal(xs, compare, i)
  {
    var n := |xs| - 1;
    forall j | 0 <= j < n ensures xs[..n][j] == xs[j] {}
  }

  lemma OneIsMaximal<T(!new)>(xs: seq<T>, compare: (T, T) -> int)
    requires |xs| == 1 && TotalPreorder(compare)
    ensures FirstMaximal(xs, compare, 0) && First(xs, compare) == Some(xs[0])
  {
    assert compare(xs[0], xs[0]) == -compare(xs[0], xs[0]);
  }

  lemma {:induction false} FirstIsFirstMaximal<T(!new)>(xs: seq<T>, compare: (T, T) -> int) returns (i: nat)
    requires xs != [] && TotalPreorder(compare)
    ensures FirstMaximal(xs, compare, i) && First(xs, compare) == Some(xs[i])
    decreases |xs|
  {
    if |xs| == 1 {
      i := 0;
      OneIsMaximal(xs, compare);
    } else {
      i := FirstIsFirstMaximal(xs[..|xs| - 1], compare);
      if compare(xs[|xs| - 1], xs[i]) > 0 {
        GreaterIsMaximal(xs, compare, i);
        i := |xs| - 1;
      } else {
        StaysMaximal(xs, compare, i);
      }
    }
  }

  lemma VersionsAreOrdered()
    ensures TotalPreorder(ByVersion)
  {
    forall a, b
      ensures ByVersion(a, b) == -ByVersion(b, a)
    {
      CompareIsAntisymmetric(a.version, b.version);
    }
    forall a, b, c | ByVersion(a, b) <= 0 && ByVersion(b, c) <= 0
      ensures ByVersion(a, c) <= 0 && (ByVersion(b, c) < 0 ==> ByVersion(a, c) < 0)
    {
      CompareIsTransitive(a.version, b.version, c.version);
    }
  }

  /** The release picked is the first of the newest. */
  lemma NewestIsFirstMaximal(rs: seq<Release>) returns (i: nat)
    requires rs != []
    ensures FirstMaximal(rs, ByVersion, i) && Newest(rs) == Some(rs[i])
  {
    VersionsAreOrdered();
    i := FirstIsFirstMaximal(rs, ByVersion);
  }

  /** An update is offered exactly when some release for this client is newer than what it runs,
      and it is offered the first of the newest. */
  lemma UpdateIffNewer(rs: seq<Release>, channel: string, platform: string, current: string)
    ensures var r := ResolveOf(rs, channel, platform, current);
            && (r.NoRelease? <==> forall x | x in rs :: !Matches(x, channel, platform))
            && (r.Resolved? && r.update.Some? <==>
                  exists x :: x in rs && Matches(x, channel, platform) && Compare(current, x.version) < 0)
            && (r.Resolved? ==> forall x | x in rs && Matches(x, channel, platform) ::
                  Compare(x.version, r.latestVersion) <= 0)
  {
    var v := Visible(rs, channel, platform);
    if v != [] {
      var i := NewestIsFirstMaximal(v);
      var best := v[i];
      forall x | x in v
        ensures Compare(x.version, best.version) <= 0
        ensures Compare(current, x.version) < 0 ==> Compare(current, best.version) < 0
      {
        if Compare(current, x.version) < 0 { CompareIsTransitive(current, x.version, best.version); }
      }
    } else {
      assert forall x | x in rs && Matches(x, channel, platform) :: x in v;
    }
  }

  ghost predicate Newer(x: Release, y: Release) {
    Less(VersionParts(y.version), VersionParts(x.version))
  }

  /** Among the releases for this client, x is newer than all before it and as new as all after it. */
  ghost predicate Chosen(rs: seq<Release>, channel: string, platform: string, before: seq<Release>, x: Release,
                         after: seq<Release>)
  {
    && rs == before + [x] + after && x.channel == channel && x.platform == platform
    && (forall y | y in before && y.channel == channel && y.platform == platform :: Newer(x, y))
    && (forall y | y in after && y.channel == channel && y.platform == platform :: !Newer(y, x))
  }

  /** An update exactly for a client that runs an older version, with everything the release says, and
      mandatory if the release is or if the client is below its least version. */
  ghost predicate Describes(r: ResolveResult, x: Release, current: string) {
    && r.Resolved? && r.latestVersion == x.version
    && (r.update.Some? <==> Less(VersionParts(current), VersionParts(x.version)))
    && (r.update.Some? ==>
          var u := r.update.value;
          && u.latestVersion == x.version && u.downloadURL == x.downloadURL && u.checksum == x.checksum
          && u.size == x.size && u.releaseNotes == x.releaseNotes
          && (u.mandatory <==>
                x.mandatory || (x.minVersion != "" && Less(VersionParts(current), VersionParts(x.minVersion)))))
  }

  lemma VisibleSnoc(rs: seq<Release>, r: Release, channel: string, platform: string)
    ensures Visible(rs + [r], channel, platform)
            == Visible(rs, channel, platform) + if Matches(r, channel, platform) then [r] else []
  {
    assert (rs + [r])[..|rs|] == rs;
  }

  lemma Slices<T>(xs: seq<T>, more: seq<T>, k: nat)
    requires k < |xs|
    ensures (xs + more)[k] == xs[k] && (xs + more)[..k] == xs[..k] && (xs + more)[k + 1..] == xs[k + 1..] + more
  {
  }

  lemma Regrouped<T>(a: seq<T>, x: T, b: seq<T>, y: T)
    ensures a + [x] + b + [y] == a + [x] + (b + [y])
  {
  }

  /** Where the k-th visible release stands. */
  lemma {:induction false} VisibleAt(rs: seq<Release>, channel: string, platform: string, k: nat)
    returns (before: seq<Release>, after: seq<Release>)
    requires k < |Visible(rs, channel, platform)|
    ensures rs == before + [Visible(rs, channel, platform)[k]] + after
    ensures Visible(before, channel, platform) == Visible(rs, channel, platform)[..k]
    ensures Visible(after, channel, platform) == Visible(rs, channel, platform)[k + 1..]
    decreases |rs|
  {
    var front, last := rs[..|rs| - 1], rs[|rs| - 1];
    assert rs == front + [last];
    var init := Visible(front, channel, platform);
    var more := if Matches(last, channel, platform) then [last] else [];
    VisibleSnoc(front, last, channel, platform);
    if k < |init| {
      Slices(init, more, k);
      before, after := VisibleAt(front, channel, platform, k);
      VisibleSnoc(after, last, channel, platform);
      Regrouped(before, init[k], after, last);
      after := after + [last];
    } else {
      before, after := front, [];
    }
  }

  lemma ComparedNewer(x: Release, y: Release)
    ensures ByVersion(y, x) < 0 <==> Newer(x, y)
    ensures ByVersion(y, x) <= 0 <==> !Newer(y, x)
  {
    CompareMeans(y.version, x.version);
  }

  lemma MaximalIsChosen(rs: seq<Release>, channel: string, platform: string, k: nat)
    returns (before: seq<Release>, x: Release, after: seq<Release>)
    requires FirstMaximal(Visible(rs, channel, platform), ByVersion, k)
    ensures x == Visible(rs, channel, platform)[k] && Chosen(rs, channel, platform, before, x, after)
  {
    var v := Visible(rs, channel, platform);
    x := v[k];
    assert x in v;
    before, after := VisibleAt(rs, channel, platform, k);
    forall y | y in before && y.channel == channel && y.platform == platform ensures Newer(x, y) {
      assert Matches(y, channel, platform) && y in v[..k];
      var j :| 0 <= j < k && v[j] == y;
      ComparedNewer(x, y);
    }
    forall y | y in after && y.channel == channel && y.platform == platform ensures !Newer(y, x) {
      assert Matches(y, channel, platform) && y in v[k + 1..];
      var j :| k + 1 <= j < |v| && v[j] == y;
      ComparedNewer(x, y);
    }
  }

  lemma OfferDescribes(x: Release, current: string)
    ensures Describes(Offer(Some(x), current), x, current)
  {
    CompareMeans(current, x.version);
    CompareMeans(current, x.minVersion);
  }

  /** The answer is about the first of the newest releases for this client, if there is one. */
  ghost predicate Answers(r: ResolveResult, rs: seq<Release>, channel: string, platform: string, current: string) {
    && (r.NoRelease? <==> forall x | x in rs :: !(x.channel == channel && x.platform == platform))
    && (r.Resolved? ==>
          exists before, x, after :: Chosen(rs, channel, platform, before, x, after) && Describes(r, x, current))
  }

  lemma ResolveAnswers(rs: seq<Release>, channel: string, platform: string, current: string)
    ensures Answers(ResolveOf(rs, channel, platform, current), rs, channel, platform, current)
  {
    var v := Visible(rs, channel, platform);
    if v == [] {
      forall x | x in rs ensures !(x.channel == channel && x.platform == platform) {
        assert Matches(x, channel, platform) ==> x in v;
      }
    } else {
      var k := NewestIsFirstMaximal(v);
      var before, x, after := MaximalIsChosen(rs, channel, platform, k);
      OfferDescribes(x, current);
      assert x in rs;
    }
  }

  /** A client that installs what it was offered is offered nothing more. */
  lemma NothingOnceInstalled(rs: seq<Release>, channel: string, platform: string, current: string)
    requires ResolveOf(rs, channel, platform, current).Resolved?
    ensures var latest := ResolveOf(rs, channel, platform, current).latestVersion;
            ResolveOf(rs, channel, platform, latest) == Resolved(latest, None)
  {
    var latest := ResolveOf(rs, channel, platform, current).latestVersion;
    CompareIsAntisymmetric(latest, latest);
  }

  /** If an update is mandatory for a client, it is offered to, and mandatory for, every client
      that runs the same or an older version. */
  lemma MandatoryIsDownwardClosed(rs: seq<Release>, channel: string, platform: string, older: string, current: string)
    requires Compare(older, current) <= 0
    requires var r := ResolveOf(rs, channel, platform, current);
             r.Resolved? && r.update.Some? && r.update.value.mandatory
    ensures ResolveOf(rs, channel, platform, older) == ResolveOf(rs, channel, platform, current)
  {
    var best := Newest(Visible(rs, channel, platform)).value;
    CompareIsTransitive(older, current, best.version);
    if best.minVersion != "" && Compare(current, best.minVersion) < 0 {
      CompareIsTransitive(older, current, best.minVersion);
    }
  }

  /** Releases of other channels and platforms make no difference, wherever they stand. */
  lemma {:induction false} OthersDoNotMatter(a: seq<Release>, other: Release, b: seq<Release>, channel: string,
                                             platform: string, current: string)
    requires !Matches(other, channel, platform)
    ensures ResolveOf(a + [other] + b, channel, platform, current) == ResolveOf(a + b, channel, platform, current)
  {
    VisibleAppend(a + [other], b, channel, platform);
    VisibleAppend(a, [other], channel, platform);
    VisibleAppend(a, b, channel, platform);
    assert Visible([other], channel, platform) == [];
    assert Visible(a, channel, platform) + [] == Visible(a, channel, platform);
  }

  lemma {:induction false} VisibleAppend(a: seq<Release>, b: seq<Release>, channel: string, platform: string)
    ensures Visible(a + b, channel, platform) == Visible(a, channel, platform) + Visible(b, channel, platform)
    decreases |b|
  {
    if b == [] {
      assert a + b == a;
    } else {
      assert (a + b)[..|a + b| - 1] == a + b[..|b| - 1];
      VisibleAppend(a, b[..|b| - 1], channel, platform);
    }
  }
}

/** The service itself. */
module Distribution {
  import opened Redis
  import opened Versions
  import opened DistributionModel

  class DistributionService {
    const releases: seq<Release>

    constructor (releases: seq<Release>)
      ensures this.releases == releases
    {
      this.releases := releases;
    }

    /** The loop: the first of the greatest versions among the releases for this client. */
    method Latest(channel: string, platform: string) returns (latest: Option<Release>)
      ensures latest == Newest(Visible(releases, channel, platform))
    {
      latest := None;
      for i := 0 to |releases|
        invariant latest == Newest(Visible(releases[..i], channel, platform))
      {
        var c := releases[i];
        assert releases[..i + 1][..i] == releases[..i];
        if Matches(c, channel, platform) {
          ghost var seen := Visible(releases[..i], channel, platform);
          assert (seen + [c])[..|seen|] == seen;
          var newer := latest.None?;
          if latest.Some? {
            var order := CompareVersions(c.version, latest.value.version);
            newer := order > 0;
          }
          if newer { latest := Some(c); }
        } else {
          assert Visible(releases[..i], channel, platform) + [] == Visible(releases[..i], channel, platform);
        }
      }
      assert releases[..|releases|] == releases;
    }

    method Resolve(channel: string, platform: string, current: string) returns (r: ResolveResult)
      ensures r == ResolveOf(releases, channel, platform, current)
      // The answer is about the first of the newest releases for this channel and platform, if there is one.
      ensures Answers(r, releases, channel, platform, current)
    {
      ResolveAnswers(releases, channel, platform, current);
      var latest := Latest(channel, platform);
      if latest.None? { return NoRelease; }
      var order := CompareVersions(current, latest.value.version);
      if order >= 0 { return Resolved(latest.value.version, None); }
      var mandatory := latest.value.mandatory;
      if latest.value.minVersion != "" {
        var below := CompareVersions(current, latest.value.minVersion);
        if below < 0 { mandatory := true; }
      }
      var l := latest.value;
      return Resolved(l.version, Some(AppUpdate(l.version, mandatory, l.downloadURL, l.checksum, l.size,
                                                l.releaseNotes)));
    }
  }
}
