/** Dotted versions: parsing, the order on them, and the compatibility gate. */
module Versions {
  import opened Decimal

  // ---- Parsing ----

  /** unicode.IsSpace. */
  predicate IsSpace(c: char) {
    || '\t' <= c <= '\r' || c == ' ' || c == '\U{0085}' || c == '\U{00A0}' || c == '\U{1680}'
    || '\U{2000}' <= c <= '\U{200A}' || c == '\U{2028}' || c == '\U{2029}' || c == '\U{202F}'
    || c == '\U{205F}' || c == '\U{3000}'
  }

  function TrimSpace(s: string): string {
    if s != "" && IsSpace(s[0]) then TrimSpace(s[1..])
    else if s != "" && IsSpace(s[|s| - 1]) then TrimSpace(s[..|s| - 1])
    else s
  }

  function TrimV(s: string): string {
    if s != "" && s[0] == 'v' then s[1..] else s
  }

  /** The text up to the first - or +. */
  function CutSuffix(s: string): string {
    if s == "" || s[0] == '-' || s[0] == '+' then "" else [s[0]] + CutSuffix(s[1..])
  }

  function Split(s: string): (r: seq<string>)
    ensures |r| > 0
  {
    if s == "" then [""]
    else
      var rest := Split(s[1..]);
      if s[0] == '.' then [""] + rest else [[s[0]] + rest[0]] + rest[1..]
  }

  /** A segment that is not a number counts as 0. */
  function Segment(s: string): int {
    var n := ParseInt(s);
    if n.None? then 0 else n.value
  }

  function Segments(segs: seq<string>): seq<int> {
    if segs == [] then [] else [Segment(segs[0])] + Segments(segs[1..])
  }

  function VersionParts(v: string): seq<int> {
    var core := CutSuffix(TrimV(TrimSpace(v)));
    if core == "" then [] else Segments(Split(core))
  }

  method ParseVersion(v: string) returns (parts: seq<int>)
    ensures parts == VersionParts(v)
  {
    var core := CutSuffix(TrimV(TrimSpace(v)));
    if core == "" { return []; }
    var segs := Split(core);
    parts := [];
    for i := 0 to |segs|
      invariant parts + Segments(segs[i..]) == Segments(segs)
    {
      parts := parts + [Segment(segs[i])];
    }
  }

  // ---- The order ----

  /** The i-th segment, 0 past the end. */
  function At(p: seq<int>, i: nat): int {
    if i < |p| then p[i] else 0
  }

  /** Independent of the loop: the first segment that differs, absent ones being 0, decides. */
  ghost predicate Less(p: seq<int>, q: seq<int>) {
    exists i: nat :: At(p, i) < At(q, i) && forall j: nat | j < i :: At(p, j) == At(q, j)
  }

  ghost predicate Same(p: seq<int>, q: seq<int>) {
    forall i: nat :: At(p, i) == At(q, i)
  }

  /** What comparing the segments from the i-th on answers. */
  function CompareFrom(p: seq<int>, q: seq<int>, i: nat): int
    decreases |p| + |q| - i
  {
    if i >= |p| && i >= |q| then 0
    else if At(p, i) < At(q, i) then -1
    else if At(p, i) > At(q, i) then 1
    else CompareFrom(p, q, i + 1)
  }

  function Compare(a: string, b: string): int {
    CompareFrom(VersionParts(a), VersionParts(b), 0)
  }

  method CompareVersions(a: string, b: string) returns (r: int)
    ensures r == Compare(a, b)
  {
    var p := ParseVersion(a);
    var q := ParseVersion(b);
    var n := |p|;
    if |q| > n { n := |q|; }
    for i := 0 to n
      invariant CompareFrom(p, q, 0) == CompareFrom(p, q, i)
    {
      var x, y := 0, 0;
      if i < |p| { x := p[i]; }
      if i < |q| { y := q[i]; }
      if x != y {
        if x < y { return -1; }
        return 1;
      }
    }
    return 0;
  }

  lemma {:induction false} CompareDecides(p: seq<int>, q: seq<int>, i: nat)
    requires forall j: nat | j < i :: At(p, j) == At(q, j)
    ensures CompareFrom(p, q, i) in {-1, 0, 1}
    ensures CompareFrom(p, q, i) == -1 ==> Less(p, q)
    ensures CompareFrom(p, q, i) == 0 ==> Same(p, q)
    ensures CompareFrom(p, q, i) == 1 ==> Less(q, p)
    decreases |p| + |q| - i
  {
    if (i < |p| || i < |q|) && At(p, i) == At(q, i) {
      CompareDecides(p, q, i + 1);
    }
  }

  lemma LessIsStrict(p: seq<int>, q: seq<int>)
    requires Less(p, q)
    ensures !Same(p, q) && !Less(q, p)
  {
    var i: nat :| At(p, i) < At(q, i) && forall j: nat | j < i :: At(p, j) == At(q, j);
    forall k: nat | At(q, k) < At(p, k)
      ensures i < k && At(q, i) != At(p, i)
    {
    }
  }

  lemma LessIsTransitive(p: seq<int>, q: seq<int>, r: seq<int>)
    requires Less(p, q) && Less(q, r)
    ensures Less(p, r)
  {
    var i: nat :| At(p, i) < At(q, i) && forall j: nat | j < i :: At(p, j) == At(q, j);
    var k: nat :| At(q, k) < At(r, k) && forall j: nat | j < k :: At(q, j) == At(r, j);
    var m := if i < k then i else k;
    assert At(p, m) < At(r, m) && forall j: nat | j < m :: At(p, j) == At(r, j);
  }

  /** The comparison answers -1, 0 or 1 exactly as the first differing segment says. */
  lemma CompareMeans(a: string, b: string)
    ensures Compare(a, b) in {-1, 0, 1}
    ensures Compare(a, b) < 0 <==> Less(VersionParts(a), VersionParts(b))
    ensures Compare(a, b) == 0 <==> Same(VersionParts(a), VersionParts(b))
    ensures Compare(a, b) > 0 <==> Less(VersionParts(b), VersionParts(a))
  {
    var p, q := VersionParts(a), VersionParts(b);
    CompareDecides(p, q, 0);
    if Less(p, q) { LessIsStrict(p, q); }
    if Less(q, p) { LessIsStrict(q, p); }
  }

  /** The order is total, and the comparison of two versions is the opposite of the reverse one. */
  lemma CompareIsAntisymmetric(a: string, b: string)
    ensures Compare(a, b) == -Compare(b, a)
    ensures Compare(a, a) == 0
  {
    CompareMeans(a, b);
    CompareMeans(b, a);
    CompareMeans(a, a);
    if Less(VersionParts(a), VersionParts(a)) { LessIsStrict(VersionParts(a), VersionParts(a)); }
  }

  lemma CompareIsTransitive(a: string, b: string, c: string)
    requires Compare(a, b) <= 0 && Compare(b, c) <= 0
    ensures Compare(a, c) <= 0
    ensures Compare(a, b) < 0 || Compare(b, c) < 0 ==> Compare(a, c) < 0
  {
    var p, q, r := VersionParts(a), VersionParts(b), VersionParts(c);
    CompareMeans(a, b);
    CompareMeans(b, c);
    CompareMeans(a, c);
    if Less(p, q) && Less(q, r) {
      LessIsTransitive(p, q, r);
    } else if Less(p, q) {
      var i: nat :| At(p, i) < At(q, i) && forall j: nat | j < i :: At(p, j) == At(q, j);
      assert At(p, i) < At(r, i) && forall j: nat | j < i :: At(p, j) == At(r, j);
    } else if Less(q, r) {
      var i: nat :| At(q, i) < At(r, i) && forall j: nat | j < i :: At(q, j) == At(r, j);
      assert At(p, i) < At(r, i) && forall j: nat | j < i :: At(p, j) == At(r, j);
    }
  }

  // ---- Reading back what is written ----

  /** Numbers joined by dots. */
  function Dotted(ps: seq<nat>): string
    requires ps != []
  {
    if |ps| == 1 then Print(ps[0]) else Print(ps[0]) + "." + Dotted(ps[1..])
  }

  /** Nothing that begins a suffix. */
  ghost predicate Plain(s: string) {
    forall i | 0 <= i < |s| :: s[i] != '-' && s[i] != '+'
  }

  lemma {:induction false} DottedIsPlain(ps: seq<nat>)
    requires ps != []
    ensures Plain(Dotted(ps)) && Dotted(ps) != "" && IsDigit(Dotted(ps)[0])
    ensures IsDigit(Dotted(ps)[|Dotted(ps)| - 1])
  {
    PrintIsDigits(ps[0]);
    if |ps| > 1 { DottedIsPlain(ps[1..]); }
  }

  lemma {:induction false} CutPlain(s: string, suffix: string)
    requires Plain(s) && (suffix != "" ==> suffix[0] == '-' || suffix[0] == '+')
    ensures CutSuffix(s + suffix) == s
    decreases |s|
  {
    if s == "" {
      assert s + suffix == suffix;
    } else {
      assert (s + suffix)[1..] == s[1..] + suffix;
      CutPlain(s[1..], suffix);
    }
  }

  lemma {:induction false} SplitFirst(s: string, rest: string)
    requires '.' !in s
    ensures Split(s + "." + rest) == [s] + Split(rest)
    decreases |s|
  {
    if s == "" {
      assert s + "." + rest == "." + rest && ("." + rest)[1..] == rest;
    } else {
      assert (s + "." + rest)[1..] == s[1..] + "." + rest;
      SplitFirst(s[1..], rest);
      assert [s[0]] + s[1..] == s;
    }
  }

  lemma {:induction false} SplitOne(s: string)
    requires '.' !in s
    ensures Split(s) == [s]
    decreases |s|
  {
    if s != "" {
      SplitOne(s[1..]);
      assert [s[0]] + s[1..] == s;
    }
  }

  lemma {:induction false} DottedSegments(ps: seq<nat>)
    requires ps != [] && forall i | 0 <= i < |ps| :: ps[i] <= MAX_INT64
    ensures Segments(Split(Dotted(ps))) == ps
  {
    ParsePrint(ps[0]);
    PrintIsDigits(ps[0]);
    if |ps| == 1 {
      SplitOne(Print(ps[0]));
      assert [Print(ps[0])][1..] == [];
    } else {
      SplitFirst(Print(ps[0]), Dotted(ps[1..]));
      DottedSegments(ps[1..]);
      assert ([Print(ps[0])] + Split(Dotted(ps[1..])))[1..] == Split(Dotted(ps[1..]));
      assert [ps[0]] + ps[1..] == ps;
    }
  }

  /** Trimming white space from a text that does not begin with any only shortens its end. */
  lemma {:induction false} TrimKeepsFront(s: string, front: nat)
    requires 0 < front <= |s| && !IsSpace(s[0]) && !IsSpace(s[front - 1])
    ensures |TrimSpace(s)| >= front && TrimSpace(s) <= s
    decreases |s|
  {
    if IsSpace(s[|s| - 1]) {
      TrimKeepsFront(s[..|s| - 1], front);
    }
  }

  lemma TrimmedVersion(v: string, core: string, suffix: string) returns (rest: string)
    requires core != "" && !IsSpace(core[0]) && !IsSpace(core[|core| - 1]) && (v == "" || v == "v")
    ensures TrimSpace(v + core + suffix) == v + core + rest && rest <= suffix
  {
    var s := v + core + suffix;
    assert s[|v| + |core| - 1] == core[|core| - 1];
    assert s[0] == if v == "" then core[0] else 'v';
    TrimKeepsFront(s, |v| + |core|);
    var t := TrimSpace(s);
    rest := t[|v| + |core|..];
    assert t[..|v| + |core|] == v + core;
    assert rest == suffix[..|t| - |v| - |core|];
  }

  lemma CoreOf(v: string, core: string, rest: string)
    requires Plain(core) && core != "" && core[0] != 'v' && (v == "" || v == "v")
    requires rest != "" ==> rest[0] == '-' || rest[0] == '+'
    ensures CutSuffix(TrimV(v + core + rest)) == core
  {
    var t := v + core + rest;
    assert t[0] == if v == "" then core[0] else 'v';
    assert TrimV(t) == core + rest;
    CutPlain(core, rest);
  }

  /** A version is read as its numbers, whatever a leading v and a pre-release or build suffix say. */
  lemma VersionRoundTrip(ps: seq<nat>, v: string, suffix: string)
    requires ps != [] && forall i | 0 <= i < |ps| :: ps[i] <= MAX_INT64
    requires v == "" || v == "v"
    requires suffix != "" ==> suffix[0] == '-' || suffix[0] == '+'
    ensures VersionParts(v + Dotted(ps) + suffix) == ps
  {
    DottedIsPlain(ps);
    var rest := TrimmedVersion(v, Dotted(ps), suffix);
    CoreOf(v, Dotted(ps), rest);
    DottedSegments(ps);
  }

  /** Any segments joined by dots. */
  function Dots(segs: seq<string>): string
    requires segs != []
  {
    if |segs| == 1 then segs[0] else segs[0] + "." + Dots(segs[1..])
  }

  /** A segment holds neither a dot nor what begins a suffix. */
  ghost predicate Segmented(segs: seq<string>) {
    segs != [] && forall i | 0 <= i < |segs| :: segs[i] != "" && '.' !in segs[i] && Plain(segs[i])
  }

  /** What a segment counts as: its number, or nothing if it is none or does not fit. */
  function Number(seg: string): nat {
    if seg != "" && AllDigits(seg) && Value(seg) <= MAX_INT64 then Value(seg) else 0
  }

  lemma {:induction false} DotsArePlain(segs: seq<string>)
    requires Segmented(segs)
    ensures Plain(Dots(segs)) && Dots(segs) != "" && Dots(segs)[0] == segs[0][0]
    ensures var last := segs[|segs| - 1]; Dots(segs)[|Dots(segs)| - 1] == last[|last| - 1]
    decreases |segs|
  {
    if |segs| > 1 { DotsArePlain(segs[1..]); }
  }

  lemma SegmentIsNumber(seg: string)
    requires seg != "" && Plain(seg)
    ensures Segment(seg) == Number(seg)
  {
  }

  lemma {:induction false} DotsAreRead(segs: seq<string>)
    requires Segmented(segs)
    ensures var parts := Segments(Split(Dots(segs)));
            |parts| == |segs| && forall i | 0 <= i < |segs| :: parts[i] == Number(segs[i])
    decreases |segs|
  {
    SegmentIsNumber(segs[0]);
    if |segs| == 1 {
      SplitOne(segs[0]);
      assert [segs[0]][1..] == [];
    } else {
      SplitFirst(segs[0], Dots(segs[1..]));
      DotsAreRead(segs[1..]);
      assert ([segs[0]] + Split(Dots(segs[1..])))[1..] == Split(Dots(segs[1..]));
    }
  }

  /** A version of any segments is read segment by segment: a number as itself, and anything else, or a
      number beyond 64 bits, as 0. */
  lemma VersionIsRead(segs: seq<string>, v: string, suffix: string)
    requires Segmented(segs) && (v == "" || v == "v")
    requires !IsSpace(segs[0][0]) && segs[0][0] != 'v'
    requires var last := segs[|segs| - 1]; !IsSpace(last[|last| - 1])
    requires suffix != "" ==> suffix[0] == '-' || suffix[0] == '+'
    ensures var parts := VersionParts(v + Dots(segs) + suffix);
            |parts| == |segs| && forall i | 0 <= i < |segs| :: parts[i] == Number(segs[i])
  {
    DotsArePlain(segs);
    var rest := TrimmedVersion(v, Dots(segs), suffix);
    CoreOf(v, Dots(segs), rest);
    DotsAreRead(segs);
  }

  // ---- Compatibility ----

  datatype CompatContext = CompatContext(platform: string, appVersion: string)

  datatype PackageListItem = PackageListItem(slug: string, hostTargets: seq<string>, minAppVersion: string)

  predicate CompatiblePackage(item: PackageListItem, cc: CompatContext) {
    && !(cc.platform != "" && |item.hostTargets| > 0 && cc.platform !in item.hostTargets)
    && !(cc.appVersion != "" && item.minAppVersion != "" && Compare(cc.appVersion, item.minAppVersion) < 0)
  }

  /** Updating the application never makes a compatible package incompatible. */
  lemma UpdatingKeepsCompatibility(item: PackageListItem, platform: string, old': string, new': string)
    requires old' != "" && CompatiblePackage(item, CompatContext(platform, old')) && Compare(old', new') <= 0
    ensures CompatiblePackage(item, CompatContext(platform, new'))
  {
    if item.minAppVersion != "" {
      CompareIsAntisymmetric(old', item.minAppVersion);
      CompareIsTransitive(item.minAppVersion, old', new');
      CompareIsAntisymmetric(item.minAppVersion, new');
    }
  }
}
