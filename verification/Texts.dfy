/** How joined texts come apart again. */
module Texts {
  lemma InLater(a: string, sep: char, x: string, i: int)
    requires 0 <= i < |a|
    ensures (a + [sep] + x)[i] in a
  {
    assert (a + [sep] + x)[i] == a[i];
  }

  /** A text splits in only one way at its first separator. */
  lemma FirstSeparator(a: string, x: string, b: string, y: string, sep: char)
    requires a + [sep] + x == b + [sep] + y && sep !in a && sep !in b
    ensures a == b && x == y
  {
    var s := a + [sep] + x;
    assert s[|a|] == sep && s[|b|] == sep;
    if |a| < |b| {
      InLater(b, sep, y, |a|);
      assert false;
    }
    if |b| < |a| {
      InLater(a, sep, x, |b|);
      assert false;
    }
    assert a == s[..|a|] && b == s[..|b|] && x == s[|a| + 1..] && y == s[|b| + 1..];
  }

  lemma SamePrefix(p: string, s: string, t: string)
    ensures p + s == p + t <==> s == t
  {
    assert (p + s)[|p|..] == s && (p + t)[|p|..] == t;
  }
}
