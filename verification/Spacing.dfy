/** Counting things that come in batches: at most m to a batch, and batches that begin at
    least r apart.  Both the one-time codes and the fixed-window counters are of this shape. */
module Spacing {
  /** An item that happened at some moment and belongs to some batch. */
  datatype Item = Item(at: nat, batch: nat)

  function CountIn(items: seq<Item>, from: nat, to: nat): nat {
    if items == [] then 0
    else
      var x := items[|items| - 1];
      CountIn(items[..|items| - 1], from, to) + if from <= x.at <= to then 1 else 0
  }

  function CountOf(items: seq<Item>, batch: nat): nat {
    if items == [] then 0
    else CountOf(items[..|items| - 1], batch) + if items[|items| - 1].batch == batch then 1 else 0
  }

  /** Items of the batches first, ..., first + n - 1 that fall between two moments. */
  function CountBoth(items: seq<Item>, from: nat, to: nat, first: nat, n: nat): nat {
    if items == [] then 0
    else
      var x := items[|items| - 1];
      CountBoth(items[..|items| - 1], from, to, first, n)
      + if from <= x.at <= to && first <= x.batch < first + n then 1 else 0
  }

  predicate Apart(starts: seq<nat>, r: nat, i: int, j: int) {
    0 <= i < j < |starts| ==> starts[j] >= starts[i] + r
  }

  ghost predicate Spaced(starts: seq<nat>, r: nat) {
    forall i, j :: Apart(starts, r, i, j)
  }

  /** The i-th item comes after its own batch has begun and before the next one does. */
  predicate InBatch(starts: seq<nat>, items: seq<Item>, i: int) {
    0 <= i < |items| ==>
      var x := items[i];
      && x.batch < |starts| && starts[x.batch] <= x.at
      && (x.batch + 1 < |starts| ==> x.at <= starts[x.batch + 1])
  }

  ghost predicate Batched(starts: seq<nat>, items: seq<Item>) {
    forall i :: InBatch(starts, items, i)
  }

  predicate NotAfter(items: seq<Item>, now: nat, i: int) {
    0 <= i < |items| ==> items[i].at <= now
  }

  ghost predicate UpTo(items: seq<Item>, now: nat) {
    forall i :: NotAfter(items, now, i)
  }

  ghost predicate AtMost(items: seq<Item>, m: nat) {
    forall b: nat :: CountOf(items, b) <= m
  }

  lemma {:induction false} SpacedApart(starts: seq<nat>, r: nat, a: nat, b: nat)
    requires Spaced(starts, r) && a <= b < |starts|
    ensures starts[b] >= starts[a] + (b - a) * r
    decreases b
  {
    if a < b {
      SpacedApart(starts, r, a, b - 1);
      assert Apart(starts, r, b - 1, b);
      assert (b - a) * r == (b - 1 - a) * r + r;
    }
  }

  lemma {:induction false} CountByBatch(items: seq<Item>, from: nat, to: nat, first: nat, n: nat, m: nat)
    requires AtMost(items, m)
    ensures CountBoth(items, from, to, first, n) <= m * n
    decreases n
  {
    if n == 0 {
      NoBatches(items, from, to, first);
    } else {
      CountByBatch(items, from, to, first, n - 1, m);
      SplitLast(items, from, to, first, n);
      assert CountOf(items, first + n - 1) <= m;
      assert m * n == m * (n - 1) + m;
    }
  }

  lemma {:induction false} NoBatches(items: seq<Item>, from: nat, to: nat, first: nat)
    ensures CountBoth(items, from, to, first, 0) == 0
  {
    if items != [] { NoBatches(items[..|items| - 1], from, to, first); }
  }

  lemma {:induction false} SplitLast(items: seq<Item>, from: nat, to: nat, first: nat, n: nat)
    requires n > 0
    ensures CountBoth(items, from, to, first, n)
            <= CountBoth(items, from, to, first, n - 1) + CountOf(items, first + n - 1)
  {
    if items != [] { SplitLast(items[..|items| - 1], from, to, first, n); }
  }

  lemma {:induction false} CountCovered(items: seq<Item>, from: nat, to: nat, first: nat, n: nat)
    requires forall x | x in items && from <= x.at <= to :: first <= x.batch < first + n
    ensures CountIn(items, from, to) == CountBoth(items, from, to, first, n)
  {
    if items != [] { CountCovered(items[..|items| - 1], from, to, first, n); }
  }

  /** The earliest batch with an item in a span, if there is one. */
  lemma {:induction false} EarliestBatch(items: seq<Item>, from: nat, to: nat) returns (x: Item)
    requires exists y :: y in items && from <= y.at <= to
    ensures x in items && from <= x.at <= to
    ensures forall y | y in items && from <= y.at <= to :: x.batch <= y.batch
  {
    var last, rest := items[|items| - 1], items[..|items| - 1];
    if exists y :: y in rest && from <= y.at <= to {
      x := EarliestBatch(rest, from, to);
      if from <= last.at <= to && last.batch < x.batch { x := last; }
    } else {
      assert forall y | y in items :: y in rest || y == last;
      x := last;
    }
  }

  lemma BatchesFit(starts: seq<nat>, items: seq<Item>, r: nat, span: nat, from: nat, x: Item, y: Item)
    requires r > 0 && Spaced(starts, r) && Batched(starts, items)
    requires x in items && y in items && from <= x.at && y.at <= from + span && x.batch <= y.batch
    ensures y.batch < x.batch + span / r + 2
  {
    var i :| 0 <= i < |items| && items[i] == x;
    var j :| 0 <= j < |items| && items[j] == y;
    assert InBatch(starts, items, i) && InBatch(starts, items, j);
    if x.batch < y.batch {
      SpacedApart(starts, r, x.batch + 1, y.batch);
      var gap := y.batch - x.batch - 1;
      assert gap * r <= span;
      Quotient(gap, r, span);
    }
  }

  lemma Quotient(gap: nat, r: nat, span: nat)
    requires r > 0 && gap * r <= span
    ensures gap <= span / r
  {
    var q := span / r;
    assert span == q * r + span % r;
    assert gap > q ==> gap * r >= (q + 1) * r;
  }

  /** In any closed span of time there are at most m * (span / r + 2) items. */
  lemma CountBound(starts: seq<nat>, items: seq<Item>, r: nat, m: nat, from: nat, span: nat)
    requires r > 0 && Spaced(starts, r) && Batched(starts, items) && AtMost(items, m)
    ensures CountIn(items, from, from + span) <= m * (span / r + 2)
  {
    var first, n: nat := 0, span / r + 2;
    if exists y :: y in items && from <= y.at <= from + span {
      var x := EarliestBatch(items, from, from + span);
      first := x.batch;
      forall y | y in items && from <= y.at <= from + span
        ensures first <= y.batch < first + n
      {
        BatchesFit(starts, items, r, span, from, x, y);
      }
    }
    CountCovered(items, from, from + span, first, n);
    CountByBatch(items, from, from + span, first, n, m);
  }

  // ---- Extending a record ----

  lemma {:induction false} CountOfAppend(items: seq<Item>, x: Item, b: nat)
    ensures CountOf(items + [x], b) == CountOf(items, b) + if x.batch == b then 1 else 0
  {
    assert (items + [x])[..|items|] == items;
  }

  lemma {:induction false} NoneYet(items: seq<Item>, b: nat)
    requires forall i | 0 <= i < |items| :: items[i].batch < b
    ensures CountOf(items, b) == 0
  {
    if items != [] { NoneYet(items[..|items| - 1], b); }
  }

  lemma ItemAdded(starts: seq<nat>, items: seq<Item>, m: nat, x: Item)
    requires Batched(starts, items) && AtMost(items, m)
    requires starts != [] && x.batch == |starts| - 1 && starts[x.batch] <= x.at && CountOf(items, x.batch) < m
    ensures Batched(starts, items + [x]) && AtMost(items + [x], m)
  {
    forall i
      ensures InBatch(starts, items + [x], i)
    {
      assert InBatch(starts, items, i);
    }
    forall b: nat
      ensures CountOf(items + [x], b) <= m
    {
      CountOfAppend(items, x, b);
      assert CountOf(items, b) <= m;
    }
  }

  lemma UpToAdded(items: seq<Item>, x: Item, now: nat)
    requires UpTo(items, now) && x.at <= now
    ensures UpTo(items + [x], now)
  {
    forall i
      ensures NotAfter(items + [x], now, i)
    {
      assert NotAfter(items, now, i);
    }
  }

  lemma UpToLater(items: seq<Item>, clock: nat, now: nat)
    requires UpTo(items, clock) && clock <= now
    ensures UpTo(items, now)
  {
    forall i
      ensures NotAfter(items, now, i)
    {
      assert NotAfter(items, clock, i);
    }
  }

  lemma BatchAdded(starts: seq<nat>, items: seq<Item>, at: nat)
    requires Batched(starts, items) && UpTo(items, at)
    ensures Batched(starts + [at], items)
    ensures CountOf(items, |starts|) == 0
  {
    forall i
      ensures InBatch(starts + [at], items, i)
    {
      assert InBatch(starts, items, i) && NotAfter(items, at, i);
    }
    forall i | 0 <= i < |items|
      ensures items[i].batch < |starts|
    {
      assert InBatch(starts, items, i);
    }
    NoneYet(items, |starts|);
  }

  lemma SpacedAdded(starts: seq<nat>, r: nat, at: nat)
    requires Spaced(starts, r) && (starts != [] ==> at >= starts[|starts| - 1] + r)
    ensures Spaced(starts + [at], r)
  {
    forall i, j
      ensures Apart(starts + [at], r, i, j)
    {
      assert Apart(starts, r, i, j) && Apart(starts, r, i, |starts| - 1);
    }
  }
}
