/** The categories of plugins, with how many compatible plugins each has. */
module CategoriesModel {
  import opened Redis
  import opened Versions

  const UNCATEGORIZED_ID := "other"
  const UNCATEGORIZED_LABEL := "其他"
  const MAX_PAGES: nat := 1000

  datatype CategoryDict = CategoryDict(slug: string, caption: string, order: int, archived: bool)

  datatype CategoryCount = CategoryCount(id: string, caption: string, count: nat)

  datatype Page = Page(items: seq<PackageListItem>, nextCursor: Option<string>)

  /** What the hub answers to the n-th request of a call, with its cursor; None is an error. */
  type Hub = (nat, string) -> Option<Page>

  // ---- Fetching ----

  datatype Fetch = Fetch(pages: seq<Page>, failed: bool)

  /** The pages a walk along the cursors visits from its i-th request on. */
  function Walk(hub: Hub, i: nat, cursor: string): (f: Fetch)
    ensures |f.pages| <= if i < MAX_PAGES then MAX_PAGES - i else 0
    decreases MAX_PAGES - i
  {
    if i >= MAX_PAGES then Fetch([], false)
    else
      match hub(i, cursor)
      case None => Fetch([], true)
      case Some(page) =>
        if page.nextCursor.None? || page.nextCursor.value == "" then Fetch([page], false)
        else
          var rest := Walk(hub, i + 1, page.nextCursor.value);
          Fetch([page] + rest.pages, rest.failed)
  }

  // ---- Counting ----

  function Active(dict: seq<CategoryDict>): seq<CategoryDict> {
    if dict == [] then []
    else
      var last := dict[|dict| - 1];
      Active(dict[..|dict| - 1]) + if last.archived then [] else [last]
  }

  /** How many entries have a slug. */
  function Listed(ds: seq<CategoryDict>, slug: string): nat {
    if ds == [] then 0 else Listed(ds[..|ds| - 1], slug) + if ds[|ds| - 1].slug == slug then 1 else 0
  }

  /** A missing or unknown slug belongs to the last category. */
  function Resolve(slug: string, active: set<string>): string {
    if slug == "" || slug !in active then UNCATEGORIZED_ID else slug
  }

  /** The category of each compatible item, in order. */
  function Resolved(items: seq<PackageListItem>, active: set<string>, cc: CompatContext): seq<string> {
    if items == [] then []
    else
      var last := items[|items| - 1];
      Resolved(items[..|items| - 1], active, cc)
      + if CompatiblePackage(last, cc) then [Resolve(last.slug, active)] else []
  }

  function ResolvedPages(pages: seq<Page>, active: set<string>, cc: CompatContext): seq<string> {
    if pages == [] then []
    else Resolved(pages[0].items, active, cc) + ResolvedPages(pages[1..], active, cc)
  }

  function Count(xs: seq<string>, x: string): nat {
    if xs == [] then 0 else Count(xs[..|xs| - 1], x) + if xs[|xs| - 1] == x then 1 else 0
  }

  // ---- The response ----

  /** Put in after every entry that does not come later. */
  function Insert(x: CategoryDict, xs: seq<CategoryDict>): seq<CategoryDict> {
    if xs == [] || xs[|xs| - 1].order <= x.order then xs + [x]
    else Insert(x, xs[..|xs| - 1]) + [xs[|xs| - 1]]
  }

  /** sort.SliceStable by order. */
  function StableSort(xs: seq<CategoryDict>): seq<CategoryDict> {
    if xs == [] then [] else Insert(xs[|xs| - 1], StableSort(xs[..|xs| - 1]))
  }

  /** All but the last category. */
  function Named(ds: seq<CategoryDict>): seq<CategoryDict> {
    if ds == [] then []
    else
      var last := ds[|ds| - 1];
      Named(ds[..|ds| - 1]) + if last.slug == UNCATEGORIZED_ID then [] else [last]
  }

  /** The label of the last entry of that name, or the built-in one. */
  function OtherLabel(ds: seq<CategoryDict>): string {
    if ds == [] then UNCATEGORIZED_LABEL
    else if ds[|ds| - 1].slug == UNCATEGORIZED_ID then ds[|ds| - 1].caption
    else OtherLabel(ds[..|ds| - 1])
  }

  function Entries(ds: seq<CategoryDict>, rs: seq<string>): seq<CategoryCount> {
    if ds == [] then []
    else
      var d := ds[|ds| - 1];
      Entries(ds[..|ds| - 1], rs) + [CategoryCount(d.slug, d.caption, Count(rs, d.slug))]
  }

  /** The response for a dictionary, given the category of every compatible item. */
  function Response(dict: seq<CategoryDict>, rs: seq<string>): seq<CategoryCount> {
    var sorted := StableSort(Active(dict));
    Entries(Named(sorted), rs) + [CategoryCount(UNCATEGORIZED_ID, OtherLabel(sorted), Count(rs, UNCATEGORIZED_ID))]
  }

  // ---- Sorting is stable ----

  ghost predicate Sorted(xs: seq<CategoryDict>) {
    forall i, j | 0 <= i < j < |xs| :: xs[i].order <= xs[j].order
  }

  /** The entries of one order, in their original sequence. */
  function OfOrder(xs: seq<CategoryDict>, order: int): seq<CategoryDict> {
    if xs == [] then []
    else OfOrder(xs[..|xs| - 1], order) + if xs[|xs| - 1].order == order then [xs[|xs| - 1]] else []
  }

  ghost predicate Below(xs: seq<CategoryDict>, bound: int) {
    forall i | 0 <= i < |xs| :: xs[i].order <= bound
  }

  lemma {:induction false} InsertSorts(x: CategoryDict, xs: seq<CategoryDict>, bound: int)
    requires Sorted(xs) && Below(xs, bound) && x.order <= bound
    ensures Sorted(Insert(x, xs)) && Below(Insert(x, xs), bound)
  {
    if xs != [] && xs[|xs| - 1].order > x.order {
      InsertSorts(x, xs[..|xs| - 1], xs[|xs| - 1].order);
    }
  }

  lemma {:induction false} InsertAdds(x: CategoryDict, xs: seq<CategoryDict>)
    ensures multiset(Insert(x, xs)) == multiset(xs) + multiset{x}
  {
    if xs != [] && xs[|xs| - 1].order > x.order {
      InsertAdds(x, xs[..|xs| - 1]);
      assert xs == xs[..|xs| - 1] + [xs[|xs| - 1]];
    }
  }

  lemma {:induction false} InsertIsStable(x: CategoryDict, xs: seq<CategoryDict>, order: int)
    requires Sorted(xs)
    ensures OfOrder(Insert(x, xs), order) == OfOrder(xs, order) + if x.order == order then [x] else []
  {
    if xs == [] || xs[|xs| - 1].order <= x.order {
      assert (xs + [x])[..|xs|] == xs;
    } else {
      var last, rest := xs[|xs| - 1], xs[..|xs| - 1];
      InsertIsStable(x, rest, order);
      var r := Insert(x, rest) + [last];
      assert r[..|r| - 1] == Insert(x, rest);
    }
  }

  lemma {:induction false} SortSorts(xs: seq<CategoryDict>, bound: int)
    requires Below(xs, bound)
    ensures Sorted(StableSort(xs)) && Below(StableSort(xs), bound)
    ensures multiset(StableSort(xs)) == multiset(xs)
  {
    if xs != [] {
      var n := |xs| - 1;
      SortSorts(xs[..n], bound);
      InsertSorts(xs[n], StableSort(xs[..n]), bound);
      InsertAdds(xs[n], StableSort(xs[..n]));
      assert xs == xs[..n] + [xs[n]];
    }
  }

  lemma {:induction false} Bounded(xs: seq<CategoryDict>) returns (bound: int)
    ensures Below(xs, bound)
  {
    if xs == [] { return 0; }
    bound := Bounded(xs[..|xs| - 1]);
    assert forall i | 0 <= i < |xs| - 1 :: xs[..|xs| - 1][i] == xs[i];
    if bound < xs[|xs| - 1].order { bound := xs[|xs| - 1].order; }
  }

  /** Sorted by order, nothing lost or added, and entries of the same order as they came. */
  lemma {:induction false} StableSortIsStable(xs: seq<CategoryDict>, order: int)
    ensures Sorted(StableSort(xs)) && multiset(StableSort(xs)) == multiset(xs)
    ensures OfOrder(StableSort(xs), order) == OfOrder(xs, order)
  {
    var bound := Bounded(xs);
    SortSorts(xs, bound);
    if xs != [] {
      var n := |xs| - 1;
      StableSortIsStable(xs[..n], order);
      InsertIsStable(xs[n], StableSort(xs[..n]), order);
    }
  }

  // ---- Conservation ----

  function Total(cs: seq<CategoryCount>): nat {
    if cs == [] then 0 else Total(cs[..|cs| - 1]) + cs[|cs| - 1].count
  }

  /** How often an item of category r is counted. */
  function Weight(ds: seq<CategoryDict>, r: string): nat {
    Listed(ds, r) + if r == UNCATEGORIZED_ID then 1 else 0
  }

  function Weights(ds: seq<CategoryDict>, rs: seq<string>): nat {
    if rs == [] then 0 else Weights(ds, rs[..|rs| - 1]) + Weight(ds, rs[|rs| - 1])
  }

  lemma {:induction false} EntriesSnoc(ds: seq<CategoryDict>, rs: seq<string>, r: string)
    ensures Total(Entries(ds, rs + [r])) == Total(Entries(ds, rs)) + Listed(ds, r)
  {
    if ds != [] {
      EntriesSnoc(ds[..|ds| - 1], rs, r);
      EntriesTotal(ds, rs);
      EntriesTotal(ds, rs + [r]);
      assert (rs + [r])[..|rs|] == rs;
    }
  }

  lemma EntriesTotal(ds: seq<CategoryDict>, rs: seq<string>)
    requires ds != []
    ensures Total(Entries(ds, rs)) == Total(Entries(ds[..|ds| - 1], rs)) + Count(rs, ds[|ds| - 1].slug)
  {
    var e := Entries(ds, rs);
    assert e[..|e| - 1] == Entries(ds[..|ds| - 1], rs);
  }

  lemma {:induction false} EntriesOfNothing(ds: seq<CategoryDict>)
    ensures Total(Entries(ds, [])) == 0
  {
    if ds != [] {
      EntriesOfNothing(ds[..|ds| - 1]);
      EntriesTotal(ds, []);
    }
  }

  /** Counting by category and counting by item agree. */
  lemma {:induction false} CountedTwoWays(ds: seq<CategoryDict>, rs: seq<string>)
    ensures Total(Entries(ds, rs)) + Count(rs, UNCATEGORIZED_ID) == Weights(ds, rs)
  {
    if rs == [] {
      EntriesOfNothing(ds);
    } else {
      var n := |rs| - 1;
      CountedTwoWays(ds, rs[..n]);
      EntriesSnoc(ds, rs[..n], rs[n]);
      assert rs == rs[..n] + [rs[n]];
    }
  }

  lemma {:induction false} WeightsMean(ds: seq<CategoryDict>, rs: seq<string>)
    requires forall i | 0 <= i < |rs| :: Weight(ds, rs[i]) >= 1
    ensures Weights(ds, rs) >= |rs|
    ensures Weights(ds, rs) == |rs| <==> forall i | 0 <= i < |rs| :: Weight(ds, rs[i]) == 1
  {
    if rs != [] {
      var n := |rs| - 1;
      assert forall i | 0 <= i < n :: rs[..n][i] == rs[i];
      WeightsMean(ds, rs[..n]);
    }
  }

  lemma {:induction false} NamedListed(ds: seq<CategoryDict>, s: string)
    ensures Listed(Named(ds), s) == if s == UNCATEGORIZED_ID then 0 else Listed(ds, s)
  {
    if ds != [] {
      var n := |ds| - 1;
      NamedListed(ds[..n], s);
      assert Named(ds[..n]) + [] == Named(ds[..n]);
      assert ds[n].slug != UNCATEGORIZED_ID ==> Named(ds)[..|Named(ds)| - 1] == Named(ds[..n]);
    }
  }

  lemma {:induction false} InsertListed(x: CategoryDict, xs: seq<CategoryDict>, s: string)
    ensures Listed(Insert(x, xs), s) == Listed(xs, s) + if x.slug == s then 1 else 0
  {
    var r := Insert(x, xs);
    if xs == [] || xs[|xs| - 1].order <= x.order {
      assert r[..|xs|] == xs;
    } else {
      InsertListed(x, xs[..|xs| - 1], s);
      assert r[..|r| - 1] == Insert(x, xs[..|xs| - 1]);
    }
  }

  lemma {:induction false} SortedListed(xs: seq<CategoryDict>, s: string)
    ensures Listed(StableSort(xs), s) == Listed(xs, s)
  {
    if xs != [] {
      SortedListed(xs[..|xs| - 1], s);
      InsertListed(xs[|xs| - 1], StableSort(xs[..|xs| - 1]), s);
    }
  }

  /** Every category is a listed one or the last. */
  ghost predicate AllKnown(rs: seq<string>, dict: seq<CategoryDict>) {
    forall i | 0 <= i < |rs| :: rs[i] == UNCATEGORIZED_ID || Listed(Active(dict), rs[i]) > 0
  }

  /** An item whose category is listed twice, other than the last category. */
  ghost predicate Doubled(dict: seq<CategoryDict>, r: string) {
    r != UNCATEGORIZED_ID && Listed(Active(dict), r) > 1
  }

  lemma ResponseTotal(dict: seq<CategoryDict>, rs: seq<string>)
    ensures Total(Response(dict, rs)) == Weights(Named(StableSort(Active(dict))), rs)
  {
    var r, named := Response(dict, rs), Named(StableSort(Active(dict)));
    assert r[..|r| - 1] == Entries(named, rs);
    CountedTwoWays(named, rs);
  }

  /** The response never counts less than the compatible items, and counts exactly them if and
      only if no item is in a category that the dictionary lists twice. */
  lemma Conservation(dict: seq<CategoryDict>, rs: seq<string>)
    requires AllKnown(rs, dict)
    ensures Total(Response(dict, rs)) >= |rs|
    ensures Total(Response(dict, rs)) == |rs| <==> forall i | 0 <= i < |rs| :: !Doubled(dict, rs[i])
  {
    var sorted := StableSort(Active(dict));
    ResponseTotal(dict, rs);
    forall i | 0 <= i < |rs|
      ensures Weight(Named(sorted), rs[i]) >= 1
      ensures Weight(Named(sorted), rs[i]) == 1 <==> !Doubled(dict, rs[i])
    {
      NamedListed(sorted, rs[i]);
      SortedListed(Active(dict), rs[i]);
    }
    WeightsMean(Named(sorted), rs);
  }

  ghost predicate DistinctSlugs(ds: seq<CategoryDict>) {
    forall i, j | 0 <= i < j < |ds| :: ds[i].slug != ds[j].slug
  }

  /** In particular nothing is lost or counted twice when the active slugs are distinct. */
  lemma DistinctSlugsConserve(dict: seq<CategoryDict>, rs: seq<string>)
    requires AllKnown(rs, dict) && DistinctSlugs(Active(dict))
    ensures Total(Response(dict, rs)) == |rs|
  {
    forall i | 0 <= i < |rs|
      ensures !Doubled(dict, rs[i])
    {
      ListedOnce(Active(dict), rs[i]);
    }
    Conservation(dict, rs);
  }

  lemma {:induction false} ListedSome(ds: seq<CategoryDict>, s: string)
    ensures Listed(ds, s) > 0 <==> exists d :: d in ds && d.slug == s
  {
    if ds != [] {
      var n := |ds| - 1;
      ListedSome(ds[..n], s);
      assert ds == ds[..n] + [ds[n]];
    }
  }

  lemma {:induction false} ListedOnce(ds: seq<CategoryDict>, s: string)
    requires DistinctSlugs(ds)
    ensures Listed(ds, s) <= 1
  {
    if ds != [] {
      var n := |ds| - 1;
      ListedOnce(ds[..n], s);
      ListedSome(ds[..n], s);
    }
  }

  /** For every dictionary: an item counts as often as its category is listed among the active
      entries, and an item of the last category counts once. */
  lemma CountedAsOftenAsListed(dict: seq<CategoryDict>, rs: seq<string>, r: string)
    ensures Total(Response(dict, [])) == 0
    ensures Total(Response(dict, rs + [r]))
            == Total(Response(dict, rs)) + if r == UNCATEGORIZED_ID then 1 else Listed(Active(dict), r)
  {
    var sorted := StableSort(Active(dict));
    ResponseTotal(dict, []);
    ResponseTotal(dict, rs);
    ResponseTotal(dict, rs + [r]);
    assert (rs + [r])[..|rs|] == rs;
    NamedListed(sorted, r);
    SortedListed(Active(dict), r);
  }

  /** The ids are the active slugs, sorted and stable, each as often as it is listed, with the last
      category once and at the end; a category without plugins is kept. */
  lemma {:induction false} ResponseIds(dict: seq<CategoryDict>, rs: seq<string>)
    ensures var r, named := Response(dict, rs), Named(StableSort(Active(dict)));
            && |r| == |named| + 1
            && (forall i | 0 <= i < |named| ::
                  r[i] == CategoryCount(named[i].slug, named[i].caption, Count(rs, named[i].slug)))
            && r[|named|].id == UNCATEGORIZED_ID && r[|named|].count == Count(rs, UNCATEGORIZED_ID)
            && (forall i | 0 <= i < |named| :: named[i].slug != UNCATEGORIZED_ID)
            && Sorted(named)
            && (forall s | s != UNCATEGORIZED_ID :: Listed(named, s) == Listed(Active(dict), s))
  {
    var sorted := StableSort(Active(dict));
    EntriesAt(Named(sorted), rs);
    StableSortIsStable(Active(dict), 0);
    var bound := Bounded(sorted);
    NamedSorted(sorted, bound);
    forall s | s != UNCATEGORIZED_ID
      ensures Listed(Named(sorted), s) == Listed(Active(dict), s)
    {
      NamedListed(sorted, s);
      SortedListed(Active(dict), s);
    }
  }

  lemma {:induction false} EntriesAt(ds: seq<CategoryDict>, rs: seq<string>)
    ensures |Entries(ds, rs)| == |ds|
    ensures forall i | 0 <= i < |ds| ::
              Entries(ds, rs)[i] == CategoryCount(ds[i].slug, ds[i].caption, Count(rs, ds[i].slug))
  {
    if ds != [] { EntriesAt(ds[..|ds| - 1], rs); }
  }

  lemma {:induction false} NamedSorted(ds: seq<CategoryDict>, bound: int)
    requires Sorted(ds) && Below(ds, bound)
    ensures Sorted(Named(ds)) && Below(Named(ds), bound)
    ensures forall i | 0 <= i < |Named(ds)| :: Named(ds)[i].slug != UNCATEGORIZED_ID
  {
    if ds != [] {
      NamedSorted(ds[..|ds| - 1], ds[|ds| - 1].order);
    }
  }

  // ---- The whole call ----

  function ActiveSlugs(dict: seq<CategoryDict>): set<string> {
    set d | d in dict && !d.archived :: d.slug
  }

  lemma {:induction false} ActiveSlugsAreListed(dict: seq<CategoryDict>, s: string)
    ensures s in ActiveSlugs(dict) <==> Listed(Active(dict), s) > 0
  {
    if dict == [] {
    } else {
      var n := |dict| - 1;
      ActiveSlugsAreListed(dict[..n], s);
      assert dict == dict[..n] + [dict[n]];
      assert Active(dict[..n]) + [] == Active(dict[..n]);
      if !dict[n].archived {
        assert Active(dict)[..|Active(dict)| - 1] == Active(dict[..n]);
      }
    }
  }

  lemma {:induction false} ResolvedIsKnown(items: seq<PackageListItem>, dict: seq<CategoryDict>, cc: CompatContext)
    ensures AllKnown(Resolved(items, ActiveSlugs(dict), cc), dict)
  {
    if items != [] {
      ResolvedIsKnown(items[..|items| - 1], dict, cc);
      ActiveSlugsAreListed(dict, items[|items| - 1].slug);
    }
  }

  lemma {:induction false} PagesAreKnown(pages: seq<Page>, dict: seq<CategoryDict>, cc: CompatContext)
    ensures AllKnown(ResolvedPages(pages, ActiveSlugs(dict), cc), dict)
  {
    if pages != [] {
      ResolvedIsKnown(pages[0].items, dict, cc);
      PagesAreKnown(pages[1..], dict, cc);
    }
  }

  /** The compatible items of all pages. */
  function CompatibleItems(items: seq<PackageListItem>, cc: CompatContext): nat {
    if items == [] then 0
    else CompatibleItems(items[..|items| - 1], cc) + if CompatiblePackage(items[|items| - 1], cc) then 1 else 0
  }

  function CompatibleOf(pages: seq<Page>, cc: CompatContext): nat {
    if pages == [] then 0 else CompatibleItems(pages[0].items, cc) + CompatibleOf(pages[1..], cc)
  }

  lemma {:induction false} OneCategoryEach(items: seq<PackageListItem>, active: set<string>, cc: CompatContext)
    ensures |Resolved(items, active, cc)| == CompatibleItems(items, cc)
  {
    if items != [] { OneCategoryEach(items[..|items| - 1], active, cc); }
  }

  lemma {:induction false} OneCategoryEachPage(pages: seq<Page>, active: set<string>, cc: CompatContext)
    ensures |ResolvedPages(pages, active, cc)| == CompatibleOf(pages, cc)
  {
    if pages != [] {
      OneCategoryEach(pages[0].items, active, cc);
      OneCategoryEachPage(pages[1..], active, cc);
    }
  }

  /** The pages fetched so far, followed by those still ahead of the cursor, are all of them. */
  ghost predicate Walked(hub: Hub, pages: seq<Page>, i: nat, cursor: string) {
    var rest := Walk(hub, i, cursor);
    Walk(hub, 0, "") == Fetch(pages + rest.pages, rest.failed)
  }

  lemma WalkEnds(hub: Hub, pages: seq<Page>, i: nat, cursor: string)
    requires Walked(hub, pages, i, cursor)
    ensures i >= MAX_PAGES ==> Walk(hub, 0, "") == Fetch(pages, false)
    ensures i < MAX_PAGES && hub(i, cursor).None? ==> Walk(hub, 0, "") == Fetch(pages, true)
  {
    assert pages + [] == pages;
  }

  lemma WalkStep(hub: Hub, pages: seq<Page>, i: nat, cursor: string)
    requires Walked(hub, pages, i, cursor) && i < MAX_PAGES && hub(i, cursor).Some?
    ensures var page := hub(i, cursor).value;
            if page.nextCursor.None? || page.nextCursor.value == ""
            then Walk(hub, 0, "") == Fetch(pages + [page], false)
            else Walked(hub, pages + [page], i + 1, page.nextCursor.value)
  {
    var page := hub(i, cursor).value;
    if !(page.nextCursor.None? || page.nextCursor.value == "") {
      var rest := Walk(hub, i + 1, page.nextCursor.value);
      assert pages + ([page] + rest.pages) == (pages + [page]) + rest.pages;
    }
  }

  lemma NamedStep(ds: seq<CategoryDict>, d: CategoryDict)
    ensures Named(ds + [d]) == if d.slug == UNCATEGORIZED_ID then Named(ds) else Named(ds) + [d]
    ensures OtherLabel(ds + [d]) == if d.slug == UNCATEGORIZED_ID then d.caption else OtherLabel(ds)
  {
    assert (ds + [d])[..|ds|] == ds;
    assert Named(ds) + [] == Named(ds);
  }

  lemma EntryStep(ds: seq<CategoryDict>, d: CategoryDict, rs: seq<string>)
    ensures Entries(ds + [d], rs) == Entries(ds, rs) + [CategoryCount(d.slug, d.caption, Count(rs, d.slug))]
  {
    assert (ds + [d])[..|ds|] == ds;
  }

  lemma {:induction false} PagesSnoc(pages: seq<Page>, page: Page, active: set<string>, cc: CompatContext)
    ensures ResolvedPages(pages + [page], active, cc)
            == ResolvedPages(pages, active, cc) + Resolved(page.items, active, cc)
  {
    if pages == [] {
      assert pages + [page] == [page] && [page][1..] == [];
      assert Resolved(page.items, active, cc) + [] == Resolved(page.items, active, cc);
    } else {
      assert (pages + [page])[1..] == pages[1..] + [page];
      PagesSnoc(pages[1..], page, active, cc);
    }
  }
}

/** What the response says, without the functions that build it: which pages are read, which items count,
    for which category, and which categories are listed. */
module CategoriesReport {
  import opened Redis
  import opened Versions
  import opened CategoriesModel

  // ---- the pages read ----

  /** The cursor the page gives, if it leads on. */
  function Onward(page: Page): string {
    if page.nextCursor.None? then "" else page.nextCursor.value
  }

  /** The cursor with which the k-th page is asked for. */
  function CursorAt(pages: seq<Page>, cursor: string, k: nat): string
    requires k <= |pages|
  {
    if k == 0 then cursor else Onward(pages[k - 1])
  }

  /** The k-th page is the hub's answer to its cursor, which is one unless it is the first. */
  predicate AnsweredAt(hub: Hub, pages: seq<Page>, i: nat, cursor: string, k: nat)
    requires k < |pages|
  {
    hub(i + k, CursorAt(pages, cursor, k)) == Some(pages[k]) && (k > 0 ==> CursorAt(pages, cursor, k) != "")
  }

  /** After the last page the walk has failed at its cursor, or it gave none, or it is the thousandth. */
  predicate EndedAt(hub: Hub, f: Fetch, i: nat, cursor: string) {
    var n := |f.pages|;
    if f.failed then
      i + n < 1000 && (n > 0 ==> CursorAt(f.pages, cursor, n) != "") && hub(i + n, CursorAt(f.pages, cursor, n)).None?
    else i + n == 1000 || (n > 0 && CursorAt(f.pages, cursor, n) == "")
  }

  ghost predicate Followed(hub: Hub, f: Fetch, i: nat, cursor: string) {
    && i + |f.pages| <= 1000 && EndedAt(hub, f, i, cursor)
    && (forall k | 0 <= k < |f.pages| :: AnsweredAt(hub, f.pages, i, cursor, k))
  }

  lemma AnsweredCons(hub: Hub, page: Page, pages: seq<Page>, i: nat, cursor: string, k: nat)
    requires 0 < k <= |pages| && Onward(page) != "" && AnsweredAt(hub, pages, i + 1, Onward(page), k - 1)
    ensures AnsweredAt(hub, [page] + pages, i, cursor, k)
  {
    assert i + k == i + 1 + (k - 1);
  }

  lemma EndedCons(hub: Hub, page: Page, rest: Fetch, i: nat, cursor: string)
    requires Onward(page) != "" && EndedAt(hub, rest, i + 1, Onward(page))
    ensures EndedAt(hub, Fetch([page] + rest.pages, rest.failed), i, cursor)
  {
    var n := |rest.pages|;
    assert i + (n + 1) == i + 1 + n;
    assert CursorAt([page] + rest.pages, cursor, n + 1) == CursorAt(rest.pages, Onward(page), n);
  }

  lemma FollowedCons(hub: Hub, page: Page, rest: Fetch, i: nat, cursor: string)
    requires hub(i, cursor) == Some(page) && Onward(page) != "" && Followed(hub, rest, i + 1, Onward(page))
    ensures Followed(hub, Fetch([page] + rest.pages, rest.failed), i, cursor)
  {
    var pages := [page] + rest.pages;
    EndedCons(hub, page, rest, i, cursor);
    forall k | 0 <= k < |pages| ensures AnsweredAt(hub, pages, i, cursor, k) {
      if k > 0 { AnsweredCons(hub, page, rest.pages, i, cursor, k); }
    }
  }

  lemma {:induction false} WalkFollows(hub: Hub, i: nat, cursor: string)
    requires i <= 1000
    ensures Followed(hub, Walk(hub, i, cursor), i, cursor)
    decreases 1000 - i
  {
    if i < 1000 && hub(i, cursor).Some? && Onward(hub(i, cursor).value) != "" {
      var page := hub(i, cursor).value;
      WalkFollows(hub, i + 1, Onward(page));
      FollowedCons(hub, page, Walk(hub, i + 1, Onward(page)), i, cursor);
    }
  }

  // ---- the items counted ----

  /** An item is offered to a client unless it names platforms without the client's, or needs a newer App
      than the client says it runs. */
  ghost predicate Offered(item: PackageListItem, cc: CompatContext) {
    && (cc.platform == "" || item.hostTargets == [] || cc.platform in item.hostTargets)
    && (cc.appVersion == "" || item.minAppVersion == ""
        || !Less(VersionParts(cc.appVersion), VersionParts(item.minAppVersion)))
  }

  predicate ListedSlug(dict: seq<CategoryDict>, slug: string) {
    exists d :: d in dict && !d.archived && d.slug == slug
  }

  /** An item belongs to its own category if that is listed, and to the last one otherwise. */
  predicate Belongs(item: PackageListItem, id: string, dict: seq<CategoryDict>) {
    if item.slug != "" && ListedSlug(dict, item.slug) then id == item.slug else id == "other"
  }

  function AllItems(pages: seq<Page>): seq<PackageListItem> {
    if pages == [] then [] else pages[0].items + AllItems(pages[1..])
  }

  /** The positions of the items counted for a category. */
  ghost function Counted(items: seq<PackageListItem>, id: string, dict: seq<CategoryDict>,
                         cc: CompatContext): set<nat> {
    set k: nat | k < |items| && Offered(items[k], cc) && Belongs(items[k], id, dict)
  }

  lemma OfferedIff(item: PackageListItem, cc: CompatContext)
    ensures CompatiblePackage(item, cc) <==> Offered(item, cc)
  {
    CompareMeans(cc.appVersion, item.minAppVersion);
  }

  lemma BelongsIff(item: PackageListItem, id: string, dict: seq<CategoryDict>)
    ensures Resolve(item.slug, ActiveSlugs(dict)) == id <==> Belongs(item, id, dict)
  {
  }

  lemma CountedNext(items: seq<PackageListItem>, item: PackageListItem, id: string, dict: seq<CategoryDict>,
                    cc: CompatContext)
    ensures Counted(items + [item], id, dict, cc)
            == Counted(items, id, dict, cc) + if Offered(item, cc) && Belongs(item, id, dict) then {|items|} else {}
  {
    var all := items + [item];
    assert all[|items|] == item;
    forall k: nat | k < |items| ensures all[k] == items[k] {}
  }

  lemma CountedSnoc(items: seq<PackageListItem>, item: PackageListItem, id: string, dict: seq<CategoryDict>,
                    cc: CompatContext)
    ensures |Counted(items + [item], id, dict, cc)|
            == |Counted(items, id, dict, cc)| + if Offered(item, cc) && Belongs(item, id, dict) then 1 else 0
  {
    CountedNext(items, item, id, dict, cc);
    assert |items| !in Counted(items, id, dict, cc);
  }

  lemma CountSnoc(rs: seq<string>, r: string, id: string)
    ensures Count(rs + [r], id) == Count(rs, id) + if r == id then 1 else 0
  {
    assert (rs + [r])[..|rs|] == rs;
  }

  lemma {:induction false} CountIsCounted(items: seq<PackageListItem>, id: string, dict: seq<CategoryDict>,
                                          cc: CompatContext)
    ensures Count(Resolved(items, ActiveSlugs(dict), cc), id) == |Counted(items, id, dict, cc)|
    decreases |items|
  {
    if items == [] {
      assert Counted(items, id, dict, cc) == {};
    } else {
      var init, last := items[..|items| - 1], items[|items| - 1];
      assert items == init + [last];
      CountIsCounted(init, id, dict, cc);
      CountedSnoc(init, last, id, dict, cc);
      OfferedIff(last, cc);
      BelongsIff(last, id, dict);
      var rs := Resolved(init, ActiveSlugs(dict), cc);
      CountSnoc(rs, Resolve(last.slug, ActiveSlugs(dict)), id);
      assert rs + [] == rs;
    }
  }

  lemma {:induction false} ResolvedJoins(a: seq<PackageListItem>, b: seq<PackageListItem>, active: set<string>,
                                         cc: CompatContext)
    ensures Resolved(a + b, active, cc) == Resolved(a, active, cc) + Resolved(b, active, cc)
    decreases |b|
  {
    if b == [] {
      assert a + b == a;
    } else {
      assert (a + b)[..|a + b| - 1] == a + b[..|b| - 1];
      ResolvedJoins(a, b[..|b| - 1], active, cc);
    }
  }

  lemma {:induction false} PagesResolve(pages: seq<Page>, active: set<string>, cc: CompatContext)
    ensures ResolvedPages(pages, active, cc) == Resolved(AllItems(pages), active, cc)
    decreases |pages|
  {
    if pages != [] {
      PagesResolve(pages[1..], active, cc);
      ResolvedJoins(pages[0].items, AllItems(pages[1..]), active, cc);
    }
  }

  // ---- the categories listed ----

  /** Some active entry of the dictionary has this slug and caption. */
  predicate Entered(dict: seq<CategoryDict>, id: string, caption: string) {
    exists d :: d in dict && !d.archived && d.slug == id && d.caption == caption
  }

  /** The last category's label: that of its active entry which is ordered last, or the built-in one. */
  predicate LastLabel(dict: seq<CategoryDict>, caption: string) {
    if ListedSlug(dict, "other") then
      exists d :: d in dict && !d.archived && d.slug == "other" && d.caption == caption
                  && forall e | e in dict && !e.archived && e.slug == "other" :: e.order <= d.order
    else caption == "其他"
  }

  /** Some entry before the last has this id and caption. */
  predicate Lists(r: seq<CategoryCount>, id: string, caption: string) {
    exists j :: 0 <= j < |r| - 1 && r[j].id == id && r[j].caption == caption
  }

  ghost predicate Reports(r: seq<CategoryCount>, dict: seq<CategoryDict>, items: seq<PackageListItem>,
                          cc: CompatContext) {
    && r != [] && r[|r| - 1].id == "other" && LastLabel(dict, r[|r| - 1].caption)
    && (forall j | 0 <= j < |r| - 1 :: r[j].id != "other" && Entered(dict, r[j].id, r[j].caption))
    && (forall d | d in dict && !d.archived && d.slug != "other" :: Lists(r, d.slug, d.caption))
    && (forall j | 0 <= j < |r| :: r[j].count == |Counted(items, r[j].id, dict, cc)|)
  }

  lemma {:induction false} ActiveIff(dict: seq<CategoryDict>, d: CategoryDict)
    ensures d in Active(dict) <==> d in dict && !d.archived
  {
    if dict != [] {
      ActiveIff(dict[..|dict| - 1], d);
      assert dict == dict[..|dict| - 1] + [dict[|dict| - 1]];
    }
  }

  lemma {:induction false} NamedIff(ds: seq<CategoryDict>, d: CategoryDict)
    ensures d in Named(ds) <==> d in ds && d.slug != "other"
  {
    if ds != [] {
      NamedIff(ds[..|ds| - 1], d);
      assert ds == ds[..|ds| - 1] + [ds[|ds| - 1]];
    }
  }

  lemma SortedIff(ds: seq<CategoryDict>, d: CategoryDict)
    ensures d in StableSort(ds) <==> d in ds
  {
    StableSortIsStable(ds, 0);
    assert d in multiset(StableSort(ds)) <==> d in multiset(ds);
  }

  lemma {:induction false} LabelOf(ds: seq<CategoryDict>) returns (i: nat)
    requires Sorted(ds)
    ensures if exists d :: d in ds && d.slug == "other" then
              i < |ds| && ds[i].slug == "other" && OtherLabel(ds) == ds[i].caption
              && forall e | e in ds && e.slug == "other" :: e.order <= ds[i].order
            else OtherLabel(ds) == "其他"
    decreases |ds|
  {
    if ds == [] { return 0; }
    var n := |ds| - 1;
    assert ds == ds[..n] + [ds[n]];
    if ds[n].slug == "other" {
      i := n;
      forall e | e in ds ensures e.order <= ds[n].order {
        var k :| 0 <= k < |ds| && ds[k] == e;
      }
    } else {
      assert forall j, k | 0 <= j < k < n :: ds[..n][j].order <= ds[..n][k].order by {
        assert forall j | 0 <= j < n :: ds[..n][j] == ds[j];
      }
      i := LabelOf(ds[..n]);
    }
  }

  lemma LabelIsLast(dict: seq<CategoryDict>)
    ensures LastLabel(dict, OtherLabel(StableSort(Active(dict))))
  {
    var sorted := StableSort(Active(dict));
    StableSortIsStable(Active(dict), 0);
    var i := LabelOf(sorted);
    forall d ensures d in sorted <==> d in dict && !d.archived {
      SortedIff(Active(dict), d);
      ActiveIff(dict, d);
    }
    if ListedSlug(dict, "other") {
      assert sorted[i] in sorted;
    }
  }

  lemma NamesAreEntries(dict: seq<CategoryDict>, d: CategoryDict)
    ensures d in Named(StableSort(Active(dict))) <==> d in dict && !d.archived && d.slug != "other"
  {
    NamedIff(StableSort(Active(dict)), d);
    SortedIff(Active(dict), d);
    ActiveIff(dict, d);
  }

  lemma ResponseCounts(dict: seq<CategoryDict>, pages: seq<Page>, cc: CompatContext, j: nat)
    requires var r := Response(dict, ResolvedPages(pages, ActiveSlugs(dict), cc)); j < |r|
    ensures var r := Response(dict, ResolvedPages(pages, ActiveSlugs(dict), cc));
            r[j].count == |Counted(AllItems(pages), r[j].id, dict, cc)|
  {
    var rs := ResolvedPages(pages, ActiveSlugs(dict), cc);
    ResponseIds(dict, rs);
    PagesResolve(pages, ActiveSlugs(dict), cc);
    CountIsCounted(AllItems(pages), Response(dict, rs)[j].id, dict, cc);
  }

  lemma ResponseLists(dict: seq<CategoryDict>, rs: seq<string>, d: CategoryDict)
    requires d in dict && !d.archived && d.slug != "other"
    ensures Lists(Response(dict, rs), d.slug, d.caption)
  {
    var r, named := Response(dict, rs), Named(StableSort(Active(dict)));
    ResponseIds(dict, rs);
    NamesAreEntries(dict, d);
    var j :| 0 <= j < |named| && named[j] == d;
    assert r[j].id == d.slug;
  }

  lemma ResponseEnters(dict: seq<CategoryDict>, rs: seq<string>, j: nat)
    requires j < |Response(dict, rs)| - 1
    ensures var r := Response(dict, rs); r[j].id != "other" && Entered(dict, r[j].id, r[j].caption)
  {
    ResponseIds(dict, rs);
    NamesAreEntries(dict, Named(StableSort(Active(dict)))[j]);
  }

  lemma ResponseEnds(dict: seq<CategoryDict>, rs: seq<string>)
    ensures var r := Response(dict, rs);
            r != [] && r[|r| - 1].id == "other" && r[|r| - 1].caption == OtherLabel(StableSort(Active(dict)))
  {
  }

  /** The response built from some pages lists exactly the active categories, the last one last, and counts
      for each exactly the offered items that belong to it. */
  lemma ResponseReports(dict: seq<CategoryDict>, pages: seq<Page>, cc: CompatContext)
    ensures Reports(Response(dict, ResolvedPages(pages, ActiveSlugs(dict), cc)), dict, AllItems(pages), cc)
  {
    var rs := ResolvedPages(pages, ActiveSlugs(dict), cc);
    var r := Response(dict, rs);
    ResponseEnds(dict, rs);
    LabelIsLast(dict);
    forall j | 0 <= j < |r| ensures r[j].count == |Counted(AllItems(pages), r[j].id, dict, cc)| {
      ResponseCounts(dict, pages, cc, j);
    }
    forall j | 0 <= j < |r| - 1 ensures r[j].id != "other" && Entered(dict, r[j].id, r[j].caption) {
      ResponseEnters(dict, rs, j);
    }
    forall d | d in dict && !d.archived && d.slug != "other" ensures Lists(r, d.slug, d.caption) {
      ResponseLists(dict, rs, d);
    }
  }
}

/** The endpoint: walks the pages, counts, and builds the response. */
module PluginService {
  import opened Redis
  import opened Versions
  import opened CategoriesModel
  import opened CategoriesReport

  /** A tally agrees with a list of categories. */
  ghost predicate Tallies(counts: map<string, nat>, rs: seq<string>) {
    forall s :: Count(rs, s) == if s in counts then counts[s] else 0
  }

  function CountIn(counts: map<string, nat>, s: string): nat {
    if s in counts then counts[s] else 0
  }

  method ActiveSlugSet(dict: seq<CategoryDict>) returns (active: set<string>)
    ensures active == ActiveSlugs(dict)
  {
    active := {};
    for i := 0 to |dict|
      invariant active == ActiveSlugs(dict[..i])
    {
      assert dict[..i + 1] == dict[..i] + [dict[i]];
      if !dict[i].archived { active := active + {dict[i].slug}; }
    }
    assert dict[..|dict|] == dict;
  }

  method CountPage(items: seq<PackageListItem>, active: set<string>, cc: CompatContext, counts: map<string, nat>,
                   ghost rs: seq<string>)
    returns (next: map<string, nat>)
    requires Tallies(counts, rs)
    ensures Tallies(next, rs + Resolved(items, active, cc))
  {
    next := counts;
    assert rs + [] == rs;
    for i := 0 to |items|
      invariant Tallies(next, rs + Resolved(items[..i], active, cc))
    {
      assert items[..i + 1][..i] == items[..i];
      ghost var before := rs + Resolved(items[..i], active, cc);
      if CompatiblePackage(items[i], cc) {
        var s := Resolve(items[i].slug, active);
        assert rs + Resolved(items[..i + 1], active, cc) == before + [s];
        TallyOne(next, before, s);
        next := next[s := CountIn(next, s) + 1];
      } else {
        assert rs + Resolved(items[..i + 1], active, cc) == before;
      }
    }
    assert items[..|items|] == items;
  }

  lemma TallyOne(counts: map<string, nat>, rs: seq<string>, s: string)
    requires Tallies(counts, rs)
    ensures Tallies(counts[s := CountIn(counts, s) + 1], rs + [s])
  {
    assert (rs + [s])[..|rs|] == rs;
  }

  method WithoutArchived(dict: seq<CategoryDict>) returns (active: seq<CategoryDict>)
    ensures active == Active(dict)
  {
    active := [];
    for i := 0 to |dict|
      invariant active == Active(dict[..i])
    {
      assert dict[..i + 1][..i] == dict[..i];
      if !dict[i].archived { active := active + [dict[i]]; }
    }
    assert dict[..|dict|] == dict;
  }

  /** The named entries in order; the last category is put aside, whatever its order. */
  method Collect(active: seq<CategoryDict>, counts: map<string, nat>, ghost rs: seq<string>)
    returns (out: seq<CategoryCount>, other: string)
    requires Tallies(counts, rs)
    ensures out == Entries(Named(active), rs) && other == OtherLabel(active)
  {
    out := [];
    other := UNCATEGORIZED_LABEL;
    for i := 0 to |active|
      invariant out == Entries(Named(active[..i]), rs)
      invariant other == OtherLabel(active[..i])
    {
      var d := active[i];
      assert active[..i + 1] == active[..i] + [d];
      NamedStep(active[..i], d);
      if d.slug == UNCATEGORIZED_ID {
        other := d.caption;
      } else {
        EntryStep(Named(active[..i]), d, rs);
        out := out + [CategoryCount(d.slug, d.caption, CountIn(counts, d.slug))];
      }
    }
    assert active[..|active|] == active;
  }

  method BuildCategoriesResponse(dict: seq<CategoryDict>, counts: map<string, nat>, ghost rs: seq<string>)
    returns (out: seq<CategoryCount>)
    requires Tallies(counts, rs)
    ensures out == Response(dict, rs)
  {
    var active := WithoutArchived(dict);
    var named, other := Collect(StableSort(active), counts, rs);
    return named + [CategoryCount(UNCATEGORIZED_ID, other, CountIn(counts, UNCATEGORIZED_ID))];
  }

  /** Follows the cursors until there is none, the hub fails, or a thousand pages have been read. */
  method CountPages(hub: Hub, active: set<string>, cc: CompatContext)
    returns (r: Option<map<string, nat>>, ghost pages: seq<Page>)
    ensures pages == Walk(hub, 0, "").pages && (r.None? <==> Walk(hub, 0, "").failed)
    ensures r.Some? ==> Tallies(r.value, ResolvedPages(pages, active, cc))
  {
    var counts: map<string, nat>, cursor := map[], "";
    pages := [];
    assert [] + Walk(hub, 0, "").pages == Walk(hub, 0, "").pages;
    for i := 0 to MAX_PAGES
      invariant Tallies(counts, ResolvedPages(pages, active, cc))
      invariant Walked(hub, pages, i, cursor)
    {
      WalkEnds(hub, pages, i, cursor);
      var page := hub(i, cursor);
      if page.None? { return None, pages; }
      WalkStep(hub, pages, i, cursor);
      PagesSnoc(pages, page.value, active, cc);
      counts := CountPage(page.value.items, active, cc, counts, ResolvedPages(pages, active, cc));
      pages := pages + [page.value];
      if page.value.nextCursor.None? || page.value.nextCursor.value == "" {
        return Some(counts), pages;
      }
      cursor := page.value.nextCursor.value;
    }
    WalkEnds(hub, pages, MAX_PAGES, cursor);
    return Some(counts), pages;
  }

  /** An error of the hub is the answer; otherwise the response counts the compatible items of
      every page the cursors lead to, at most a thousand of them. */
  method PluginCategories(dictionary: Option<seq<CategoryDict>>, hub: Hub, cc: CompatContext)
    returns (r: Option<seq<CategoryCount>>, ghost pages: seq<Page>)
    ensures r.Some? <==> dictionary.Some? && !Walk(hub, 0, "").failed
    ensures r.Some? ==>
              var all, dict := Walk(hub, 0, "").pages, dictionary.value;
              && r.value == Response(dict, ResolvedPages(all, ActiveSlugs(dict), cc))
              && Total(r.value) >= CompatibleOf(all, cc)
              && (DistinctSlugs(Active(dict)) ==> Total(r.value) == CompatibleOf(all, cc))
    // The pages are those the cursors lead to, and the response counts what they hold.
    ensures dictionary.Some? ==>
              Followed(hub, Fetch(pages, r.None?), 0, "")
              && (r.Some? ==> CategoriesReport.Reports(r.value, dictionary.value, AllItems(pages), cc))
    // The pages asked for, whether or not the last request failed.
    ensures pages == (if dictionary.None? then [] else Walk(hub, 0, "").pages) && |pages| <= MAX_PAGES
  {
    if dictionary.None? { return None, []; }
    var dict := dictionary.value;
    var active := ActiveSlugSet(dict);
    var counts;
    counts, pages := CountPages(hub, active, cc);
    WalkFollows(hub, 0, "");
    ResponseReports(dict, pages, cc);
    if counts.None? { return None, pages; }
    ghost var rs := ResolvedPages(pages, active, cc);
    var out := BuildCategoriesResponse(dict, counts.value, rs);
    PagesAreKnown(pages, dict, cc);
    OneCategoryEachPage(pages, active, cc);
    Conservation(dict, rs);
    if DistinctSlugs(Active(dict)) { DistinctSlugsConserve(dict, rs); }
    return Some(out), pages;
  }
}
