/**
  The paged scan of a repository's releases: one page a request, stopping early once a release older than the
  window shows up, against the plain filter of the whole list.
*/
module ReleasesScan {
  import opened Common

  type Instant = int

  /** When a release says it was published; `Malformed` is a text that is no date. */
  datatype Published = Undated | Malformed | At(time: Instant)
  datatype Release = Release(id: nat, draft: bool, published: Published)

  datatype Window = Window(start: Instant, end: Instant)

  datatype Disposition = Complete | Continue(page: nat) | Partial(reason: string)
  datatype PageResult = PageResult(items: seq<Release>, disposition: Disposition)

  /** A comparison with a malformed date is false, so a malformed date is in every window. */
  predicate Kept(w: Window, r: Release) {
    !r.draft && !r.published.Undated? && (r.published.Malformed? || w.start <= r.published.time < w.end)
  }

  predicate Older(w: Window, r: Release) {
    !r.draft && r.published.At? && r.published.time < w.start && r.published.time < w.end
  }

  /** Of two adjacent windows exactly one keeps what the window of both keeps, if it is dated. */
  lemma AdjacentWindows(a: Instant, b: Instant, c: Instant, r: Release)
    requires a <= b <= c && r.published.At?
    ensures Kept(Window(a, c), r) <==> Kept(Window(a, b), r) || Kept(Window(b, c), r)
    ensures !(Kept(Window(a, b), r) && Kept(Window(b, c), r))
    ensures Kept(Window(a, a + 1), r) <==> !r.draft && r.published.time == a
  {}

  /** An undated release and a draft are in no window, one with a malformed date in every one. */
  lemma WithoutDate(w: Window, id: nat, published: Published)
    ensures !Kept(w, Release(id, true, published)) && !Kept(w, Release(id, false, Undated))
    ensures Kept(w, Release(id, false, Malformed))
  {}

  function Filter(w: Window, q: seq<Release>): seq<Release> {
    if q == [] then [] else (if Kept(w, q[0]) then [q[0]] else []) + Filter(w, q[1..])
  }

  ghost predicate AnyOlder(w: Window, q: seq<Release>) {
    exists i :: 0 <= i < |q| && Older(w, q[i])
  }

  lemma {:induction false} FilterSplit(w: Window, p: seq<Release>, q: seq<Release>)
    ensures Filter(w, p + q) == Filter(w, p) + Filter(w, q)
  {
    if p == [] {
      assert p + q == q;
    } else {
      FilterSplit(w, p[1..], q);
      ConsSplit(p, q);
      Associative(if Kept(w, p[0]) then [p[0]] else [], Filter(w, p[1..]), Filter(w, q));
    }
  }

  /** `link` is whether the response's link header names a next page; without the header a full page means one. */
  method CollectPage(
      releases: seq<Release>, link: Option<bool>, page: nat, perPage: nat, w: Window, feedOnlyBackfill: bool)
    returns (r: PageResult)
    ensures r.items == Filter(w, releases)
    ensures AnyOlder(w, releases) ==> r.disposition == Complete
    ensures !AnyOlder(w, releases) ==>
              r.disposition == if link == Some(true) || (link == None && |releases| == perPage) then Continue(page + 1)
                               else if feedOnlyBackfill then Partial("history_unsupported") else Complete
  {
    var hasNextPage := if link.Some? then link.value else |releases| == perPage;
    var items := [];
    var reachedOlderThanWindow := false;
    for i := 0 to |releases|
      invariant items == Filter(w, releases[..i])
      invariant reachedOlderThanWindow <==> AnyOlder(w, releases[..i])
    {
      var release := releases[i];
      assert releases[..i + 1] == releases[..i] + [release];
      FilterSplit(w, releases[..i], [release]);
      assert Filter(w, [release]) == if Kept(w, release) then [release] else [] by { assert [release][1..] == []; }
      assert AnyOlder(w, releases[..i + 1]) <==> AnyOlder(w, releases[..i]) || Older(w, release) by {
        OlderSplit(w, releases[..i], [release]);
        OlderOne(w, release);
      }
      if release.draft { continue; }
      if release.published.Undated? { continue; }
      if release.published.At? && release.published.time >= w.end { continue; }
      if release.published.At? && release.published.time < w.start {
        reachedOlderThanWindow := true;
        continue;
      }
      items := items + [release];
    }
    assert releases[..|releases|] == releases;
    var disposition := if reachedOlderThanWindow then Complete
                       else if hasNextPage then Continue(page + 1)
                       else if feedOnlyBackfill then Partial("history_unsupported") else Complete;
    r := PageResult(items, disposition);
  }

  lemma OlderSplit(w: Window, p: seq<Release>, q: seq<Release>)
    ensures AnyOlder(w, p + q) <==> AnyOlder(w, p) || AnyOlder(w, q)
  {
    if AnyOlder(w, p) {
      var i :| 0 <= i < |p| && Older(w, p[i]);
      assert (p + q)[i] == p[i];
    }
    if AnyOlder(w, q) {
      var i :| 0 <= i < |q| && Older(w, q[i]);
      assert (p + q)[|p| + i] == q[i];
    }
  }

  lemma OlderOne(w: Window, r: Release)
    ensures AnyOlder(w, [r]) <==> Older(w, r)
  {
    assert [r][0] == r;
  }

  predicate HasNext(count: nat, link: Option<bool>, perPage: nat) {
    if link.Some? then link.value else count == perPage
  }

  // ---------- Following the pages ----------

  /** What the link header of each page says, and the request's settings. */
  datatype Site = Site(links: nat -> Option<bool>, perPage: nat, window: Window, feedOnlyBackfill: bool)

  /** The next page of the releases that are left, and what is left after it. */
  function PageOf(site: Site, rest: seq<Release>): seq<Release> {
    if |rest| <= site.perPage then rest else rest[..site.perPage]
  }

  function After(site: Site, rest: seq<Release>): seq<Release> {
    rest[|PageOf(site, rest)|..]
  }

  /** Pages are not empty, and a link header tells the truth: `rest` is what pages from `page` on show. */
  ghost predicate Honest(site: Site, rest: seq<Release>, page: nat)
    decreases |rest|
  {
    && site.perPage >= 1
    && (site.links(page).Some? ==> (site.links(page).value <==> |rest| > site.perPage))
    && (|rest| >= site.perPage ==> Honest(site, After(site, rest), page + 1))
  }

  ghost predicate More(site: Site, rest: seq<Release>, page: nat) {
    !AnyOlder(site.window, PageOf(site, rest)) && HasNext(|PageOf(site, rest)|, site.links(page), site.perPage)
  }

  /** All items, from the given page on: what a worker that follows the cursors collects. */
  ghost function Scan(site: Site, rest: seq<Release>, page: nat): seq<Release>
    requires Honest(site, rest, page)
    decreases |rest|
  {
    Filter(site.window, PageOf(site, rest))
    + if More(site, rest, page) then Scan(site, After(site, rest), page + 1) else []
  }

  /** How many releases the pages show that are asked for. */
  ghost function Seen(site: Site, rest: seq<Release>, page: nat): (n: nat)
    requires Honest(site, rest, page)
    ensures n <= |rest|
    decreases |rest|
  {
    |PageOf(site, rest)| + if More(site, rest, page) then Seen(site, After(site, rest), page + 1) else 0
  }

  ghost function Requests(site: Site, rest: seq<Release>, page: nat): nat
    requires Honest(site, rest, page)
    decreases |rest|
  {
    1 + if More(site, rest, page) then Requests(site, After(site, rest), page + 1) else 0
  }

  lemma Prefixes(w: Window, rest: seq<Release>, a: nat, b: nat)
    requires a + b <= |rest|
    ensures Filter(w, rest[..a + b]) == Filter(w, rest[..a]) + Filter(w, rest[a..][..b])
  {
    assert rest[..a + b] == rest[..a] + rest[a..][..b];
    FilterSplit(w, rest[..a], rest[a..][..b]);
  }

  /** The scan collects, in order, what the window keeps of the releases seen. */
  lemma {:induction false} ScanIsPrefix(site: Site, rest: seq<Release>, page: nat)
    requires Honest(site, rest, page)
    ensures Scan(site, rest, page) == Filter(site.window, rest[..Seen(site, rest, page)])
    decreases |rest|
  {
    var first := PageOf(site, rest);
    assert rest[..|first|] == first;
    if More(site, rest, page) {
      ScanIsPrefix(site, After(site, rest), page + 1);
      Prefixes(site.window, rest, |first|, Seen(site, After(site, rest), page + 1));
    }
  }

  // ---------- What the early stop loses ----------

  lemma {:induction false} NothingKeptIff(w: Window, q: seq<Release>)
    ensures Filter(w, q) == [] <==> forall i :: 0 <= i < |q| ==> !Kept(w, q[i])
  {
    if q != [] {
      NothingKeptIff(w, q[1..]);
      assert forall i :: 0 <= i < |q[1..]| ==> q[1..][i] == q[i + 1];
      assert forall i :: 0 < i < |q| ==> q[i] == q[1..][i - 1];
    }
  }

  /** The page, from 0, that shows the release at a position of the list. */
  function PageOfIndex(i: nat, perPage: nat): nat
    requires perPage >= 1
  {
    i / perPage
  }

  /** No release to keep is on a later page than one that is older than the window. */
  ghost predicate NoneBehindOlder(site: Site, q: seq<Release>)
    requires site.perPage >= 1
  {
    forall i, j :: 0 <= i < |q| && 0 <= j < |q| && Older(site.window, q[i]) && Kept(site.window, q[j]) ==>
      PageOfIndex(j, site.perPage) <= PageOfIndex(i, site.perPage)
  }

  lemma QuotientIs(a: nat, q: nat, r: nat, b: nat)
    requires a == q * b + r && r < b
    ensures a / b == q
  {
    var d := a / b;
    assert d * b <= a < (d + 1) * b;
    if d < q { TimesMonotone(d + 1, q, b); }
    if d > q {
      TimesMonotone(q + 1, d, b);
      OneMore(q, b);
    }
  }

  lemma PageLater(i: nat, perPage: nat)
    requires perPage >= 1
    ensures PageOfIndex(perPage + i, perPage) == PageOfIndex(i, perPage) + 1
  {
    OneMore(i / perPage, perPage);
    QuotientIs(perPage + i, i / perPage + 1, i % perPage, perPage);
  }

  lemma PagesInOrder(i: nat, j: nat, perPage: nat)
    requires perPage >= 1 && j <= i
    ensures PageOfIndex(j, perPage) <= PageOfIndex(i, perPage)
  {
    if PageOfIndex(j, perPage) > PageOfIndex(i, perPage) {
      OneMore(i / perPage, perPage);
      TimesMonotone(i / perPage + 1, j / perPage, perPage);
    }
  }

  lemma FirstPage(i: nat, perPage: nat)
    requires perPage >= 1
    ensures PageOfIndex(i, perPage) == 0 <==> i < perPage
  {
    if i >= perPage { PageLater(i - perPage, perPage); } else { QuotientIs(i, 0, i, perPage); }
  }

  /** With nothing older on the first, full page, the condition is that of the later pages. */
  lemma LaterPagesDecide(site: Site, rest: seq<Release>)
    requires site.perPage >= 1 && |rest| >= site.perPage && !AnyOlder(site.window, rest[..site.perPage])
    ensures NoneBehindOlder(site, rest) <==> NoneBehindOlder(site, rest[site.perPage..])
  {
    var p := site.perPage;
    var after := rest[p..];
    forall i | 0 <= i < |after|
      ensures after[i] == rest[p + i] && PageOfIndex(p + i, p) == PageOfIndex(i, p) + 1
    {
      PageLater(i, p);
    }
    forall i | 0 <= i < p ensures !Older(site.window, rest[i]) {
      assert rest[..p][i] == rest[i];
    }
    if NoneBehindOlder(site, after) {
      forall i, j | 0 <= i < |rest| && 0 <= j < |rest| && Older(site.window, rest[i]) && Kept(site.window, rest[j])
        ensures PageOfIndex(j, p) <= PageOfIndex(i, p)
      {
        assert i >= p;
        assert rest[i] == after[i - p] && p + (i - p) == i;
        if j < p {
          FirstPage(j, p);
        } else {
          assert rest[j] == after[j - p] && p + (j - p) == j;
        }
      }
    }
  }

  /** With an older release on the first page, the condition is that nothing later is kept. */
  lemma FirstPageDecides(site: Site, rest: seq<Release>)
    requires site.perPage >= 1 && AnyOlder(site.window, PageOf(site, rest))
    ensures NoneBehindOlder(site, rest) <==> Filter(site.window, After(site, rest)) == []
  {
    var w, p, first, after := site.window, site.perPage, PageOf(site, rest), After(site, rest);
    NothingKeptIff(w, after);
    var i :| 0 <= i < |first| && Older(w, first[i]);
    assert rest[i] == first[i];
    FirstPage(i, p);
    forall j | 0 <= j < |after|
      ensures after[j] == rest[|first| + j] && PageOfIndex(|first| + j, p) > 0
    {
      FirstPage(|first| + j, p);
    }
    forall j | 0 <= j < |rest| && Kept(w, rest[j]) && PageOfIndex(j, p) > 0
      ensures exists k :: 0 <= k < |after| && Kept(w, after[k])
    {
      FirstPage(j, p);
      assert rest[j] == after[j - |first|];
    }
  }

  /** A page without an older release at which the scan stops is the last. */
  lemma LastPage(site: Site, rest: seq<Release>, page: nat)
    requires Honest(site, rest, page) && !More(site, rest, page) && !AnyOlder(site.window, PageOf(site, rest))
    ensures After(site, rest) == [] && NoneBehindOlder(site, rest)
  {
    forall i | 0 <= i < |rest| ensures !Older(site.window, rest[i]) {
      assert PageOf(site, rest)[i] == rest[i];
    }
  }

  lemma CancelPrefix<T>(a: seq<T>, b: seq<T>, c: seq<T>)
    ensures a + b == a + c <==> b == c
  {
    if a + b == a + c {
      assert (a + b)[|a|..] == b && (a + c)[|a|..] == c;
    }
  }

  /**
    The scan finds everything exactly when no release to keep is on a later page of the list than one that is
    older than the window.
  */
  lemma {:induction false} ScanCompleteIff(site: Site, rest: seq<Release>, page: nat)
    requires Honest(site, rest, page)
    ensures Scan(site, rest, page) == Filter(site.window, rest) <==> NoneBehindOlder(site, rest)
    decreases |rest|
  {
    var w, after := site.window, After(site, rest);
    var first := Filter(w, PageOf(site, rest));
    assert rest == PageOf(site, rest) + after;
    FilterSplit(w, PageOf(site, rest), after);
    if More(site, rest, page) {
      CancelPrefix(first, Scan(site, after, page + 1), Filter(w, after));
      ScanCompleteIff(site, after, page + 1);
      LaterPagesDecide(site, rest);
    } else {
      CancelPrefix(first, [], Filter(w, after));
      if AnyOlder(w, PageOf(site, rest)) { FirstPageDecides(site, rest); } else { LastPage(site, rest, page); }
    }
  }

  const UNSORTED := [Release(0, false, At(5)), Release(1, false, At(15))]
  const ONE_A_PAGE := Site(_ => None, 1, Window(10, 20), false)

  /** An older release first, and one of the window behind it: the scan collects nothing. */
  lemma EarlyStopLosesRelease()
    ensures Honest(ONE_A_PAGE, UNSORTED, 1)
    ensures Scan(ONE_A_PAGE, UNSORTED, 1) == []
    ensures Filter(ONE_A_PAGE.window, UNSORTED) == [UNSORTED[1]]
  {
    var site, list := ONE_A_PAGE, UNSORTED;
    assert Honest(site, [], 3);
    assert list[1..] == [list[1]] && list[1..][1..] == [];
    assert After(site, list) == list[1..] && After(site, list[1..]) == [];
    assert Honest(site, list[1..], 2);
    assert list[..1] == [list[0]] && [list[0]][1..] == [];
    OlderOne(site.window, list[0]);
    assert Filter(site.window, [list[0]]) == [];
    assert Filter(site.window, [list[1]]) == [list[1]];
  }

  /** The dated releases that are not drafts come newest first, and every date is one. */
  ghost predicate NewestFirst(q: seq<Release>) {
    && (forall i :: 0 <= i < |q| && !q[i].draft ==> !q[i].published.Malformed?)
    && (forall i, j :: 0 <= i < j < |q| && !q[i].draft && !q[j].draft && q[i].published.At? && q[j].published.At? ==>
         q[i].published.time >= q[j].published.time)
  }

  /** On a newest-first list the early stop loses nothing. */
  lemma SortedScanIsFilter(site: Site, list: seq<Release>)
    requires Honest(site, list, 1) && NewestFirst(list)
    ensures Scan(site, list, 1) == Filter(site.window, list)
  {
    ScanCompleteIff(site, list, 1);
    forall i, j | 0 <= i < |list| && 0 <= j < |list| && Older(site.window, list[i]) && Kept(site.window, list[j])
      ensures PageOfIndex(j, site.perPage) <= PageOfIndex(i, site.perPage)
    {
      assert j <= i;
      PagesInOrder(i, j, site.perPage);
    }
  }

  lemma OneMore(a: nat, b: nat)
    ensures (a + 1) * b == a * b + b
  {}

  lemma {:induction false} PagesBefore(site: Site, rest: seq<Release>, page: nat)
    requires Honest(site, rest, page)
    ensures (Requests(site, rest, page) - 1) * site.perPage <= |rest|
    decreases |rest|
  {
    if More(site, rest, page) {
      var after := After(site, rest);
      PagesBefore(site, after, page + 1);
      OneMore(Requests(site, after, page + 1) - 1, site.perPage);
    }
  }

  lemma QuotientBound(a: nat, b: nat, c: nat)
    requires b > 0 && a * b <= c
    ensures a <= c / b
  {
    var q := c / b;
    assert c < (q + 1) * b;
    if a > q { TimesMonotone(q + 1, a, b); }
  }

  /** Requests made: never more than the number of full pages and one. */
  lemma RequestsBounded(site: Site, list: seq<Release>)
    requires Honest(site, list, 1)
    ensures Requests(site, list, 1) <= |list| / site.perPage + 1
  {
    PagesBefore(site, list, 1);
    QuotientBound(Requests(site, list, 1) - 1, site.perPage, |list|);
  }

  method RequestPage(site: Site, rest: seq<Release>, page: nat) returns (r: PageResult)
    ensures r.items == Filter(site.window, PageOf(site, rest))
    ensures r.disposition.Continue? <==> More(site, rest, page)
    ensures r.disposition.Continue? ==> r.disposition.page == page + 1
    ensures r.disposition.Partial? <==>
              !More(site, rest, page) && site.feedOnlyBackfill && !AnyOlder(site.window, PageOf(site, rest))
  {
    var releases := PageOf(site, rest);
    r := CollectPage(releases, site.links(page), page, site.perPage, site.window, site.feedOnlyBackfill);
  }

  /** A worker that follows the cursors: each page's disposition says whether to ask for the next one. */
  method FollowPages(site: Site, list: seq<Release>) returns (items: seq<Release>, requests: nat, last: Disposition)
    requires Honest(site, list, 1)
    ensures items == Scan(site, list, 1) && requests == Requests(site, list, 1)
    ensures !last.Continue?
    ensures last.Partial? ==> site.feedOnlyBackfill
  {
    var rest, page := list, 1;
    items, requests := [], 0;
    while true
      invariant Honest(site, rest, page)
      invariant items + Scan(site, rest, page) == Scan(site, list, 1)
      invariant requests + Requests(site, rest, page) == Requests(site, list, 1)
      decreases |rest|
    {
      var r := RequestPage(site, rest, page);
      ghost var later := if More(site, rest, page) then Scan(site, After(site, rest), page + 1) else [];
      Associative(items, r.items, later);
      items, requests, last := items + r.items, requests + 1, r.disposition;
      if !last.Continue? { return; }
      rest, page := After(site, rest), last.page;
    }
  }
}
