/** What both site adapters share: anchors of a list page, the
    order-preserving de-duplication `list(dict.fromkeys(links))`, and the
    outcome of a fetch and of a whole crawl run. */
module Crawl {
  import opened Text

  /** An `<a>` element of a list page with the attributes the selectors test. */
  datatype Anchor = Anchor(href: Option<string>, testId: Option<string>)

  /** The CSS test `[attr^="prefix"]`: the attribute is present and starts with `prefix`. */
  predicate AttrStartsWith(attr: Option<string>, prefix: string) {
    attr.Some? && |prefix| <= |attr.value| && attr.value[..|prefix|] == prefix
  }

  /** What `fetch(url)` gives: the parsed page, or a failure status
      (`raise_for_status` raises; the scrapers do not catch it). */
  datatype Fetch<D> = Fetched(doc: D) | Failed

  /** A crawl run either completes with its records or is aborted by the
      first failing fetch, naming its URL. */
  datatype Run<T> = Completed(items: seq<T>) | Aborted(url: string)

  predicate NoDuplicates<T(==)>(s: seq<T>) {
    forall i, j :: 0 <= i < j < |s| ==> s[i] != s[j]
  }

  /** The index of the first occurrence of `x` in `s`. */
  function FirstIndex<T(==)>(s: seq<T>, x: T): (k: nat)
    requires x in s
    ensures k < |s| && s[k] == x
    ensures forall j :: 0 <= j < k ==> s[j] != x
  {
    if s[0] == x then 0 else 1 + FirstIndex(s[1..], x)
  }

  /** `list(dict.fromkeys(s))`: keeps the first occurrence of every element.
      The result holds exactly the elements of `s`, none twice. */
  function Dedup(s: seq<string>): (r: seq<string>)
    ensures forall x :: x in r <==> x in s
    ensures NoDuplicates(r)
    ensures |r| <= |s|
  {
    if s == [] then []
    else
      var d := Dedup(s[..|s| - 1]);
      var x := s[|s| - 1];
      assert forall y :: y in s <==> y in s[..|s| - 1] || y == x by {
        assert s == s[..|s| - 1] + [x];
      }
      if x in d then d else d + [x]
  }

  /** One more element extends the de-duplicated sequence exactly when it is new. */
  lemma DedupSnoc(s: seq<string>, x: string)
    ensures Dedup(s + [x]) == if x in s then Dedup(s) else Dedup(s) + [x]
  {
    assert (s + [x])[..|s|] == s;
  }

  lemma FirstIndexSnoc(s: seq<string>, x: string, y: string)
    requires y in s
    ensures FirstIndex(s + [x], y) == FirstIndex(s, y)
  {
    var k := FirstIndex(s, y);
    var k' := FirstIndex(s + [x], y);
    assert (s + [x])[k] == y;
  }

  /** The kept elements appear in the order of their first occurrences. */
  lemma {:induction false} DedupKeepsFirstOccurrenceOrder(s: seq<string>)
    ensures forall i, j :: 0 <= i < j < |Dedup(s)| ==>
              FirstIndex(s, Dedup(s)[i]) < FirstIndex(s, Dedup(s)[j])
  {
    if s != [] {
      var p := s[..|s| - 1];
      var x := s[|s| - 1];
      assert s == p + [x];
      DedupKeepsFirstOccurrenceOrder(p);
      var d := Dedup(p);
      forall y | y in d ensures FirstIndex(s, y) == FirstIndex(p, y) {
        FirstIndexSnoc(p, x, y);
      }
      if x !in p {
        assert FirstIndex(s, x) == |p|;
      }
    }
  }

  /** The number of kept elements is the number of distinct elements. */
  lemma {:induction false} DedupCountsDistinct(s: seq<string>)
    ensures |Dedup(s)| == |set x | x in s|
  {
    if s != [] {
      var p := s[..|s| - 1];
      var x := s[|s| - 1];
      assert s == p + [x];
      DedupCountsDistinct(p);
      if x in p {
        assert (set y | y in s) == (set y | y in p);
      } else {
        assert (set y | y in s) == (set y | y in p) + {x};
      }
    }
  }

  /** De-duplicating twice changes nothing. */
  lemma {:induction false} DedupIdempotent(s: seq<string>)
    ensures Dedup(Dedup(s)) == Dedup(s)
  {
    DedupOfDistinct(Dedup(s));
  }

  lemma {:induction false} DedupOfDistinct(s: seq<string>)
    requires NoDuplicates(s)
    ensures Dedup(s) == s
  {
    if s != [] {
      var p := s[..|s| - 1];
      assert s == p + [s[|s| - 1]];
      DedupOfDistinct(p);
    }
  }

  // ---------------------------------------------------------------- the crawl

  /** What distinguishes the two adapters' crawls: the URL of list page `p`,
      the detail links `parse_list_page` takes from a list page, and the
      record `parse_detail_page` builds from a detail page and its URL. */
  datatype Site<!P, T> = Site(listUrl: nat -> string, links: P -> seq<string>, parse: (P, string) -> T)

  /** The state of `scrape_pages` between steps: the records so far and the
      set `seen`, or the URL whose fetch raised. */
  datatype Crawling<T> = Going(items: seq<T>, seen: set<string>) | Stopped(url: string)

  /** One pass of the inner loop: a URL already seen is skipped; otherwise it
      is marked seen, fetched and parsed, and its record appended. */
  function VisitDetail<P, T>(site: Site<P, T>, fetch: string -> Fetch<P>, s: Crawling<T>, u: string): Crawling<T> {
    match s
    case Stopped(_) => s
    case Going(items, seen) =>
      if u in seen then s
      else match fetch(u)
        case Failed => Stopped(u)
        case Fetched(doc) => Going(items + [site.parse(doc, u)], seen + {u})
  }

  /** The inner loop over the links of one list page. */
  function VisitDetails<P, T>(site: Site<P, T>, fetch: string -> Fetch<P>, s: Crawling<T>, us: seq<string>): Crawling<T> {
    if us == [] then s
    else VisitDetail(site, fetch, VisitDetails(site, fetch, s, us[..|us| - 1]), us[|us| - 1])
  }

  /** One pass of the outer loop: fetch list page `page`, then visit its links. */
  function VisitPage<P, T>(site: Site<P, T>, fetch: string -> Fetch<P>, s: Crawling<T>, page: nat): Crawling<T> {
    if s.Stopped? then s
    else match fetch(site.listUrl(page))
      case Failed => Stopped(site.listUrl(page))
      case Fetched(doc) => VisitDetails(site, fetch, s, site.links(doc))
  }

  /** The outer loop over list pages `1..n`. */
  function VisitPages<P, T>(site: Site<P, T>, fetch: string -> Fetch<P>, n: nat): Crawling<T> {
    if n == 0 then Going([], {}) else VisitPage(site, fetch, VisitPages(site, fetch, n - 1), n)
  }

  /** The number of list pages `range(1, pages + 1)` visits. */
  function PageCount(pages: int): nat {
    if pages < 1 then 0 else pages
  }

  /** `scrape_pages(pages)`: the records, or the URL of the fetch that raised. */
  function CrawlRun<P, T>(site: Site<P, T>, fetch: string -> Fetch<P>, pages: int): Run<T> {
    match VisitPages(site, fetch, PageCount(pages))
    case Going(items, _) => Completed(items)
    case Stopped(u) => Aborted(u)
  }

  // An independent description of the outcome.

  /** The detail links list page `page` offers (none when it cannot be fetched). */
  function PageLinks<P, T>(site: Site<P, T>, fetch: string -> Fetch<P>, page: nat): seq<string> {
    match fetch(site.listUrl(page))
    case Failed => []
    case Fetched(doc) => site.links(doc)
  }

  /** The detail links of list pages `1..n` in crawl order, repeats included. */
  function Listed<P, T>(site: Site<P, T>, fetch: string -> Fetch<P>, n: nat): seq<string> {
    if n == 0 then [] else Listed(site, fetch, n - 1) + PageLinks(site, fetch, n)
  }

  /** `items` are the records of the pages at `urls`, one each, in order. */
  predicate Corresponds<P, T(==)>(site: Site<P, T>, fetch: string -> Fetch<P>, items: seq<T>, urls: seq<string>) {
    |items| == |urls| &&
    forall i :: 0 <= i < |urls| ==> fetch(urls[i]).Fetched? && items[i] == site.parse(fetch(urls[i]).doc, urls[i])
  }

  /** A running crawl that has seen the links `listed` holds one record per
      distinct link, in order of first appearance, and has seen exactly them. */
  predicate Consistent<P, T(==)>(site: Site<P, T>, fetch: string -> Fetch<P>, items: seq<T>, seen: set<string>, listed: seq<string>) {
    Corresponds(site, fetch, items, Dedup(listed)) && seen == set x | x in listed
  }

  /** Visiting one more link keeps the crawl consistent with the links
      visited, or stops at that link because its fetch failed. */
  lemma VisitDetailStep<P, T>(site: Site<P, T>, fetch: string -> Fetch<P>,
                              items: seq<T>, seen: set<string>, listed: seq<string>, u: string)
    requires Consistent(site, fetch, items, seen, listed)
    ensures match VisitDetail(site, fetch, Going(items, seen), u)
      case Going(items', seen') => Consistent(site, fetch, items', seen', listed + [u])
      case Stopped(v) => v == u && fetch(u).Failed?
  {
    DedupSnoc(listed, u);
    assert u in seen <==> u in listed;
    if u !in seen && fetch(u).Fetched? {
      var d := Dedup(listed);
      var items' := items + [site.parse(fetch(u).doc, u)];
      forall i | 0 <= i < |d + [u]|
        ensures fetch((d + [u])[i]).Fetched? && items'[i] == site.parse(fetch((d + [u])[i]).doc, (d + [u])[i])
      {
        if i < |d| {
          assert (d + [u])[i] == d[i];
        }
      }
    }
  }

  /** The inner loop keeps the crawl consistent with the links visited, and
      stops only at one of them whose fetch failed. */
  lemma {:induction false} VisitDetailsSpec<P, T>(site: Site<P, T>, fetch: string -> Fetch<P>,
                                                      items: seq<T>, seen: set<string>, listed: seq<string>, us: seq<string>)
    requires Consistent(site, fetch, items, seen, listed)
    ensures match VisitDetails(site, fetch, Going(items, seen), us)
      case Going(items', seen') => Consistent(site, fetch, items', seen', listed + us)
      case Stopped(u) => fetch(u).Failed? && u in us
  {
    if us == [] {
      assert listed + us == listed;
    } else {
      var p := us[..|us| - 1];
      var u := us[|us| - 1];
      assert us == p + [u];
      assert listed + us == (listed + p) + [u];
      VisitDetailsSpec(site, fetch, items, seen, listed, p);
      match VisitDetails(site, fetch, Going(items, seen), p)
      case Stopped(_) =>
      case Going(items', seen') =>
        VisitDetailStep(site, fetch, items', seen', listed + p, u);
    }
  }

  lemma {:induction false} ListedPrefix<P, T>(site: Site<P, T>, fetch: string -> Fetch<P>, m: nat, n: nat)
    requires m <= n
    ensures forall u :: u in Listed(site, fetch, m) ==> u in Listed(site, fetch, n)
  {
    if m < n {
      ListedPrefix(site, fetch, m, n - 1);
    }
  }

  /** A property every list page's links have holds of all listed links. */
  lemma {:induction false} ListedSatisfy<P, T>(site: Site<P, T>, fetch: string -> Fetch<P>, n: nat, good: string -> bool)
    requires forall doc, u :: u in site.links(doc) ==> good(u)
    ensures forall u :: u in Listed(site, fetch, n) ==> good(u)
  {
    if n > 0 {
      ListedSatisfy(site, fetch, n - 1, good);
      assert Listed(site, fetch, n) == Listed(site, fetch, n - 1) + PageLinks(site, fetch, n);
      match fetch(site.listUrl(n))
      case Failed =>
      case Fetched(doc) =>
        assert forall u :: u in site.links(doc) ==> good(u);
    }
  }

  /** The outer loop keeps the crawl consistent with the links of the pages
      visited; it stops only at a list page or a listed link whose fetch failed. */
  lemma {:induction false} VisitPagesSpec<P, T>(site: Site<P, T>, fetch: string -> Fetch<P>, n: nat)
    ensures match VisitPages(site, fetch, n)
      case Going(items, seen) => Consistent(site, fetch, items, seen, Listed(site, fetch, n))
      case Stopped(u) =>
        fetch(u).Failed? && (u in Listed(site, fetch, n) || exists p :: 1 <= p <= n && u == site.listUrl(p))
  {
    if n > 0 {
      VisitPagesSpec(site, fetch, n - 1);
      ListedPrefix(site, fetch, n - 1, n);
      match VisitPages(site, fetch, n - 1)
      case Stopped(u) =>
      case Going(items, seen) =>
        match fetch(site.listUrl(n))
        case Failed =>
        case Fetched(doc) =>
          VisitDetailsSpec(site, fetch, items, seen, Listed(site, fetch, n - 1), site.links(doc));
    }
  }

  /** What `scrape_pages` returns: when it completes, one record per distinct
      detail link of the visited list pages, in order of first appearance,
      each parsed from that link's page; when a fetch raises, that fetch
      failed and was of a visited list page or a listed link. */
  lemma CrawlRunSpec<P, T>(site: Site<P, T>, fetch: string -> Fetch<P>, pages: int)
    ensures match CrawlRun(site, fetch, pages)
      case Completed(items) => Corresponds(site, fetch, items, Dedup(Listed(site, fetch, PageCount(pages))))
      case Aborted(u) =>
        && fetch(u).Failed?
        && (u in Listed(site, fetch, PageCount(pages)) || exists p :: 1 <= p <= PageCount(pages) && u == site.listUrl(p))
  {
    VisitPagesSpec(site, fetch, PageCount(pages));
  }

  /** When every list page and every listed link can be fetched, the crawl
      completes, and no detail page is scraped twice. */
  lemma CrawlCompletes<P, T>(site: Site<P, T>, fetch: string -> Fetch<P>, pages: int)
    requires forall p :: 1 <= p <= PageCount(pages) ==> fetch(site.listUrl(p)).Fetched?
    requires forall u :: u in Listed(site, fetch, PageCount(pages)) ==> fetch(u).Fetched?
    ensures CrawlRun(site, fetch, pages).Completed?
    ensures |CrawlRun(site, fetch, pages).items| == |set u | u in Listed(site, fetch, PageCount(pages))|
  {
    CrawlRunSpec(site, fetch, pages);
    DedupCountsDistinct(Listed(site, fetch, PageCount(pages)));
  }

  /** Once stopped, the inner loop stays stopped. */
  lemma {:induction false} VisitDetailsStopped<P, T>(site: Site<P, T>, fetch: string -> Fetch<P>, s: Crawling<T>, us: seq<string>, j: nat)
    requires j <= |us| && VisitDetails(site, fetch, s, us[..j]).Stopped?
    ensures VisitDetails(site, fetch, s, us) == VisitDetails(site, fetch, s, us[..j])
  {
    if j < |us| {
      assert us[..|us| - 1][..j] == us[..j];
      VisitDetailsStopped(site, fetch, s, us[..|us| - 1], j);
    } else {
      assert us[..j] == us;
    }
  }

  /** Once stopped, the outer loop stays stopped. */
  lemma {:induction false} VisitPagesStopped<P, T>(site: Site<P, T>, fetch: string -> Fetch<P>, m: nat, n: nat)
    requires m <= n && VisitPages(site, fetch, m).Stopped?
    ensures VisitPages(site, fetch, n) == VisitPages(site, fetch, m)
  {
    if m < n {
      VisitPagesStopped(site, fetch, m, n - 1);
    }
  }

  // ---------------------------------------------------------------- the loops

  /** The inner loop of `scrape_pages` over the links of one list page: a
      link already in `seen` is skipped; a new one is added to `seen`,
      fetched and parsed, and its record appended. */
  method ScrapeLinks<P, T>(site: Site<P, T>, fetch: string -> Fetch<P>, detailUrls: seq<string>,
                           items: seq<T>, seen: set<string>) returns (st: Crawling<T>)
    ensures st == VisitDetails(site, fetch, Going(items, seen), detailUrls)
  {
    var allItems := items;
    var seenNow := seen;
    for j := 0 to |detailUrls|
      invariant VisitDetails(site, fetch, Going(items, seen), detailUrls[..j]) == Going(allItems, seenNow)
    {
      var durl := detailUrls[j];
      assert detailUrls[..j + 1][..j] == detailUrls[..j];
      if durl in seenNow {
        continue;
      }
      seenNow := seenNow + {durl};
      var detailPage := fetch(durl);
      if detailPage.Failed? {
        VisitDetailsStopped(site, fetch, Going(items, seen), detailUrls, j + 1);
        return Stopped(durl);
      }
      var item := site.parse(detailPage.doc, durl);
      allItems := allItems + [item];
    }
    assert detailUrls[..|detailUrls|] == detailUrls;
    st := Going(allItems, seenNow);
  }

  /** `scrape_pages(pages)`, which both adapters write out the same way:
      for each list page `1..pages`, fetch it, take its links, and visit the
      new ones; the first fetch that fails ends the run. */
  method Scrape<P, T>(site: Site<P, T>, fetch: string -> Fetch<P>, pages: int) returns (run: Run<T>)
    ensures run == CrawlRun(site, fetch, pages)
  {
    var allItems: seq<T> := [];
    var seen: set<string> := {};
    var page := 1;
    while page <= pages
      invariant 1 <= page <= PageCount(pages) + 1
      invariant VisitPages(site, fetch, page - 1) == Going(allItems, seen)
    {
      var listUrl := site.listUrl(page);
      var listPage := fetch(listUrl);
      if listPage.Failed? {
        VisitPagesStopped(site, fetch, page, PageCount(pages));
        return Aborted(listUrl);
      }
      var detailUrls := site.links(listPage.doc);
      var st := ScrapeLinks(site, fetch, detailUrls, allItems, seen);
      if st.Stopped? {
        VisitPagesStopped(site, fetch, page, PageCount(pages));
        return Aborted(st.url);
      }
      allItems, seen := st.items, st.seen;
      page := page + 1;
    }
    run := Completed(allItems);
  }

  /** The same loop with the page counter the Willhaben adapter keeps (and
      reports after every list page): the counter is the number of list
      pages whose links were all visited, so a completed run has counted
      every page, and an aborted one stopped during page `counter + 1`. */
  method ScrapeCounting<P, T>(site: Site<P, T>, fetch: string -> Fetch<P>, pages: int) returns (run: Run<T>, counter: nat)
    ensures run == CrawlRun(site, fetch, pages)
    ensures counter <= PageCount(pages)
    ensures VisitPages(site, fetch, counter).Going?
    ensures run.Completed? ==> counter == PageCount(pages)
    ensures run.Aborted? ==> counter < PageCount(pages) && VisitPages(site, fetch, counter + 1).Stopped?
  {
    var allItems: seq<T> := [];
    var seen: set<string> := {};
    counter := 0;
    var page := 1;
    while page <= pages
      invariant 1 <= page <= PageCount(pages) + 1
      invariant counter == page - 1
      invariant VisitPages(site, fetch, page - 1) == Going(allItems, seen)
    {
      var listUrl := site.listUrl(page);
      var listPage := fetch(listUrl);
      if listPage.Failed? {
        VisitPagesStopped(site, fetch, page, PageCount(pages));
        return Aborted(listUrl), counter;
      }
      var detailUrls := site.links(listPage.doc);
      var st := ScrapeLinks(site, fetch, detailUrls, allItems, seen);
      if st.Stopped? {
        VisitPagesStopped(site, fetch, page, PageCount(pages));
        return Aborted(st.url), counter;
      }
      allItems, seen := st.items, st.seen;
      counter := counter + 1;
      page := page + 1;
    }
    run := Completed(allItems);
  }
}
