/** The Willhaben adapter: the list-page link extraction, the description
    blocks, the record of a detail page and the crawl over list pages with
    its page counter. The attribute lookup is the shared `GetAttribute`.
    A parsed page is given as the data its CSS selectors pick out. */
module Willhaben {
  import opened Text
  import opened Records
  import opened Crawl
  import opened Attributes

  const Base := "https://www.willhaben.at/iad/immobilien/mietwohnungen/wien"
  const SiteRoot := "https://www.willhaben.at"
  const HrefPrefix := "/iad/immobilien/"
  const TestIdPrefix := "search-result-entry-header-"

  /** `div[data-testid="ad-description-<name>"]`: its test id and its `get_text("\n", strip=True)`. */
  datatype DescBlock = DescBlock(testId: string, text: string)

  /** What the detail-page selectors find: the texts of `h1`, of the price
      span and of the address div (each possibly missing), the attribute
      items and the description blocks. */
  datatype DetailDoc = DetailDoc(
    title: Option<string>,
    price: Option<string>,
    address: Option<string>,
    attributes: seq<AttrItem>,
    blocks: seq<DescBlock>)

  /** A fetched page, parsed: the anchors a list page offers and the detail data. */
  datatype Page = Page(anchors: seq<Anchor>, detail: DetailDoc)

  // ---------------------------------------------------------------- list page

  /** The anchor matches `a[href^="/iad/immobilien/"][data-testid^="search-result-entry-header-"]`. */
  predicate IsResultLink(a: Anchor) {
    AttrStartsWith(a.href, HrefPrefix) && AttrStartsWith(a.testId, TestIdPrefix)
  }

  /** `urljoin(SITE, href)` of the matching anchors, in document order. The
      href is a path from the root, so it is appended to the site. */
  function ResultUrls(anchors: seq<Anchor>): seq<string> {
    if anchors == [] then []
    else
      var a := anchors[|anchors| - 1];
      ResultUrls(anchors[..|anchors| - 1]) + (if IsResultLink(a) then [SiteRoot + a.href.value] else [])
  }

  function ListLinks(anchors: seq<Anchor>): seq<string> {
    Dedup(ResultUrls(anchors))
  }

  lemma {:induction false} ResultUrlsAre(anchors: seq<Anchor>)
    ensures forall u :: u in ResultUrls(anchors) <==>
      exists i :: 0 <= i < |anchors| && IsResultLink(anchors[i]) && u == SiteRoot + anchors[i].href.value
  {
    if anchors != [] {
      var p := anchors[..|anchors| - 1];
      ResultUrlsAre(p);
      assert forall i :: 0 <= i < |p| ==> anchors[i] == p[i];
    }
  }

  /** `parse_list_page`: the absolute URLs of the result links, each once, in
      order of first appearance, and exactly those. */
  method ParseListPage(anchors: seq<Anchor>) returns (links: seq<string>)
    ensures links == ListLinks(anchors)
    ensures NoDuplicates(links)
    ensures forall u :: u in links <==>
      exists i :: 0 <= i < |anchors| && IsResultLink(anchors[i]) && u == SiteRoot + anchors[i].href.value
  {
    var found: seq<string> := [];
    for i := 0 to |anchors|
      invariant found == ResultUrls(anchors[..i])
    {
      assert anchors[..i + 1][..i] == anchors[..i];
      var a := anchors[i];
      if IsResultLink(a) {
        found := found + [SiteRoot + a.href.value];
      }
    }
    assert anchors[..|anchors|] == anchors;
    ResultUrlsAre(anchors);
    links := Dedup(found);
  }

  /** Every link is the site followed by an `/iad/immobilien/` path. */
  lemma ListLinksUnderSite(anchors: seq<Anchor>)
    ensures forall u :: u in ListLinks(anchors) ==>
      |SiteRoot + HrefPrefix| <= |u| && u[..|SiteRoot + HrefPrefix|] == SiteRoot + HrefPrefix
  {
    ResultUrlsAre(anchors);
    forall u | u in ListLinks(anchors)
      ensures |SiteRoot + HrefPrefix| <= |u| && u[..|SiteRoot + HrefPrefix|] == SiteRoot + HrefPrefix
    {
      var i :| 0 <= i < |anchors| && IsResultLink(anchors[i]) && u == SiteRoot + anchors[i].href.value;
      var h := anchors[i].href.value;
      assert h == HrefPrefix + h[|HrefPrefix|..];
      assert u == (SiteRoot + HrefPrefix) + h[|HrefPrefix|..];
    }
  }

  // ---------------------------------------------------------------- detail page

  /** The test id `get_description_block` selects for a block name. */
  function DescriptionId(name: string): string {
    "ad-description-" + name
  }

  /** The text of the first block with test id `id`, and `""` when there is none. */
  function FindBlock(blocks: seq<DescBlock>, id: string): (r: string)
    ensures (forall i :: 0 <= i < |blocks| ==> blocks[i].testId != id) ==> r == ""
    ensures forall k :: 0 <= k < |blocks| && blocks[k].testId == id
                        && (forall j :: 0 <= j < k ==> blocks[j].testId != id)
                        ==> r == blocks[k].text
  {
    if blocks == [] then ""
    else if blocks[0].testId == id then blocks[0].text
    else
      var r := FindBlock(blocks[1..], id);
      assert forall j :: 1 <= j < |blocks| ==> blocks[1..][j - 1] == blocks[j];
      r
  }

  /** `get_description_block(soup, name)`: never `None`; `""` when the block is absent. */
  function GetDescriptionBlock(blocks: seq<DescBlock>, name: string): (r: string)
    ensures (forall i :: 0 <= i < |blocks| ==> blocks[i].testId != DescriptionId(name)) ==> r == ""
    ensures forall k :: 0 <= k < |blocks| && blocks[k].testId == DescriptionId(name)
                        && (forall j :: 0 <= j < k ==> blocks[j].testId != DescriptionId(name))
                        ==> r == blocks[k].text
  {
    FindBlock(blocks, DescriptionId(name))
  }

  /** The attribute entries of the record: dictionary key and attribute title. */
  const AttributeFields: seq<(string, string)> := [
    ("objekttyp", "Objekttyp"), ("bautyp", "Bautyp"), ("zustand", "Zustand"),
    ("wohnfläche", "Wohnfläche"), ("grundfläche", "Grundfläche"), ("zimmer", "Zimmer"),
    ("stockwerk", "Stockwerk(e)"), ("böden", "Böden"), ("verfügbar", "Verfügbar"),
    ("befristung", "Befristung"), ("heizung", "Heizung"), ("einbauküche", "Einbauküche"),
    ("keller", "Keller"), ("abstellraum", "Abstellraum"), ("garage", "Garage"),
    ("carport", "Carport"), ("barrierefrei", "Barrierefrei"), ("fahrstuhl", "Fahrstuhl"),
    ("parkplatz", "Parkplatz"), ("balkon", "Balkon"), ("terrasse", "Terrasse"),
    ("teilmöbliert_/_möbliert", "Teilmöbliert / Möbliert")]

  /** The description entries of the record: dictionary key and block name. */
  const DescriptionFields: seq<(string, string)> := [
    ("objektbeschreibung", "Objektbeschreibung"), ("lage", "Lage"),
    ("ausstattung", "Ausstattung"), ("preis_und_detailinformation", "Preis und Detailinformation"),
    ("zusatzinformationen", "Zusatzinformationen"), ("sonstiges", "Sonstiges"),
    ("energieausweis_heizung", "Energieausweis/Heizung")]

  /** The dictionary `parse_detail_page` returns: the four text fields, then
      one value per entry of `AttributeFields` and one text per entry of
      `DescriptionFields`, in that order. */
  datatype Listing = Listing(
    url: string, titel: string, preis: string, address: string,
    attributes: seq<Value>, descriptions: seq<string>)

  /** The text of an element, or `""` when it is missing. */
  function TextOrEmpty(el: Option<string>): string {
    if el.Some? then el.value else ""
  }

  function AttributeValues(items: seq<AttrItem>): seq<Value> {
    seq(|AttributeFields|, i requires 0 <= i < |AttributeFields| => GetAttribute(items, AttributeFields[i].1))
  }

  function DescriptionTexts(blocks: seq<DescBlock>): seq<string> {
    seq(|DescriptionFields|, i requires 0 <= i < |DescriptionFields| => GetDescriptionBlock(blocks, DescriptionFields[i].1))
  }

  /** `parse_detail_page(html, url)`. */
  function DetailListing(doc: DetailDoc, url: string): Listing {
    Listing(url, TextOrEmpty(doc.title), TextOrEmpty(doc.price), TextOrEmpty(doc.address),
            AttributeValues(doc.attributes), DescriptionTexts(doc.blocks))
  }

  /** The record of a detail page: its `url` is the argument; a missing
      title, price or address element gives `""`; an attribute is `None`
      exactly when no item carries its title, and otherwise a string or
      `True`; a missing description block gives `""`. */
  lemma DetailListingShape(doc: DetailDoc, url: string)
    ensures var l := DetailListing(doc, url);
      && l.url == url
      && (doc.title.None? ==> l.titel == "")
      && (doc.price.None? ==> l.preis == "")
      && (doc.address.None? ==> l.address == "")
      && |l.attributes| == |AttributeFields| && |l.descriptions| == |DescriptionFields|
    ensures var l := DetailListing(doc, url);
      forall i :: 0 <= i < |AttributeFields| ==>
        && (l.attributes[i].Null? <==>
              forall j :: 0 <= j < |doc.attributes| ==> !AttrMatches(doc.attributes[j], AttributeFields[i].1))
        && (l.attributes[i].Null? || l.attributes[i].Str? || l.attributes[i] == Bool(true))
    ensures var l := DetailListing(doc, url);
      forall i :: 0 <= i < |DescriptionFields| ==>
        (forall j :: 0 <= j < |doc.blocks| ==> doc.blocks[j].testId != DescriptionId(DescriptionFields[i].1))
        ==> l.descriptions[i] == ""
  {
  }

  // ---------------------------------------------------------------- record view

  /** Keys paired with values, as far as both go. */
  function Pairs(keys: seq<(string, string)>, vals: seq<Value>): (r: seq<(string, Value)>)
    ensures |r| == if |keys| < |vals| then |keys| else |vals|
    ensures forall i :: 0 <= i < |r| ==> r[i] == (keys[i].0, vals[i])
  {
    if keys == [] || vals == [] then [] else [(keys[0].0, vals[0])] + Pairs(keys[1..], vals[1..])
  }

  function StrAll(ts: seq<string>): (r: seq<Value>)
    ensures |r| == |ts| && forall i :: 0 <= i < |ts| ==> r[i] == Str(ts[i])
  {
    if ts == [] then [] else [Str(ts[0])] + StrAll(ts[1..])
  }

  /** The entries of the dictionary display, in the order `parse_detail_page` writes them. */
  function Entries(l: Listing): seq<(string, Value)> {
    [("url", Str(l.url)), ("titel", Str(l.titel)), ("preis", Str(l.preis)), ("address", Str(l.address))]
    + Pairs(AttributeFields, l.attributes) + Pairs(DescriptionFields, StrAll(l.descriptions))
  }

  function ListingRecord(l: Listing): Record {
    RecordOf(Entries(l))
  }

  function KeysOf(fields: seq<(string, string)>): set<string> {
    set i | 0 <= i < |fields| :: fields[i].0
  }

  lemma PairsKeys(fields: seq<(string, string)>, vals: seq<Value>)
    requires |vals| == |fields|
    ensures EntryKeys(Pairs(fields, vals)) == KeysOf(fields)
  {
    var ps := Pairs(fields, vals);
    forall k | k in KeysOf(fields) ensures k in EntryKeys(ps) {
      var i :| 0 <= i < |fields| && fields[i].0 == k;
      assert ps[i].0 == k;
    }
  }

  lemma HeadKeys(a: Value, b: Value, c: Value, d: Value)
    ensures EntryKeys([("url", a), ("titel", b), ("preis", c), ("address", d)]) == {"url", "titel", "preis", "address"}
  {
    var h1 := [("url", a)];
    var h2 := h1 + [("titel", b)];
    var h3 := h2 + [("preis", c)];
    var h4 := h3 + [("address", d)];
    assert h1[..0] == [];
    assert EntryKeys(h1) == {"url"};
    assert h2[..1] == h1;
    assert EntryKeys(h2) == EntryKeys(h1) + {"titel"};
    assert h3[..2] == h2;
    assert EntryKeys(h3) == EntryKeys(h2) + {"preis"};
    assert h4[..3] == h3;
    assert EntryKeys(h4) == EntryKeys(h3) + {"address"};
    assert h4 == [("url", a), ("titel", b), ("preis", c), ("address", d)];
  }

  /** The keys of a detail record: the four text fields, the attribute keys
      and the description keys. */
  lemma ListingRecordKeys(l: Listing)
    requires |l.attributes| == |AttributeFields| && |l.descriptions| == |DescriptionFields|
    ensures ListingRecord(l).Keys == {"url", "titel", "preis", "address"} + KeysOf(AttributeFields) + KeysOf(DescriptionFields)
  {
    var head := [("url", Str(l.url)), ("titel", Str(l.titel)), ("preis", Str(l.preis)), ("address", Str(l.address))];
    var a := Pairs(AttributeFields, l.attributes);
    var d := Pairs(DescriptionFields, StrAll(l.descriptions));
    assert Entries(l) == (head + a) + d;
    EntryKeysAppend(head + a, d);
    EntryKeysAppend(head, a);
    PairsKeys(AttributeFields, l.attributes);
    PairsKeys(DescriptionFields, StrAll(l.descriptions));
    HeadKeys(Str(l.url), Str(l.titel), Str(l.preis), Str(l.address));
  }

  /** The `url` entry of a detail record is the page's URL: no later entry reuses the key. */
  lemma ListingRecordUrl(l: Listing)
    ensures "url" in ListingRecord(l) && ListingRecord(l)["url"] == Str(l.url)
  {
    UrlKeyUnique(l);
    RecordOfAt(Entries(l), 0);
  }

  lemma FieldKeysNotUrl()
    ensures forall i :: 0 <= i < |AttributeFields| ==> AttributeFields[i].0 != "url"
    ensures forall i :: 0 <= i < |DescriptionFields| ==> DescriptionFields[i].0 != "url"
  {
  }

  /** No attribute or description entry is keyed `url`. */
  lemma UrlKeyUnique(l: Listing)
    ensures forall j :: 0 < j < |Entries(l)| ==> Entries(l)[j].0 != "url"
  {
    var a := Pairs(AttributeFields, l.attributes);
    var d := Pairs(DescriptionFields, StrAll(l.descriptions));
    FieldKeysNotUrl();
    assert forall j :: 4 <= j < |Entries(l)| ==> Entries(l)[j] in a || Entries(l)[j] in d;
  }

  // ---------------------------------------------------------------- crawl

  /** `f"{BASE}?page={page}"`. */
  function ListUrl(page: nat): (u: string)
    ensures |Base| < |u| && u[..|Base|] == Base
  {
    Base + "?page=" + NatToString(page)
  }

  /** The detail links of a fetched list page. */
  function LinksOf(p: Page): seq<string> {
    ListLinks(p.anchors)
  }

  /** The record of a fetched detail page. */
  function ListingOf(p: Page, url: string): Listing {
    DetailListing(p.detail, url)
  }

  const WillhabenSite: Site<Page, Listing> := Site(ListUrl, LinksOf, ListingOf)

  /** `scrape_pages(pages)`: the crawl over list pages `1..pages` with this
      adapter's list URL, link extraction and record, counting the list
      pages it finishes. */
  method ScrapePages(pages: int, fetch: string -> Fetch<Page>) returns (run: Run<Listing>, counter: nat)
    ensures run == CrawlRun(WillhabenSite, fetch, pages)
    ensures run.Completed? ==> counter == PageCount(pages)
    ensures run.Aborted? ==> counter < PageCount(pages)
  {
    run, counter := ScrapeCounting(WillhabenSite, fetch, pages);
  }

  /** A completed Willhaben crawl: one record per distinct result link of
      the visited list pages, in order of first appearance, each carrying
      its link as `url`; as many records as distinct links. */
  lemma ScrapeListings(fetch: string -> Fetch<Page>, pages: int)
    ensures match CrawlRun(WillhabenSite, fetch, pages)
      case Completed(items) =>
        && |items| == |set u | u in Listed(WillhabenSite, fetch, PageCount(pages))|
        && (forall i :: 0 <= i < |items| ==>
              var u := items[i].url;
              && u in Listed(WillhabenSite, fetch, PageCount(pages))
              && fetch(u).Fetched? && items[i] == DetailListing(fetch(u).doc.detail, u))
        && (forall i, j :: 0 <= i < j < |items| ==> items[i].url != items[j].url)
      case Aborted(u) => fetch(u).Failed?
  {
    CrawlRunSpec(WillhabenSite, fetch, pages);
    DedupCountsDistinct(Listed(WillhabenSite, fetch, PageCount(pages)));
    match CrawlRun(WillhabenSite, fetch, pages)
    case Aborted(_) =>
    case Completed(items) =>
      var d := Dedup(Listed(WillhabenSite, fetch, PageCount(pages)));
      forall i | 0 <= i < |items| ensures items[i].url == d[i] {
        assert items[i] == ListingOf(fetch(d[i]).doc, d[i]);
      }
  }
}
