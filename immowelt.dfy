/** The Immowelt adapter: the list-page link extraction, the detail-page
    lookups (hard facts, address, equipment, key-value list, free-text
    features), the record assembly and the crawl over list pages.
    A parsed page is given as the data its CSS selectors pick out. */
module Immowelt {
  import opened Text
  import opened Records
  import opened Pattern
  import opened Crawl

  const Base := "https://www.immowelt.at/suche/wien/wohnungen/mieten?d=true&sd=DESC&sf=TIMESTAMP"
  const ExposePrefix := "https://www.immowelt.at/projekte/expose/"

  /** `.hardfact`: its label text and the text of its `strong, span.has-font-300`, each possibly missing. */
  datatype Hardfact = Hardfact(caption: Option<string>, value: Option<string>)

  /** `sd-card .textlist li`: the text of its `span.color-grey-500` key (if any) and the whole item's text. */
  datatype TextItem = TextItem(key: Option<string>, text: string)

  /** What the detail-page selectors find. `equipment` holds, per
      `sd-card .equipment sd-cell-col`, the texts of its `<p>` elements. */
  datatype DetailDoc = DetailDoc(
    title: Option<string>,
    hardfacts: seq<Hardfact>,
    street: Option<string>,
    city: Option<string>,
    equipment: seq<seq<string>>,
    textlist: seq<TextItem>)

  /** A fetched page, parsed: the anchors a list page offers and the detail data. */
  datatype Page = Page(anchors: seq<Anchor>, detail: DetailDoc)

  function OptStr(o: Option<string>): Value {
    match o
    case None => Null
    case Some(s) => Str(s)
  }

  // ---------------------------------------------------------------- list page

  /** The hrefs of `a[href^="https://www.immowelt.at/projekte/expose/"]`, in
      document order. They are absolute, so `urljoin(SITE, href)` is `href`. */
  function ExposeHrefs(anchors: seq<Anchor>): seq<string> {
    if anchors == [] then []
    else
      var a := anchors[|anchors| - 1];
      ExposeHrefs(anchors[..|anchors| - 1]) + (if AttrStartsWith(a.href, ExposePrefix) then [a.href.value] else [])
  }

  function ListLinks(anchors: seq<Anchor>): seq<string> {
    Dedup(ExposeHrefs(anchors))
  }

  lemma {:induction false} ExposeHrefsAre(anchors: seq<Anchor>)
    ensures forall u :: u in ExposeHrefs(anchors) <==>
      exists i :: 0 <= i < |anchors| && AttrStartsWith(anchors[i].href, ExposePrefix) && anchors[i].href.value == u
  {
    if anchors != [] {
      var p := anchors[..|anchors| - 1];
      ExposeHrefsAre(p);
      assert forall i :: 0 <= i < |p| ==> anchors[i] == p[i];
    }
  }

  /** `parse_list_page`: the matching links, each once, in order of first
      appearance, and exactly the matching hrefs. */
  method ParseListPage(anchors: seq<Anchor>) returns (links: seq<string>)
    ensures links == ListLinks(anchors)
    ensures NoDuplicates(links)
    ensures forall u :: u in links <==>
      exists i :: 0 <= i < |anchors| && AttrStartsWith(anchors[i].href, ExposePrefix) && anchors[i].href.value == u
    ensures forall u :: u in links ==> |ExposePrefix| <= |u| && u[..|ExposePrefix|] == ExposePrefix
  {
    var found: seq<string> := [];
    for i := 0 to |anchors|
      invariant found == ExposeHrefs(anchors[..i])
    {
      assert anchors[..i + 1][..i] == anchors[..i];
      var a := anchors[i];
      if AttrStartsWith(a.href, ExposePrefix) {
        found := found + [a.href.value];
      }
    }
    assert anchors[..|anchors|] == anchors;
    ExposeHrefsAre(anchors);
    links := Dedup(found);
  }

  // ---------------------------------------------------------------- lookups

  /** The wanted label, casefolded, occurs inside the hard fact's label. */
  predicate HardfactMatches(hf: Hardfact, wanted: string) {
    hf.caption.Some? && Contains(Casefold(hf.caption.value), Strip(Casefold(wanted)))
  }

  predicate FirstHardfact(hfs: seq<Hardfact>, wanted: string, k: int) {
    0 <= k < |hfs| && HardfactMatches(hfs[k], wanted)
    && forall j :: 0 <= j < k ==> !HardfactMatches(hfs[j], wanted)
  }

  /** `get_hardfact`: a substring match, and the first matching hard fact
      decides, giving `None` when its value element is missing instead of
      searching on. */
  function GetHardfact(hfs: seq<Hardfact>, wanted: string): (r: Option<string>)
    ensures (forall i :: 0 <= i < |hfs| ==> !HardfactMatches(hfs[i], wanted)) ==> r.None?
    ensures forall k :: FirstHardfact(hfs, wanted, k) ==> r == hfs[k].value
  {
    if hfs == [] then None
    else if HardfactMatches(hfs[0], wanted) then hfs[0].value
    else
      var r := GetHardfact(hfs[1..], wanted);
      assert forall k :: FirstHardfact(hfs, wanted, k) ==> FirstHardfact(hfs[1..], wanted, k - 1);
      r
  }

  /** `get_address`: street and city joined by one space, empty parts dropped,
      then stripped; `""` when both are missing. */
  function GetAddress(street: Option<string>, city: Option<string>): (r: string)
    ensures IsStripped(r)
    ensures (street.None? || street == Some("")) && (city.None? || city == Some("")) ==> r == ""
    ensures street.Some? && city.Some? && street.value != "" && city.value != ""
            && IsStripped(street.value) && IsStripped(city.value)
            ==> r == street.value + " " + city.value
    ensures street.Some? && IsStripped(street.value) && (city.None? || city == Some("")) ==> r == street.value
    ensures city.Some? && IsStripped(city.value) && (street.None? || street == Some("")) ==> r == city.value
  {
    var st := if street.Some? then street.value else "";
    var ct := if city.Some? then city.value else "";
    var parts := (if st != "" then [st] else []) + (if ct != "" then [ct] else []);
    var joined := if parts == [] then "" else if |parts| == 1 then parts[0] else parts[0] + " " + parts[1];
    assert IsStripped(st) && IsStripped(ct) && st != "" && ct != "" ==> IsStripped(joined);
    Strip(joined)
  }

  /** The normalised label `wanted_label.casefold().strip()`, computed once per lookup. */
  function Wanted(name: string): string {
    Strip(Casefold(name))
  }

  /** The cell has two paragraphs and the first, casefolded, equals the normalised label. */
  predicate EquipmentMatches(ps: seq<string>, wanted: string) {
    |ps| >= 2 && Casefold(ps[0]) == wanted
  }

  predicate FirstEquipment(cells: seq<seq<string>>, wanted: string, k: int) {
    0 <= k < |cells| && EquipmentMatches(cells[k], wanted)
    && forall j :: 0 <= j < k ==> !EquipmentMatches(cells[j], wanted)
  }

  /** The loop of `get_equipment_value` over the cells, for a normalised label:
      cells with fewer than two paragraphs are skipped, and the first cell
      whose first paragraph equals the label gives its second. */
  function FindEquipment(cells: seq<seq<string>>, wanted: string): (r: Option<string>)
    ensures r.None? <==> forall i :: 0 <= i < |cells| ==> !EquipmentMatches(cells[i], wanted)
    ensures forall k :: FirstEquipment(cells, wanted, k) ==> r == Some(cells[k][1])
  {
    if cells == [] then None
    else if EquipmentMatches(cells[0], wanted) then Some(cells[0][1])
    else
      var r := FindEquipment(cells[1..], wanted);
      assert forall k :: FirstEquipment(cells, wanted, k) ==> FirstEquipment(cells[1..], wanted, k - 1);
      r
  }

  /** `get_equipment_value`: the label is normalised once, then the cells are searched. */
  function GetEquipmentValue(cells: seq<seq<string>>, name: string): (r: Option<string>)
    ensures r.None? <==> forall i :: 0 <= i < |cells| ==> !EquipmentMatches(cells[i], Wanted(name))
    ensures forall k :: FirstEquipment(cells, Wanted(name), k) ==> r == Some(cells[k][1])
  {
    FindEquipment(cells, Wanted(name))
  }

  /** The key, with trailing colons removed and casefolded, equals the label. */
  predicate KvMatches(item: TextItem, wanted: string) {
    item.key.Some? && Casefold(RStripChar(item.key.value, ':')) == Strip(Casefold(wanted))
  }

  predicate FirstKv(items: seq<TextItem>, wanted: string, k: int) {
    0 <= k < |items| && KvMatches(items[k], wanted)
    && forall j :: 0 <= j < k ==> !KvMatches(items[j], wanted)
  }

  /** The value one matching item yields: its text with the first occurrence
      of the key text removed, stripped, and `None` when nothing is left. */
  function KvValue(item: TextItem): (r: Option<string>)
    requires item.key.Some?
    ensures var rest := RemoveFirst(item.text, item.key.value);
      (r.None? <==> AllSpace(rest)) && (r.Some? ==> r.value == Strip(rest))
    ensures r.Some? ==> r.value != "" && IsStripped(r.value)
  {
    var value := Strip(RemoveFirst(item.text, item.key.value));
    if value == "" then None else Some(value)
  }

  /** `get_list_kv`: the first item whose key matches decides, through `KvValue`. */
  function GetListKv(items: seq<TextItem>, wanted: string): (r: Option<string>)
    ensures (forall i :: 0 <= i < |items| ==> !KvMatches(items[i], wanted)) ==> r.None?
    ensures forall k :: FirstKv(items, wanted, k) ==> r == KvValue(items[k])
  {
    if items == [] then None
    else if KvMatches(items[0], wanted) then KvValue(items[0])
    else
      var r := GetListKv(items[1..], wanted);
      assert forall j :: 1 <= j < |items| ==> items[1..][j - 1] == items[j];
      assert forall k :: FirstKv(items, wanted, k) ==> FirstKv(items[1..], wanted, k - 1);
      r
  }

  /** A found value is never empty and carries no surrounding whitespace. */
  lemma {:induction false} GetListKvNonEmpty(items: seq<TextItem>, wanted: string)
    ensures var r := GetListKv(items, wanted); r.Some? ==> r.value != "" && IsStripped(r.value)
  {
    if items != [] && !KvMatches(items[0], wanted) {
      GetListKvNonEmpty(items[1..], wanted);
    }
  }

  /** The usual layout of a key-value item, key text then value: the value
      comes back stripped, or `None` when it is blank. */
  lemma GetListKvOfKeyedItem(key: string, rest: string, wanted: string)
    requires KvMatches(TextItem(Some(key), key + rest), wanted)
    ensures GetListKv([TextItem(Some(key), key + rest)], wanted)
            == if AllSpace(rest) then None else Some(Strip(rest))
  {
    RemoveFirstOfPrefix(key, rest);
    assert FirstKv([TextItem(Some(key), key + rest)], wanted, 0);
  }

  /** `has_feature`: some item's casefolded text contains the casefolded,
      stripped needle. */
  function HasFeature(items: seq<TextItem>, needle: string): (r: bool)
    ensures r <==> exists i :: 0 <= i < |items| && Contains(Casefold(items[i].text), Strip(Casefold(needle)))
  {
    if items == [] then false
    else if Contains(Casefold(items[0].text), Strip(Casefold(needle))) then true
    else
      var r := HasFeature(items[1..], needle);
      assert forall i :: 1 <= i < |items| ==> items[i] == items[1..][i - 1];
      r
  }

  /** The non-empty item texts, in order. Each part is the text of some item. */
  function NonEmptyTexts(items: seq<TextItem>): (parts: seq<string>)
    ensures forall i :: 0 <= i < |parts| ==> parts[i] != ""
    ensures forall i :: 0 <= i < |parts| ==> exists j :: 0 <= j < |items| && items[j].text == parts[i]
  {
    if items == [] then []
    else
      var p := items[..|items| - 1];
      var t := items[|items| - 1].text;
      assert forall j :: 0 <= j < |p| ==> p[j] == items[j];
      NonEmptyTexts(p) + (if t != "" then [t] else [])
  }

  /** `idx` picks out `parts` from `items` in increasing item order, and
      picks every item whose text is non-empty. */
  predicate PicksNonEmpty(items: seq<TextItem>, parts: seq<string>, idx: seq<nat>) {
    && |idx| == |parts|
    && (forall i :: 0 <= i < |idx| ==> idx[i] < |items| && items[idx[i]].text == parts[i])
    && (forall i, k :: 0 <= i < k < |idx| ==> idx[i] < idx[k])
    && (forall j :: 0 <= j < |items| && items[j].text != "" ==> j in idx)
  }

  /** The collected parts are exactly the non-empty item texts, as a
      subsequence in item order. */
  lemma NonEmptyTextsInOrder(items: seq<TextItem>)
    ensures exists idx :: PicksNonEmpty(items, NonEmptyTexts(items), idx)
  {
    var idx := NonEmptyTextsPicks(items);
  }

  /** The picking indices, built item by item. */
  lemma {:induction false} NonEmptyTextsPicks(items: seq<TextItem>) returns (idx: seq<nat>)
    ensures PicksNonEmpty(items, NonEmptyTexts(items), idx)
  {
    if items == [] {
      assert NonEmptyTexts(items) == [];
      idx := [];
    } else {
      var n := |items| - 1;
      var p := items[..n];
      var it := items[n];
      assert items == p + [it];
      assert NonEmptyTexts(items) == NonEmptyTexts(p) + (if it.text != "" then [it.text] else []);
      var idx0 := NonEmptyTextsPicks(p);
      idx := PicksSnoc(items, NonEmptyTexts(items), p, it, NonEmptyTexts(p), idx0);
    }
  }

  /** One more item: picked when its text is non-empty, skipped otherwise. */
  lemma PicksSnoc(items: seq<TextItem>, parts: seq<string>, p: seq<TextItem>, it: TextItem,
                  ps: seq<string>, idx: seq<nat>) returns (idx': seq<nat>)
    requires items == p + [it] && parts == ps + (if it.text != "" then [it.text] else [])
    requires PicksNonEmpty(p, ps, idx)
    ensures PicksNonEmpty(items, parts, idx')
  {
    assert forall j :: 0 <= j < |p| ==> items[j] == p[j];
    if it.text != "" {
      idx' := idx + [|p|];
      forall j | 0 <= j < |items| && items[j].text != "" ensures j in idx' {
        if j < |p| {
          assert j in idx;
        } else {
          assert idx'[|idx|] == j;
        }
      }
    } else {
      idx' := idx;
    }
  }

  lemma {:induction false} NonEmptyTextsEmpty(items: seq<TextItem>)
    ensures NonEmptyTexts(items) == [] <==> forall i :: 0 <= i < |items| ==> items[i].text == ""
  {
    if items != [] {
      var p := items[..|items| - 1];
      NonEmptyTextsEmpty(p);
      assert forall i :: 0 <= i < |p| ==> p[i] == items[i];
    }
  }

  lemma {:induction false} NonEmptyTextsHas(items: seq<TextItem>, k: nat)
    requires k < |items| && items[k].text != ""
    ensures items[k].text in NonEmptyTexts(items)
  {
    var p := items[..|items| - 1];
    if k < |p| {
      NonEmptyTextsHas(p, k);
    }
  }

  /** The details text of a page: the non-empty item texts joined by line breaks. */
  function DetailsText(items: seq<TextItem>): string {
    JoinLines(NonEmptyTexts(items))
  }

  /** The details text is empty exactly when every item text is, and it
      contains each of them. */
  lemma DetailsTextProperties(items: seq<TextItem>)
    ensures DetailsText(items) == "" <==> forall i :: 0 <= i < |items| ==> items[i].text == ""
    ensures forall i :: 0 <= i < |items| && items[i].text != "" ==> Contains(DetailsText(items), items[i].text)
  {
    var parts := NonEmptyTexts(items);
    JoinLinesEmpty(parts);
    NonEmptyTextsEmpty(items);
    forall i | 0 <= i < |items| && items[i].text != "" ensures Contains(DetailsText(items), items[i].text) {
      NonEmptyTextsHas(items, i);
      var k :| 0 <= k < |parts| && parts[k] == items[i].text;
      JoinLinesContainsParts(parts, k);
    }
  }

  /** `get_details_text`: collects the non-empty item texts in a loop, then joins them. */
  method GetDetailsText(items: seq<TextItem>) returns (text: string)
    ensures text == DetailsText(items)
  {
    var parts: seq<string> := [];
    for i := 0 to |items|
      invariant parts == NonEmptyTexts(items[..i])
    {
      assert items[..i + 1][..i] == items[..i];
      var t := items[i].text;
      if t != "" {
        parts := parts + [t];
      }
    }
    assert items[..|items|] == items;
    text := JoinLines(parts);
  }

  // ---------------------------------------------------------------- free-text features

  /** `has_any(*needles)`: the casefolded text contains some casefolded needle. */
  predicate HasAny(t: string, needles: seq<string>) {
    needles != [] && (Contains(t, Casefold(needles[0])) || HasAny(t, needles[1..]))
  }

  /** The needles of the seven keyword flags, as `has_any` receives them. */
  const BalkonNeedles := ["balkon", "loggia"]
  const TerrasseNeedles := ["terrasse"]
  const FahrstuhlNeedles := ["personenaufzug", "aufzug", "lift"]
  const KuecheNeedles := ["einbauküche"]
  const KellerNeedles := ["keller"]
  const HaustiereNeedles := ["haustiere erlaubt"]
  const MoebliertNeedles := ["möbliert", "teilweise möbliert", "teilmöbliert"]

  lemma HasAnyOfThree(t: string, a: string, b: string, c: string)
    ensures HasAny(t, [a, b, c]) == (Contains(t, Casefold(a)) || Contains(t, Casefold(b)) || Contains(t, Casefold(c)))
  {
    assert [a, b, c][1..] == [b, c];
    HasAnyOfTwo(t, b, c);
  }

  lemma HasAnyOfTwo(t: string, a: string, b: string)
    ensures HasAny(t, [a, b]) == (Contains(t, Casefold(a)) || Contains(t, Casefold(b)))
  {
    assert [a, b][1..] == [b];
    HasAnyOfOne(t, b);
  }

  lemma HasAnyOfOne(t: string, a: string)
    ensures HasAny(t, [a]) == Contains(t, Casefold(a))
  {
    assert [a][1..] == [];
  }

  /** "personenaufzug" contains "aufzug": the elevator flag is "aufzug" or "lift". */
  lemma {:induction false} ElevatorNeedles(t: string)
    ensures HasAny(t, FahrstuhlNeedles) == (Contains(t, "aufzug") || Contains(t, "lift"))
  {
    assert Casefold("personenaufzug") == "personenaufzug";
    assert Casefold("aufzug") == "aufzug" && Casefold("lift") == "lift";
    if Contains(t, "personenaufzug") {
      assert "personenaufzug" == "personen" + "aufzug";
      ContainsSuffix(t, "personen", "aufzug");
    }
    HasAnyOfThree(t, "personenaufzug", "aufzug", "lift");
  }

  /** "teilweise möbliert" and "teilmöbliert" contain "möbliert": the
      furnished flag is "möbliert" alone. */
  lemma {:induction false} FurnishedNeedles(t: string)
    ensures HasAny(t, MoebliertNeedles) == Contains(t, "möbliert")
  {
    MoebliertNeedlesLower();
    MoebliertVariants(t);
    HasAnyOfThree(t, "möbliert", "teilweise möbliert", "teilmöbliert");
  }

  lemma MoebliertNeedlesLower()
    ensures Casefold("möbliert") == "möbliert"
    ensures Casefold("teilweise möbliert") == "teilweise möbliert"
    ensures Casefold("teilmöbliert") == "teilmöbliert"
  {
  }

  /** Both longer needles end in "möbliert". */
  lemma MoebliertVariants(t: string)
    ensures Contains(t, "teilweise möbliert") ==> Contains(t, "möbliert")
    ensures Contains(t, "teilmöbliert") ==> Contains(t, "möbliert")
  {
    if Contains(t, "teilweise möbliert") {
      assert "teilweise möbliert" == "teilweise " + "möbliert";
      ContainsSuffix(t, "teilweise ", "möbliert");
    }
    if Contains(t, "teilmöbliert") {
      assert "teilmöbliert" == "teil" + "möbliert";
      ContainsSuffix(t, "teil", "möbliert");
    }
  }

  /** "tiefgarage" contains "garage". */
  lemma {:induction false} GarageNeedles(t: string)
    ensures (Contains(t, "garage") || Contains(t, "tiefgarage")) == Contains(t, "garage")
  {
    if Contains(t, "tiefgarage") {
      assert "tiefgarage" == "tief" + "garage";
      ContainsSuffix(t, "tief", "garage");
    }
  }

  /** The remaining needles are already in lower case. */
  lemma PlainNeedles(t: string)
    ensures HasAny(t, BalkonNeedles) == (Contains(t, "balkon") || Contains(t, "loggia"))
    ensures HasAny(t, TerrasseNeedles) == Contains(t, "terrasse")
    ensures HasAny(t, KuecheNeedles) == Contains(t, "einbauküche")
    ensures HasAny(t, KellerNeedles) == Contains(t, "keller")
    ensures HasAny(t, HaustiereNeedles) == Contains(t, "haustiere erlaubt")
  {
    assert Casefold("balkon") == "balkon" && Casefold("loggia") == "loggia";
    assert Casefold("terrasse") == "terrasse" && Casefold("keller") == "keller";
    assert Casefold("einbauküche") == "einbauküche";
    assert Casefold("haustiere erlaubt") == "haustiere erlaubt";
    HasAnyOfTwo(t, "balkon", "loggia");
    HasAnyOfOne(t, "terrasse");
    HasAnyOfOne(t, "einbauküche");
    HasAnyOfOne(t, "keller");
    HasAnyOfOne(t, "haustiere erlaubt");
  }

  /** The labels the three patterns start with, in lower case. */
  const BoedenMarker := "böden:"
  const ZustandMarker := "zustand:"
  const BaujahrMarker := "baujahr:"

  /** A "Zustand:" value that actually names the construction type. */
  predicate IsEra(v: string) {
    Casefold(v) == "altbau" || Casefold(v) == "neubau"
  }

  /** The last construction-type value. */
  function LastEra(vs: seq<string>): (r: Option<string>)
    ensures r.None? <==> forall i :: 0 <= i < |vs| ==> !IsEra(vs[i])
    ensures r.Some? ==> exists i :: 0 <= i < |vs| && vs[i] == r.value && IsEra(vs[i])
                          && forall j :: i < j < |vs| ==> !IsEra(vs[j])
  {
    if vs == [] then None
    else if IsEra(vs[|vs| - 1]) then Some(vs[|vs| - 1])
    else
      var p := vs[..|vs| - 1];
      var r := LastEra(p);
      assert vs == p + [vs[|vs| - 1]];
      r
  }

  /** The first value that is not a construction type. */
  function FirstNonEra(vs: seq<string>): (r: Option<string>)
    ensures r.None? <==> forall i :: 0 <= i < |vs| ==> IsEra(vs[i])
    ensures r.Some? ==> exists i :: 0 <= i < |vs| && vs[i] == r.value && !IsEra(vs[i])
                          && forall j :: 0 <= j < i ==> IsEra(vs[j])
  {
    if vs == [] then None
    else if !IsEra(vs[0]) then Some(vs[0])
    else
      var r := FirstNonEra(vs[1..]);
      assert forall i :: 1 <= i < |vs| ==> vs[1..][i - 1] == vs[i];
      r
  }

  lemma {:induction false} FirstNonEraSnoc(vs: seq<string>, v: string)
    ensures FirstNonEra(vs + [v]) ==
      if FirstNonEra(vs).Some? then FirstNonEra(vs) else if IsEra(v) then None else Some(v)
  {
    if vs != [] {
      assert (vs + [v])[1..] == vs[1..] + [v];
      FirstNonEraSnoc(vs[1..], v);
    }
  }

  lemma LastEraSnoc(vs: seq<string>, v: string)
    ensures LastEra(vs + [v]) == if IsEra(v) then Some(v) else LastEra(vs)
  {
    assert (vs + [v])[..|vs|] == vs;
  }

  /** `[x.strip() for x in xs]`. */
  function StripAll(xs: seq<string>): seq<string> {
    seq(|xs|, i requires 0 <= i < |xs| => Strip(xs[i]))
  }

  /** The stripped captures of `zustand:\s*([^\n\r]+)`, in order. */
  function ZustandValues(text: string): seq<string> {
    StripAll(FindAllFrom(text, ZustandMarker, 0))
  }

  /** The stripped group of the first match of a line pattern, or `None`. */
  function FirstCapture(text: string, marker: string): Value {
    match SearchFrom(text, marker, 0)
    case None => Null
    case Some(m) => Str(Strip(m.group))
  }

  function YearValue(text: string): Value {
    match SearchYearFrom(text, BaujahrMarker, 0)
    case None => Null
    case Some(y) => Int(y)
  }

  /** The eleven entries of the dictionary `extract_features_from_details` returns. */
  datatype FeatureSet = FeatureSet(
    balkon: bool, terrasse: bool, fahrstuhl: bool, einbaukueche: bool,
    keller: bool, haustiere: bool, moebliert: bool,
    boeden: Value, zustand: Value, baujahr: Value, bautyp: Value)

  const FeatureKeys: set<string> := {
    "balkon", "terrasse", "fahrstuhl", "einbauküche", "keller", "haustiere_erlaubt",
    "teilmöbliert_/_möbliert", "böden", "zustand", "baujahr", "bautyp"}

  /** The entries under their dictionary keys. */
  function FeatureRecord(f: FeatureSet): Record {
    map[
      "balkon" := Bool(f.balkon),
      "terrasse" := Bool(f.terrasse),
      "fahrstuhl" := Bool(f.fahrstuhl),
      "einbauküche" := Bool(f.einbaukueche),
      "keller" := Bool(f.keller),
      "haustiere_erlaubt" := Bool(f.haustiere),
      "teilmöbliert_/_möbliert" := Bool(f.moebliert),
      "böden" := f.boeden,
      "zustand" := f.zustand,
      "baujahr" := f.baujahr,
      "bautyp" := f.bautyp
    ]
  }

  /** What `extract_features_from_details` computes, stated directly: each
      flag is a `has_any` keyword test on the casefolded text, `böden` and
      `baujahr` come from the first match of their patterns, `zustand` is
      the first "Zustand:" value that is not a construction type, and
      `bautyp` the last one that is. */
  function Features(text: string): FeatureSet {
    FeatureSet(
      HasAny(Casefold(text), BalkonNeedles),
      HasAny(Casefold(text), TerrasseNeedles),
      HasAny(Casefold(text), FahrstuhlNeedles),
      HasAny(Casefold(text), KuecheNeedles),
      HasAny(Casefold(text), KellerNeedles),
      HasAny(Casefold(text), HaustiereNeedles),
      HasAny(Casefold(text), MoebliertNeedles),
      FirstCapture(text, BoedenMarker),
      OptStr(FirstNonEra(ZustandValues(text))),
      YearValue(text),
      OptStr(LastEra(ZustandValues(text))))
  }

  /** The loop of `extract_features_from_details` over the stripped
      "Zustand:" values, entered with both entries reset to `None`: a
      construction type overwrites `bautyp`, any other value fills `zustand`
      only while it is still `None`. The loop body of `scraper_immowelt.py`
      is written twice, and the second pass never changes what the first one set. */
  method ClassifyZustand(vs: seq<string>) returns (zustand: Value, bautyp: Value)
    ensures zustand == OptStr(FirstNonEra(vs))
    ensures bautyp == OptStr(LastEra(vs))
  {
    zustand := Null;
    bautyp := Null;
    for k := 0 to |vs|
      invariant zustand == OptStr(FirstNonEra(vs[..k]))
      invariant bautyp == OptStr(LastEra(vs[..k]))
    {
      var v := vs[k];
      assert vs[..k + 1] == vs[..k] + [v];
      FirstNonEraSnoc(vs[..k], v);
      LastEraSnoc(vs[..k], v);
      var vl := Casefold(v);
      assert IsEra(v) <==> vl == "altbau" || vl == "neubau";
      if vl == "altbau" || vl == "neubau" {
        bautyp := Str(v);
      } else {
        if zustand == Null {
          zustand := Str(v);
        }
      }
      assert zustand == OptStr(FirstNonEra(vs[..k + 1])) && bautyp == OptStr(LastEra(vs[..k + 1]));
      vl := Casefold(v);
      if vl == "altbau" || vl == "neubau" {
        bautyp := Str(v);
      } else {
        if zustand == Null {
          zustand := Str(v);
        }
      }
    }
    assert vs[..|vs|] == vs;
  }

  /** `extract_features_from_details`. Each dictionary entry is kept in a
      local until the dictionary is assembled; the steps are those of the
      Python function, including the `has_any` guess of `bautyp` and the first search
      for `zustand`, both later reset to `None`, and the loop over the
      captures whose body is written twice. The result is `Features`. */
  method ExtractFeatures(detailsText: string) returns (out: FeatureSet)
    ensures out == Features(detailsText)
  {
    var t := Casefold(detailsText);
    var balkon := HasAny(t, BalkonNeedles);
    var terrasse := HasAny(t, TerrasseNeedles);
    var fahrstuhl := HasAny(t, FahrstuhlNeedles);
    var einbaukueche := HasAny(t, KuecheNeedles);
    var keller := HasAny(t, KellerNeedles);
    var haustiere := HasAny(t, HaustiereNeedles);
    var moebliert := HasAny(t, MoebliertNeedles);
    var boeden := FirstCapture(detailsText, BoedenMarker);
    var zustand := FirstCapture(detailsText, ZustandMarker);
    var baujahr := YearValue(detailsText);
    var bautyp := Null;
    if HasAny(t, ["neubau", "Neubau"]) {
      bautyp := Str("Neubau");
    } else if HasAny(t, ["altbau"]) {
      bautyp := Str("Altbau");
    }

    var caps := FindAllFrom(detailsText, ZustandMarker, 0);
    zustand, bautyp := ClassifyZustand(StripAll(caps));

    out := FeatureSet(balkon, terrasse, fahrstuhl, einbaukueche, keller, haustiere, moebliert,
                      boeden, zustand, baujahr, bautyp);
  }

  /** What the flags mean: the needle lists reduce to plain keyword tests. */
  lemma FeaturesMeaning(text: string)
    ensures var f := Features(text); var t := Casefold(text);
      && f.balkon == (Contains(t, "balkon") || Contains(t, "loggia"))
      && f.terrasse == Contains(t, "terrasse")
      && f.fahrstuhl == (Contains(t, "aufzug") || Contains(t, "lift"))
      && f.einbaukueche == Contains(t, "einbauküche")
      && f.keller == Contains(t, "keller")
      && f.haustiere == Contains(t, "haustiere erlaubt")
      && f.moebliert == Contains(t, "möbliert")
  {
    var t := Casefold(text);
    PlainNeedles(t);
    ElevatorNeedles(t);
    FurnishedNeedles(t);
  }

  /** What the captured entries can hold: the year is a four-digit number,
      `bautyp` is a construction-type value when present and `zustand` never is. */
  lemma FeatureValuesRange(text: string)
    ensures var f := Features(text);
      && (f.baujahr.Null? || (f.baujahr.Int? && 0 <= f.baujahr.i <= 9999))
      && (f.bautyp.Null? || (f.bautyp.Str? && IsEra(f.bautyp.s)))
      && (f.zustand.Null? || (f.zustand.Str? && !IsEra(f.zustand.s)))
  {
    var vs := ZustandValues(text);
    assert Features(text).zustand == OptStr(FirstNonEra(vs));
    assert Features(text).bautyp == OptStr(LastEra(vs));
  }

  /** The stripped "Zustand:" values of a text of two such lines are the two values. */
  lemma ZustandValuesOfTwoLines(text: string, v1: string, v2: string)
    requires LineValue(v1) && LineValue(v2) && text == TwoLines("Zustand:", v1, v2)
    ensures ZustandValues(text) == [v1, v2]
  {
    assert Casefold("Zustand:") == ZustandMarker;
    TwoLineCaptures("Zustand:", ZustandMarker, v1, v2);
    assert FindAllFrom(text, ZustandMarker, 0) == [v1, v2];
  }

  /** The worked case of a listing that states both: for the details text
      "Zustand: <v1>" newline "Zustand: <v2>" with a condition `v1` and a
      construction type `v2` (as in "Zustand: Renoviert" then "Zustand:
      Altbau"), `zustand` comes from the first line and `bautyp` from the
      second. */
  lemma ZustandExample(text: string, v1: string, v2: string)
    requires LineValue(v1) && LineValue(v2) && !IsEra(v1) && IsEra(v2)
    requires text == TwoLines("Zustand:", v1, v2)
    ensures Features(text).zustand == Str(v1)
    ensures Features(text).bautyp == Str(v2)
  {
    ZustandValuesOfTwoLines(text, v1, v2);
  }

  /** The two parking flags of `extract_garage_parkplatz`. */
  datatype Parking = Parking(garage: bool, parkplatz: bool)

  /** `extract_garage_parkplatz`: keyword tests on the casefolded text (`None`
      counts as empty). Both flags are false for a missing or empty text, and
      "garage" alone decides the garage flag. */
  function ExtractGarageParkplatz(detailsText: Option<string>): (r: Parking)
    ensures detailsText.None? || detailsText == Some("") ==> !r.garage && !r.parkplatz
    ensures r.garage <==> detailsText.Some? && Contains(Casefold(detailsText.value), "garage")
    ensures r.parkplatz <==> (detailsText.Some? &&
      var t := Casefold(detailsText.value);
      Contains(t, "stellplatz") || Contains(t, "parkplatz") || Contains(t, "carport"))
  {
    var t := Casefold(if detailsText.Some? then detailsText.value else "");
    GarageNeedles(t);
    Parking(Contains(t, "garage") || Contains(t, "tiefgarage"),
            Contains(t, "stellplatz") || Contains(t, "parkplatz") || Contains(t, "carport"))
  }

  // ---------------------------------------------------------------- detail page

  /** The dictionary `parse_detail_page` returns, one field per key; the
      eleven feature entries (`**feats`) are kept together. */
  datatype Listing = Listing(
    url: string, titel: string, preis: Value, wohnflaeche: Value, zimmer: Value,
    address: string, stockwerk: Value, verfuegbar: Value,
    garage: bool, parkplatz: bool, details: string, features: FeatureSet)

  const ListingKeys: set<string> := {
    "url", "titel", "preis", "wohnfläche", "zimmer", "address", "stockwerk",
    "verfügbar", "garage", "parkplatz", "details"}

  /** The entries before the features, under their dictionary keys. */
  function ListingEntries(l: Listing): Record {
    map[
      "url" := Str(l.url),
      "titel" := Str(l.titel),
      "preis" := l.preis,
      "wohnfläche" := l.wohnflaeche,
      "zimmer" := l.zimmer,
      "address" := Str(l.address),
      "stockwerk" := l.stockwerk,
      "verfügbar" := l.verfuegbar,
      "garage" := Bool(l.garage),
      "parkplatz" := Bool(l.parkplatz),
      "details" := Str(l.details)
    ]
  }

  /** The dictionary itself: `{..., **feats}`. */
  function ListingRecord(l: Listing): Record {
    ListingEntries(l) + FeatureRecord(l.features)
  }

  /** The labels `parse_detail_page` looks up. */
  const PreisLabel := "Gesamtmiete"
  const FlaecheLabel := "Wohnfläche"
  const ZimmerLabel := "Zimmer"
  const StockwerkLabel := "Wohnungslage"
  const BezugLabel := "Bezug"

  /** What a detail page yields, stated directly: a missing title is `""`, a
      missing hard fact or equipment value `None`, and the parking flags and
      the features come from the details text. */
  function DetailListing(doc: DetailDoc, url: string): Listing {
    var details := DetailsText(doc.textlist);
    var parking := ExtractGarageParkplatz(Some(details));
    Listing(
      url,
      if doc.title.Some? then doc.title.value else "",
      OptStr(GetHardfact(doc.hardfacts, PreisLabel)),
      OptStr(GetHardfact(doc.hardfacts, FlaecheLabel)),
      OptStr(GetHardfact(doc.hardfacts, ZimmerLabel)),
      GetAddress(doc.street, doc.city),
      OptStr(GetEquipmentValue(doc.equipment, StockwerkLabel)),
      OptStr(GetEquipmentValue(doc.equipment, BezugLabel)),
      parking.garage,
      parking.parkplatz,
      details,
      Features(details))
  }

  /** `parse_detail_page`. */
  method ParseDetailPage(doc: DetailDoc, url: string) returns (item: Listing)
    ensures item == DetailListing(doc, url)
  {
    var title := if doc.title.Some? then doc.title.value else "";
    var preis := GetHardfact(doc.hardfacts, PreisLabel);
    var area := GetHardfact(doc.hardfacts, FlaecheLabel);
    var rooms := GetHardfact(doc.hardfacts, ZimmerLabel);
    var address := GetAddress(doc.street, doc.city);
    var stockwerk := GetEquipmentValue(doc.equipment, StockwerkLabel);
    var bezug := GetEquipmentValue(doc.equipment, BezugLabel);
    var detailsText := GetDetailsText(doc.textlist);
    var feats := ExtractFeatures(detailsText);
    var garageParkplatz := ExtractGarageParkplatz(Some(detailsText));
    item := Listing(url, title, OptStr(preis), OptStr(area), OptStr(rooms), address,
                    OptStr(stockwerk), OptStr(bezug),
                    garageParkplatz.garage, garageParkplatz.parkplatz, detailsText, feats);
  }

  lemma FeatureRecordKeys(f: FeatureSet)
    ensures FeatureRecord(f).Keys == FeatureKeys
  {
  }

  lemma ListingEntriesKeys(l: Listing)
    ensures ListingEntries(l).Keys == ListingKeys
    ensures ListingEntries(l)["url"] == Str(l.url)
  {
  }

  /** Every listing dictionary holds exactly the listing and feature keys,
      and its `url` entry is the listing's URL. */
  lemma ListingRecordShape(l: Listing)
    ensures ListingRecord(l).Keys == ListingKeys + FeatureKeys
    ensures ListingRecord(l)["url"] == Str(l.url)
  {
    FeatureRecordKeys(l.features);
    ListingEntriesKeys(l);
    assert "url" !in FeatureKeys;
  }

  /** The listing of a detail page carries the page's URL and the features
      of its details text, which lists every non-empty item text. */
  lemma DetailListingShape(doc: DetailDoc, url: string)
    ensures DetailListing(doc, url).url == url
    ensures DetailListing(doc, url).features == Features(DetailListing(doc, url).details)
    ensures forall i :: 0 <= i < |doc.textlist| && doc.textlist[i].text != "" ==>
              Contains(DetailListing(doc, url).details, doc.textlist[i].text)
  {
    DetailsTextProperties(doc.textlist);
  }

  // ---------------------------------------------------------------- crawl

  /** `f"{BASE}&sp={page}"`. */
  function ListUrl(page: nat): (u: string)
    ensures |Base| < |u| && u[..|Base|] == Base
  {
    Base + "&sp=" + NatToString(page)
  }

  /** The detail links of a fetched list page. */
  function LinksOf(p: Page): seq<string> {
    ListLinks(p.anchors)
  }

  /** The record of a fetched detail page. */
  function ListingOf(p: Page, url: string): Listing {
    DetailListing(p.detail, url)
  }

  const ImmoweltSite: Site<Page, Listing> := Site(ListUrl, LinksOf, ListingOf)

  /** `scrape_pages(pages)`: the crawl over list pages `1..pages` with this
      adapter's list URL, link extraction and record assembly. */
  method ScrapePages(pages: int, fetch: string -> Fetch<Page>) returns (run: Run<Listing>)
    ensures run == CrawlRun(ImmoweltSite, fetch, pages)
  {
    run := Scrape(ImmoweltSite, fetch, pages);
  }

  predicate IsExpose(u: string) {
    |ExposePrefix| <= |u| && u[..|ExposePrefix|] == ExposePrefix
  }

  /** Every link a list page yields is an expose URL. */
  lemma LinksAreExposes(anchors: seq<Anchor>)
    ensures forall u :: u in ListLinks(anchors) ==> IsExpose(u)
  {
    ExposeHrefsAre(anchors);
  }

  /** So is every link of the visited list pages. */
  lemma ListedAreExposes(fetch: string -> Fetch<Page>, n: nat)
    ensures forall u :: u in Listed(ImmoweltSite, fetch, n) ==> IsExpose(u)
  {
    forall doc: Page, u | u in ImmoweltSite.links(doc) ensures IsExpose(u) {
      LinksAreExposes(doc.anchors);
    }
    ListedSatisfy(ImmoweltSite, fetch, n, IsExpose);
  }

  /** A completed Immowelt crawl: one listing per distinct expose link of
      the visited list pages, in order of first appearance, each carrying
      its link as `url` and built from that link's detail page. */
  lemma ScrapeListings(fetch: string -> Fetch<Page>, pages: int)
    ensures match CrawlRun(ImmoweltSite, fetch, pages)
      case Completed(items) =>
        && (forall i :: 0 <= i < |items| ==>
              var u := items[i].url;
              && u in Listed(ImmoweltSite, fetch, PageCount(pages))
              && IsExpose(u)
              && fetch(u).Fetched? && items[i] == DetailListing(fetch(u).doc.detail, u))
        && (forall i, j :: 0 <= i < j < |items| ==> items[i].url != items[j].url)
      case Aborted(u) => fetch(u).Failed?
  {
    CrawlRunSpec(ImmoweltSite, fetch, pages);
    ListedAreExposes(fetch, PageCount(pages));
    match CrawlRun(ImmoweltSite, fetch, pages)
    case Aborted(_) =>
    case Completed(items) =>
      var d := Dedup(Listed(ImmoweltSite, fetch, PageCount(pages)));
      forall i | 0 <= i < |items| ensures items[i].url == d[i] {
        assert items[i] == ListingOf(fetch(d[i]).doc, d[i]);
      }
  }
}
