# Vienna rental-listing pipeline, modelled in Dafny

The system collects rental-flat listings for Vienna from two portals,
Immowelt and Willhaben, stores them in a document database and projects them
into a search index. This project models the four core pieces and proves
properties about them:

- **The two scrapers** (`scraper_immowelt.py`, `scraper_willhaben.py`):
  - Each crawl walks list pages 1..n, collects the detail links of each page
    in order with duplicates removed, and fetches every link not seen before.
  - Each detail page becomes one flat record.
  - The crawl loop is shared by both portals. Module `Crawl` describes it once,
    over a `Site` (list-page URL, link extraction, detail parser), and
    `Immowelt` / `Willhaben` instantiate it.
  - Immowelt's record is built from hard facts, the address, equipment cells,
    the key/value text list and keyword features read from the details text.
  - The three regular expressions of the feature extraction are explicit
    scans in module `Pattern`.
  - Willhaben's record is 22 attributes and 7 description blocks.
  - Each record is a datatype with a dictionary view (`ListingRecord`) whose
    key set is proved.
- **The reindexer projection** (`mongo_to_es.py`, module `Reindex`):
  - `normalize` drops `_id` and coerces the seven boolean columns.
  - The two action generators skip blank lines and records without a url.
- **The upsert store** (`mongo.py`, module `Store`):
  - `save_items_to_mongo` builds one upsert per item with a url, stamping
    `scraped_at` and setting `first_seen_at` only on insert.
  - The collection is a class holding a url → record map.

Supporting modules: `Text` (Python's `casefold`, `strip`, `rstrip`, `in`,
`replace`, `"\n".join`, integer formatting), `Records` (JSON-like values and
dictionaries, Python truthiness, dictionary displays) and `Attributes` (the
`get_attribute` lookup both scrapers define identically).

Network access, HTML parsing and the clock are parameters:
- a page fetch is a function from URL to `Fetched(doc) | Failed`;
- a parsed page is the data its CSS selectors pick out (anchors, hard facts,
  equipment cells, text-list items, attribute items, description blocks), each
  with its `get_text(strip=True)` result;
- `now` is an argument.

Two behaviours of the code shape the model:
- **Failed fetches.** `fetch` raises and nothing catches it, so the whole crawl fails. This is `Aborted(url)` here.
- **Re-saving a stored record.** `$set` merges the new fields into the stored record, so fields the new item lacks survive (`Store.MergeKeeps`).

## Model

| member | source | states |
|---|---|---|
| Text.Strip | scraper_immowelt.py:105 | `strip()` returns a slice of the input with only whitespace before and after it and none at its own ends, which fixes it as the input with its outer whitespace cut; it is empty exactly when the text is all whitespace, and a stripped text is left unchanged |
| Text.LStrip | scraper_immowelt.py:58 | the result is a suffix of the input and only whitespace was removed before it |
| Text.RStrip | scraper_immowelt.py:82 | the result is a prefix of the input and only whitespace was removed after it |
| Text.RStripChar | scraper_immowelt.py:100 | `rstrip(":")` removes exactly the trailing colons: a prefix, not ending in the character, followed only by it |
| Text.FindFrom | scraper_immowelt.py:64 | the substring search finds the first occurrence at or after the start, and none exists when it finds nothing |
| Text.ContainsIff | scraper_immowelt.py:113 | `n in s` holds exactly when `n` occurs at some position of `s` |
| Text.ContainsTransitive | scraper_immowelt.py:179 | a text containing `m` contains every substring of `m` |
| Text.ContainsSuffix | scraper_immowelt.py:179 | containing `p + n` implies containing `n` (so "tiefgarage" implies "garage") |
| Text.RemoveFirst | scraper_immowelt.py:105 | `replace(key, "", 1)` leaves the text alone when `key` is absent; otherwise putting the key back at its first occurrence gives the original text |
| Text.RemoveFirstOfPrefix | scraper_immowelt.py:103-105 | removing a key from a text that begins with it leaves exactly the rest |
| Text.JoinLinesEmpty | scraper_immowelt.py:124 | joining non-empty parts with newlines is empty exactly when there are no parts |
| Text.JoinLinesContainsParts | scraper_immowelt.py:124 | every part occurs in the joined text |
| Text.NatToString | scraper_immowelt.py:228 | the decimal rendering of a page number is non-empty, all digits, has the number as its decimal value, and starts with `0` only for 0 |
| Text.CasefoldIdempotent | scraper_immowelt.py:29 | case-folding twice is case-folding once |
| Records.RecordOf | scraper_willhaben.py:71-106 | a dictionary display has exactly the keys of its entries |
| Records.EntryKeys | scraper_willhaben.py:71-106 | a key belongs to a display exactly when some entry carries it |
| Records.EntryKeysAppend | scraper_willhaben.py:71-106 | the keys of two displays written one after the other are the union of their keys |
| Records.RecordOfAt | scraper_willhaben.py:72 | an entry whose key no other entry repeats keeps its value in the dictionary |
| Pattern.SpaceEnd | scraper_immowelt.py:143 | greedy `\s*` stops at the first non-whitespace character or the end of the text |
| Pattern.LineEnd | scraper_immowelt.py:143 | greedy `[^\n\r]*` stops at the first line break or the end of the text |
| Pattern.LastNonBreak | scraper_immowelt.py:143 | the last character that is not a line break, after which only line breaks follow; none exactly when all are breaks |
| Pattern.GroupFrom | scraper_immowelt.py:143 | the captured group is non-empty, free of line breaks and runs to the end of its line |
| Pattern.LineMatchAt | scraper_immowelt.py:143 | `<label>:\s*([^\n\r]+)` at a position fails exactly when the label is absent or only line breaks follow it; a match is the label, whitespace, then a break-free group ending at a line end; `\s*` is greedy, so any longer whitespace run ends at a line break |
| Pattern.LineMatchOfLine | scraper_immowelt.py:143 | the label, whitespace, then a line starting with a non-space: the match captures exactly the rest of that line |
| Pattern.LineMatchOfSlices | scraper_immowelt.py:143 | the same, for a text laid out as label, whitespace and a value ending at a line break or the end |
| Pattern.NoMatchAtBreak | scraper_immowelt.py:155 | no match of a label that does not start with a line break begins at a line break |
| Pattern.SearchFrom | scraper_immowelt.py:143-146 | `re.search` returns the leftmost position where the pattern matches, and none when no position matches |
| Pattern.MatchesFrom | scraper_immowelt.py:155 | the matches `re.findall` walks through are a chain of searches: the first is the search from the start, each next one the search from the previous match's end, and the search after the last finds nothing; none exactly when the first search fails |
| Pattern.FindAllFrom | scraper_immowelt.py:155 | `re.findall` yields the groups of that chain of matches, in order, each non-empty and break-free |
| Pattern.TwoLineCaptures | scraper_immowelt.py:155 | on a text of the two lines `<label> v1` and `<label> v2`, with stripped single-line values, `re.findall` yields exactly `[v1, v2]` |
| Pattern.FourDigits | scraper_immowelt.py:148 | `int()` of four digits is their decimal value, at most 9999 |
| Pattern.YearAt | scraper_immowelt.py:147 | `baujahr:\s*(\d{4})` matches at a position exactly when the label is there followed by whitespace and four digits, and the number is the decimal value of those digits, at most 9999 |
| Pattern.SearchYearFrom | scraper_immowelt.py:147-148 | the year search yields the number of the leftmost position where the year pattern matches, and nothing exactly when no position matches |
| Crawl.FirstIndex | scraper_immowelt.py:26 | the first index holding an element |
| Crawl.Dedup | scraper_immowelt.py:25-26 | `list(dict.fromkeys(links))` has the same elements as its input, no duplicates, and is no longer |
| Crawl.DedupSnoc | scraper_immowelt.py:26 | appending a link already present changes nothing; a new one is appended |
| Crawl.FirstIndexSnoc | scraper_immowelt.py:26 | appending does not move an element's first occurrence |
| Crawl.DedupKeepsFirstOccurrenceOrder | scraper_immowelt.py:25-26 | the deduplicated links are in order of first appearance |
| Crawl.DedupCountsDistinct | scraper_immowelt.py:26 | the deduplicated list is as long as the set of distinct links |
| Crawl.DedupIdempotent | scraper_immowelt.py:26 | deduplicating twice is deduplicating once |
| Crawl.DedupOfDistinct | scraper_immowelt.py:26 | a list without duplicates is left as it is |
| Crawl.VisitDetailStep | scraper_immowelt.py:232-239 | one more detail link keeps one record per distinct link seen, in first-appearance order, and the seen set equal to the links seen; or the crawl stops at that link because its fetch failed |
| Crawl.VisitDetailsSpec | scraper_immowelt.py:232-239 | the inner loop keeps that correspondence over all links of a page, or stops at one of them whose fetch failed |
| Crawl.ListedPrefix | scraper_immowelt.py:227-231 | the links of pages 1..m are among those of pages 1..n for m ≤ n |
| Crawl.ListedSatisfy | scraper_immowelt.py:231 | a property every page's link extraction guarantees holds for all listed links |
| Crawl.VisitPagesSpec | scraper_immowelt.py:227-239 | after n pages the records correspond one-to-one, in order, to the distinct links of pages 1..n; a stop happens only at a failed list page 1..n or a failed listed link |
| Crawl.CrawlRunSpec | scraper_immowelt.py:223-241 | a completed `scrape_pages(pages)` returns exactly one parsed record per distinct link of pages 1..pages, in first-appearance order; an aborted one names a URL whose fetch failed |
| Crawl.CrawlCompletes | scraper_immowelt.py:223-241 | when every list page and listed link fetches, the run completes with as many records as distinct links |
| Crawl.VisitDetailsStopped | scraper_immowelt.py:237 | once a fetch fails, the remaining links of the page are not visited |
| Crawl.VisitPagesStopped | scraper_immowelt.py:229 | once a fetch fails, no later page is visited |
| Crawl.ScrapeLinks | scraper_immowelt.py:232-239 | the loop over one page's links (skip seen, add to seen, fetch, parse, append) computes the inner-loop specification |
| Crawl.Scrape | scraper_immowelt.py:223-241 | the page loop computes the crawl specification for `range(1, pages + 1)` |
| Crawl.ScrapeCounting | scraper_willhaben.py:108-127 | the counting page loop computes the crawl; `counter` equals the number of pages when the run completes, is smaller on abort, and is the number of pages finished before the failing one |
| Attributes.GetAttribute | scraper_willhaben.py:28-54 | `get_attribute` is `None` exactly when no item with title and value has the case-folded title; otherwise the first such item decides: its text if non-empty, else `True` with an icon, else `""` |
| Immowelt.ExposeHrefsAre | scraper_immowelt.py:22-23 | the collected links are exactly the anchor hrefs starting with the expose prefix |
| Immowelt.ParseListPage | scraper_immowelt.py:18-26 | `parse_list_page` returns exactly the expose links, without duplicates, each under the expose prefix |
| Immowelt.GetHardfact | scraper_immowelt.py:57-68 | `None` when no hard fact's case-folded caption contains the label; otherwise the first such hard fact's value (possibly `None`) |
| Immowelt.GetAddress | scraper_immowelt.py:71-78 | the address is stripped; `""` when street and city are both missing or empty; one part alone when the other is missing |
| Immowelt.FindEquipment | scraper_immowelt.py:83-91 | `None` exactly when no cell with at least two paragraphs has the case-folded label; otherwise the first such cell's second paragraph |
| Immowelt.GetEquipmentValue | scraper_immowelt.py:81-91 | the same, for the label case-folded and stripped |
| Immowelt.KvValue | scraper_immowelt.py:103-106 | the value is the item text without its key, stripped, and `None` when that is empty |
| Immowelt.GetListKv | scraper_immowelt.py:94-107 | `None` when no item's key (colons removed, case-folded) is the label; otherwise the first such item's value |
| Immowelt.GetListKvNonEmpty | scraper_immowelt.py:106 | a found key/value value is never empty and is stripped |
| Immowelt.GetListKvOfKeyedItem | scraper_immowelt.py:103-106 | for an item whose text starts with its key, the value is the stripped rest |
| Immowelt.HasFeature | scraper_immowelt.py:109-115 | `has_feature` holds exactly when some item's case-folded text contains the case-folded, stripped needle |
| Immowelt.NonEmptyTexts | scraper_immowelt.py:118-123 | only non-empty item texts are collected, each the text of some item |
| Immowelt.NonEmptyTextsInOrder | scraper_immowelt.py:118-123 | the collected parts are exactly the non-empty item texts, picked by strictly increasing item positions, so in item order and each non-empty item once |
| Immowelt.NonEmptyTextsEmpty | scraper_immowelt.py:120-123 | nothing is collected exactly when every item text is empty |
| Immowelt.NonEmptyTextsHas | scraper_immowelt.py:120-123 | every non-empty item text is collected |
| Immowelt.DetailsTextProperties | scraper_immowelt.py:118-124 | the details text is empty exactly when every item text is, and contains every non-empty item text |
| Immowelt.GetDetailsText | scraper_immowelt.py:118-124 | the appending loop and the join compute the details text |
| Immowelt.HasAnyOfThree | scraper_immowelt.py:129-130 | `has_any` of three needles is the disjunction of the three substring tests |
| Immowelt.HasAnyOfTwo | scraper_immowelt.py:129-130 | the same for two needles |
| Immowelt.HasAnyOfOne | scraper_immowelt.py:129-130 | the same for one needle |
| Immowelt.ElevatorNeedles | scraper_immowelt.py:136 | "personenaufzug" adds nothing: `fahrstuhl` is "aufzug" or "lift" occurring |
| Immowelt.FurnishedNeedles | scraper_immowelt.py:142 | the three furnishing needles reduce to "möbliert" occurring |
| Immowelt.GarageNeedles | scraper_immowelt.py:179 | "garage" or "tiefgarage" occurring is "garage" occurring |
| Immowelt.PlainNeedles | scraper_immowelt.py:134-139 | balcony, terrace, kitchen, cellar and pets are their keywords occurring in the case-folded text |
| Immowelt.LastEra | scraper_immowelt.py:160-169 | the construction-type capture kept is the last one that is "altbau"/"neubau" (any case), and there is none exactly when no capture is |
| Immowelt.FirstNonEra | scraper_immowelt.py:160-172 | the condition capture kept is the first one that is not a construction type, and there is none exactly when every capture is one |
| Immowelt.FirstNonEraSnoc | scraper_immowelt.py:164-166 | a later capture fills the condition only when it is still unset |
| Immowelt.LastEraSnoc | scraper_immowelt.py:162-163 | a later construction-type capture overwrites `bautyp` |
| Immowelt.ClassifyZustand | scraper_immowelt.py:157-172 | the doubled classification loop leaves `zustand` as the first non-construction-type capture and `bautyp` as the last construction-type capture |
| Immowelt.ExtractFeatures | scraper_immowelt.py:126-174 | `extract_features_from_details` computes the feature specification |
| Immowelt.FeaturesMeaning | scraper_immowelt.py:127-142 | each flag is its keywords occurring in the case-folded text |
| Immowelt.FeatureValuesRange | scraper_immowelt.py:147-172 | `baujahr` is absent or in 0..9999; `bautyp` is absent or a construction type; `zustand` is absent or not one, whatever lines 149-152 computed |
| Immowelt.ZustandValuesOfTwoLines | scraper_immowelt.py:155-160 | the stripped captures of a details text of two `Zustand:` lines are the two values |
| Immowelt.ZustandExample | scraper_immowelt.py:155-172 | for a details text of `Zustand: <condition>` then `Zustand: <construction type>` (as in "Renoviert" then "Altbau"), `zustand` is the condition and `bautyp` the construction type |
| Immowelt.ExtractGarageParkplatz | scraper_immowelt.py:176-187 | both flags are false for a missing or empty text; `garage` is "garage" occurring; `parkplatz` is "stellplatz", "parkplatz" or "carport" occurring |
| Immowelt.ParseDetailPage | scraper_immowelt.py:189-221 | `parse_detail_page` computes the listing specification from the page's hard facts, address, equipment and details text |
| Immowelt.FeatureRecordKeys | scraper_immowelt.py:132-158 | the features dictionary always has the same eleven keys |
| Immowelt.ListingEntriesKeys | scraper_immowelt.py:208-219 | the fixed part of the record has its eleven keys, and `url` is the page's URL |
| Immowelt.ListingRecordShape | scraper_immowelt.py:208-221 | the record's keys are the fixed keys plus the feature keys, and `url` is the page's URL |
| Immowelt.DetailListingShape | scraper_immowelt.py:189-221 | the listing carries its URL and the features of its own details text, which contains every non-empty list item |
| Immowelt.ListUrl | scraper_immowelt.py:228 | every list-page URL extends the search URL |
| Immowelt.ScrapePages | scraper_immowelt.py:223-241 | `scrape_pages` computes the crawl specification for the Immowelt site |
| Immowelt.LinksAreExposes | scraper_immowelt.py:22-26 | every link of a list page is an expose URL |
| Immowelt.ListedAreExposes | scraper_immowelt.py:227-231 | every link of every visited list page is an expose URL |
| Immowelt.ScrapeListings | scraper_immowelt.py:223-241 | a completed crawl's records have pairwise distinct URLs, each a listed expose link whose detail page was fetched and parsed into that record; an aborted one names a failed fetch |
| Willhaben.ResultUrlsAre | scraper_willhaben.py:22-23 | the collected links are exactly the site root joined to hrefs under `/iad/immobilien/` of anchors whose test id starts with the result-header prefix |
| Willhaben.ParseListPage | scraper_willhaben.py:18-26 | `parse_list_page` returns exactly those links, without duplicates |
| Willhaben.ListLinksUnderSite | scraper_willhaben.py:22-23 | every link lies under the site's property path |
| Willhaben.FindBlock | scraper_willhaben.py:57-58 | the text of the first block with the test id, and `""` when there is none |
| Willhaben.GetDescriptionBlock | scraper_willhaben.py:56-58 | `get_description_block` selects `ad-description-<name>`: `""` when absent, else the first such block's text |
| Willhaben.DetailListingShape | scraper_willhaben.py:60-106 | the record carries its URL; a missing title, price or address gives `""`; each attribute is `None` exactly when no item has its title, and otherwise a string or `True`; a missing description block gives `""` |
| Willhaben.Pairs | scraper_willhaben.py:76-104 | each entry pairs its dictionary key with its value, position by position |
| Willhaben.StrAll | scraper_willhaben.py:98-104 | each description text becomes a string value |
| Willhaben.PairsKeys | scraper_willhaben.py:76-104 | the attribute and description entries carry exactly their listed keys |
| Willhaben.HeadKeys | scraper_willhaben.py:72-75 | the four leading entries carry `url`, `titel`, `preis`, `address` |
| Willhaben.ListingRecordKeys | scraper_willhaben.py:71-106 | the record's keys are the four text keys, the 22 attribute keys and the 7 description keys |
| Willhaben.ListingRecordUrl | scraper_willhaben.py:72 | the record's `url` entry is the page's URL |
| Willhaben.FieldKeysNotUrl | scraper_willhaben.py:76-104 | no attribute or description key is `url` |
| Willhaben.UrlKeyUnique | scraper_willhaben.py:72-104 | only the first entry of the record carries the key `url` |
| Willhaben.ListUrl | scraper_willhaben.py:113 | every list-page URL extends the search URL |
| Willhaben.ScrapePages | scraper_willhaben.py:108-127 | `scrape_pages` computes the crawl specification for the Willhaben site; the page counter reaches the page count exactly when the run completes |
| Willhaben.ScrapeListings | scraper_willhaben.py:108-127 | a completed crawl has one record per distinct listed link, URLs pairwise distinct, each built from its fetched detail page; an aborted one names a failed fetch |
| Reindex.Normalized | mongo_to_es.py:47-54 | `_id` is removed, each boolean column present becomes `True` exactly when it was `True`, 1 or 1.0 and `False` otherwise, other entries are unchanged and no key is added |
| Reindex.Normalize | mongo_to_es.py:47-54 | popping `_id` and rewriting the columns one by one computes the normalised record |
| Reindex.NormalizedIdempotent | mongo_to_es.py:47-54 | normalising twice is normalising once |
| Reindex.NormalizedKeepsUrl | mongo_to_es.py:63-65 | normalising keeps the url entry, so the url check is the same before and after |
| Reindex.Indexed | mongo_to_es.py:77-81 | every record the generators keep has a truthy url |
| Reindex.IndexActions | mongo_to_es.py:82-87 | one index action per kept record, in order |
| Reindex.IndexedNormalized | mongo_to_es.py:77-78 | every kept record is the normalised form of an input record |
| Reindex.ActionsWellFormed | mongo_to_es.py:74-87 | every action is an `index` action on the index, with `_id` the truthy url of its source, which is normalised and has no `_id` |
| Reindex.ActionsAppend | mongo_to_es.py:74-87 | the generator streams: the actions of two record sequences in a row are their actions in a row |
| Reindex.IndexedAppend | mongo_to_es.py:77-81 | filtering streams over concatenation |
| Reindex.IndexActionsAppend | mongo_to_es.py:82-87 | mapping streams over concatenation |
| Reindex.SingleAction | mongo_to_es.py:78-87 | one record yields one action exactly when its url is present and truthy, and none otherwise |
| Reindex.ActionsFromMongo | mongo_to_es.py:74-87 | at most one action per record read from the collection |
| Reindex.ActionsFromJsonl | mongo_to_es.py:56-72 | at most one action per line of the snapshot |
| Reindex.DecodeLines | mongo_to_es.py:58-62 | at most one record per line |
| Reindex.DecodeLine | mongo_to_es.py:59-62 | a single line yields at most one record |
| Reindex.JsonlSnoc | mongo_to_es.py:58-72 | one more line adds nothing when it strips to empty, and otherwise exactly the action (if any) of the one record it decodes to |
| Reindex.JsonlAppend | mongo_to_es.py:56-72 | the snapshot reader streams line by line: the actions of two line sequences in a row are their actions in a row |
| Reindex.DecodeLinesAppend | mongo_to_es.py:58-62 | decoding streams over concatenation of line sequences |
| Reindex.DecodeLinesSnoc | mongo_to_es.py:58-62 | one more line adds exactly what that line decodes to |
| Reindex.JsonlWellFormed | mongo_to_es.py:56-72 | every action read from a snapshot is an `index` action on the index, with `_id` the truthy url of its normalised source, which has no `_id`, whatever the lines decode to |
| Reindex.BlankLinesSkipped | mongo_to_es.py:59-61 | a whitespace-only line contributes nothing |
| Store.UpsertOps | mongo.py:35-52 | at most one op per item |
| Store.BuildOps | mongo.py:35-52 | the appending loop computes the op list |
| Store.OpsShape | mongo.py:33-52 | every op filters on a truthy url and sets the item with `scraped_at` equal to the batch's `now` (so its url entry is that url); `$setOnInsert` is only `first_seen_at` = `now`; each op comes from an input item |
| Store.UpsertOpsAppend | mongo.py:36-52 | op building streams over the items, keeping their order |
| Store.UpsertOpsSingle | mongo.py:37-52 | one item gives one op exactly when its url is present and truthy |
| Store.NoOpsIff | mongo.py:36-39 | there is nothing to write exactly when no item has a truthy url |
| Store.ApplyAll | mongo.py:57-62 | every op is counted as matched or upserted, and only matched ops as modified |
| Store.Collection.constructor | mongo.py:15-26 | a new collection is empty and keeps its records under their own urls (the unique index) |
| Store.Collection.BulkWrite | mongo.py:57 | the write loop leaves the collection and counts of the batch applied in order, and keeps every record under its own url when each op's `$set` carries its filter url |
| Store.SaveItemsToMongo | mongo.py:28-63 | empty input, or input without a url, gives zero counts and leaves the collection unchanged; otherwise the built ops are written; counts are zero exactly when there was nothing to write; every stored record stays under its own url |
| Store.ApplyAllWellKeyed | mongo.py:21-52 | every stored record keeps the url it is stored under: one record per url |
| Store.ApplyAllKeys | mongo.py:43-52 | nothing is deleted, and a url is stored afterwards exactly when it was before or some op filters on it |
| Store.MergeKeeps | mongo.py:47 | `$set` merges: a stored field that no op for its url sets survives with its value |
| Store.FirstSeenOnInsert | mongo.py:48-50 | a url first stored by the batch gets `$setOnInsert`'s `first_seen_at`, and later ops keep it |
| Store.SaveFirstSeen | mongo.py:33-50 | for items without their own `first_seen_at`, a stored url keeps its `first_seen_at` (or keeps lacking one) and a new url gets the batch's `now` |
| Store.OpsUrlsIndependent | mongo.py:35-52 | the urls the ops filter on do not depend on the clock reading |
| Store.SaveTwice | mongo.py:28-63 | saving the same batch again, at any clock reading, adds no url and changes no `first_seen_at` |
| Store.AppliedAbsorbs | mongo.py:43-52 | after a batch with distinct urls, every op of it would change nothing |
| Store.AbsorbedBatchIsNoOp | mongo.py:57-62 | a batch whose every op changes nothing leaves the store as it is, matched on every op and neither upserted nor modified |
| Store.WriteTwiceDistinct | mongo.py:57-62 | resubmitting the identical op list with distinct urls equals writing it once: the second write matches every op and modifies none (a second save builds new ops with a new `scraped_at`, which `Store.SaveTwice` covers) |

## Left out

- Network access, `time.sleep` and `random.uniform` in `fetch` are left out. A fetch is a total function from URL to `Fetched(doc) | Failed`.
- A failed fetch raises in both scrapers (`raise_for_status`, with no handler). It is modelled as the run ending in `Aborted(url)`, with the records collected so far discarded.
- BeautifulSoup parsing, CSS selector matching and `get_text` are not modelled. A page is the list of elements its selectors return, each with its stripped text. Whether an element is missing (`None`) is kept where the code tests it.
- Text.Casefold: lowers only `A`–`Z`, `Ä`, `Ö` and `Ü`, not the whole of Unicode (for example, `ß` does not become `ss`).
- Pattern.YearAt: `\d` matches only the ASCII digits `0`–`9`, not every Unicode decimal digit.
- `urljoin` is modelled as concatenation of the site root and an absolute path, without normalising `.` and `..` segments. Immowelt hrefs are already absolute and are kept as they are.
- Lines 149-152 of `scraper_immowelt.py` guess `bautyp` from keywords, and line 158 always resets it to `None`. The model therefore computes `bautyp` and `zustand` from the `zustand:` captures alone, as the code as written does.
- Immowelt.ExtractFeatures: `extract_features_from_details(None)` would fail in `re.search` (line 143), so the model takes a text. `extract_garage_parkplatz(None)` is handled and is modelled with an `Option`.
- Each dictionary with fixed keys (both detail records and the features dictionary) is a datatype with one field per key. `ListingRecord` / `FeatureRecord` give the dictionary view, and the proofs are about its key set. Key order, which Python dictionaries keep, is not modelled.
- Printing progress (`Scraped pages: …`), the `__main__` blocks and `main.py` are left out, as are environment-variable configuration, `get_collection`, index creation, `MongoClient`, `Elasticsearch`, `ensure_index`, `helpers.bulk` and `main` in `mongo_to_es.py`.
- Reindex.ActionsFromJsonl: file reading and JSON decoding are not modelled. `decode` is a total function given as a parameter, so malformed JSON (which raises) and lines decoding to non-objects are left out.
- Reindex.Normalize: the source updates the dictionary in place and returns it. The model returns the updated dictionary, which is what every caller uses, so aliasing is not captured.
- JSON values are modelled as null, booleans, integers, reals, strings and timestamps. Lists and nested objects are left out; they never equal 1, so they would become `False`.
- Store.Collection.BulkWrite: the batch is applied in order and the counts are computed from that order. The server's `ordered=False` execution, which can reorder or reject duplicate urls within one batch, is not modelled, so its counts can differ. The generated `_id` and a server-side failure are not modelled either.
- Store.Collection.BulkWrite: takes only ops whose `$set` holds the op's own filter url, which is every op that `save_items_to_mongo` builds; MongoDB accepts others, and what they would store is not modelled.
- Store.Collection.BulkWrite: an insert builds the record from the filter, then `$setOnInsert`, then `$set`. When `$set` and `$setOnInsert` name the same field the server rejects the op, and the model does not; the `first_seen_at` lemmas therefore require items without a `first_seen_at` field of their own.
- `datetime.now(timezone.utc)` is the parameter `now`, a timestamp value shared by the whole batch.
