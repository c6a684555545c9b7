/** The document store the scrapers save into: one record per listing url,
    written by a batch of upserts that stamp `scraped_at` on every save and
    `first_seen_at` only when the url is new. */
module Store {
  import opened Records

  /** The summary `save_items_to_mongo` returns. */
  datatype Counts = Counts(matched: nat, upserted: nat, modified: nat)

  const NoCounts := Counts(0, 0, 0)

  /** `UpdateOne({"url": url}, {"$set": set, "$setOnInsert": setOnInsert}, upsert=True)`. */
  datatype UpdateOne = UpdateOne(url: Value, setDoc: Record, setOnInsert: Record)

  /** The op for one item that has a url: its `$set` document is the item
      with `scraped_at` stamped, and `first_seen_at` is only set on insert. */
  function OpFor(item: Record, now: int): UpdateOne
    requires "url" in item
  {
    UpdateOne(item["url"], item["scraped_at" := Time(now)], map["first_seen_at" := Time(now)])
  }

  /** The ops built for a batch: items with a missing or falsy url are
      skipped, the others give one op each, in order. */
  function UpsertOps(items: seq<Record>, now: int): (ops: seq<UpdateOne>)
    ensures |ops| <= |items|
  {
    if items == [] then []
    else
      var item := items[|items| - 1];
      UpsertOps(items[..|items| - 1], now) + (if HasTruthy(item, "url") then [OpFor(item, now)] else [])
  }

  /** The loop of `save_items_to_mongo` that appends one op per item with a url. */
  method BuildOps(items: seq<Record>, now: int) returns (ops: seq<UpdateOne>)
    ensures ops == UpsertOps(items, now)
  {
    ops := [];
    for i := 0 to |items|
      invariant ops == UpsertOps(items[..i], now)
    {
      assert items[..i + 1][..i] == items[..i];
      var item := items[i];
      if "url" in item && IsTruthy(item["url"]) {
        var url := item["url"];
        var doc := item["scraped_at" := Time(now)];
        ops := ops + [UpdateOne(url, doc, map["first_seen_at" := Time(now)])];
      }
    }
    assert items[..|items|] == items;
  }

  /** Every op filters on a truthy url, sets the item stamped with the
      batch's `now` (so its url entry is the filtered url), and sets
      `first_seen_at` to the same `now` on insert only. */
  lemma {:induction false} OpsShape(items: seq<Record>, now: int)
    ensures forall op :: op in UpsertOps(items, now) ==>
      && IsTruthy(op.url)
      && "url" in op.setDoc && op.setDoc["url"] == op.url
      && "scraped_at" in op.setDoc && op.setDoc["scraped_at"] == Time(now)
      && op.setOnInsert == map["first_seen_at" := Time(now)]
      && exists item :: item in items && "url" in item && op == OpFor(item, now)
  {
    if items != [] {
      var p := items[..|items| - 1];
      OpsShape(p, now);
      assert forall item :: item in p ==> item in items;
      assert "url" != "scraped_at";
    }
  }

  /** Building ops streams over the items. */
  lemma {:induction false} UpsertOpsAppend(a: seq<Record>, b: seq<Record>, now: int)
    ensures UpsertOps(a + b, now) == UpsertOps(a, now) + UpsertOps(b, now)
  {
    if b == [] {
      assert a + b == a;
    } else {
      assert (a + b)[..|a + b| - 1] == a + b[..|b| - 1];
      UpsertOpsAppend(a, b[..|b| - 1], now);
    }
  }

  /** One item gives one op exactly when its url is present and truthy. */
  lemma UpsertOpsSingle(item: Record, now: int)
    ensures UpsertOps([item], now) == if HasTruthy(item, "url") then [OpFor(item, now)] else []
  {
    assert [item][..0] == [];
  }

  /** There is nothing to write exactly when no item has a truthy url. */
  lemma {:induction false} NoOpsIff(items: seq<Record>, now: int)
    ensures UpsertOps(items, now) == [] <==> forall i :: 0 <= i < |items| ==> !HasTruthy(items[i], "url")
  {
    if items != [] {
      var p := items[..|items| - 1];
      NoOpsIff(p, now);
      assert forall i :: 0 <= i < |p| ==> p[i] == items[i];
    }
  }

  /** Every stored record carries the url it is stored under, so no two
      stored records share a url (the unique index on `url`). */
  predicate WellKeyed(docs: map<Value, Record>) {
    forall u :: u in docs ==> "url" in docs[u] && docs[u]["url"] == u
  }

  /** One upsert: a stored record has `$set` merged into it; a missing one is
      created from the filter, `$setOnInsert` and `$set`. */
  function Upsert(docs: map<Value, Record>, op: UpdateOne): map<Value, Record> {
    if op.url in docs then docs[op.url := docs[op.url] + op.setDoc]
    else docs[op.url := map["url" := op.url] + op.setOnInsert + op.setDoc]
  }

  /** The counts after one more upsert: a match, modified when the merge
      changes the record, or an upsert. */
  function Tally(c: Counts, docs: map<Value, Record>, op: UpdateOne): Counts {
    if op.url !in docs then c.(upserted := c.upserted + 1)
    else if docs[op.url] + op.setDoc == docs[op.url] then c.(matched := c.matched + 1)
    else c.(matched := c.matched + 1, modified := c.modified + 1)
  }

  datatype Outcome = Outcome(docs: map<Value, Record>, counts: Counts)

  /** A batch applied in order. Every op is counted either as matched or as
      upserted, and only matched ops can be modified. */
  function ApplyAll(docs: map<Value, Record>, ops: seq<UpdateOne>): (o: Outcome)
    ensures o.counts.matched + o.counts.upserted == |ops|
    ensures o.counts.modified <= o.counts.matched
  {
    if ops == [] then Outcome(docs, NoCounts)
    else
      var p := ApplyAll(docs, ops[..|ops| - 1]);
      var op := ops[|ops| - 1];
      Outcome(Upsert(p.docs, op), Tally(p.counts, p.docs, op))
  }

  /** The collection, as the set of stored records keyed by url. */
  class Collection {
    var docs: map<Value, Record>

    constructor ()
      ensures docs == map[]
      ensures Valid()
    {
      docs := map[];
    }

    /** Every stored record is keyed by its own url. */
    predicate Valid()
      reads this
    {
      WellKeyed(docs)
    }

    /** `col.bulk_write(ops)`: the ops applied one after the other. Ops
        whose `$set` carries their own filter url keep every record under
        its own url. */
    method BulkWrite(ops: seq<UpdateOne>) returns (c: Counts)
      requires Valid()
      requires forall i :: 0 <= i < |ops| ==> "url" in ops[i].setDoc && ops[i].setDoc["url"] == ops[i].url
      modifies this
      ensures Valid()
      ensures docs == ApplyAll(old(docs), ops).docs
      ensures c == ApplyAll(old(docs), ops).counts
    {
      ghost var start := docs;
      c := NoCounts;
      for i := 0 to |ops|
        invariant ApplyAll(start, ops[..i]) == Outcome(docs, c)
      {
        assert ops[..i + 1][..i] == ops[..i];
        var op := ops[i];
        if op.url in docs {
          var merged := docs[op.url] + op.setDoc;
          if merged == docs[op.url] {
            c := c.(matched := c.matched + 1);
          } else {
            c := c.(matched := c.matched + 1, modified := c.modified + 1);
          }
          docs := docs[op.url := merged];
        } else {
          docs := docs[op.url := map["url" := op.url] + op.setOnInsert + op.setDoc];
          c := c.(upserted := c.upserted + 1);
        }
      }
      assert ops[..|ops|] == ops;
      ApplyAllWellKeyed(start, ops);
    }
  }

  /** `save_items_to_mongo(items)` with the clock reading `now`: an empty
      batch, or one where no item has a url, reports zero counts and leaves
      the collection alone; otherwise the built ops are written. */
  method SaveItemsToMongo(col: Collection, items: seq<Record>, now: int) returns (c: Counts)
    requires col.Valid()
    modifies col
    ensures col.Valid()
    ensures col.docs == ApplyAll(old(col.docs), UpsertOps(items, now)).docs
    ensures items == [] ==> col.docs == old(col.docs)
    ensures UpsertOps(items, now) == [] ==> c == NoCounts && col.docs == old(col.docs)
    ensures UpsertOps(items, now) != [] ==> c == ApplyAll(old(col.docs), UpsertOps(items, now)).counts
    ensures c == NoCounts <==> UpsertOps(items, now) == []
  {
    if items == [] {
      return NoCounts;
    }
    var ops := BuildOps(items, now);
    if ops == [] {
      return NoCounts;
    }
    OpsShape(items, now);
    forall i | 0 <= i < |ops| ensures "url" in ops[i].setDoc && ops[i].setDoc["url"] == ops[i].url {
      assert ops[i] in ops;
    }
    c := col.BulkWrite(ops);
  }

  /** Saving keeps every stored record under its own url. */
  lemma {:induction false} ApplyAllWellKeyed(docs: map<Value, Record>, ops: seq<UpdateOne>)
    requires WellKeyed(docs)
    requires forall i :: 0 <= i < |ops| ==> "url" in ops[i].setDoc && ops[i].setDoc["url"] == ops[i].url
    ensures WellKeyed(ApplyAll(docs, ops).docs)
  {
    if ops != [] {
      ApplyAllWellKeyed(docs, ops[..|ops| - 1]);
    }
  }

  /** Nothing is deleted, and a url is stored afterwards exactly when it was
      stored before or some op filtered on it. */
  lemma {:induction false} ApplyAllKeys(docs: map<Value, Record>, ops: seq<UpdateOne>)
    ensures forall u :: u in ApplyAll(docs, ops).docs <==>
      u in docs || exists i :: 0 <= i < |ops| && ops[i].url == u
  {
    if ops != [] {
      var p := ops[..|ops| - 1];
      ApplyAllKeys(docs, p);
      assert forall i :: 0 <= i < |p| ==> p[i] == ops[i];
    }
  }

  /** `$set` merges: a field of a stored record that no op for its url sets
      survives with its value. */
  lemma {:induction false} MergeKeeps(docs: map<Value, Record>, ops: seq<UpdateOne>, u: Value, k: string)
    requires u in docs
    requires forall i :: 0 <= i < |ops| && ops[i].url == u ==> k !in ops[i].setDoc
    ensures u in ApplyAll(docs, ops).docs
    ensures k in ApplyAll(docs, ops).docs[u] <==> k in docs[u]
    ensures k in docs[u] ==> ApplyAll(docs, ops).docs[u][k] == docs[u][k]
  {
    if ops != [] {
      MergeKeeps(docs, ops[..|ops| - 1], u, k);
    }
  }

  /** A url first stored by the batch gets the `first_seen_at` of its
      `$setOnInsert`, and later ops of the batch leave it. */
  lemma {:induction false} FirstSeenOnInsert(docs: map<Value, Record>, ops: seq<UpdateOne>, u: Value, t: Value)
    requires u !in docs && u in ApplyAll(docs, ops).docs
    requires forall i :: 0 <= i < |ops| && ops[i].url == u ==>
      ops[i].setOnInsert == map["first_seen_at" := t] && "first_seen_at" !in ops[i].setDoc
    ensures "first_seen_at" in ApplyAll(docs, ops).docs[u]
    ensures ApplyAll(docs, ops).docs[u]["first_seen_at"] == t
  {
    var p := ops[..|ops| - 1];
    var last := ops[|ops| - 1];
    var before := ApplyAll(docs, p).docs;
    var after := ApplyAll(docs, ops).docs;
    assert after == Upsert(before, last);
    if u in before {
      assert forall k :: 0 <= k < |p| ==> p[k] == ops[k];
      FirstSeenOnInsert(docs, p, u, t);
      if last.url == u {
        assert after[u] == before[u] + last.setDoc;
      }
    } else {
      assert after[u] == map["url" := u] + last.setOnInsert + last.setDoc;
    }
  }

  /** What one save does to `first_seen_at`, for items that do not carry a
      `first_seen_at` of their own: a url already stored keeps its value, or
      keeps lacking one, and a url the batch adds has the batch's `now`. */
  lemma SaveFirstSeen(docs: map<Value, Record>, items: seq<Record>, now: int, u: Value)
    requires forall i :: 0 <= i < |items| ==> "first_seen_at" !in items[i]
    requires u in ApplyAll(docs, UpsertOps(items, now)).docs
    ensures u in docs ==>
      var r := ApplyAll(docs, UpsertOps(items, now)).docs[u];
      && ("first_seen_at" in r <==> "first_seen_at" in docs[u])
      && ("first_seen_at" in docs[u] ==> r["first_seen_at"] == docs[u]["first_seen_at"])
    ensures u !in docs ==>
      var r := ApplyAll(docs, UpsertOps(items, now)).docs[u];
      "first_seen_at" in r && r["first_seen_at"] == Time(now)
  {
    var ops := UpsertOps(items, now);
    OpsShape(items, now);
    forall i | 0 <= i < |ops| ensures "first_seen_at" !in ops[i].setDoc
                               && ops[i].setOnInsert == map["first_seen_at" := Time(now)] {
      assert ops[i] in ops;
      var item :| item in items && "url" in item && ops[i] == OpFor(item, now);
    }
    if u in docs {
      MergeKeeps(docs, ops, u, "first_seen_at");
    } else {
      FirstSeenOnInsert(docs, ops, u, Time(now));
    }
  }

  /** The ops of a batch filter on the same urls whatever the clock reads. */
  lemma {:induction false} OpsUrlsIndependent(items: seq<Record>, now1: int, now2: int)
    ensures |UpsertOps(items, now1)| == |UpsertOps(items, now2)|
    ensures forall i :: 0 <= i < |UpsertOps(items, now1)| ==>
      UpsertOps(items, now1)[i].url == UpsertOps(items, now2)[i].url
  {
    if items != [] {
      OpsUrlsIndependent(items[..|items| - 1], now1, now2);
    }
  }

  /** Saving the same batch again, at any later clock reading, adds no url
      and changes no `first_seen_at`. */
  lemma SaveTwice(docs: map<Value, Record>, items: seq<Record>, now1: int, now2: int)
    requires forall i :: 0 <= i < |items| ==> "first_seen_at" !in items[i]
    ensures var once := ApplyAll(docs, UpsertOps(items, now1)).docs;
      var twice := ApplyAll(once, UpsertOps(items, now2)).docs;
      && twice.Keys == once.Keys
      && forall u :: u in once ==>
        && ("first_seen_at" in twice[u] <==> "first_seen_at" in once[u])
        && ("first_seen_at" in once[u] ==> twice[u]["first_seen_at"] == once[u]["first_seen_at"])
  {
    var ops1 := UpsertOps(items, now1);
    var ops2 := UpsertOps(items, now2);
    var once := ApplyAll(docs, ops1).docs;
    var twice := ApplyAll(once, ops2).docs;
    OpsUrlsIndependent(items, now1, now2);
    ApplyAllKeys(docs, ops1);
    ApplyAllKeys(once, ops2);
    forall u | u in twice ensures u in once {
      assert forall i :: 0 <= i < |ops2| && ops2[i].url == u ==> ops1[i].url == u;
    }
    forall u | u in once
      ensures && ("first_seen_at" in twice[u] <==> "first_seen_at" in once[u])
              && ("first_seen_at" in once[u] ==> twice[u]["first_seen_at"] == once[u]["first_seen_at"])
    {
      SaveFirstSeen(once, items, now2, u);
    }
  }

  /** The urls of a batch are pairwise distinct. */
  predicate DistinctUrls(ops: seq<UpdateOne>) {
    forall i, j :: 0 <= i < j < |ops| ==> ops[i].url != ops[j].url
  }

  /** The store already reflects `op`: its record exists and `$set` would not change it. */
  predicate Absorbs(docs: map<Value, Record>, op: UpdateOne) {
    op.url in docs && docs[op.url] + op.setDoc == docs[op.url]
  }

  /** After a batch with distinct urls, the store absorbs every op of it. */
  lemma {:induction false} AppliedAbsorbs(docs: map<Value, Record>, ops: seq<UpdateOne>)
    requires DistinctUrls(ops)
    ensures forall i :: 0 <= i < |ops| ==> Absorbs(ApplyAll(docs, ops).docs, ops[i])
  {
    if ops != [] {
      var p := ops[..|ops| - 1];
      var last := ops[|ops| - 1];
      var before := ApplyAll(docs, p).docs;
      var after := ApplyAll(docs, ops).docs;
      AppliedAbsorbs(docs, p);
      forall i | 0 <= i < |ops| ensures Absorbs(after, ops[i]) {
        if i < |p| {
          assert ops[i] == p[i] && ops[i].url != last.url;
          assert after[ops[i].url] == before[ops[i].url];
        } else {
          var m := after[last.url];
          assert m + last.setDoc == m;
        }
      }
    }
  }

  /** A store that absorbs every op of a batch is left unchanged by it, and
      every op is counted as matched and none as upserted or modified. */
  lemma {:induction false} AbsorbedBatchIsNoOp(docs: map<Value, Record>, ops: seq<UpdateOne>)
    requires forall i :: 0 <= i < |ops| ==> Absorbs(docs, ops[i])
    ensures ApplyAll(docs, ops) == Outcome(docs, Counts(|ops|, 0, 0))
  {
    if ops != [] {
      AbsorbedBatchIsNoOp(docs, ops[..|ops| - 1]);
    }
  }

  /** Writing the identical op list, with distinct urls, a second time is
      writing it once: the second write matches every op and modifies
      nothing. A second call of `save_items_to_mongo` builds new ops with a
      new `scraped_at`, so it does modify; `SaveTwice` covers that case. */
  lemma WriteTwiceDistinct(docs: map<Value, Record>, ops: seq<UpdateOne>)
    requires DistinctUrls(ops)
    ensures var once := ApplyAll(docs, ops).docs;
      ApplyAll(once, ops) == Outcome(once, Counts(|ops|, 0, 0))
  {
    AppliedAbsorbs(docs, ops);
    AbsorbedBatchIsNoOp(ApplyAll(docs, ops).docs, ops);
  }
}
