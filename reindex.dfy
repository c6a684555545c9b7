/** The reindexer's projection from stored records to search-index actions:
    the boolean-column coercion of `normalize` and the two action
    generators, one over a JSON-lines snapshot and one over the collection. */
module Reindex {
  import opened Text
  import opened Records

  /** The columns indexed as booleans. */
  const BoolCols: seq<string> := [
    "einbauküche", "fahrstuhl", "balkon", "terrasse",
    "garage", "parkplatz", "teilmöbliert_/_möbliert"]

  /** The index name (the default of `ES_INDEX`). */
  const Index := "willhaben_immobilien"

  /** `v is True or v == 1`: Python's `==` makes `True`, `1` and `1.0` equal to 1. */
  predicate CoercesTrue(v: Value) {
    v == Bool(true) || v == Int(1) || v == Float(1.0)
  }

  /** The value `normalize` leaves under key `k`. */
  function NormalValue(k: string, v: Value): Value {
    if k in BoolCols then Bool(CoercesTrue(v)) else v
  }

  /** What `normalize(d)` returns: `_id` is gone, every boolean column that
      is present holds `True` exactly when it held `True` or 1 and `False`
      for anything else, and every other entry is unchanged; no key is added. */
  function Normalized(d: Record): (r: Record)
    ensures r.Keys == d.Keys - {"_id"}
    ensures forall k :: k in r && k in BoolCols ==> r[k] == Bool(CoercesTrue(d[k]))
    ensures forall k :: k in r && k !in BoolCols ==> r[k] == d[k]
  {
    map k | k in d.Keys - {"_id"} :: NormalValue(k, d[k])
  }

  /** Normalising a normalised record changes nothing. */
  lemma NormalizedIdempotent(d: Record)
    ensures Normalized(Normalized(d)) == Normalized(d)
  {
    var n := Normalized(d);
    forall k | k in n ensures Normalized(n)[k] == n[k] {
      if k in BoolCols {
        assert n[k] == Bool(CoercesTrue(d[k]));
      }
    }
  }

  /** The url entry is neither `_id` nor a boolean column, so normalising keeps it. */
  lemma NormalizedKeepsUrl(d: Record)
    ensures HasTruthy(Normalized(d), "url") == HasTruthy(d, "url")
    ensures "url" in d ==> Normalized(d)["url"] == d["url"]
  {
    assert "url" !in BoolCols;
  }

  /** `normalize(d)`: `_id` is popped, then each boolean column present is
      rewritten in turn. The Python function updates the dictionary in
      place and returns it; here the updated dictionary is the result. */
  method Normalize(d: Record) returns (r: Record)
    ensures r == Normalized(d)
  {
    r := d - {"_id"};
    for i := 0 to |BoolCols|
      invariant r.Keys == d.Keys - {"_id"}
      invariant forall k :: k in r ==> r[k] == if k in BoolCols[..i] then Bool(CoercesTrue(d[k])) else d[k]
    {
      var c := BoolCols[i];
      assert BoolCols[..i + 1] == BoolCols[..i] + [c];
      if c in r {
        r := r[c := Bool(r[c] == Bool(true) || r[c] == Int(1) || r[c] == Float(1.0))];
      }
    }
    assert BoolCols[..|BoolCols|] == BoolCols;
  }

  /** One bulk action: `_op_type`, `_index`, `_id` and `_source`. */
  datatype Action = Action(opType: string, index: string, id: Value, source: Record)

  /** The action a normalised record with a url yields. */
  function IndexAction(d: Record): Action
    requires "url" in d
  {
    Action("index", Index, d["url"], d)
  }

  /** The records a generator indexes, normalised: those whose url is
      present and truthy, in input order. */
  function Indexed(docs: seq<Record>): (ds: seq<Record>)
    ensures |ds| <= |docs|
    ensures forall i :: 0 <= i < |ds| ==> HasTruthy(ds[i], "url")
  {
    if docs == [] then []
    else
      var d := Normalized(docs[|docs| - 1]);
      Indexed(docs[..|docs| - 1]) + (if HasTruthy(d, "url") then [d] else [])
  }

  function IndexActions(ds: seq<Record>): (acts: seq<Action>)
    requires forall i :: 0 <= i < |ds| ==> "url" in ds[i]
    ensures |acts| == |ds| && forall i :: 0 <= i < |ds| ==> acts[i] == IndexAction(ds[i])
  {
    if ds == [] then [] else IndexActions(ds[..|ds| - 1]) + [IndexAction(ds[|ds| - 1])]
  }

  /** `actions_from_mongo()` over the documents `col.find({})` returns: at
      most one action per document. */
  function ActionsFromMongo(docs: seq<Record>): (acts: seq<Action>)
    ensures |acts| <= |docs|
  {
    IndexActions(Indexed(docs))
  }

  /** `actions_from_jsonl(path)` over the lines of the file, each non-blank
      line (after `strip`) decoded by `decode`: at most one action per line. */
  function ActionsFromJsonl(lines: seq<string>, decode: string -> Record): (acts: seq<Action>)
    ensures |acts| <= |lines|
  {
    IndexActions(Indexed(DecodeLines(lines, decode)))
  }

  /** The decoded non-blank lines, in order: at most one record per line. */
  function DecodeLines(lines: seq<string>, decode: string -> Record): (ds: seq<Record>)
    ensures |ds| <= |lines|
  {
    if lines == [] then []
    else DecodeLines(lines[..|lines| - 1], decode) + DecodeLine(lines[|lines| - 1], decode)
  }

  /** One line: nothing when it is blank, else the decoded stripped line. */
  function DecodeLine(l: string, decode: string -> Record): (ds: seq<Record>)
    ensures |ds| <= 1
  {
    var t := Strip(l);
    if t == [] then [] else [decode(t)]
  }

  /** An `index` action on the index whose `_id` is the truthy url of its
      source, a normalised record without `_id`. */
  predicate WellFormed(a: Action) {
    && a.opType == "index" && a.index == Index
    && "url" in a.source && a.id == a.source["url"] && IsTruthy(a.id)
    && "_id" !in a.source && Normalized(a.source) == a.source
  }

  /** Every action indexes a normalised record under its truthy url, with
      `_id` removed from the source. */
  lemma {:induction false} ActionsWellFormed(docs: seq<Record>)
    ensures forall a :: a in ActionsFromMongo(docs) ==> WellFormed(a)
  {
    IndexedNormalized(docs);
    var ds := Indexed(docs);
    forall a | a in ActionsFromMongo(docs) ensures WellFormed(a) {
      var i :| 0 <= i < |ds| && a == IndexAction(ds[i]);
      assert ds[i] in ds;
      var d :| d in docs && ds[i] == Normalized(d);
      NormalizedIdempotent(d);
    }
  }

  /** Every indexed record is the normalised form of an input record. */
  lemma {:induction false} IndexedNormalized(docs: seq<Record>)
    ensures forall r :: r in Indexed(docs) ==> exists d :: d in docs && r == Normalized(d)
  {
    if docs != [] {
      var p := docs[..|docs| - 1];
      IndexedNormalized(p);
      assert forall d :: d in p ==> d in docs;
    }
  }

  /** The generators stream: the actions of a concatenation are the
      actions of the parts, one after the other. */
  lemma {:induction false} ActionsAppend(a: seq<Record>, b: seq<Record>)
    ensures ActionsFromMongo(a + b) == ActionsFromMongo(a) + ActionsFromMongo(b)
  {
    IndexedAppend(a, b);
    IndexActionsAppend(Indexed(a), Indexed(b));
  }

  lemma {:induction false} IndexedAppend(a: seq<Record>, b: seq<Record>)
    ensures Indexed(a + b) == Indexed(a) + Indexed(b)
  {
    if b == [] {
      assert a + b == a;
    } else {
      var p := b[..|b| - 1];
      assert (a + b)[..|a + b| - 1] == a + p;
      IndexedAppend(a, p);
    }
  }

  lemma {:induction false} IndexActionsAppend(a: seq<Record>, b: seq<Record>)
    requires forall i :: 0 <= i < |a| ==> "url" in a[i]
    requires forall i :: 0 <= i < |b| ==> "url" in b[i]
    ensures forall i :: 0 <= i < |a + b| ==> "url" in (a + b)[i]
    ensures IndexActions(a + b) == IndexActions(a) + IndexActions(b)
  {
    assert forall i :: 0 <= i < |a + b| ==> (a + b)[i] == if i < |a| then a[i] else b[i - |a|];
  }

  /** One record yields one action exactly when its url is present and
      truthy; a record without one is skipped. */
  lemma SingleAction(d: Record)
    ensures ActionsFromMongo([d]) == if HasTruthy(d, "url") then [IndexAction(Normalized(d))] else []
  {
    NormalizedKeepsUrl(d);
    var n := Normalized(d);
    assert [d][..0] == [] && [n][..0] == [];
    assert Indexed([d]) == if HasTruthy(d, "url") then [n] else [];
  }

  /** One more line of the snapshot: a blank one adds nothing, any other is
      decoded and adds the action of that one record, if any. */
  lemma JsonlSnoc(lines: seq<string>, l: string, decode: string -> Record)
    ensures ActionsFromJsonl(lines + [l], decode) == ActionsFromJsonl(lines, decode) +
      (if Strip(l) == [] then [] else ActionsFromMongo([decode(Strip(l))]))
  {
    assert (lines + [l])[..|lines|] == lines;
    var tail := if Strip(l) == [] then [] else [decode(Strip(l))];
    assert DecodeLines(lines + [l], decode) == DecodeLines(lines, decode) + tail;
    ActionsAppend(DecodeLines(lines, decode), tail);
    assert ActionsFromMongo([]) == [];
  }

  /** The snapshot generator streams: the actions of two files read one after
      the other are their actions one after the other. */
  lemma JsonlAppend(a: seq<string>, b: seq<string>, decode: string -> Record)
    ensures ActionsFromJsonl(a + b, decode) == ActionsFromJsonl(a, decode) + ActionsFromJsonl(b, decode)
  {
    DecodeLinesAppend(a, b, decode);
    ActionsAppend(DecodeLines(a, decode), DecodeLines(b, decode));
  }

  lemma {:induction false} DecodeLinesAppend(a: seq<string>, b: seq<string>, decode: string -> Record)
    ensures DecodeLines(a + b, decode) == DecodeLines(a, decode) + DecodeLines(b, decode)
  {
    if b == [] {
      assert a + b == a;
    } else {
      var p, l := b[..|b| - 1], b[|b| - 1];
      assert b == p + [l];
      assert a + b == (a + p) + [l];
      DecodeLinesAppend(a, p, decode);
      DecodeLinesSnoc(a + p, l, decode);
      DecodeLinesSnoc(p, l, decode);
      ConcatAssoc(DecodeLines(a, decode), DecodeLines(p, decode), DecodeLine(l, decode));
    }
  }

  lemma ConcatAssoc<T>(x: seq<T>, y: seq<T>, z: seq<T>)
    ensures (x + y) + z == x + (y + z)
  {
  }

  /** One more line adds what that line decodes to. */
  lemma DecodeLinesSnoc(lines: seq<string>, l: string, decode: string -> Record)
    ensures DecodeLines(lines + [l], decode) == DecodeLines(lines, decode) + DecodeLine(l, decode)
  {
    assert (lines + [l])[..|lines|] == lines;
  }

  /** Every action read from a snapshot is well formed, whatever the lines
      decode to. */
  lemma JsonlWellFormed(lines: seq<string>, decode: string -> Record)
    ensures forall a :: a in ActionsFromJsonl(lines, decode) ==> WellFormed(a)
  {
    ActionsWellFormed(DecodeLines(lines, decode));
  }

  /** Whitespace-only lines contribute nothing. */
  lemma BlankLinesSkipped(lines: seq<string>, blank: string, decode: string -> Record)
    requires AllSpace(blank)
    ensures DecodeLines(lines + [blank], decode) == DecodeLines(lines, decode)
  {
    assert (lines + [blank])[..|lines|] == lines;
  }
}
