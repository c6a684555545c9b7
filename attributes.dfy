/** The attribute-by-label lookup `get_attribute`, which both site adapters
    define with the same body: a case-insensitive exact match of the title of
    an `li[data-testid="attribute-item"]`, then the tie-break
    text > check-mark icon (`True`) > empty string, and `None` when no item
    carries the label. */
module Attributes {
  import opened Text
  import opened Records

  /** The value cell: its `get_text(" ", strip=True)` and whether it holds an `<svg>`. */
  datatype AttrValue = AttrValue(text: string, hasSvg: bool)

  /** One attribute item: its title text and value cell, either of which may be missing. */
  datatype AttrItem = AttrItem(title: Option<string>, value: Option<AttrValue>)

  /** The item has both elements and its title equals the wanted one after casefolding. */
  predicate AttrMatches(item: AttrItem, wanted: string) {
    item.title.Some? && item.value.Some? && Casefold(item.title.value) == Casefold(wanted)
  }

  /** `k` is the first item that matches. */
  predicate FirstAttr(items: seq<AttrItem>, wanted: string, k: int) {
    0 <= k < |items| && AttrMatches(items[k], wanted)
    && forall j :: 0 <= j < k ==> !AttrMatches(items[j], wanted)
  }

  /** `get_attribute(soup, wanted)`. The result is `None` exactly when no item
      matches; otherwise the first matching item alone decides: its text when
      non-empty, else `True` when it shows an icon, else `""`. */
  function GetAttribute(items: seq<AttrItem>, wanted: string): (r: Value)
    ensures r.Null? <==> forall i :: 0 <= i < |items| ==> !AttrMatches(items[i], wanted)
    ensures r.Null? || r.Str? || r == Bool(true)
    ensures forall k :: FirstAttr(items, wanted, k) ==>
      var v := items[k].value.value;
      && (v.text != "" ==> r == Str(v.text))
      && (v.text == "" && v.hasSvg ==> r == Bool(true))
      && (v.text == "" && !v.hasSvg ==> r == Str(""))
  {
    if items == [] then Null
    else if AttrMatches(items[0], wanted) then
      var v := items[0].value.value;
      if v.text != "" then Str(v.text)
      else if v.hasSvg then Bool(true)
      else Str("")
    else
      var r := GetAttribute(items[1..], wanted);
      assert forall k :: FirstAttr(items, wanted, k) ==> FirstAttr(items[1..], wanted, k - 1);
      r
  }
}
