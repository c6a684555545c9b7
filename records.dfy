/** The values a scraped or stored record can hold, and Python's truthiness
    of them. A record is a dictionary from field name to value. */
module Records {

  /** A JSON-like value: `None`, a bool, an int, a float, a string, or a
      timestamp (the `datetime` the store writes). */
  datatype Value =
    | Null
    | Bool(b: bool)
    | Int(i: int)
    | Float(f: real)
    | Str(s: string)
    | Time(t: int)

  type Record = map<string, Value>

  /** Python's `bool(v)`: `None`, `False`, zero and the empty string are falsy. */
  predicate IsTruthy(v: Value) {
    match v
    case Null => false
    case Bool(b) => b
    case Int(i) => i != 0
    case Float(f) => f != 0.0
    case Str(s) => s != ""
    case Time(_) => true
  }

  /** `d.get(key)` followed by `if not ...`: the key is present and its value truthy. */
  predicate HasTruthy(d: Record, key: string) {
    key in d && IsTruthy(d[key])
  }

  /** A dictionary display `{k1: v1, k2: v2, ...}`: entries are inserted in
      order, so a later entry under the same key wins. */
  function RecordOf(entries: seq<(string, Value)>): (r: Record)
    ensures r.Keys == EntryKeys(entries)
  {
    if entries == [] then map[]
    else
      var last := entries[|entries| - 1];
      RecordOf(entries[..|entries| - 1])[last.0 := last.1]
  }

  /** The keys the entries mention. */
  function EntryKeys(entries: seq<(string, Value)>): (ks: set<string>)
    ensures forall k :: k in ks <==> exists i :: 0 <= i < |entries| && entries[i].0 == k
  {
    if entries == [] then {}
    else
      var init := entries[..|entries| - 1];
      var ks := EntryKeys(init);
      assert forall i :: 0 <= i < |init| ==> init[i] == entries[i];
      ks + {entries[|entries| - 1].0}
  }

  lemma {:induction false} EntryKeysAppend(a: seq<(string, Value)>, b: seq<(string, Value)>)
    ensures EntryKeys(a + b) == EntryKeys(a) + EntryKeys(b)
  {
    if b != [] {
      var init := b[..|b| - 1];
      assert (a + b)[..|a + b| - 1] == a + init;
      EntryKeysAppend(a, init);
    } else {
      assert a + b == a;
    }
  }

  /** An entry whose key no other entry repeats is found under that key. */
  lemma {:induction false} RecordOfAt(entries: seq<(string, Value)>, i: nat)
    requires i < |entries|
    requires forall j :: 0 <= j < |entries| && j != i ==> entries[j].0 != entries[i].0
    ensures RecordOf(entries)[entries[i].0] == entries[i].1
  {
    var n := |entries| - 1;
    var init := entries[..n];
    var k := entries[i].0;
    if i < n {
      assert init[i] == entries[i];
      forall j | 0 <= j < |init| && j != i ensures init[j].0 != init[i].0 {
        assert init[j] == entries[j];
      }
      RecordOfAt(init, i);
      assert k in EntryKeys(init) && k != entries[n].0;
    }
  }
}
