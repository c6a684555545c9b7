/** String primitives the scrapers rely on: Python's `str.casefold`, `str.strip`,
    `str.rstrip(chars)`, the `in` substring test, `str.replace(old, "", 1)` and
    `"\n".join`, stated over `seq<char>`. */
module Text {

  datatype Option<T> = None | Some(value: T)

  /** The characters Python's `str.isspace()` accepts; `strip()` removes them
      and the regular-expression class `\s` matches them. */
  predicate IsSpace(c: char) {
    c == ' ' || ('\t' <= c <= '\r') || ('\U{1C}' <= c <= '\U{1F}')
    || c == '\U{85}' || c == '\U{A0}' || c == '\U{1680}'
    || ('\U{2000}' <= c <= '\U{200A}') || c == '\U{2028}' || c == '\U{2029}'
    || c == '\U{202F}' || c == '\U{205F}' || c == '\U{3000}'
  }

  /** The two characters the class `[^\n\r]` excludes. */
  predicate IsLineBreak(c: char) {
    c == '\n' || c == '\r'
  }

  /** Lower-casing of one character: ASCII letters and the German umlauts. */
  function Lower(c: char): char {
    if 'A' <= c <= 'Z' || c == 'Ä' || c == 'Ö' || c == 'Ü' then (c as int + 32) as char else c
  }

  /** `s.casefold()`, character by character. */
  function Casefold(s: string): string {
    seq(|s|, i requires 0 <= i < |s| => Lower(s[i]))
  }

  lemma CasefoldIdempotent(s: string)
    ensures Casefold(Casefold(s)) == Casefold(s)
  {
  }

  predicate IsStripped(s: string) {
    s == [] || (!IsSpace(s[0]) && !IsSpace(s[|s| - 1]))
  }

  predicate AllSpace(s: string) {
    forall i :: 0 <= i < |s| ==> IsSpace(s[i])
  }

  /** `s.lstrip()`: the suffix left after the leading whitespace. */
  function LStrip(s: string): (r: string)
    ensures |r| <= |s| && r == s[|s| - |r|..]
    ensures AllSpace(s[..|s| - |r|])
    ensures r == [] || !IsSpace(r[0])
  {
    if s != [] && IsSpace(s[0]) then
      var r := LStrip(s[1..]);
      assert s[..|s| - |r|] == [s[0]] + s[1..][..|s| - 1 - |r|];
      r
    else s
  }

  /** `s.rstrip()`: the prefix left before the trailing whitespace. */
  function RStrip(s: string): (r: string)
    ensures |r| <= |s| && r == s[..|r|]
    ensures AllSpace(s[|r|..])
    ensures r == [] || !IsSpace(r[|r| - 1])
  {
    if s != [] && IsSpace(s[|s| - 1]) then
      var p := s[..|s| - 1];
      var r := RStrip(p);
      assert s[|r|..] == p[|r|..] + [s[|s| - 1]];
      r
    else s
  }

  /** `s.strip()`: the part of `s` left once its leading and trailing
      whitespace is cut. It has no surrounding whitespace, is empty exactly
      when `s` is all whitespace, and an already stripped string is left alone. */
  function Strip(s: string): (r: string)
    ensures exists a: nat :: StrippedAt(s, r, a)
    ensures IsStripped(r)
    ensures r == [] <==> AllSpace(s)
    ensures IsStripped(s) ==> r == s
    ensures |r| <= |s|
  {
    var l := LStrip(s);
    var r := RStrip(l);
    StripSlices(s, l, r, |s| - |l|);
    r
  }

  /** Cutting whitespace off the front of `s` up to a non-space, and then off
      the back down to a non-space, leaves the part of `s` at the cut offset;
      nothing is left only when `s` is all whitespace, and nothing is cut
      from a stripped `s`. */
  lemma StripSlices(s: string, l: string, r: string, a: nat)
    requires a <= |s| && l == s[a..] && AllSpace(s[..a]) && (l == [] || !IsSpace(l[0]))
    requires |r| <= |l| && r == l[..|r|] && AllSpace(l[|r|..]) && (r == [] || !IsSpace(r[|r| - 1]))
    ensures StrippedAt(s, r, a)
    ensures IsStripped(r)
    ensures r == [] <==> AllSpace(s)
    ensures IsStripped(s) ==> r == s
    ensures |r| <= |s|
  {
    assert r == s[a..a + |r|];
    assert s[a + |r|..] == l[|r|..];
    if r == [] {
      assert l[|r|..] == l;
      assert l == [];
      forall k | 0 <= k < |s| ensures IsSpace(s[k]) {
        assert s[k] == s[..a][k];
      }
    } else {
      assert !IsSpace(s[a + |r| - 1]);
    }
    if IsStripped(s) && s != [] {
      AllSpaceBefore(s, a);
      assert l == s;
      AllSpaceAfter(l, |r|);
    }
  }

  lemma AllSpaceBefore(s: string, a: nat)
    requires a <= |s| && AllSpace(s[..a])
    ensures forall k :: 0 <= k < a ==> IsSpace(s[k])
  {
    forall k | 0 <= k < a ensures IsSpace(s[k]) {
      assert s[k] == s[..a][k];
    }
  }

  lemma AllSpaceAfter(s: string, b: nat)
    requires b <= |s| && AllSpace(s[b..])
    ensures forall k :: b <= k < |s| ==> IsSpace(s[k])
  {
    forall k | b <= k < |s| ensures IsSpace(s[k]) {
      assert s[k] == s[b..][k - b];
    }
  }

  /** `r` is the part of `s` at offset `a`, with only whitespace before and after it. */
  predicate StrippedAt(s: string, r: string, a: nat) {
    a + |r| <= |s| && r == s[a..a + |r|] && AllSpace(s[..a]) && AllSpace(s[a + |r|..])
  }

  /** `s.rstrip(c)` for a single character `c`. */
  function RStripChar(s: string, c: char): (r: string)
    ensures |r| <= |s| && r == s[..|r|]
    ensures r == [] || r[|r| - 1] != c
    ensures forall i :: |r| <= i < |s| ==> s[i] == c
  {
    if s != [] && s[|s| - 1] == c then RStripChar(s[..|s| - 1], c) else s
  }

  /** `n` occurs in `s` at position `i`. */
  predicate OccursAt(s: string, n: string, i: nat) {
    i + |n| <= |s| && s[i..i + |n|] == n
  }

  /** The first position at or after `from` where `n` occurs (`s.find(n, from)`). */
  function FindFrom(s: string, n: string, from: nat): (r: Option<nat>)
    ensures r.Some? ==> from <= r.value && OccursAt(s, n, r.value)
    ensures r.Some? ==> forall j :: from <= j < r.value ==> !OccursAt(s, n, j)
    ensures r.None? ==> forall j :: from <= j ==> !OccursAt(s, n, j)
    decreases |s| - from
  {
    if from + |n| > |s| then None
    else if s[from..from + |n|] == n then Some(from)
    else FindFrom(s, n, from + 1)
  }

  /** Python's `n in s`. */
  predicate Contains(s: string, n: string) {
    FindFrom(s, n, 0).Some?
  }

  lemma ContainsIff(s: string, n: string)
    ensures Contains(s, n) <==> exists i :: 0 <= i && OccursAt(s, n, i)
  {
  }

  /** An occurrence of an occurrence is an occurrence: if `s` contains `m`
      and `m` contains `n`, then `s` contains `n`. */
  lemma {:induction false} ContainsTransitive(s: string, m: string, n: string, j: nat)
    requires Contains(s, m) && OccursAt(m, n, j)
    ensures Contains(s, n)
  {
    var i := FindFrom(s, m, 0).value;
    assert s[i..i + |m|] == m;
    forall k | 0 <= k < |n| ensures s[i + j + k] == n[k] {
      assert n[k] == m[j + k] == s[i..i + |m|][j + k];
    }
    assert s[i + j..i + j + |n|] == n;
    assert OccursAt(s, n, i + j);
    ContainsIff(s, n);
  }

  /** Containing `p + n` means containing `n`. */
  lemma ContainsSuffix(s: string, p: string, n: string)
    requires Contains(s, p + n)
    ensures Contains(s, n)
  {
    assert (p + n)[|p|..|p| + |n|] == n;
    ContainsTransitive(s, p + n, n, |p|);
  }

  /** `s.replace(key, "", 1)`: the first occurrence of `key` removed. */
  function RemoveFirst(s: string, key: string): (r: string)
    ensures FindFrom(s, key, 0).None? ==> r == s
    ensures FindFrom(s, key, 0).Some? ==> |r| + |key| == |s|
    ensures FindFrom(s, key, 0).Some? ==>
      var i := FindFrom(s, key, 0).value; i <= |r| && s == r[..i] + key + r[i..]
  {
    match FindFrom(s, key, 0)
    case None => s
    case Some(i) => s[..i] + s[i + |key|..]
  }

  /** A text that begins with `key` loses exactly that prefix. */
  lemma RemoveFirstOfPrefix(key: string, rest: string)
    ensures RemoveFirst(key + rest, key) == rest
  {
    assert (key + rest)[0..|key|] == key;
    assert FindFrom(key + rest, key, 0) == Some(0);
  }

  /** `"\n".join(parts)`. */
  function JoinLines(parts: seq<string>): string {
    if parts == [] then ""
    else if |parts| == 1 then parts[0]
    else JoinLines(parts[..|parts| - 1]) + "\n" + parts[|parts| - 1]
  }

  /** Joining non-empty parts gives the empty text only when there are no parts. */
  lemma {:induction false} JoinLinesEmpty(parts: seq<string>)
    requires forall i :: 0 <= i < |parts| ==> parts[i] != ""
    ensures JoinLines(parts) == "" <==> parts == []
  {
    if |parts| > 1 {
      assert |JoinLines(parts)| >= |parts[|parts| - 1]| > 0;
    }
  }

  /** Every part appears in the joined text. */
  lemma {:induction false} JoinLinesContainsParts(parts: seq<string>, k: nat)
    requires k < |parts|
    ensures Contains(JoinLines(parts), parts[k])
  {
    var j := JoinLines(parts);
    if |parts| == 1 {
      assert OccursAt(j, parts[k], 0);
    } else if k == |parts| - 1 {
      var pre := JoinLines(parts[..|parts| - 1]) + "\n";
      assert j == pre + parts[k];
      assert j[|pre|..|pre| + |parts[k]|] == parts[k];
      assert OccursAt(j, parts[k], |pre|);
    } else {
      var pre := JoinLines(parts[..|parts| - 1]);
      JoinLinesContainsParts(parts[..|parts| - 1], k);
      var i := FindFrom(pre, parts[k], 0).value;
      assert j == pre + ("\n" + parts[|parts| - 1]);
      assert j[i..i + |parts[k]|] == pre[i..i + |parts[k]|];
      assert OccursAt(j, parts[k], i);
    }
    ContainsIff(j, parts[k]);
  }

  predicate IsDigit(c: char) {
    '0' <= c <= '9'
  }

  /** The value of one decimal digit (0 for any other character). */
  function DigitValue(c: char): nat {
    if IsDigit(c) then (c as int - '0' as int) as nat else 0
  }

  /** The number a string of decimal digits denotes, most significant first
      (`int(r)` for such a string). */
  function DigitsValue(r: string): nat {
    if r == [] then 0 else 10 * DigitsValue(r[..|r| - 1]) + DigitValue(r[|r| - 1])
  }

  /** Decimal rendering of a natural number, as an f-string renders an int:
      digits only, denoting `n`, with no leading zero. */
  function NatToString(n: nat): (r: string)
    ensures |r| >= 1
    ensures forall i :: 0 <= i < |r| ==> IsDigit(r[i])
    ensures DigitsValue(r) == n
    ensures r[0] == '0' <==> n == 0
    ensures n == 0 ==> r == "0"
  {
    var d := ['0' + (n % 10) as char];
    if n < 10 then d
    else
      var h := NatToString(n / 10);
      assert (h + d)[..|h + d| - 1] == h;
      h + d
  }
}
