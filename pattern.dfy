/** The three regular expressions of the Immowelt feature extraction, each
    as an explicit scan with the matching rules of Python's `re` under
    `re.IGNORECASE`:
      `<label>:\s*([^\n\r]+)`  (used for "böden:" and "zustand:") and
      `baujahr:\s*(\d{4})`.
    `\s*` is greedy and may cross line breaks; when it swallows the rest of
    the text, the engine backtracks until `[^\n\r]+` can match one character. */
module Pattern {
  import opened Text

  /** `marker` (given in lower case) occurs at `i`, compared case-insensitively. */
  predicate MarkerAt(s: string, marker: string, i: nat) {
    i + |marker| <= |s| && Casefold(s[i..i + |marker|]) == marker
  }

  /** Where a greedy `\s*` starting at `p` stops. */
  function SpaceEnd(s: string, p: nat): (q: nat)
    requires p <= |s|
    ensures p <= q <= |s|
    ensures forall k :: p <= k < q ==> IsSpace(s[k])
    ensures q == |s| || !IsSpace(s[q])
    decreases |s| - p
  {
    if p < |s| && IsSpace(s[p]) then SpaceEnd(s, p + 1) else p
  }

  /** Where a greedy `[^\n\r]*` starting at `p` stops: the end of the line. */
  function LineEnd(s: string, p: nat): (e: nat)
    requires p <= |s|
    ensures p <= e <= |s|
    ensures forall k :: p <= k < e ==> !IsLineBreak(s[k])
    ensures e == |s| || IsLineBreak(s[e])
    decreases |s| - p
  {
    if p < |s| && !IsLineBreak(s[p]) then LineEnd(s, p + 1) else p
  }

  /** The last position in `[p, |s|)` holding a character other than a line
      break: where backtracking leaves `\s*` once it has consumed the rest of the text. */
  function LastNonBreak(s: string, p: nat): (b: Option<nat>)
    requires p <= |s|
    ensures b.Some? ==> p <= b.value < |s| && !IsLineBreak(s[b.value])
    ensures b.Some? ==> forall k :: b.value < k < |s| ==> IsLineBreak(s[k])
    ensures b.None? ==> forall k :: p <= k < |s| ==> IsLineBreak(s[k])
    decreases |s| - p
  {
    if p == |s| then None
    else match LastNonBreak(s, p + 1)
      case Some(b) => Some(b)
      case None => if IsLineBreak(s[p]) then None else Some(p)
  }

  /** One match: where it starts, the captured group, and where it ends. */
  datatype Match = Match(start: nat, group: string, end: nat)

  /** The match of a marker at `i` whose group `[^\n\r]+` starts at `g`:
      the group runs greedily to the end of its line. */
  function GroupFrom(s: string, i: nat, g: nat): (m: Match)
    requires g < |s| && !IsLineBreak(s[g])
    ensures m.start == i && g == m.end - |m.group| < m.end <= |s|
    ensures m.group == s[g..m.end]
    ensures forall k :: 0 <= k < |m.group| ==> !IsLineBreak(m.group[k])
    ensures m.end == |s| || IsLineBreak(s[m.end])
  {
    var e := LineEnd(s, g);
    assert forall k :: 0 <= k < e - g ==> s[g..e][k] == s[g + k];
    Match(i, s[g..e], e)
  }

  /** A whitespace run from `p` that ends before a non-space at `q` is where `\s*` stops. */
  lemma SpaceEndAt(s: string, p: nat, q: nat)
    requires p <= q < |s| && AllSpace(s[p..q]) && !IsSpace(s[q])
    ensures SpaceEnd(s, p) == q
  {
    forall k | p <= k < q ensures IsSpace(s[k]) {
      assert s[p..q][k - p] == s[k];
    }
  }

  /** A break-free run from `p` up to a line break or the end is where `[^\n\r]*` stops. */
  lemma LineEndAt(s: string, p: nat, e: nat)
    requires p <= e <= |s|
    requires forall k :: p <= k < e ==> !IsLineBreak(s[k])
    requires e == |s| || IsLineBreak(s[e])
    ensures LineEnd(s, p) == e
  {
  }

  /** `<marker>\s*([^\n\r]+)` tried at position `i`. A match is the marker,
      then only whitespace, then a non-empty group free of line breaks that
      runs to the end of its line. It fails exactly when the marker is absent
      or everything after it is line breaks. */
  function LineMatchAt(s: string, marker: string, i: nat): (r: Option<Match>)
    ensures r.None? <==> !MarkerAt(s, marker, i)
                         || forall k :: i + |marker| <= k < |s| ==> IsLineBreak(s[k])
    ensures r.Some? ==> var m := r.value;
      && m.start == i && MarkerAt(s, marker, i)
      && i + |marker| <= m.end - |m.group| < m.end <= |s|
      && m.group == s[m.end - |m.group|..m.end]
      && AllSpace(s[i + |marker|..m.end - |m.group|])
      && (forall k :: 0 <= k < |m.group| ==> !IsLineBreak(m.group[k]))
      && (m.end == |s| || IsLineBreak(s[m.end]))
    // `\s*` is greedy: no longer whitespace run leaves a character the group could start with.
    ensures r.Some? ==> var m := r.value;
      forall g :: m.end - |m.group| < g < |s| && AllSpace(s[i + |marker|..g]) ==> IsLineBreak(s[g])
  {
    if !MarkerAt(s, marker, i) then None
    else
      var p := i + |marker|;
      var q := SpaceEnd(s, p);
      if q < |s| then
        assert AllSpace(s[p..q]);
        Some(GroupFrom(s, i, q))
      else
        match LastNonBreak(s, p)
        case None => None
        case Some(b) =>
          assert AllSpace(s[p..b]);
          Some(GroupFrom(s, i, b))
  }

  /** The marker, whitespace, then text running from `g` to the end of its
      line at `e`: the match captures exactly that text. */
  lemma LineMatchOfLine(s: string, marker: string, i: nat, g: nat, e: nat)
    requires MarkerAt(s, marker, i)
    requires i + |marker| <= g < e <= |s|
    requires AllSpace(s[i + |marker|..g]) && !IsSpace(s[g])
    requires forall k :: g <= k < e ==> !IsLineBreak(s[k])
    requires e == |s| || IsLineBreak(s[e])
    ensures LineMatchAt(s, marker, i) == Some(Match(i, s[g..e], e))
  {
    SpaceEndAt(s, i + |marker|, g);
    LineEndAt(s, g, e);
  }

  /** Where the parts of a concatenation lie in it. */
  lemma PartsAt(s: string, pre: string, written: string, sp: string, v: string, rest: string)
    requires s == pre + written + sp + v + rest
    ensures var i := |pre|; var g := i + |written| + |sp|; var e := g + |v|;
      && e + |rest| == |s|
      && s[i..i + |written|] == written && s[i + |written|..g] == sp && s[g..e] == v
      && (e < |s| ==> s[e] == rest[0])
  {
  }

  /** The marker as written at `i`, whitespace, then the text `v` of a line
      ending at a line break or the end: the match captures `v`. */
  lemma LineMatchOfSlices(s: string, marker: string, i: nat, written: string, sp: string, v: string, e: nat)
    requires e == i + |written| + |sp| + |v| <= |s|
    requires s[i..i + |written|] == written && Casefold(written) == marker
    requires s[i + |written|..i + |written| + |sp|] == sp && AllSpace(sp)
    requires var g := i + |written| + |sp|; s[g..e] == v
    requires v != [] && !IsSpace(v[0]) && forall k :: 0 <= k < |v| ==> !IsLineBreak(v[k])
    requires e == |s| || IsLineBreak(s[e])
    ensures LineMatchAt(s, marker, i) == Some(Match(i, v, e))
  {
    var g := i + |written| + |sp|;
    forall k | g <= k < e ensures !IsLineBreak(s[k]) {
      assert s[k] == s[g..e][k - g];
    }
    assert s[g] == v[0];
    LineMatchOfLine(s, marker, i, g, e);
  }

  /** `re.search` from position `from`: the leftmost match. */
  function SearchFrom(s: string, marker: string, from: nat): (r: Option<Match>)
    ensures r.Some? ==> from <= r.value.start && LineMatchAt(s, marker, r.value.start) == r
    ensures r.Some? ==> forall j :: from <= j < r.value.start ==> LineMatchAt(s, marker, j).None?
    ensures r.None? ==> forall j :: from <= j ==> LineMatchAt(s, marker, j).None?
    decreases |s| - from
  {
    if from + |marker| > |s| then
      assert forall j :: from <= j ==> !MarkerAt(s, marker, j);
      None
    else if LineMatchAt(s, marker, from).Some? then LineMatchAt(s, marker, from)
    else SearchFrom(s, marker, from + 1)
  }

  /** The successive non-overlapping matches of `re.finditer` from `from`:
      the first is the leftmost match, each next one is the leftmost match
      after the end of the previous one, and none is left after the last. */
  function MatchesFrom(s: string, marker: string, from: nat): (ms: seq<Match>)
    ensures ms == [] <==> SearchFrom(s, marker, from).None?
    ensures ms != [] ==> SearchFrom(s, marker, from) == Some(ms[0])
    ensures forall k :: 0 < k < |ms| ==> SearchFrom(s, marker, ms[k - 1].end) == Some(ms[k])
    ensures ms != [] ==> SearchFrom(s, marker, ms[|ms| - 1].end).None?
    decreases |s| - from
  {
    match SearchFrom(s, marker, from)
    case None => []
    case Some(m) =>
      var rest := MatchesFrom(s, marker, m.end);
      assert forall k :: 0 < k < |[m] + rest| ==> ([m] + rest)[k] == rest[k - 1];
      [m] + rest
  }

  /** A marker that does not start with a line break cannot match at one. */
  lemma NoMatchAtBreak(s: string, marker: string, j: nat)
    requires j < |s| && IsLineBreak(s[j]) && marker != [] && !IsLineBreak(marker[0])
    ensures LineMatchAt(s, marker, j).None?
  {
    if j + |marker| <= |s| {
      assert Casefold(s[j..j + |marker|])[0] == s[j];
    }
  }

  /** Nothing is found from the end of the text. */
  lemma NoMatchAtEnd(s: string, marker: string)
    ensures SearchFrom(s, marker, |s|).None?
  {
  }

  /** A search from where the pattern does not match goes on from the next position. */
  lemma SearchFromSkip(s: string, marker: string, from: nat)
    requires LineMatchAt(s, marker, from).None?
    ensures SearchFrom(s, marker, from) == SearchFrom(s, marker, from + 1)
  {
  }

  /** `re.findall` from position `from`: the groups of those matches, in
      order. Every group is non-empty and free of line breaks. */
  function FindAllFrom(s: string, marker: string, from: nat): (r: seq<string>)
    ensures |r| == |MatchesFrom(s, marker, from)|
    ensures forall k :: 0 <= k < |r| ==> r[k] == MatchesFrom(s, marker, from)[k].group
    ensures forall g :: g in r ==> g != "" && forall k :: 0 <= k < |g| ==> !IsLineBreak(g[k])
  {
    var ms := MatchesFrom(s, marker, from);
    forall k | 0 <= k < |ms|
      ensures ms[k].group != "" && forall j :: 0 <= j < |ms[k].group| ==> !IsLineBreak(ms[k].group[j])
    {
      var f := if k == 0 then from else ms[k - 1].end;
      assert SearchFrom(s, marker, f) == Some(ms[k]);
      assert LineMatchAt(s, marker, ms[k].start) == Some(ms[k]);
    }
    seq(|ms|, k requires 0 <= k < |ms| => ms[k].group)
  }

  /** `int(...)` of a four-digit group, digit by digit: the decimal value of
      the four characters. */
  function FourDigits(s: string, q: nat): (n: nat)
    requires q + 4 <= |s| && forall k :: q <= k < q + 4 ==> IsDigit(s[k])
    ensures n <= 9999
    ensures n == DigitsValue(s[q..q + 4])
  {
    var t := s[q..q + 4];
    assert t[..3][..2] == t[..2] && t[..2][..1] == t[..1] && t[..1][..0] == [];
    assert DigitsValue(t[..1]) == DigitValue(s[q]);
    assert DigitsValue(t[..2]) == 10 * DigitValue(s[q]) + DigitValue(s[q + 1]);
    assert DigitsValue(t[..3]) == 10 * DigitsValue(t[..2]) + DigitValue(s[q + 2]);
    assert DigitsValue(t) == 10 * DigitsValue(t[..3]) + DigitValue(s[q + 3]);
    1000 * DigitValue(s[q]) + 100 * DigitValue(s[q + 1]) + 10 * DigitValue(s[q + 2]) + DigitValue(s[q + 3])
  }

  /** After whitespace from `p`, four digits start at `q`. */
  predicate YearDigitsAt(s: string, p: nat, q: nat) {
    p <= q && q + 4 <= |s| && AllSpace(s[p..q]) && forall k :: q <= k < q + 4 ==> IsDigit(s[k])
  }

  /** After `marker` at `i` and whitespace, four digits start at `q`. */
  predicate YearDigitsAfter(s: string, marker: string, i: nat, q: nat) {
    YearDigitsAt(s, i + |marker|, q)
  }

  /** Digits are never whitespace, so the only place four digits can follow
      a whitespace run is where greedy `\s*` stops. */
  lemma YearDigitsAtSpaceEnd(s: string, p: nat, q: nat)
    requires YearDigitsAt(s, p, q)
    ensures SpaceEnd(s, p) == q
  {
    SpaceEndAt(s, p, q);
  }

  /** `<marker>\s*(\d{4})` tried at `i`: it matches exactly when the marker
      is there and some whitespace run after it is followed by four digits,
      and `int` of the group is the decimal value of those digits. */
  function YearAt(s: string, marker: string, i: nat): (r: Option<nat>)
    ensures r.Some? <==> MarkerAt(s, marker, i) && exists q: nat :: YearDigitsAfter(s, marker, i, q)
    ensures r.Some? ==> exists q: nat :: YearDigitsAfter(s, marker, i, q) && q + 4 <= |s|
                                         && r.value == DigitsValue(s[q..q + 4])
    ensures r.Some? ==> r.value <= 9999
  {
    if !MarkerAt(s, marker, i) then None
    else
      var p := i + |marker|;
      var q := SpaceEnd(s, p);
      if q + 4 <= |s| && forall k :: q <= k < q + 4 ==> IsDigit(s[k]) then
        assert AllSpace(s[p..q]);
        assert YearDigitsAfter(s, marker, i, q);
        Some(FourDigits(s, q))
      else
        assert forall q': nat :: !YearDigitsAfter(s, marker, i, q') by {
          forall q': nat | YearDigitsAfter(s, marker, i, q') ensures false {
            YearDigitsAtSpaceEnd(s, p, q');
          }
        }
        None
  }

  /** `re.search` for the year pattern from `from`, converted with `int`:
      the number of the leftmost match, or absent when nothing matches. */
  function SearchYearFrom(s: string, marker: string, from: nat): (r: Option<nat>)
    ensures r.Some? ==> exists i :: LeftmostYear(s, marker, from, i, r)
    ensures r.None? ==> forall i :: from <= i ==> YearAt(s, marker, i).None?
    decreases |s| - from
  {
    if from + |marker| > |s| then
      assert forall j :: from <= j ==> !MarkerAt(s, marker, j);
      None
    else if YearAt(s, marker, from).Some? then
      assert LeftmostYear(s, marker, from, from, YearAt(s, marker, from));
      YearAt(s, marker, from)
    else
      var r := SearchYearFrom(s, marker, from + 1);
      LeftmostYearStep(s, marker, from, from + 1, r);
      r
  }

  /** The year pattern matches at `i` with `r`, and nowhere from `from` before `i`. */
  predicate LeftmostYear(s: string, marker: string, from: nat, i: nat, r: Option<nat>) {
    from <= i && YearAt(s, marker, i) == r && forall j :: from <= j < i ==> YearAt(s, marker, j).None?
  }

  /** A leftmost match from the next position is leftmost from a position that does not match. */
  lemma LeftmostYearStep(s: string, marker: string, from: nat, next: nat, r: Option<nat>)
    requires next == from + 1 && YearAt(s, marker, from).None?
    ensures (exists i :: LeftmostYear(s, marker, next, i, r)) ==> exists i :: LeftmostYear(s, marker, from, i, r)
  {
    forall i | LeftmostYear(s, marker, next, i, r) ensures LeftmostYear(s, marker, from, i, r) {
      forall j: nat | from <= j < i ensures YearAt(s, marker, j).None? {
        if next <= j {
          assert next <= j < i;
        }
      }
    }
  }


  /** Two matches, the second found after the first and nothing after it. */
  lemma TwoMatches(s: string, marker: string, from: nat, m1: Match, m2: Match)
    requires SearchFrom(s, marker, from) == Some(m1)
    requires SearchFrom(s, marker, m1.end) == Some(m2)
    requires SearchFrom(s, marker, m2.end).None?
    ensures MatchesFrom(s, marker, from) == [m1, m2]
  {
    assert MatchesFrom(s, marker, m2.end) == [];
    assert MatchesFrom(s, marker, m1.end) == [m2];
  }

  /** A match at the start, no match at the character after it, and a
      match from the next position to the end: `findall` gives both groups. */
  lemma TwoLineMatches(s: string, marker: string, m1: Match, e: nat, m2: Match)
    requires m1.end == e && m2.end == |s|
    requires LineMatchAt(s, marker, 0) == Some(m1)
    requires LineMatchAt(s, marker, e).None?
    requires LineMatchAt(s, marker, e + 1) == Some(m2)
    ensures FindAllFrom(s, marker, 0) == [m1.group, m2.group]
  {
    SearchFromSkip(s, marker, e);
    NoMatchAtEnd(s, marker);
    TwoMatches(s, marker, 0, m1, m2);
  }

  /** A text of two lines, each a label followed by a space and a value. */
  function TwoLines(written: string, v1: string, v2: string): string {
    written + " " + v1 + "\n" + written + " " + v2
  }

  /** The values such a line can carry: stripped, non-empty, on one line. */
  predicate LineValue(v: string) {
    v != [] && IsStripped(v) && forall k :: 0 <= k < |v| ==> !IsLineBreak(v[k])
  }

  /** `s` laid out as `written + " " + v1 + "\n" + written + " " + v2`,
      read off by position. */
  predicate TwoLinesLayout(s: string, written: string, v1: string, v2: string) {
    var e1 := |written| + 1 + |v1|;
    && |s| == e1 + 2 + |written| + |v2|
    && s[0..|written|] == written && s[|written|..|written| + 1] == " " && s[|written| + 1..e1] == v1
    && s[e1] == '\n'
    && s[e1 + 1..e1 + 1 + |written|] == written && s[e1 + 1 + |written|..e1 + 2 + |written|] == " "
    && s[e1 + 2 + |written|..|s|] == v2
  }

  lemma TwoLinesLaidOut(written: string, v1: string, v2: string)
    ensures TwoLinesLayout(TwoLines(written, v1, v2), written, v1, v2)
  {
    var s := TwoLines(written, v1, v2);
    var line1 := written + " " + v1 + "\n";
    var line2 := written + " " + v2;
    assert s == line1 + line2;
    assert s[..|line1|] == line1 && s[|line1|..] == line2;
    PartsAt(line1, [], written, " ", v1, "\n");
    PartsAt(line2, [], written, " ", v2, []);
  }

  /** The first line matches at the start, up to the line break. */
  lemma FirstLineMatch(s: string, written: string, marker: string, v1: string, v2: string, e1: nat)
    requires TwoLinesLayout(s, written, v1, v2) && Casefold(written) == marker && LineValue(v1)
    requires e1 == |written| + 1 + |v1|
    ensures LineMatchAt(s, marker, 0) == Some(Match(0, v1, e1))
  {
    assert AllSpace(" ");
    LineMatchOfSlices(s, marker, 0, written, " ", v1, e1);
  }

  /** The second line matches from after the line break to the end. */
  lemma SecondLineMatch(s: string, written: string, marker: string, v1: string, v2: string, e1: nat)
    requires TwoLinesLayout(s, written, v1, v2) && Casefold(written) == marker && LineValue(v2)
    requires e1 == |written| + 1 + |v1|
    ensures LineMatchAt(s, marker, e1 + 1) == Some(Match(e1 + 1, v2, |s|))
  {
    var i := e1 + 1;
    assert |" "| == 1 && AllSpace(" ");
    assert s[i..i + |written|] == written;
    assert s[i + |written|..i + |written| + 1] == " ";
    assert s[i + |written| + 1..|s|] == v2;
    LineMatchOfSlices(s, marker, i, written, " ", v2, |s|);
  }

  /** Nothing matches at the line break between the two lines. */
  lemma BreakLineNoMatch(s: string, written: string, marker: string, v1: string, v2: string, e1: nat)
    requires TwoLinesLayout(s, written, v1, v2) && e1 == |written| + 1 + |v1|
    requires Casefold(written) == marker && written != [] && !IsLineBreak(written[0])
    ensures LineMatchAt(s, marker, e1).None?
  {
    assert marker[0] == Lower(written[0]);
    NoMatchAtBreak(s, marker, e1);
  }

  /** `findall` over two such lines captures both values: the second search
      resumes after the first match, skips the line break and finds the
      second line. */
  lemma TwoLinesLayoutCaptures(s: string, written: string, marker: string, v1: string, v2: string)
    requires TwoLinesLayout(s, written, v1, v2)
    requires Casefold(written) == marker && written != [] && !IsLineBreak(written[0])
    requires LineValue(v1) && LineValue(v2)
    ensures FindAllFrom(s, marker, 0) == [v1, v2]
  {
    var e1 := |written| + 1 + |v1|;
    BreakLineNoMatch(s, written, marker, v1, v2, e1);
    FirstLineMatch(s, written, marker, v1, v2, e1);
    SecondLineMatch(s, written, marker, v1, v2, e1);
    TwoLineMatches(s, marker, Match(0, v1, e1), e1, Match(e1 + 1, v2, |s|));
  }

  /** `findall` captures both values of a two-line text. */
  lemma TwoLineCaptures(written: string, marker: string, v1: string, v2: string)
    requires Casefold(written) == marker && written != [] && !IsLineBreak(written[0])
    requires LineValue(v1) && LineValue(v2)
    ensures FindAllFrom(TwoLines(written, v1, v2), marker, 0) == [v1, v2]
  {
    TwoLinesLaidOut(written, v1, v2);
    TwoLinesLayoutCaptures(TwoLines(written, v1, v2), written, marker, v1, v2);
  }
}
