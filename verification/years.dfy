/** The query classifier of the `/chat` handler (node_server/index.js):
    detection of a year or a year range with the two regular expressions
    `\b(?:19|20)\d{2}\b` and
    `\b((?:19|20)\d{2})\b\s*(?:and|to|-)\s*\b((?:19|20)\d{2})\b`,
    and the search request built from the outcome. */
module Years {
  import opened Wrappers
  import opened Text

  // ---------------------------------------------------------------------------
  // The single-year pattern

  /** The single-year pattern matches at index `i`: `19` or `20`, two more
      ASCII digits, and a word boundary on each side. A boundary before a digit
      is the start of the text or a non-word character; likewise after. */
  predicate YearAt(s: string, i: nat) {
    && i + 4 <= |s|
    && ((s[i] == '1' && s[i + 1] == '9') || (s[i] == '2' && s[i + 1] == '0'))
    && IsAsciiDigit(s[i + 2]) && IsAsciiDigit(s[i + 3])
    && (i == 0 || !IsWordChar(s[i - 1]))
    && (i + 4 == |s| || !IsWordChar(s[i + 4]))
  }

  /** The text of a year token. */
  function Token(s: string, i: nat): (t: string)
    requires YearAt(s, i)
    ensures |t| == 4 && AllSatisfy(t, IsAsciiDigit) && t[0] != '0'
  {
    s[i..i + 4]
  }

  /** `parseInt(token, 10)`. */
  function YearValue(s: string, i: nat): (y: nat)
    requires YearAt(s, i)
    ensures 1900 <= y <= 2099
  {
    var t := Token(s, i);
    FourDigits(t);
    DigitsValue(t)
  }

  function DigitOf(c: char): int {
    c as int - '0' as int
  }

  /** The value of a four-digit string, digit by digit. */
  lemma FourDigits(t: string)
    requires |t| == 4 && AllSatisfy(t, IsAsciiDigit)
    ensures DigitsValue(t) == 1000 * DigitOf(t[0]) + 100 * DigitOf(t[1]) + 10 * DigitOf(t[2]) + DigitOf(t[3])
  {
    assert t[..3][..2] == t[..2] && t[..2][..1] == t[..1] && t[..1][..0] == [];
    assert DigitsValue(t[..1]) == DigitOf(t[0]);
    assert DigitsValue(t[..2]) == 10 * DigitOf(t[0]) + DigitOf(t[1]);
    assert DigitsValue(t[..3]) == 100 * DigitOf(t[0]) + 10 * DigitOf(t[1]) + DigitOf(t[2]);
  }

  predicate HasYear(s: string) {
    exists i :: 0 <= i < |s| && YearAt(s, i)
  }

  /** `i` is where `String.prototype.match` finds the single-year pattern:
      the leftmost index at which it matches. */
  predicate LeftmostYear(s: string, i: nat) {
    YearAt(s, i) && forall j :: 0 <= j < i ==> !YearAt(s, j)
  }

  /** Scans start positions from `from` onwards, as a regular-expression search does. */
  function FirstYear(s: string, from: nat): (r: Option<nat>)
    ensures r.Some? ==> from <= r.value && YearAt(s, r.value)
    ensures r.Some? ==> forall j :: from <= j < r.value ==> !YearAt(s, j)
    ensures r.None? ==> forall j :: from <= j ==> !YearAt(s, j)
    decreases |s| - from
  {
    if from + 4 > |s| then None
    else if YearAt(s, from) then Some(from)
    else FirstYear(s, from + 1)
  }

  // ---------------------------------------------------------------------------
  // The range pattern

  /** `\s*` from index `j`: the end of the run of JavaScript whitespace. */
  function SkipSpaces(s: string, j: nat): (k: nat)
    requires j <= |s|
    ensures j <= k <= |s|
    ensures forall t :: j <= t < k ==> IsJsSpace(s[t])
    ensures k < |s| ==> !IsJsSpace(s[k])
    decreases |s| - j
  {
    if j == |s| || !IsJsSpace(s[j]) then j else SkipSpaces(s, j + 1)
  }

  /** `(?:and|to|-)` matches at `j` with length `n`. */
  predicate SeparatorAt(s: string, j: nat, n: nat) {
    || (n == 3 && j + 3 <= |s| && s[j] == 'a' && s[j + 1] == 'n' && s[j + 2] == 'd')
    || (n == 2 && j + 2 <= |s| && s[j] == 't' && s[j + 1] == 'o')
    || (n == 1 && j + 1 <= |s| && s[j] == '-')
  }

  /** The length of the separator at `j`, or 0 when there is none. The three
      alternatives start with different characters, so at most one applies. */
  function SeparatorLength(s: string, j: nat): (n: nat)
    ensures n == 0 || SeparatorAt(s, j, n)
    ensures forall m :: SeparatorAt(s, j, m) ==> m == n
  {
    if SeparatorAt(s, j, 3) then 3
    else if SeparatorAt(s, j, 2) then 2
    else if SeparatorAt(s, j, 1) then 1
    else 0
  }

  /** All characters of `s[a..b]` are JavaScript whitespace. */
  predicate SpacesBetween(s: string, a: nat, b: nat) {
    a <= b <= |s| && forall t :: a <= t < b ==> IsJsSpace(s[t])
  }

  /** One way the range pattern can match at `i`, with its first `\s*`
      ending at `j`, a separator of length `n`, and the second year at `k`.
      This is the pattern read declaratively, with every choice the
      backtracking engine may try. */
  predicate RangeShape(s: string, i: nat, j: nat, n: nat, k: nat) {
    && YearAt(s, i)
    && SpacesBetween(s, i + 4, j)
    && SeparatorAt(s, j, n)
    && SpacesBetween(s, j + n, k)
    && YearAt(s, k)
  }

  /** The range pattern tried at start index `i`: the index of the second
      year token when it matches. Greedy `\s*` never has to give characters
      back, because neither a separator nor a digit is whitespace. */
  function RangeAt(s: string, i: nat): (r: Option<nat>)
    ensures r.Some? ==> YearAt(s, i) && YearAt(s, r.value) && i + 4 < r.value
  {
    if !YearAt(s, i) then None
    else
      var j := SkipSpaces(s, i + 4);
      var n := SeparatorLength(s, j);
      if n == 0 then None
      else
        var k := SkipSpaces(s, j + n);
        if YearAt(s, k) then Some(k) else None
  }

  /** Every match `RangeAt` reports is a match of the declarative pattern. */
  lemma RangeAtSound(s: string, i: nat)
    requires RangeAt(s, i).Some?
    ensures exists j: nat, n: nat :: RangeShape(s, i, j, n, RangeAt(s, i).value)
  {
    var j := SkipSpaces(s, i + 4);
    var n := SeparatorLength(s, j);
    assert RangeShape(s, i, j, n, RangeAt(s, i).value);
  }

  /** Every way the declarative pattern can match at `i` is the one `RangeAt`
      reports: the regular expression's backtracking cannot produce a
      different second year. */
  lemma RangeAtComplete(s: string, i: nat, j: nat, n: nat, k: nat)
    requires RangeShape(s, i, j, n, k)
    ensures RangeAt(s, i) == Some(k)
  {
    assert !IsJsSpace(s[j]);
    SkipSpacesStopsAt(s, i + 4, j);
    assert SeparatorLength(s, j) == n;
    assert !IsJsSpace(s[k]);
    SkipSpacesStopsAt(s, j + n, k);
  }

  /** `\s*` cannot stop before a non-space character that ends a run of spaces. */
  lemma SkipSpacesStopsAt(s: string, a: nat, b: nat)
    requires SpacesBetween(s, a, b) && b < |s| && !IsJsSpace(s[b])
    ensures SkipSpaces(s, a) == b
  {
  }

  predicate HasRange(s: string) {
    exists i :: 0 <= i < |s| && RangeAt(s, i).Some?
  }

  /** The leftmost range match starts at `i`, and `lo`/`hi` are its two
      years in increasing order. */
  predicate NormalisedRange(s: string, i: nat, lo: nat, hi: nat) {
    && LeftmostRange(s, i)
    && var k := RangeAt(s, i).value;
    && lo == Min(YearValue(s, i), YearValue(s, k))
    && hi == Max(YearValue(s, i), YearValue(s, k))
  }

  /** The leftmost range match starts at `i`, and `lo`/`hi` are the texts of
      its two year tokens, the smaller year first. */
  predicate OrderedTokens(s: string, i: nat, lo: string, hi: string) {
    && LeftmostRange(s, i)
    && var k := RangeAt(s, i).value;
    && (YearValue(s, i) <= YearValue(s, k) ==> lo == Token(s, i) && hi == Token(s, k))
    && (YearValue(s, i) > YearValue(s, k) ==> lo == Token(s, k) && hi == Token(s, i))
  }

  /** `i` is where `String.prototype.match` finds the range pattern. */
  predicate LeftmostRange(s: string, i: nat) {
    RangeAt(s, i).Some? && forall j :: 0 <= j < i ==> RangeAt(s, j).None?
  }

  function FirstRange(s: string, from: nat): (r: Option<nat>)
    ensures r.Some? ==> from <= r.value && RangeAt(s, r.value).Some?
    ensures r.Some? ==> forall j :: from <= j < r.value ==> RangeAt(s, j).None?
    ensures r.None? ==> forall j :: from <= j ==> RangeAt(s, j).None?
    decreases |s| - from
  {
    if from + 4 > |s| then None
    else if RangeAt(s, from).Some? then Some(from)
    else FirstRange(s, from + 1)
  }

  // ---------------------------------------------------------------------------
  // Classification

  /** The three query shapes the handler chooses between. */
  datatype Classification =
    | SingleYear(year: string)
    | YearRange(from: nat, to: nat)
    | FreeText(text: string)

  function Min(a: int, b: int): int { if a <= b then a else b }
  function Max(a: int, b: int): int { if a <= b then b else a }

  /** The scan from index 0 finds the leftmost single-year match, and finds
      one whenever the pattern matches somewhere. */
  lemma FirstYearFinds(s: string)
    ensures FirstYear(s, 0).Some? <==> HasYear(s)
    ensures FirstYear(s, 0).Some? ==> LeftmostYear(s, FirstYear(s, 0).value)
  {
    if HasYear(s) {
      var i :| 0 <= i < |s| && YearAt(s, i);
    }
    if FirstYear(s, 0).Some? {
      assert YearAt(s, FirstYear(s, 0).value);
    }
  }

  /** The scan from index 0 finds the leftmost range match, and finds one
      whenever the pattern matches somewhere. */
  lemma FirstRangeFinds(s: string)
    ensures FirstRange(s, 0).Some? <==> HasRange(s)
    ensures FirstRange(s, 0).Some? ==> LeftmostRange(s, FirstRange(s, 0).value)
  {
    if HasRange(s) {
      var i :| 0 <= i < |s| && RangeAt(s, i).Some?;
    }
    if FirstRange(s, 0).Some? {
      assert RangeAt(s, FirstRange(s, 0).value).Some?;
    }
  }

  /** Lines 75-99: a range match wins; otherwise a single year; otherwise free text. */
  function Classify(s: string): (c: Classification)
    ensures c.YearRange? <==> HasRange(s)
    ensures c.SingleYear? <==> HasYear(s) && !HasRange(s)
    ensures c.FreeText? <==> !HasYear(s)
    ensures c.SingleYear? ==> exists i :: LeftmostYear(s, i) && c.year == Token(s, i)
    ensures c.YearRange? ==> exists i :: NormalisedRange(s, i, c.from, c.to)
    ensures c.YearRange? ==> 1900 <= c.from <= c.to <= 2099
    ensures c.FreeText? ==> c.text == s
  {
    var single := FirstYear(s, 0);
    var range := FirstRange(s, 0);
    FirstYearFinds(s);
    FirstRangeFinds(s);
    if single.Some? && range.None? then
      SingleYear(Token(s, single.value))
    else if range.Some? then
      var i := range.value;
      var k := RangeAt(s, i).value;
      var y1 := YearValue(s, i);
      var y2 := YearValue(s, k);
      assert NormalisedRange(s, i, Min(y1, y2), Max(y1, y2));
      YearRange(Min(y1, y2), Max(y1, y2))
    else
      FreeText(s)
  }

  /** Every range match starts with a single-year match. */
  lemma RangeImpliesYear(s: string)
    ensures HasRange(s) ==> HasYear(s)
  {
    if HasRange(s) {
      var i :| 0 <= i < |s| && RangeAt(s, i).Some?;
      assert YearAt(s, i);
    }
  }

  /** The condition `singleMatch || rangeMatch` that selects the date branch
      of the composer (line 119). */
  predicate IsDateQuery(s: string) {
    FirstYear(s, 0).Some? || FirstRange(s, 0).Some?
  }

  /** The date branch is taken exactly for the two date classifications. */
  lemma DateBranchExact(s: string)
    ensures IsDateQuery(s) <==> (Classify(s).SingleYear? || Classify(s).YearRange?)
  {
    RangeImpliesYear(s);
    if FirstYear(s, 0).Some? {
      assert YearAt(s, FirstYear(s, 0).value);
    }
    if FirstRange(s, 0).Some? {
      assert RangeAt(s, FirstRange(s, 0).value).Some?;
    }
  }

  // ---------------------------------------------------------------------------
  // The search request

  /** The part of an Elasticsearch query the handler builds. */
  datatype SearchQuery =
    | Prefix(field: string, value: string)
    | Range(field: string, gte: string, lte: string)
    | MultiMatch(query: string, fields: seq<string>)

  datatype SearchRequest = SearchRequest(query: SearchQuery, size: nat)

  const DateField: string := "date.keyword"
  const TextFields: seq<string> := ["Summary200", "title", "legal_key"]

  /** The query and size of lines 80-99 for a classification. */
  function RequestFor(c: Classification): SearchRequest {
    match c
    case SingleYear(y) => SearchRequest(Prefix(DateField, y), 50)
    case YearRange(lo, hi) => SearchRequest(Range(DateField, NatToString(lo), NatToString(hi)), 100)
    case FreeText(t) => SearchRequest(MultiMatch(t, TextFields), 5)
  }

  /** The request the handler sends, stated in terms of the text: a range
      becomes an inclusive range whose bounds are the two written year tokens
      in increasing order (whatever order they were written in), size 100; a
      lone year becomes a prefix query on the leftmost token, size 50; any
      other text is searched as a whole on the three text fields, size 5. */
  lemma RequestShape(s: string)
    ensures HasRange(s) ==> exists i, lo, hi :: (OrderedTokens(s, i, lo, hi)
      && RequestFor(Classify(s)) == SearchRequest(Range(DateField, lo, hi), 100))
    ensures HasYear(s) && !HasRange(s) ==> exists i :: (LeftmostYear(s, i)
      && RequestFor(Classify(s)) == SearchRequest(Prefix(DateField, Token(s, i)), 50))
    ensures !HasYear(s) ==> RequestFor(Classify(s)) == SearchRequest(MultiMatch(s, TextFields), 5)
  {
    var c := Classify(s);
    if HasRange(s) {
      var i :| NormalisedRange(s, i, c.from, c.to);
      var k := RangeAt(s, i).value;
      PrintParsed(Token(s, i));
      PrintParsed(Token(s, k));
      var lo := if YearValue(s, i) <= YearValue(s, k) then Token(s, i) else Token(s, k);
      var hi := if YearValue(s, i) <= YearValue(s, k) then Token(s, k) else Token(s, i);
      assert OrderedTokens(s, i, lo, hi);
    }
  }

  /** Years written in decreasing order still give `from <= to`. */
  lemma ReversedRangeExample()
    ensures Classify("2010 to 1995") == YearRange(1995, 2010)
  {
    var s := "2010 to 1995";
    assert RangeShape(s, 0, 5, 2, 8);
    RangeAtComplete(s, 0, 5, 2, 8);
    assert FirstRange(s, 0) == Some(0);
    FourDigits(Token(s, 0));
    FourDigits(Token(s, 8));
  }

  /** The single-year pattern finds 1980 first, yet the later range wins. */
  lemma RangeWinsExample()
    ensures FirstYear("1980, 1990-2000", 0) == Some(0)
    ensures Classify("1980, 1990-2000") == YearRange(1990, 2000)
  {
    var s := "1980, 1990-2000";
    RangeWinsScan(s);
    assert Token(s, 6) == "1990" && Token(s, 11) == "2000";
    FourDigits("1990");
    FourDigits("2000");
    assert YearValue(s, 6) == 1990 && YearValue(s, 11) == 2000;
  }

  /** Years glued to a word have no boundary: `1990to2000` is free text. */
  lemma GluedRangeExample()
    ensures Classify("1990to2000") == FreeText("1990to2000")
  {
    var s := "1990to2000";
    assert !YearAt(s, 0) && !YearAt(s, 6);
    assert FirstYear(s, 7) == None;
    assert FirstYear(s, 0) == FirstYear(s, 1) == FirstYear(s, 2) == FirstYear(s, 3)
        == FirstYear(s, 4) == FirstYear(s, 5) == FirstYear(s, 6) == FirstYear(s, 7);
    FirstYearFinds(s);
    RangeImpliesYear(s);
  }

  lemma RangeWinsScan(s: string)
    requires s == "1980, 1990-2000"
    ensures FirstYear(s, 0) == Some(0)
    ensures FirstRange(s, 0) == Some(6) && RangeAt(s, 6) == Some(11)
  {
    assert YearAt(s, 0);
    assert SkipSpaces(s, 4) == 4;
    assert SeparatorLength(s, 4) == 0;
    assert RangeAt(s, 0).None?;
    assert !YearAt(s, 1);
    assert !YearAt(s, 2);
    assert !YearAt(s, 3);
    assert !YearAt(s, 4);
    assert !YearAt(s, 5);
    assert RangeShape(s, 6, 10, 1, 11);
    RangeAtComplete(s, 6, 10, 1, 11);
    assert FirstRange(s, 6) == Some(6);
    assert FirstRange(s, 4) == FirstRange(s, 5) == FirstRange(s, 6);
    assert FirstRange(s, 2) == FirstRange(s, 3) == FirstRange(s, 4);
    assert FirstRange(s, 0) == FirstRange(s, 1) == FirstRange(s, 2);
  }
}
