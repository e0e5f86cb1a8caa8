/** Character classes and string operations with the exact semantics of the
    JavaScript and Python built-ins the chatbot uses: regular-expression
    classes, `trim`/`strip`, `join`, `split`, `includes`, `String(n)` and
    `parseInt`; and `toLowerCase` as far as a comparison with ASCII names can
    observe. */
module Text {

  /** The regular-expression class `\d` (ASCII digits only). */
  predicate IsAsciiDigit(c: char) {
    '0' <= c <= '9'
  }

  /** The regular-expression class `\w`: `[A-Za-z0-9_]`. */
  predicate IsWordChar(c: char) {
    ('a' <= c <= 'z') || ('A' <= c <= 'Z') || IsAsciiDigit(c) || c == '_'
  }

  /** JavaScript's `\s`, which is also exactly the set `String.prototype.trim`
      removes (WhiteSpace and LineTerminator of ECMAScript). */
  predicate IsJsSpace(c: char) {
    var n := c as int;
    (0x09 <= n <= 0x0D) || n == 0x20 || n == 0xA0 || n == 0x1680
    || (0x2000 <= n <= 0x200A) || n == 0x2028 || n == 0x2029
    || n == 0x202F || n == 0x205F || n == 0x3000 || n == 0xFEFF
  }

  /** Python's `str.isspace`, the set `str.strip()` removes. It differs from
      JavaScript's set: it has U+001C..U+001F and U+0085 but not U+FEFF. */
  predicate IsPySpace(c: char) {
    var n := c as int;
    (0x09 <= n <= 0x0D) || (0x1C <= n <= 0x20) || n == 0x85 || n == 0xA0
    || n == 0x1680 || (0x2000 <= n <= 0x200A) || n == 0x2028 || n == 0x2029
    || n == 0x202F || n == 0x205F || n == 0x3000
  }

  predicate AllSatisfy(s: string, p: char -> bool) {
    forall k :: 0 <= k < |s| ==> p(s[k])
  }

  // ---------------------------------------------------------------------------
  // trim / strip

  /** Length of the longest prefix of `s` made of `ws` characters. */
  function LeadingCount(s: string, ws: char -> bool): (n: nat)
    ensures n <= |s|
    ensures forall k :: 0 <= k < n ==> ws(s[k])
    ensures n < |s| ==> !ws(s[n])
  {
    if |s| == 0 || !ws(s[0]) then 0 else 1 + LeadingCount(s[1..], ws)
  }

  /** Length of the longest suffix of `s` made of `ws` characters. */
  function TrailingCount(s: string, ws: char -> bool): (n: nat)
    ensures n <= |s|
    ensures forall k :: |s| - n <= k < |s| ==> ws(s[k])
    ensures n < |s| ==> !ws(s[|s| - 1 - n])
  {
    if |s| == 0 || !ws(s[|s| - 1]) then 0 else 1 + TrailingCount(s[..|s| - 1], ws)
  }

  /** `s` without its leading and trailing `ws` characters. */
  function Trim(s: string, ws: char -> bool): (r: string)
    ensures |r| <= |s|
    ensures r == [] <==> AllSatisfy(s, ws)
    ensures r != [] ==> !ws(r[0]) && !ws(r[|r| - 1])
  {
    var rest := s[LeadingCount(s, ws)..];
    var r := rest[..|rest| - TrailingCount(rest, ws)];
    assert |rest| > 0 ==> rest[0] == s[LeadingCount(s, ws)];
    r
  }

  /** JavaScript's `String.prototype.trim`. */
  function TrimJs(s: string): string {
    Trim(s, IsJsSpace)
  }

  /** Python's `str.strip()` with no argument. */
  function StripPy(s: string): string {
    Trim(s, IsPySpace)
  }

  /** Trimming removes exactly the padding: whatever whitespace surrounds a
      core that neither starts nor ends with whitespace, the core comes back. */
  lemma TrimPadded(p: string, core: string, q: string, ws: char -> bool)
    requires AllSatisfy(p, ws) && AllSatisfy(q, ws)
    requires core == [] || (!ws(core[0]) && !ws(core[|core| - 1]))
    ensures Trim(p + core + q, ws) == core
  {
    var s := p + core + q;
    if core == [] {
      assert s == p + q;
      assert AllSatisfy(s, ws) by {
        forall k | 0 <= k < |s| ensures ws(s[k]) {
          if k < |p| { assert s[k] == p[k]; } else { assert s[k] == q[k - |p|]; }
        }
      }
    } else {
      var a := LeadingCount(s, ws);
      assert s[|p|] == core[0];
      assert forall k :: 0 <= k < |p| ==> s[k] == p[k];
      assert a == |p|;
      var rest := s[a..];
      assert rest == core + q;
      var b := TrailingCount(rest, ws);
      assert rest[|core| - 1] == core[|core| - 1];
      assert forall k :: |core| <= k < |rest| ==> rest[k] == q[k - |core|];
      assert b == |q|;
      assert rest[..|rest| - b] == core;
    }
  }

  // ---------------------------------------------------------------------------
  // includes

  /** `sub` occurs in `s` starting at index `i`. */
  predicate OccursAt(s: string, sub: string, i: nat) {
    i + |sub| <= |s| && s[i..i + |sub|] == sub
  }

  /** JavaScript's `String.prototype.includes` and Python's `in` on strings. */
  predicate Contains(s: string, sub: string)
    decreases |s|
  {
    |sub| <= |s| && (s[..|sub|] == sub || Contains(s[1..], sub))
  }

  lemma {:induction false} ContainsFromOccurrence(s: string, sub: string, i: nat)
    requires OccursAt(s, sub, i)
    ensures Contains(s, sub)
    decreases i
  {
    if i > 0 {
      assert s[1..][i - 1..i - 1 + |sub|] == s[i..i + |sub|];
      ContainsFromOccurrence(s[1..], sub, i - 1);
    }
  }

  lemma {:induction false} OccurrenceFromContains(s: string, sub: string) returns (i: nat)
    requires Contains(s, sub)
    ensures OccursAt(s, sub, i)
    decreases |s|
  {
    if s[..|sub|] == sub {
      i := 0;
    } else {
      var j := OccurrenceFromContains(s[1..], sub);
      assert s[1..][j..j + |sub|] == s[j + 1..j + 1 + |sub|];
      i := j + 1;
    }
  }

  /** A string contains each of its parts. */
  lemma ContainsPart(a: string, b: string, c: string)
    ensures Contains(a + b + c, b)
  {
    var s := a + b + c;
    assert s[|a|..|a| + |b|] == b;
    ContainsFromOccurrence(s, b, |a|);
  }

  // ---------------------------------------------------------------------------
  // join / split

  /** JavaScript's `Array.prototype.join(sep)` and Python's `sep.join`. */
  function Join(xs: seq<string>, sep: string): string
  {
    if |xs| == 0 then "" else if |xs| == 1 then xs[0] else xs[0] + sep + Join(xs[1..], sep)
  }

  /** Every element of a joined list occurs in the joined string. */
  lemma {:induction false} JoinContains(xs: seq<string>, sep: string, i: nat)
    requires i < |xs|
    ensures Contains(Join(xs, sep), xs[i])
    decreases i
  {
    if |xs| == 1 {
      ContainsPart("", xs[0], "");
      assert "" + xs[0] + "" == xs[0];
    } else if i == 0 {
      ContainsPart("", xs[0], sep + Join(xs[1..], sep));
      assert "" + xs[0] + (sep + Join(xs[1..], sep)) == Join(xs, sep);
    } else {
      JoinContains(xs[1..], sep, i - 1);
      var j := OccurrenceFromContains(Join(xs[1..], sep), xs[i]);
      var pre := xs[0] + sep;
      var s := Join(xs, sep);
      assert s == pre + Join(xs[1..], sep);
      assert s[|pre| + j..|pre| + j + |xs[i]|] == Join(xs[1..], sep)[j..j + |xs[i]|];
      ContainsFromOccurrence(s, xs[i], |pre| + j);
    }
  }

  /** JavaScript's `split(c)` and Python's `split(c)` for a one-character
      separator: the pieces between consecutive occurrences of `c`. */
  function Split(s: string, c: char): (r: seq<string>)
    ensures |r| >= 1
  {
    if |s| == 0 then [""]
    else
      var rest := Split(s[1..], c);
      if s[0] == c then [""] + rest else [[s[0]] + rest[0]] + rest[1..]
  }

  lemma {:induction false} SplitNoSeparatorPrefix(x: string, t: string, c: char)
    requires c !in x
    ensures Split(x + t, c) == [x + Split(t, c)[0]] + Split(t, c)[1..]
    decreases |x|
  {
    if |x| > 0 {
      assert (x + t)[1..] == x[1..] + t;
      SplitNoSeparatorPrefix(x[1..], t, c);
      assert (x + t)[0] == x[0];
      assert [x[0]] + (x[1..] + Split(t, c)[0]) == x + Split(t, c)[0];
    } else {
      assert x + t == t;
      assert x + Split(t, c)[0] == Split(t, c)[0];
      assert Split(t, c) == [Split(t, c)[0]] + Split(t, c)[1..];
    }
  }

  /** Splitting a list joined with a one-character separator gives the list
      back when no element contains the separator. */
  lemma {:induction false} SplitJoin(xs: seq<string>, c: char)
    requires |xs| >= 1
    requires forall k :: 0 <= k < |xs| ==> c !in xs[k]
    ensures Split(Join(xs, [c]), c) == xs
    decreases |xs|
  {
    if |xs| == 1 {
      SplitNoSeparatorPrefix(xs[0], "", c);
      assert xs[0] + "" == xs[0];
    } else {
      var rest := Join(xs[1..], [c]);
      SplitJoin(xs[1..], c);
      assert Join(xs, [c]) == xs[0] + ([c] + rest);
      SplitNoSeparatorPrefix(xs[0], [c] + rest, c);
      assert ([c] + rest)[1..] == rest;
      assert Split([c] + rest, c) == [""] + xs[1..];
      assert xs[0] + "" == xs[0];
    }
  }

  // ---------------------------------------------------------------------------
  // decimal numbers: String(n) and parseInt(s, 10)

  function DigitChar(d: nat): (c: char)
    requires d < 10
    ensures IsAsciiDigit(c) && c as int - '0' as int == d
  {
    (48 + d) as char
  }

  /** JavaScript's `String(n)` for a non-negative integer: decimal, no leading zero. */
  function NatToString(n: nat): (r: string)
    ensures |r| >= 1 && AllSatisfy(r, IsAsciiDigit)
    ensures |r| > 1 ==> r[0] != '0'
  {
    if n < 10 then [DigitChar(n)] else NatToString(n / 10) + [DigitChar(n % 10)]
  }

  /** `parseInt(s, 10)` on a string made only of decimal digits. */
  function DigitsValue(s: string): nat
    requires AllSatisfy(s, IsAsciiDigit)
  {
    if |s| == 0 then 0
    else DigitsValue(s[..|s| - 1]) * 10 + (s[|s| - 1] as int - '0' as int)
  }

  /** Parsing what `NatToString` prints gives the number back. */
  lemma {:induction false} ParsePrinted(n: nat)
    ensures DigitsValue(NatToString(n)) == n
  {
    if n >= 10 {
      ParsePrinted(n / 10);
      var s := NatToString(n);
      assert s[..|s| - 1] == NatToString(n / 10);
    }
  }

  lemma {:induction false} LeadingDigitPositive(s: string)
    requires |s| >= 1 && AllSatisfy(s, IsAsciiDigit) && s[0] != '0'
    ensures DigitsValue(s) * 10 >= Pow10(|s|)
    decreases |s|
  {
    if |s| > 1 {
      LeadingDigitPositive(s[..|s| - 1]);
    }
  }

  function Pow10(k: nat): nat {
    if k == 0 then 1 else 10 * Pow10(k - 1)
  }

  /** Printing the value of a digit string without a leading zero gives the
      string back. */
  lemma {:induction false} PrintParsed(s: string)
    requires |s| >= 1 && AllSatisfy(s, IsAsciiDigit)
    requires |s| > 1 ==> s[0] != '0'
    ensures NatToString(DigitsValue(s)) == s
    decreases |s|
  {
    if |s| > 1 {
      var t := s[..|s| - 1];
      PrintParsed(t);
      LeadingDigitPositive(t);
      var v := DigitsValue(s);
      var d := s[|s| - 1] as int - '0' as int;
      assert v / 10 == DigitsValue(t) && v % 10 == d;
      assert DigitChar(d) == s[|s| - 1];
      assert s == t + [s[|s| - 1]];
    } else {
      assert s[..0] == [];
      assert DigitsValue(s) == s[0] as int - '0' as int;
    }
  }

  // ---------------------------------------------------------------------------
  // toLowerCase

  /** One character of JavaScript's `toLowerCase` as far as comparisons with
      ASCII text can observe: ASCII capitals map to small letters, and KELVIN
      SIGN (U+212A) is the only other character whose lower case is ASCII
      (it becomes `k`). Every other character keeps a non-ASCII lower case. */
  function LowerJs(c: char): char {
    if 'A' <= c <= 'Z' then (c as int + 32) as char
    else if c as int == 0x212A then 'k'
    else c
  }

  /** JavaScript's `String.prototype.toLowerCase`, up to what an equality test
      against lower-case ASCII text can distinguish. */
  function ToLowerJs(s: string): (r: string)
    ensures |r| == |s|
  {
    seq(|s|, i requires 0 <= i < |s| => LowerJs(s[i]))
  }

  /** The characters that lower-case to a given small ASCII letter: the letter
      itself, its capital, and for `k` also KELVIN SIGN. */
  lemma LowerJsInverse(c: char, l: char)
    requires 'a' <= l <= 'z'
    ensures LowerJs(c) == l <==>
      c == l || c as int == l as int - 32 || (l == 'k' && c as int == 0x212A)
  {
  }

  /** `s` spells the lower-case ASCII `word` letter by letter, each letter
      small, capital, or (for `k`) KELVIN SIGN. */
  predicate SpellsIgnoringCase(s: string, word: string) {
    |s| == |word| && forall i :: 0 <= i < |s| ==>
      s[i] == word[i] || s[i] as int == word[i] as int - 32 || (word[i] == 'k' && s[i] as int == 0x212A)
  }

  /** A string lower-cases to a lower-case ASCII word exactly when it spells
      that word letter by letter in any mix of cases (or KELVIN SIGN for `k`). */
  lemma ToLowerJsMatches(s: string, word: string)
    requires forall i :: 0 <= i < |word| ==> 'a' <= word[i] <= 'z'
    ensures ToLowerJs(s) == word <==> SpellsIgnoringCase(s, word)
  {
    if |s| == |word| {
      forall i | 0 <= i < |s| {
        LowerJsInverse(s[i], word[i]);
      }
      if forall i :: 0 <= i < |s| ==> LowerJs(s[i]) == word[i] {
        assert ToLowerJs(s) == word;
      }
    }
  }
}
