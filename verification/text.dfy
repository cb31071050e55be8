/** Character-level vocabulary of the model: JavaScript's `\s` class, occurrence
    of a word at an index, the search functions the regular-expression stages are
    built from, and the decimal rendering a template literal gives a non-negative
    integer. */
module Text {
  import opened Results

  /** JavaScript's `\s`: the WhiteSpace and LineTerminator code points of ECMA-262. */
  predicate IsSpace(c: char) {
    || c == '\t' || c == '\n' || c == '\U{000B}' || c == '\U{000C}' || c == '\r' || c == ' '
    || c == '\U{00A0}' || c == '\U{1680}' || ('\U{2000}' <= c <= '\U{200A}')
    || c == '\U{2028}' || c == '\U{2029}' || c == '\U{202F}' || c == '\U{205F}'
    || c == '\U{3000}' || c == '\U{FEFF}'
  }

  /** s[lo..hi] is a (possibly empty) run of whitespace. */
  predicate AllSpace(s: string, lo: int, hi: int) {
    0 <= lo <= hi <= |s| && forall k :: lo <= k < hi ==> IsSpace(s[k])
  }

  /** The word w occurs in s starting at index i. */
  predicate HasAt(s: string, i: int, w: string) {
    0 <= i && i + |w| <= |s| && s[i..i + |w|] == w
  }

  /** The end of the whitespace run that starts at `from`. */
  function SkipSpaces(s: string, from: nat): (r: nat)
    requires from <= |s|
    ensures AllSpace(s, from, r)
    ensures r == |s| || !IsSpace(s[r])
    decreases |s| - from
  {
    if from == |s| || !IsSpace(s[from]) then from else SkipSpaces(s, from + 1)
  }

  /** A whitespace run followed by a non-space character can only end where
      SkipSpaces says it does. */
  lemma SkipSpacesUnique(s: string, from: nat, j: int)
    requires AllSpace(s, from, j) && j < |s| && !IsSpace(s[j])
    ensures j == SkipSpaces(s, from)
  {
  }

  /** SkipSpaces runs at least to the end of any whitespace run from `from`. */
  lemma SkipSpacesPastRun(s: string, from: nat, hi: int)
    requires from <= |s| && AllSpace(s, from, hi)
    ensures hi <= SkipSpaces(s, from)
  {
  }

  /** SkipSpaces stops at or before any non-space character after `from`. */
  lemma SkipSpacesStops(s: string, from: nat, x: int)
    requires from <= x < |s| && !IsSpace(s[x])
    ensures SkipSpaces(s, from) <= x
  {
  }

  /** The start of the whitespace run that ends at hi, going no lower than lo. */
  function TrimSpacesBack(s: string, lo: nat, hi: nat): (r: nat)
    requires lo <= hi <= |s|
    ensures lo <= r && AllSpace(s, r, hi)
    ensures r == lo || !IsSpace(s[r - 1])
    decreases hi - lo
  {
    if hi == lo || !IsSpace(s[hi - 1]) then hi else TrimSpacesBack(s, lo, hi - 1)
  }

  /** TrimSpacesBack reaches at least as low as any whitespace run ending at hi. */
  lemma TrimSpacesBackMinimal(s: string, lo: nat, hi: nat, x: int)
    requires lo <= x <= hi <= |s| && AllSpace(s, x, hi)
    ensures TrimSpacesBack(s, lo, hi) <= x
  {
  }

  /** The leftmost occurrence of w in s at or after `from`, as String.prototype.indexOf. */
  function IndexOf(s: string, w: string, from: nat): (r: Option<nat>)
    ensures r.Some? ==> from <= r.value && HasAt(s, r.value, w)
    ensures r.Some? ==> forall k :: from <= k < r.value ==> !HasAt(s, k, w)
    ensures r.None? ==> forall k :: from <= k ==> !HasAt(s, k, w)
    decreases |s| - from
  {
    if from + |w| > |s| then None
    else if s[from..from + |w|] == w then Some(from)
    else IndexOf(s, w, from + 1)
  }

  predicate IsDigit(c: char) {
    '0' <= c <= '9'
  }

  predicate AllDigits(s: string) {
    forall k :: 0 <= k < |s| ==> IsDigit(s[k])
  }

  function DigitChar(d: nat): (c: char)
    requires d < 10
    ensures IsDigit(c)
  {
    ('0' as int + d) as char
  }

  function DigitValue(c: char): (d: nat)
    requires IsDigit(c)
    ensures d < 10
  {
    c as int - '0' as int
  }

  /** The text `${n}` produces for a non-negative integer n: its decimal digits,
      most significant first, without leading zeros. */
  function Decimal(n: nat): (r: string)
    ensures |r| > 0 && AllDigits(r)
    ensures |r| > 1 ==> r[0] != '0'
    decreases n
  {
    if n < 10 then [DigitChar(n)] else Decimal(n / 10) + [DigitChar(n % 10)]
  }

  /** Reads a string of decimal digits back as a number. */
  function DecimalValue(s: string): nat
    requires AllDigits(s)
    decreases |s|
  {
    if |s| == 0 then 0 else DecimalValue(s[..|s| - 1]) * 10 + DigitValue(s[|s| - 1])
  }

  /** Reading back the rendering of n gives n. */
  lemma {:induction false} DecimalRoundTrip(n: nat)
    ensures DecimalValue(Decimal(n)) == n
    decreases n
  {
    if n >= 10 {
      var r := Decimal(n);
      assert r[..|r| - 1] == Decimal(n / 10);
      DecimalRoundTrip(n / 10);
    }
  }

  /** Distinct numbers render as distinct texts. */
  lemma DecimalInjective(a: nat, b: nat)
    requires a != b
    ensures Decimal(a) != Decimal(b)
  {
    DecimalRoundTrip(a);
    DecimalRoundTrip(b);
  }
}
