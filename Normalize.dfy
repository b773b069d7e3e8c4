/**
 * The field normalisers of the scraper: `clean_currency_value`,
 * `clean_numeric_value`, the choice between them made by
 * `extract_financial_data`, and the split of the last-sale text into an
 * amount and a date. Each regular expression of the source is modelled as a
 * leftmost scan (what `re.search` does) followed by a greedy, maximal run.
 */
module Normalize {
  import opened Wrappers
  import opened Text

  /** The sentinel stored for a field that could not be read. */
  const NA: string := "N/A"

  /** The guard shared by both cleaners: empty, blank, "n/a" or "na" in any case. */
  predicate IsNaMarker(value: string) {
    IsNaText(Lower(Strip(value)))
  }

  /** `t in ['n/a', 'na', '']`, spelled out character by character. */
  predicate IsNaText(t: string) {
    || |t| == 0
    || (|t| == 3 && t[0] == 'n' && t[1] == '/' && t[2] == 'a')
    || (|t| == 2 && t[0] == 'n' && t[1] == 'a')
  }

  /** The character class `[\d,]`. */
  predicate IsDigitOrComma(c: char) {
    IsDigit(c) || c == ','
  }

  predicate IsDigitOrDot(c: char) {
    IsDigit(c) || c == '.'
  }

  /** A value in the cleaned currency format: `$` and at least one digit or comma. */
  predicate IsCurrencyToken(t: string) {
    |t| >= 2 && t[0] == '$' && All(t[1..], IsDigitOrComma)
  }

  /** A value in the cleaned numeric format: a digit first, then digits and at most one dot. */
  predicate IsNumericToken(t: string) {
    && |t| >= 1
    && IsDigit(t[0])
    && All(t, IsDigitOrDot)
    && forall a, b :: 0 <= a < b < |t| ==> !(t[a] == '.' && t[b] == '.')
  }

  /** Length of the longest run of characters satisfying `p` that starts at `i`. */
  function RunLength(s: string, i: nat, p: char -> bool): (n: nat)
    requires i <= |s|
    ensures i + n <= |s|
    ensures forall k :: i <= k < i + n ==> p(s[k])
    ensures i + n == |s| || !p(s[i + n])
    decreases |s| - i
  {
    if i < |s| && p(s[i]) then 1 + RunLength(s, i + 1, p) else 0
  }

  /** A run of `p` characters from `i` to `j` that cannot be extended is the one RunLength finds. */
  lemma {:induction false} RunLengthIsMaximalRun(s: string, i: nat, j: nat, p: char -> bool)
    requires i <= j <= |s|
    requires forall k :: i <= k < j ==> p(s[k])
    requires j == |s| || !p(s[j])
    ensures RunLength(s, i, p) == j - i
    decreases j - i
  {
    if i < j {
      RunLengthIsMaximalRun(s, i + 1, j, p);
    }
  }

  /** The regular expressions the scraper searches with. */
  datatype Pattern =
    | Dollar      // \$[\d,]+
    | DigitComma  // [\d,]+
    | Number      // \d+\.?\d*
    | Date        // \d{2}/\d{2}/\d{4}

  /** Pattern `p` has a match that starts at position `i` of `s`. */
  predicate MatchesAt(p: Pattern, s: string, i: nat) {
    match p
    case Dollar => i + 1 < |s| && s[i] == '$' && IsDigitOrComma(s[i + 1])
    case DigitComma => i < |s| && IsDigitOrComma(s[i])
    case Number => i < |s| && IsDigit(s[i])
    case Date =>
      && i + 10 <= |s|
      && IsDigit(s[i]) && IsDigit(s[i + 1]) && s[i + 2] == '/'
      && IsDigit(s[i + 3]) && IsDigit(s[i + 4]) && s[i + 5] == '/'
      && IsDigit(s[i + 6]) && IsDigit(s[i + 7]) && IsDigit(s[i + 8]) && IsDigit(s[i + 9])
  }

  /** The leftmost position at or after `from` where `p` matches, as `re.search` scans. */
  function Search(p: Pattern, s: string, from: nat): (r: Option<nat>)
    requires from <= |s|
    ensures r.Some? ==> from <= r.value < |s| && MatchesAt(p, s, r.value)
    ensures r.Some? ==> forall k :: from <= k < r.value ==> !MatchesAt(p, s, k)
    ensures r.None? ==> forall k :: from <= k < |s| ==> !MatchesAt(p, s, k)
    decreases |s| - from
  {
    if from == |s| then None
    else if MatchesAt(p, s, from) then Some(from)
    else Search(p, s, from + 1)
  }

  /** The leftmost match is the one the search returns. */
  lemma SearchFindsLeftmost(p: Pattern, s: string, i: nat)
    requires i < |s| && MatchesAt(p, s, i)
    requires forall k :: 0 <= k < i ==> !MatchesAt(p, s, k)
    ensures Search(p, s, 0) == Some(i)
  {
    SearchFromFindsLeftmost(p, s, 0, i);
  }

  lemma {:induction false} SearchFromFindsLeftmost(p: Pattern, s: string, from: nat, i: nat)
    requires from <= i < |s| && MatchesAt(p, s, i)
    requires forall k :: from <= k < i ==> !MatchesAt(p, s, k)
    ensures Search(p, s, from) == Some(i)
    decreases i - from
  {
    if from < i {
      SearchFromFindsLeftmost(p, s, from + 1, i);
    }
  }

  /** `re.search(r'\$[\d,]+', s).group()`, or None when there is no match. */
  function FirstDollarRun(s: string): (r: Option<string>)
    ensures r.None? <==> forall k :: 0 <= k < |s| ==> !MatchesAt(Dollar, s, k)
    ensures r.Some? ==> IsCurrencyToken(r.value)
  {
    match Search(Dollar, s, 0)
    case None => None
    case Some(i) => Some(s[i .. i + 1 + RunLength(s, i + 1, IsDigitOrComma)])
  }

  /** The two searches of `clean_currency_value`, applied to a value that passed the guard. */
  function CurrencyMatch(value: string): (r: string)
    ensures r == NA || IsCurrencyToken(r)
    ensures r == NA <==> forall k :: 0 <= k < |value| ==> !MatchesAt(DigitComma, value, k)
  {
    match FirstDollarRun(value)
    case Some(m) =>
      var i := Search(Dollar, value, 0).value;
      assert MatchesAt(DigitComma, value, i + 1) && m[0] != NA[0];
      m
    case None =>
      match Search(DigitComma, value, 0)
      case Some(i) =>
        var r := "$" + value[i .. i + RunLength(value, i, IsDigitOrComma)];
        assert r[0] != NA[0];
        r
      case None => NA
  }

  /** `clean_currency_value`. */
  function CleanCurrency(value: string): (r: string)
    ensures IsNaMarker(value) ==> r == NA
    ensures r == NA || IsCurrencyToken(r)
    ensures r == NA <==> IsNaMarker(value) || forall k :: 0 <= k < |value| ==> !MatchesAt(DigitComma, value, k)
  {
    if IsNaMarker(value) then NA else CurrencyMatch(value)
  }

  /** A digit run with at most one dot, at position m (or none, when m == |t|), is a numeric token. */
  lemma DigitsWithDot(t: string, m: nat)
    requires 1 <= m <= |t| && (m < |t| ==> t[m] == '.')
    requires forall k :: 0 <= k < |t| && k != m ==> IsDigit(t[k])
    ensures IsNumericToken(t)
  {
  }

  /** Digits from i to d, a dot at d and digits up to j: a numeric token that `s[j]` cannot extend. */
  lemma DottedRun(s: string, i: nat, d: nat, j: nat)
    requires i < d < j <= |s| && s[d] == '.'
    requires forall k :: i <= k < j && k != d ==> IsDigit(s[k])
    requires j == |s| || !IsDigit(s[j])
    ensures IsNumericToken(s[i..j])
    ensures j == |s| || !IsNumericToken(s[i..j + 1])
  {
    DigitsWithDot(s[i..j], d - i);
    if j < |s| {
      var t := s[i..j + 1];
      if s[j] == '.' {
        assert t[d - i] == '.' && t[j - i] == '.';
      } else {
        assert !IsDigitOrDot(t[|t| - 1]);
      }
    }
  }

  /** Digits from i to d with neither a digit nor a dot at d: a numeric token that `s[d]` cannot extend. */
  lemma PlainRun(s: string, i: nat, d: nat)
    requires i < d <= |s|
    requires forall k :: i <= k < d ==> IsDigit(s[k])
    requires d == |s| || !IsDigitOrDot(s[d])
    ensures IsNumericToken(s[i..d])
    ensures d == |s| || !IsNumericToken(s[i..d + 1])
  {
    DigitsWithDot(s[i..d], d - i);
    if d < |s| {
      assert s[i..d + 1][d - i] == s[d];
    }
  }

  /** End (exclusive) of the greedy match of `\d+\.?\d*` that starts at the digit `s[i]`. */
  function NumberEnd(s: string, i: nat): (j: nat)
    requires MatchesAt(Number, s, i)
    ensures i < j <= |s| && IsNumericToken(s[i..j])
    ensures j == |s| || !IsNumericToken(s[i..j + 1])
  {
    var d := i + RunLength(s, i, IsDigit);
    if d < |s| && s[d] == '.' then
      var j := d + 1 + RunLength(s, d + 1, IsDigit);
      DottedRun(s, i, d, j);
      j
    else
      PlainRun(s, i, d);
      d
  }

  /** The search of `clean_numeric_value`, applied to a value that passed the guard. */
  function NumericMatch(value: string): (r: string)
    ensures r == NA || IsNumericToken(r)
    ensures r == NA <==> forall k :: 0 <= k < |value| ==> !MatchesAt(Number, value, k)
  {
    match Search(Number, value, 0)
    case Some(i) =>
      var r := value[i .. NumberEnd(value, i)];
      assert r[0] != NA[0];
      r
    case None => NA
  }

  /** `clean_numeric_value`. */
  function CleanNumeric(value: string): (r: string)
    ensures IsNaMarker(value) ==> r == NA
    ensures r == NA || IsNumericToken(r)
    ensures r == NA <==> IsNaMarker(value) || forall k :: 0 <= k < |value| ==> !MatchesAt(Number, value, k)
  {
    if IsNaMarker(value) then NA else NumericMatch(value)
  }

  /** A leftmost `$` match with its maximal digit/comma run is what FirstDollarRun returns. */
  lemma FirstDollarRunIsLeftmostMaximal(s: string, i: nat, j: nat)
    requires MatchesAt(Dollar, s, i) && forall k :: 0 <= k < i ==> !MatchesAt(Dollar, s, k)
    requires i + 1 <= j <= |s|
    requires forall k :: i + 1 <= k < j ==> IsDigitOrComma(s[k])
    requires j == |s| || !IsDigitOrComma(s[j])
    ensures FirstDollarRun(s) == Some(s[i..j])
  {
    SearchFindsLeftmost(Dollar, s, i);
    RunLengthIsMaximalRun(s, i + 1, j, IsDigitOrComma);
  }

  /**
   * A `$` followed by digits or commas wins over everything else: the result
   * is the first such `$` with the whole digit/comma run after it, verbatim,
   * even when a bare number comes earlier in the text.
   */
  lemma CurrencyDollarWins(s: string, i: nat, j: nat)
    requires MatchesAt(Dollar, s, i) && forall k :: 0 <= k < i ==> !MatchesAt(Dollar, s, k)
    requires i + 1 <= j <= |s|
    requires forall k :: i + 1 <= k < j ==> IsDigitOrComma(s[k])
    requires j == |s| || !IsDigitOrComma(s[j])
    ensures CleanCurrency(s) == s[i..j]
  {
    DigitCommaNotNa(s, i + 1);
    FirstDollarRunIsLeftmostMaximal(s, i, j);
  }

  /** Without any `$` match, the first maximal digit/comma run is returned with `$` in front. */
  lemma CurrencyBareRun(s: string, i: nat, j: nat)
    requires forall k :: 0 <= k < |s| ==> !MatchesAt(Dollar, s, k)
    requires MatchesAt(DigitComma, s, i) && forall k :: 0 <= k < i ==> !MatchesAt(DigitComma, s, k)
    requires i < j <= |s|
    requires forall k :: i <= k < j ==> IsDigitOrComma(s[k])
    requires j == |s| || !IsDigitOrComma(s[j])
    ensures CleanCurrency(s) == "$" + s[i..j]
  {
    DigitCommaNotNa(s, i);
    BareRunMatch(s, i, j);
  }

  lemma BareRunMatch(s: string, i: nat, j: nat)
    requires forall k :: 0 <= k < |s| ==> !MatchesAt(Dollar, s, k)
    requires MatchesAt(DigitComma, s, i) && forall k :: 0 <= k < i ==> !MatchesAt(DigitComma, s, k)
    requires i < j <= |s|
    requires forall k :: i <= k < j ==> IsDigitOrComma(s[k])
    requires j == |s| || !IsDigitOrComma(s[j])
    ensures CurrencyMatch(s) == "$" + s[i..j]
  {
    assert FirstDollarRun(s) == None;
    SearchFindsLeftmost(DigitComma, s, i);
    RunLengthIsMaximalRun(s, i, j, IsDigitOrComma);
  }

  /** The sentinel itself passes the blank-or-"n/a" guard. */
  lemma SentinelIsNaMarker()
    ensures IsNaMarker(NA)
  {
    LiteralSentinelIsNaMarker();
  }

  lemma LiteralSentinelIsNaMarker()
    ensures IsNaMarker("N/A")
  {
    assert Strip("N/A") == "N/A";
  }

  /** An unpadded text whose first character is not an `n` in either case is not a blank-or-"n/a" marker. */
  lemma NotNaByFirstChar(t: string)
    requires Unpadded(t) && t[0] != 'n' && t[0] != 'N'
    ensures !IsNaMarker(t)
  {
    StripUnpadded(t);
    assert Lower(t)[0] == ToLower(t[0]);
  }

  /**
   * A text holding a digit or a comma anywhere is not caught by the
   * blank-or-"n/a" guard: the character survives stripping and lowering, and
   * none of the guarded texts contains one.
   */
  lemma DigitCommaNotNa(s: string, k: nat)
    requires k < |s| && IsDigitOrComma(s[k])
    ensures !IsNaMarker(s)
  {
    var t := TrimLeft(s);
    var off := |s| - |t|;
    assert k >= off;
    assert t[k - off] == s[k];
    var r := TrimRight(t);
    assert k - off < |r|;
    assert r[k - off] == s[k];
    assert Lower(r)[k - off] == s[k];
  }

  /** A currency token is not caught by the blank-or-"n/a" guard. */
  lemma CurrencyTokenNotNa(t: string)
    requires IsCurrencyToken(t)
    ensures !IsNaMarker(t)
  {
    assert !IsSpace(t[|t| - 1]) by {
      assert t[1..][|t| - 2] == t[|t| - 1];
    }
    NotNaByFirstChar(t);
  }

  /** A currency token is cleaned to itself. */
  lemma CurrencyTokenFixed(t: string)
    requires IsCurrencyToken(t)
    ensures CleanCurrency(t) == t
  {
    CurrencyTokenNotNa(t);
    forall k | 1 <= k < |t|
      ensures IsDigitOrComma(t[k])
    {
      assert t[1..][k - 1] == t[k];
    }
    CurrencyDollarWins(t, 0, |t|);
  }

  /** A cleaned currency value is cleaned to itself. */
  lemma CurrencyIdempotent(s: string)
    ensures CleanCurrency(CleanCurrency(s)) == CleanCurrency(s)
  {
    var r := CleanCurrency(s);
    if r == NA {
      SentinelIsNaMarker();
    } else {
      CurrencyTokenFixed(r);
    }
  }

  /** Every non-empty prefix of a numeric token is a numeric token. */
  lemma NumericTokenPrefix(t: string, m: nat)
    requires IsNumericToken(t) && 1 <= m <= |t|
    ensures IsNumericToken(t[..m])
  {
  }

  /** The same, for slices of one text starting at `i`. */
  lemma NumericSlicePrefix(s: string, i: nat, a: nat, b: nat)
    requires i < a <= b <= |s| && IsNumericToken(s[i..b])
    ensures IsNumericToken(s[i..a])
  {
    NumericTokenPrefix(s[i..b], a - i);
    assert s[i..b][..a - i] == s[i..a];
  }

  /** The greedy end is the only end of a numeric token from `i` that cannot be extended. */
  lemma NumberEndIsLongest(s: string, i: nat, j: nat)
    requires MatchesAt(Number, s, i)
    requires i < j <= |s| && IsNumericToken(s[i..j])
    requires j == |s| || !IsNumericToken(s[i..j + 1])
    ensures NumberEnd(s, i) == j
  {
    var e := NumberEnd(s, i);
    if j < e {
      NumericSlicePrefix(s, i, j + 1, e);
      assert false;
    } else if e < j {
      NumericSlicePrefix(s, i, e + 1, j);
      assert false;
    }
  }

  /**
   * The numeric result is the longest numeric token starting at the first
   * digit of the input: a digit run, then optionally one dot and digits.
   */
  lemma NumericLongestToken(s: string, i: nat, j: nat)
    requires MatchesAt(Number, s, i) && forall k :: 0 <= k < i ==> !MatchesAt(Number, s, k)
    requires i < j <= |s| && IsNumericToken(s[i..j])
    requires j == |s| || !IsNumericToken(s[i..j + 1])
    ensures CleanNumeric(s) == s[i..j]
  {
    DigitCommaNotNa(s, i);
    SearchFindsLeftmost(Number, s, i);
    NumberEndIsLongest(s, i, j);
    assert NumericMatch(s) == s[i..j];
  }

  /** A numeric token is not caught by the blank-or-"n/a" guard. */
  lemma NumericTokenNotNa(t: string)
    requires IsNumericToken(t)
    ensures !IsNaMarker(t)
  {
    assert IsDigitOrDot(t[|t| - 1]);
    NotNaByFirstChar(t);
  }

  /** A numeric token is cleaned to itself. */
  lemma NumericTokenFixed(t: string)
    requires IsNumericToken(t)
    ensures CleanNumeric(t) == t
  {
    NumericTokenNotNa(t);
    assert t[0..|t|] == t;
    NumericLongestToken(t, 0, |t|);
  }

  /** A cleaned numeric value is cleaned to itself. */
  lemma NumericIdempotent(s: string)
    ensures CleanNumeric(CleanNumeric(s)) == CleanNumeric(s)
  {
    var r := CleanNumeric(s);
    if r == NA {
      SentinelIsNaMarker();
    } else {
      NumericTokenFixed(r);
    }
  }

  /** The two fields that `extract_financial_data` cleans as currency. */
  predicate IsCurrencyField(fieldName: string) {
    fieldName == "Estimated Balance" || fieldName == "Involuntary Amount"
  }

  /**
   * `extract_financial_data` once the label text has (or has not) been read:
   * no label gives the sentinel; otherwise the stripped text is cleaned as
   * currency for the two balance fields and as a number for the others.
   */
  function FinancialValue(fieldName: string, text: Option<string>): (r: string)
    ensures text.None? ==> r == NA
    ensures IsCurrencyField(fieldName) ==> r == NA || IsCurrencyToken(r)
    ensures !IsCurrencyField(fieldName) ==> r == NA || IsNumericToken(r)
    ensures text.Some? && IsCurrencyField(fieldName) ==> r == CleanCurrency(Strip(text.value))
    ensures text.Some? && !IsCurrencyField(fieldName) ==> r == CleanNumeric(Strip(text.value))
  {
    match text
    case None => NA
    case Some(t) =>
      var value := Strip(t);
      if IsCurrencyField(fieldName) then CleanCurrency(value) else CleanNumeric(value)
  }

  /** The last-sale record split into its amount and its date. */
  datatype LastSale = LastSale(amount: string, date: string)

  /** `re.search(r'\d{2}/\d{2}/\d{4}', s).group()`, or None when there is no match. */
  function FirstDate(s: string): (r: Option<string>)
    ensures r.None? <==> forall k :: 0 <= k < |s| ==> !MatchesAt(Date, s, k)
    ensures r.Some? ==> |r.value| == 10
  {
    match Search(Date, s, 0)
    case None => None
    case Some(i) => Some(s[i .. i + 10])
  }

  /**
   * The last-sale text rule: the amount is the first `$` run and the date the
   * first `DD/DD/DDDD`; each falls back to the sentinel on its own.
   */
  function SplitLastSale(text: string): (r: LastSale)
    ensures r.amount == NA <==> forall k :: 0 <= k < |text| ==> !MatchesAt(Dollar, text, k)
    ensures r.amount == NA || IsCurrencyToken(r.amount)
    ensures r.date == NA <==> forall k :: 0 <= k < |text| ==> !MatchesAt(Date, text, k)
  {
    LastSale(FirstDollarRun(text).GetOr(NA), FirstDate(text).GetOr(NA))
  }

  /** The last-sale amount is the leftmost `$` match with its maximal run. */
  lemma LastSaleAmount(text: string, i: nat, j: nat)
    requires MatchesAt(Dollar, text, i) && forall k :: 0 <= k < i ==> !MatchesAt(Dollar, text, k)
    requires i + 1 <= j <= |text|
    requires forall k :: i + 1 <= k < j ==> IsDigitOrComma(text[k])
    requires j == |text| || !IsDigitOrComma(text[j])
    ensures SplitLastSale(text).amount == text[i..j]
  {
    FirstDollarRunIsLeftmostMaximal(text, i, j);
  }

  /** The last-sale date is the ten characters of the leftmost date match. */
  lemma LastSaleDate(text: string, i: nat)
    requires MatchesAt(Date, text, i) && forall k :: 0 <= k < i ==> !MatchesAt(Date, text, k)
    ensures SplitLastSale(text).date == text[i..i + 10]
  {
    SearchFindsLeftmost(Date, text, i);
  }
}
