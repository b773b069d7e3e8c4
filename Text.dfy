/**
 * ASCII text primitives shared by the normalisers and the dictionary keys:
 * character classes, Python's `str.strip()` and `str.lower()` restricted to
 * ASCII, substring search, and the decimal rendering used by `f"{n}"`.
 */
module Text {

  predicate IsDigit(c: char) {
    '0' <= c <= '9'
  }

  /** Python's `str.isspace()` on the ASCII range: space, \t \n \v \f \r and \x1c-\x1f. */
  predicate IsSpace(c: char) {
    c == ' ' || ('\t' <= c <= '\r') || ('\U{1C}' <= c <= '\U{1F}')
  }

  /** Every character of `s` satisfies `p`. */
  predicate All(s: string, p: char -> bool) {
    forall k :: 0 <= k < |s| ==> p(s[k])
  }

  /** `s.lstrip()`: the suffix of `s` left after dropping leading whitespace. */
  function TrimLeft(s: string): (r: string)
    ensures |r| <= |s| && r == s[|s| - |r|..]
    ensures forall k :: 0 <= k < |s| - |r| ==> IsSpace(s[k])
    ensures r == [] || !IsSpace(r[0])
  {
    if |s| > 0 && IsSpace(s[0]) then TrimLeft(s[1..]) else s
  }

  /** `s.rstrip()`: the prefix of `s` left after dropping trailing whitespace. */
  function TrimRight(s: string): (r: string)
    ensures |r| <= |s| && r == s[..|r|]
    ensures forall k :: |r| <= k < |s| ==> IsSpace(s[k])
    ensures r == [] || !IsSpace(r[|r| - 1])
  {
    if |s| > 0 && IsSpace(s[|s| - 1]) then TrimRight(s[..|s| - 1]) else s
  }

  /** `s.strip()`. */
  function Strip(s: string): (r: string)
    ensures r == [] || (!IsSpace(r[0]) && !IsSpace(r[|r| - 1]))

  {
    TrimRight(TrimLeft(s))
  }

  /** `s.strip()` is a slice of `s`, and everything it cuts off on either side is whitespace. */
  lemma StripTrims(s: string)
    ensures exists a :: && OccursAt(s, Strip(s), a)
                         && (forall k :: 0 <= k < a ==> IsSpace(s[k]))
                         && (forall k :: a + |Strip(s)| <= k < |s| ==> IsSpace(s[k]))
  {
    var t := TrimLeft(s);
    var a := |s| - |t|;
    var r := TrimRight(t);
    assert s[a..a + |r|] == t[..|r|];
    forall k | a + |r| <= k < |s|
      ensures IsSpace(s[k])
    {
      assert s[k] == t[k - a];
    }
    assert OccursAt(s, Strip(s), a);
  }

  /** Non-empty, and neither starts nor ends with whitespace. */
  predicate Unpadded(s: string) {
    s != [] && !IsSpace(s[0]) && !IsSpace(s[|s| - 1])
  }

  /** Stripping a string that neither starts nor ends with whitespace changes nothing. */
  lemma StripUnpadded(s: string)
    requires Unpadded(s)
    ensures Strip(s) == s
  {
    assert TrimLeft(s) == s;
  }

  function ToLower(c: char): char {
    if 'A' <= c <= 'Z' then (c as int + 32) as char else c
  }

  /** `s.lower()` on ASCII letters; every other character is kept. */
  function Lower(s: string): (r: string)
    ensures |r| == |s|
  {
    seq(|s|, k requires 0 <= k < |s| => ToLower(s[k]))
  }

  /** `sub in s`: some suffix of `s` starts with `sub`. */
  predicate Contains(s: string, sub: string) {
    sub <= s || (s != [] && Contains(s[1..], sub))
  }

  /** `sub` occurs in `s` starting at index i. */
  predicate OccursAt(s: string, sub: string, i: int) {
    0 <= i <= |s| - |sub| && s[i..i + |sub|] == sub
  }

  /** `Contains` agrees with the positional reading of `sub in s`: an occurrence at some index. */
  lemma {:induction false} ContainsOccurrence(s: string, sub: string)
    ensures Contains(s, sub) <==> exists i :: OccursAt(s, sub, i)
  {
    if sub <= s {
      assert OccursAt(s, sub, 0);
    } else if s == [] {
      assert forall i :: !OccursAt(s, sub, i);
    } else {
      ContainsOccurrence(s[1..], sub);
      if Contains(s[1..], sub) {
        var i :| OccursAt(s[1..], sub, i);
        assert s[i + 1..i + 1 + |sub|] == s[1..][i..i + |sub|];
        assert OccursAt(s, sub, i + 1);
      }
      if i :| OccursAt(s, sub, i) {
        assert i != 0;
        assert s[1..][i - 1..i - 1 + |sub|] == s[i..i + |sub|];
        assert OccursAt(s[1..], sub, i - 1);
      }
    }
  }

  /** Lowering twice is lowering once. */
  lemma LowerIdempotent(s: string)
    ensures Lower(Lower(s)) == Lower(s)
  {
  }

  function DigitChar(d: nat): (c: char)
    requires d < 10
    ensures IsDigit(c)
  {
    ('0' as int + d) as char
  }

  /** `str(n)` for a natural number: its decimal digits, most significant first. */
  function NatToString(n: nat): (s: string)
    ensures |s| >= 1 && All(s, IsDigit)
    ensures n >= 10 <==> |s| >= 2
  {
    if n < 10 then [DigitChar(n)] else NatToString(n / 10) + [DigitChar(n % 10)]
  }

  /** Distinct numbers have distinct decimal renderings. */
  lemma {:induction false} NatToStringInjective(a: nat, b: nat)
    requires NatToString(a) == NatToString(b)
    ensures a == b
  {
    if a >= 10 && b >= 10 {
      var sa, sb := NatToString(a), NatToString(b);
      assert sa[..|sa| - 1] == NatToString(a / 10);
      assert sb[..|sb| - 1] == NatToString(b / 10);
      NatToStringInjective(a / 10, b / 10);
      assert DigitChar(a % 10) == sa[|sa| - 1] == sb[|sb| - 1] == DigitChar(b % 10);
    }
  }
}
