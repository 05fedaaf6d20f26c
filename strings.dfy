/**
 * The few JavaScript string operations the validators rely on, over strings
 * taken as sequences of characters: `trim`, `split` on one separator
 * character, and `Number` applied to a string of decimal digits.
 */
module Strings {

  /**
   * The characters `String.prototype.trim` removes: the WhiteSpace and
   * LineTerminator code points of ECMA-262 (sections 12.2 and 12.3).
   */
  predicate IsWhitespace(c: char)
  {
    c == '\t' || c == '\n' || c == '\U{000B}' || c == '\U{000C}' || c == '\r' || c == ' '
    || c == '\U{00A0}' || c == '\U{1680}' || ('\U{2000}' <= c <= '\U{200A}')
    || c == '\U{2028}' || c == '\U{2029}' || c == '\U{202F}' || c == '\U{205F}'
    || c == '\U{3000}' || c == '\U{FEFF}'
  }

  predicate AllWhitespace(s: string)
  {
    forall i :: 0 <= i < |s| ==> IsWhitespace(s[i])
  }

  /** The number of whitespace characters at the start of s, counting from position k on. */
  function LeadingFrom(s: string, k: nat): (n: nat)
    requires k <= |s|
    ensures k <= n <= |s|
    ensures forall j :: k <= j < n ==> IsWhitespace(s[j])
    ensures n < |s| ==> !IsWhitespace(s[n])
    decreases |s| - k
  {
    if k == |s| || !IsWhitespace(s[k]) then k else LeadingFrom(s, k + 1)
  }

  /** Where the trailing whitespace of s begins, looking no further left than lo. */
  function TrailingFrom(s: string, lo: nat, m: nat): (e: nat)
    requires lo <= m <= |s|
    requires forall j :: m <= j < |s| ==> IsWhitespace(s[j])
    ensures lo <= e <= m
    ensures forall j :: e <= j < |s| ==> IsWhitespace(s[j])
    ensures e > lo ==> !IsWhitespace(s[e - 1])
    decreases m
  {
    if m == lo || !IsWhitespace(s[m - 1]) then m else TrailingFrom(s, lo, m - 1)
  }

  /** The length of the leading whitespace of s. */
  function LeadingWhitespace(s: string): (n: nat)
    ensures n <= |s|
  {
    LeadingFrom(s, 0)
  }

  /**
   * `String.prototype.trim`: the input with whitespace removed at both ends.
   * The result is the slice of the input that starts after the leading
   * whitespace, everything cut off is whitespace, neither end of the result
   * is, and the result is empty exactly when the input is all whitespace.
   */
  function Trim(s: string): (r: string)
    ensures |r| <= |s|
    ensures r == [] <==> AllWhitespace(s)
    ensures r != [] ==> !IsWhitespace(r[0]) && !IsWhitespace(r[|r| - 1])
    ensures var i := LeadingWhitespace(s);
              i + |r| <= |s| && r == s[i..i + |r|]
              && (forall j :: 0 <= j < i ==> IsWhitespace(s[j]))
              && (forall j :: i + |r| <= j < |s| ==> IsWhitespace(s[j]))
  {
    var i := LeadingFrom(s, 0);
    var e := TrailingFrom(s, i, |s|);
    s[i..e]
  }

  /** Trimming twice gives what trimming once gives. */
  lemma TrimIdempotent(s: string)
    ensures Trim(Trim(s)) == Trim(s)
  {
    var r := Trim(s);
    if r != [] {
      assert LeadingFrom(r, 0) == 0;
      assert TrailingFrom(r, 0, |r|) == |r|;
    }
  }

  /** Text that neither starts nor ends with whitespace is left as it is. */
  lemma TrimKeepsUnpadded(s: string)
    requires s != [] && !IsWhitespace(s[0]) && !IsWhitespace(s[|s| - 1])
    ensures Trim(s) == s
  {
    assert LeadingFrom(s, 0) == 0;
    assert TrailingFrom(s, 0, |s|) == |s|;
  }

  /**
   * The trim is the only way of writing s as whitespace, a middle that
   * neither starts nor ends with whitespace, and whitespace.
   */
  lemma TrimUnique(s: string, lead: string, mid: string, trail: string)
    requires s == lead + mid + trail
    requires AllWhitespace(lead) && AllWhitespace(trail)
    requires mid == [] || (!IsWhitespace(mid[0]) && !IsWhitespace(mid[|mid| - 1]))
    ensures Trim(s) == mid
  {
    if mid == [] {
      assert AllWhitespace(s) by {
        forall j | 0 <= j < |s| ensures IsWhitespace(s[j]) {
          if j < |lead| { assert s[j] == lead[j]; } else { assert s[j] == trail[j - |lead|]; }
        }
      }
    } else {
      var r := Trim(s);
      var i := LeadingWhitespace(s);
      assert s[|lead|] == mid[0];
      assert i == |lead|;
      var e := i + |r|;
      assert s[|lead| + |mid| - 1] == mid[|mid| - 1];
      assert e == |lead| + |mid|;
      assert r == s[|lead|..|lead| + |mid|];
    }
  }

  /** Whitespace added around a text does not change its trim. */
  lemma TrimIgnoresPadding(a: string, s: string, b: string)
    requires AllWhitespace(a) && AllWhitespace(b)
    ensures Trim(a + s + b) == Trim(s)
  {
    var r := Trim(s);
    var i := LeadingWhitespace(s);
    var lead, trail := s[..i], s[i + |r|..];
    assert s == lead + r + trail;
    assert a + s + b == (a + lead) + r + (trail + b);
    TrimUnique(a + s + b, a + lead, r, trail + b);
  }

  predicate IsDigit(c: char)
  {
    '0' <= c <= '9'
  }

  predicate AllDigits(s: string)
  {
    forall i :: 0 <= i < |s| ==> IsDigit(s[i])
  }

  function DigitValue(c: char): (n: nat)
    requires IsDigit(c)
    ensures n <= 9
  {
    (c as int) - ('0' as int)
  }

  function Pow10(k: nat): (p: nat)
    ensures p >= 1
  {
    if k == 0 then 1 else 10 * Pow10(k - 1)
  }

  /**
   * `Number(s)` for a string of decimal digits: its value in base ten, leading
   * zeros allowed (`Number("09") == 9`, `Number("") == 0`).
   */
  function DigitsValue(s: string): (n: nat)
    requires AllDigits(s)
    ensures n < Pow10(|s|)
  {
    if s == [] then 0
    else
      var m := DigitsValue(s[..|s| - 1]);
      10 * m + DigitValue(s[|s| - 1])
  }

  /** The value of one or two digits, written out. */
  lemma {:induction false} DigitsValueShort(s: string)
    requires AllDigits(s) && 1 <= |s| <= 2
    ensures |s| == 1 ==> DigitsValue(s) == DigitValue(s[0])
    ensures |s| == 2 ==> DigitsValue(s) == 10 * DigitValue(s[0]) + DigitValue(s[1])
  {
    assert DigitsValue(s[..|s| - 1][..0]) == 0;
    if |s| == 2 {
      assert s[..1][..0] == [];
    }
  }

  /** Digit strings of one length with one value are the same string. */
  lemma {:induction false} DigitsValueInjective(a: string, b: string)
    requires |a| == |b| && AllDigits(a) && AllDigits(b)
    requires DigitsValue(a) == DigitsValue(b)
    ensures a == b
  {
    if a != [] {
      var a', b' := a[..|a| - 1], b[..|b| - 1];
      assert 10 * DigitsValue(a') + DigitValue(a[|a| - 1]) == 10 * DigitsValue(b') + DigitValue(b[|b| - 1]);
      DigitsValueInjective(a', b');
      assert a == a' + [a[|a| - 1]] && b == b' + [b[|b| - 1]];
    }
  }

  /** Joins the parts with the separator between consecutive parts (`Array.prototype.join`). */
  function Join(parts: seq<string>, sep: char): string
  {
    if parts == [] then []
    else if |parts| == 1 then parts[0]
    else parts[0] + [sep] + Join(parts[1..], sep)
  }

  /**
   * `s.split(sep)` for a one-character separator: the pieces between the
   * separators, never containing it, at least one of them, and joining them
   * back gives the input.
   */
  function Split(s: string, sep: char): (parts: seq<string>)
    ensures |parts| >= 1
    ensures forall k :: 0 <= k < |parts| ==> sep !in parts[k]
    ensures Join(parts, sep) == s
  {
    if s == [] then [[]]
    else
      var rest := Split(s[1..], sep);
      if s[0] == sep then
        assert Join([[]] + rest, sep) == [] + [sep] + Join(rest, sep);
        [[]] + rest
      else
        var parts := [[s[0]] + rest[0]] + rest[1..];
        assert parts[1..] == rest[1..];
        assert s == [s[0]] + s[1..];
        parts
  }

  /** A string without the separator splits into itself alone. */
  lemma {:induction false} SplitWithoutSeparator(s: string, sep: char)
    requires sep !in s
    ensures Split(s, sep) == [s]
  {
    if s != [] {
      SplitWithoutSeparator(s[1..], sep);
    }
  }

  /** A string with exactly one separator splits into the part before it and the part after it. */
  lemma {:induction false} SplitOnce(a: string, b: string, sep: char)
    requires sep !in a && sep !in b
    ensures Split(a + [sep] + b, sep) == [a, b]
  {
    var s := a + [sep] + b;
    if a == [] {
      assert s[1..] == b;
      SplitWithoutSeparator(b, sep);
    } else {
      assert s[1..] == a[1..] + [sep] + b;
      SplitOnce(a[1..], b, sep);
      assert [a[0]] + a[1..] == a;
    }
  }
}
