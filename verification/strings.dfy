/**
 * The three string operations the analyzer relies on: Python's substring
 * test `pat in s`, lower-casing with `str.lower()` (ASCII letters only here),
 * and the decimal rendering that `'{0:d}'.format(n)` gives a natural number.
 */
module Strings {

  /** `pat` occurs in `s` starting at position `i`. */
  ghost predicate OccursAt(s: string, pat: string, i: int)
  {
    0 <= i && i + |pat| <= |s| && s[i..i + |pat|] == pat
  }

  /** Python's `pat in s` for strings: is `pat` a contiguous substring of `s`? */
  function Contains(s: string, pat: string): (r: bool)
    ensures r <==> exists i :: OccursAt(s, pat, i)
    decreases |s|
  {
    if |s| < |pat| then
      false
    else if s[..|pat|] == pat then
      assert OccursAt(s, pat, 0);
      true
    else
      var rest := s[1..];
      var r := Contains(rest, pat);
      if r then
        assert exists i :: OccursAt(s, pat, i) by {
          var i :| OccursAt(rest, pat, i);
          assert s[i + 1..i + 1 + |pat|] == rest[i..i + |pat|];
          assert OccursAt(s, pat, i + 1);
        }
        r
      else
        assert forall i :: OccursAt(s, pat, i) ==> OccursAt(rest, pat, i - 1) by {
          forall i | OccursAt(s, pat, i)
            ensures OccursAt(rest, pat, i - 1)
          {
            assert i != 0;
            assert rest[i - 1..i - 1 + |pat|] == s[i..i + |pat|];
          }
        }
        r
  }

  predicate IsUpper(c: char)
  {
    'A' <= c <= 'Z'
  }

  /** Lower-cases one character; only the ASCII letters A-Z are changed. */
  function LowerChar(c: char): char
  {
    if IsUpper(c) then (c as int + 32) as char else c
  }

  /**
   * `s.lower()` restricted to ASCII: every upper-case ASCII letter is
   * replaced by its lower-case form and every other character is kept.
   */
  function Lower(s: string): (r: string)
    ensures |r| == |s|
    ensures forall i :: 0 <= i < |s| ==> r[i] == LowerChar(s[i])
    ensures forall i :: 0 <= i < |r| ==> !IsUpper(r[i])
  {
    if s == [] then [] else [LowerChar(s[0])] + Lower(s[1..])
  }

  predicate IsDigit(c: char)
  {
    '0' <= c <= '9'
  }

  function DigitChar(d: nat): (c: char)
    requires d < 10
    ensures IsDigit(c) && c as int - '0' as int == d
  {
    (d + '0' as int) as char
  }

  function DigitValue(c: char): nat
    requires IsDigit(c)
  {
    c as int - '0' as int
  }

  /** A non-empty string of decimal digits without a redundant leading zero. */
  predicate IsCanonicalDecimal(s: string)
  {
    |s| >= 1 && (forall i :: 0 <= i < |s| ==> IsDigit(s[i])) && (|s| > 1 ==> s[0] != '0')
  }

  /** The decimal rendering of `n`, as Python's `'{0:d}'.format(n)` gives it. */
  function NatToString(n: nat): (r: string)
    ensures IsCanonicalDecimal(r)
    decreases n
  {
    if n < 10 then [DigitChar(n)] else NatToString(n / 10) + [DigitChar(n % 10)]
  }

  /** The value of a string of decimal digits (the empty string reads as 0). */
  function ParseNat(s: string): nat
    requires forall i :: 0 <= i < |s| ==> IsDigit(s[i])
  {
    if s == [] then 0 else ParseNat(s[..|s| - 1]) * 10 + DigitValue(s[|s| - 1])
  }

  /** Reading back the decimal rendering of `n` gives `n`. */
  lemma {:induction false} ParseNatToString(n: nat)
    ensures ParseNat(NatToString(n)) == n
    decreases n
  {
    var r := NatToString(n);
    if n < 10 {
      assert r[..0] == [];
    } else {
      ParseNatToString(n / 10);
      assert r[..|r| - 1] == NatToString(n / 10);
    }
  }

  /** Rendering a canonical decimal string's value gives the string back. */
  lemma {:induction false} NatToStringParse(s: string)
    requires IsCanonicalDecimal(s)
    ensures NatToString(ParseNat(s)) == s
    decreases |s|
  {
    var init := s[..|s| - 1];
    if |s| == 1 {
      assert init == [];
    } else {
      assert IsCanonicalDecimal(init) by {
        assert init[0] == s[0];
      }
      NatToStringParse(init);
      PositiveCanonical(init);
      var v, d := ParseNat(init), DigitValue(s[|s| - 1]);
      assert ParseNat(s) == v * 10 + d;
      assert (v * 10 + d) / 10 == v && (v * 10 + d) % 10 == d;
      assert DigitChar(d) == s[|s| - 1];
      assert s == init + [s[|s| - 1]];
    }
  }

  /** A canonical decimal string of two or more digits is at least 10, so it never reads as a single digit. */
  lemma {:induction false} PositiveCanonical(s: string)
    requires IsCanonicalDecimal(s)
    ensures |s| > 1 ==> ParseNat(s) >= 10
    ensures |s| == 1 ==> ParseNat(s) < 10
    ensures ParseNat(s) == 0 ==> s == "0"
    decreases |s|
  {
    if |s| > 1 {
      var init := s[..|s| - 1];
      assert init[0] == s[0];
      if |init| > 1 {
        assert IsCanonicalDecimal(init);
        PositiveCanonical(init);
      } else {
        assert init == [s[0]];
        assert init[..0] == [];
        assert ParseNat(init) == DigitValue(s[0]) >= 1;
      }
    } else {
      assert s[..0] == [];
    }
  }

  /** Different numbers have different decimal renderings. */
  lemma NatToStringInjective(m: nat, n: nat)
    requires NatToString(m) == NatToString(n)
    ensures m == n
  {
    ParseNatToString(m);
    ParseNatToString(n);
  }
}
