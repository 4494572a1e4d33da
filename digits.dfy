/**
 * The numeric part of the extractor: keeping the characters for which
 * `str.isdigit` holds, `int(...)` of the result, and `str(n)` for the record
 * id. Only the ASCII digits '0'..'9' are modelled.
 */
module Digits {
  import opened Wrappers
  import Whitespace

  predicate IsDigit(c: char) {
    '0' <= c <= '9'
  }

  predicate AllDigits(d: string) {
    forall i | 0 <= i < |d| :: IsDigit(d[i])
  }

  /** `''.join(c for c in s if c.isdigit())`. */
  function DigitsOf(s: string): (d: string)
    ensures AllDigits(d)
    ensures |d| <= |s|
  {
    if s == [] then []
    else if IsDigit(s[0]) then [s[0]] + DigitsOf(s[1..])
    else DigitsOf(s[1..])
  }

  function DigitValue(c: char): (v: nat)
    requires IsDigit(c)
    ensures v <= 9
  {
    c as int - '0' as int
  }

  function DigitChar(v: nat): (c: char)
    requires v <= 9
    ensures IsDigit(c) && DigitValue(c) == v
  {
    ('0' as int + v) as char
  }

  /** The number a string of decimal digits spells, most significant first. */
  function ValueOf(d: string): nat
    requires AllDigits(d)
  {
    if d == [] then 0 else ValueOf(d[..|d| - 1]) * 10 + DigitValue(d[|d| - 1])
  }

  /**
   * `int(d)` for a string of digits: `int('')` raises, which is `None` here;
   * otherwise the value the digits spell (leading zeros are allowed).
   */
  function ParseInt(d: string): (r: Option<nat>)
    requires AllDigits(d)
    ensures r.None? <==> d == []
  {
    if d == [] then None else Some(ValueOf(d))
  }

  /** `str(n)` for a non-negative integer. */
  function NatToString(n: nat): (s: string)
    ensures AllDigits(s) && s != []
    ensures |s| > 1 ==> s[0] != '0'
    decreases n
  {
    if n < 10 then [DigitChar(n)] else NatToString(n / 10) + [DigitChar(n % 10)]
  }

  /** `int(str(n)) == n`. */
  lemma {:induction false} ParseNatToString(n: nat)
    ensures ParseInt(NatToString(n)) == Some(n)
    decreases n
  {
    var s := NatToString(n);
    if n < 10 {
      assert s[..|s| - 1] == [];
    } else {
      ParseNatToString(n / 10);
      assert s[..|s| - 1] == NatToString(n / 10);
      assert ValueOf(s) == (n / 10) * 10 + n % 10;
    }
  }

  /** `str` is injective on the non-negative integers. */
  lemma NatToStringInjective(m: nat, n: nat)
    requires NatToString(m) == NatToString(n)
    ensures m == n
  {
    ParseNatToString(m);
    ParseNatToString(n);
  }

  lemma {:induction false} DigitsOfAppend(a: string, b: string)
    ensures DigitsOf(a + b) == DigitsOf(a) + DigitsOf(b)
  {
    if a != [] {
      assert (a + b)[1..] == a[1..] + b;
      DigitsOfAppend(a[1..], b);
    } else {
      assert a + b == b;
    }
  }

  lemma {:induction false} DigitsOfNonSpace(s: string)
    ensures DigitsOf(Whitespace.NonSpace(s)) == DigitsOf(s)
  {
    if s != [] {
      DigitsOfNonSpace(s[1..]);
      if !Whitespace.IsSpace(s[0]) {
        assert Whitespace.NonSpace(s) == [s[0]] + Whitespace.NonSpace(s[1..]);
        DigitsOfAppend([s[0]], Whitespace.NonSpace(s[1..]));
      }
    }
  }

  /** Whitespace normalisation never changes which digits a text holds. */
  lemma DigitsOfCollapse(s: string)
    ensures DigitsOf(Whitespace.Collapse(s)) == DigitsOf(s)
  {
    DigitsOfNonSpace(s);
    DigitsOfNonSpace(Whitespace.Collapse(s));
    Whitespace.CollapseKeepsNonSpace(s);
  }

  /** A string of at most one character keeps its character exactly when it is a digit, worth that digit. */
  lemma ShortDigits(s: string)
    requires |s| <= 1
    ensures DigitsOf(s) == if s != [] && IsDigit(s[0]) then s else []
    ensures s != [] && IsDigit(s[0]) ==> ValueOf(s) == DigitValue(s[0])
  {
    if s != [] {
      assert s[1..] == [];
      assert s[..0] == [];
    }
  }
}
