/**
 * The per-field normalisers of `extract_project_data`. Each takes what the
 * page lookup produced for one selector: `None` when `find_element` or
 * `get_attribute` raised (or returned no text), `Some(text)` otherwise.
 * Every exception inside a field's `try` block ends in that field's
 * fallback, so each normaliser is total.
 */
module Fields {
  import opened Wrappers
  import opened Whitespace
  import opened Digits
  import opened Search

  const UNKNOWN := "Unknown"
  const MISSING_NUMBER := -1

  /**
   * Creators, Title and Text: 'Unknown' when the lookup failed, otherwise
   * the text in collapsed form with all of its non-whitespace characters,
   * in order.
   */
  function TextField(text: Option<string>): (r: string)
    ensures text.None? ==> r == UNKNOWN
    ensures text.Some? ==> r == Collapse(text.value)
    ensures text.Some? ==> Collapsed(r) && NonSpace(r) == NonSpace(text.value)
  {
    match text
    case None => UNKNOWN
    case Some(t) => CollapseKeepsNonSpace(t); Collapse(t)
  }

  /** `int(''.join(c for c in t if c.isdigit()))` on collapsed text, or -1. */
  function ParseNumber(t: string): int {
    match ParseInt(DigitsOf(t))
    case None => MISSING_NUMBER
    case Some(v) => v
  }

  /**
   * DollarsPledged, NumBackers and DaysToGo. The result is the number the
   * digits of the raw text spell, in order, whatever else the text holds; it
   * is -1 exactly when the lookup failed or the text has no digit at all.
   */
  function NumericField(text: Option<string>): (r: int)
    ensures r == -1 || r >= 0
    ensures r == -1 <==> text.None? || DigitsOf(text.value) == []
    ensures r >= 0 ==> r == ValueOf(DigitsOf(text.value))
  {
    match text
    case None => MISSING_NUMBER
    case Some(t) => DigitsOfCollapse(t); ParseNumber(Collapse(t))
  }

  /**
   * DollarsGoal: the collapsed text is first cut at `find("of ")`. When the
   * marker is present, everything before it is ignored; when it is absent,
   * `find` gives -1 and the slice `[-1:]` keeps only the last character, so
   * the result is the digit the collapsed text ends with, or -1.
   */
  function GoalField(text: Option<string>): (r: int)
    ensures r == -1 || r >= 0
    ensures text.None? ==> r == -1
    ensures text.Some? && Find(Collapse(text.value), "of ") == -1 ==>
      var c := Collapse(text.value);
      r == if c != [] && IsDigit(c[|c| - 1]) then DigitValue(c[|c| - 1]) else -1
    ensures text.Some? && Find(Collapse(text.value), "of ") != -1 ==>
      var c := Collapse(text.value);
      var rest := c[Find(c, "of ")..];
      (r == -1 <==> DigitsOf(rest) == []) && (r >= 0 ==> r == ValueOf(DigitsOf(rest)))
  {
    match text
    case None => MISSING_NUMBER
    case Some(t) =>
      var c := Collapse(t);
      var cut := SliceFrom(c, Find(c, "of "));
      if Find(c, "of ") == -1 then SliceFromMinusOne(c); ShortDigits(cut); ParseNumber(cut)
      else ParseNumber(cut)
  }

  /**
   * FlexibleGoal: True exactly when the lower-cased collapsed text contains
   * "flexible"; False when the lookup failed.
   */
  function FlexibleField(text: Option<string>): (r: bool)
    ensures text.None? ==> !r
    ensures text.Some? ==> (r <==> exists i :: OccursAt(Lower(Collapse(text.value)), "flexible", i))
  {
    match text
    case None => false
    case Some(t) => Find(Lower(Collapse(t)), "flexible") != -1
  }

  /** The worked example of a pledged amount: "$12,345 raised" gives 12345. */
  lemma PledgedExample()
    ensures NumericField(Some("$12,345 raised")) == 12345
  {
    PledgedDigits("$12,", "345", " raised");
    assert "$12,345 raised" == "$12," + "345" + " raised";
    ValueExample("12345", 12345);
  }

  lemma PledgedDigits(a: string, b: string, c: string)
    requires a == "$12," && b == "345" && c == " raised"
    ensures DigitsOf(a + b + c) == "12345"
  {
    DigitsOfAppend(a, b + c);
    DigitsOfAppend(b, c);
    assert a + b + c == a + (b + c);
    assert DigitsOf(a) == "12" by {
      assert DigitsOf(a[3..]) == [];
      assert DigitsOf(a[2..]) == "2";
      assert DigitsOf(a[1..]) == "12";
    }
    assert DigitsOf(b) == "345" by {
      assert DigitsOf(b[2..]) == "5";
      assert DigitsOf(b[1..]) == "45";
    }
    assert DigitsOf(c) == [] by {
      assert DigitsOf(c[6..]) == [];
      assert DigitsOf(c[5..]) == [];
      assert DigitsOf(c[4..]) == [];
      assert DigitsOf(c[3..]) == [];
      assert DigitsOf(c[2..]) == [];
      assert DigitsOf(c[1..]) == [];
    }
  }

  /** The five-digit strings of the worked examples spell their numbers. */
  lemma ValueExample(d: string, n: nat)
    requires (d == "12345" && n == 12345) || (d == "10000" && n == 10000)
    ensures AllDigits(d) && ValueOf(d) == n
  {
    var c0, c1, c2, c3, c4 := d[0], d[1], d[2], d[3], d[4];
    assert d == [c0] + [c1] + [c2] + [c3] + [c4];
    ValueSnoc([], c0);
    ValueSnoc([c0], c1);
    ValueSnoc([c0] + [c1], c2);
    ValueSnoc([c0] + [c1] + [c2], c3);
    ValueSnoc([c0] + [c1] + [c2] + [c3], c4);
  }

  /** Appending a digit multiplies the value by ten and adds the digit. */
  lemma ValueSnoc(d: string, c: char)
    requires AllDigits(d) && IsDigit(c)
    ensures AllDigits(d + [c]) && ValueOf(d + [c]) == ValueOf(d) * 10 + DigitValue(c)
  {
    assert (d + [c])[..|d|] == d;
  }

  /** The worked example of a goal: "73% of $10,000" gives 10000, not 7310000. */
  lemma GoalExample()
    ensures GoalField(Some("73% of $10,000")) == 10000
  {
    var t := "73% of $10,000";
    GoalCollapsed(t);
    GoalFind(t);
    GoalTail(t);
    ValueExample("10000", 10000);
    GoalAfterMarker(t, 4, "10000");
  }

  lemma GoalCollapsed(t: string)
    requires t == "73% of $10,000"
    ensures Collapse(t) == t
  {
    GoalText("73%", "of", "$10,000");
    assert t == "73%" + " " + "of" + " " + "$10,000";
  }

  lemma GoalTail(t: string)
    requires t == "73% of $10,000"
    ensures DigitsOf(t[4..]) == "10000"
  {
    assert t[4..] == "of" + " " + "$10,000";
    GoalDigits("of", " ", "$10,000");
  }

  /** When the collapsed text holds `"of "` at `k`, the goal is the number the digits from `k` on spell. */
  lemma GoalAfterMarker(t: string, k: nat, d: string)
    requires Collapse(t) == t && Find(t, "of ") == k
    requires DigitsOf(t[k..]) == d && d != []
    ensures GoalField(Some(t)) == ValueOf(d)
  {
  }

  lemma GoalFind(t: string)
    requires t == "73% of $10,000"
    ensures Find(t, "of ") == 4
  {
    assert OccursAt(t, "of ", 4) by { assert t[4..7] == "of "; }
    forall i | 0 <= i < 4 ensures !OccursAt(t, "of ", i) {
      assert t[i + 2] != ' ' || t[i] != 'o';
    }
  }

  lemma GoalText(a: string, b: string, c: string)
    requires a == "73%" && b == "of" && c == "$10,000"
    ensures Collapse(a + " " + b + " " + c) == a + " " + b + " " + c
  {
    assert NoSpace(a) && NoSpace(b) && NoSpace(c);
    ThreeWords(a, b, c);
    assert Join([a, b, c]) == a + " " + Join([b, c]);
    assert Join([b, c]) == b + " " + Join([c]);
  }

  /** Three words separated by single spaces split back into the three words. */
  lemma ThreeWords(a: string, b: string, c: string)
    requires a != [] && b != [] && c != []
    requires NoSpace(a) && NoSpace(b) && NoSpace(c)
    ensures Split(a + " " + b + " " + c) == [a, b, c]
  {
    assert IsSpace(" "[0]);
    SplitSeparated(a, " ", b);
    SplitSeparated(a + " " + b, " ", c);
    SplitOneWord(a);
    SplitOneWord(b);
    SplitOneWord(c);
  }

  lemma SplitOneWord(w: string)
    requires w != [] && NoSpace(w)
    ensures Split(w) == [w]
  {
    SplitWordThen(w, []);
    AppendEmpty(w);
  }

  lemma GoalDigits(a: string, b: string, c: string)
    requires a == "of" && b == " " && c == "$10,000"
    ensures DigitsOf(a + b + c) == "10000"
  {
    DigitsOfAppend(a, b + c);
    DigitsOfAppend(b, c);
    assert a + b + c == a + (b + c);
    assert DigitsOf(a) == [] by { assert DigitsOf(a[1..]) == []; }
    assert DigitsOf(b) == [];
    assert DigitsOf(c) == "10000" by {
      assert DigitsOf(c[6..]) == "0";
      assert DigitsOf(c[5..]) == "00";
      assert DigitsOf(c[4..]) == "000";
      assert DigitsOf(c[3..]) == "000";
      assert DigitsOf(c[2..]) == "0000";
      assert DigitsOf(c[1..]) == "10000";
    }
  }

  /** The worked example of a title: "  Neo   PS1 " collapses to "Neo PS1". */
  lemma TitleExample()
    ensures TextField(Some("  Neo   PS1 ")) == "Neo PS1"
  {
    TitleCollapsed("  Neo   PS1 ");
  }

  lemma TitleCollapsed(t: string)
    requires t == "  Neo   PS1 "
    ensures TextField(Some(t)) == "Neo PS1"
  {
    TitleText("Neo", "PS1", "  ", "   ", " ");
    assert t == "  " + "Neo" + "   " + "PS1" + " ";
  }

  lemma TitleText(a: string, b: string, s1: string, s2: string, s3: string)
    requires a == "Neo" && b == "PS1" && s1 == "  " && s2 == "   " && s3 == " "
    ensures Collapse(s1 + a + s2 + b + s3) == a + " " + b
  {
    assert NoSpace(a) && NoSpace(b);
    var u4 := b + s3;
    var u3 := s2 + u4;
    var u2 := a + u3;
    var u1 := s1 + u2;
    assert u1 == s1 + a + s2 + b + s3;
    SplitSpacesThen(s3, []);
    assert s3 + [] == s3;
    assert Split(s3) == [];
    SplitWordThen(b, s3);
    assert Split(u4) == [b];
    SplitSpacesThen(s2, u4);
    assert u3[0] == ' ';
    SplitWordThen(a, u3);
    assert Split(u2) == [a, b];
    SplitSpacesThen(s1, u2);
    assert Split(u1) == [a, b];
    assert Join([a, b]) == a + " " + Join([b]);
  }
}
