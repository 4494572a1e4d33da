/**
 * Python's `' '.join(s.split())`, the normalisation the extractor applies to
 * every piece of text it reads from a project page.
 */
module Whitespace {

  /** Python's `str.isspace` for a single character. */
  predicate IsSpace(c: char) {
    c == ' ' || ('\t' <= c <= '\r') || ('\U{1C}' <= c <= '\U{1F}')
    || c == '\U{85}' || c == '\U{A0}' || c == '\U{1680}'
    || ('\U{2000}' <= c <= '\U{200A}') || c == '\U{2028}' || c == '\U{2029}'
    || c == '\U{202F}' || c == '\U{205F}' || c == '\U{3000}'
  }

  predicate NoSpace(w: string) {
    forall i | 0 <= i < |w| :: !IsSpace(w[i])
  }

  /** What `str.split()` returns: non-empty words without whitespace. */
  predicate Words(ws: seq<string>) {
    forall i | 0 <= i < |ws| :: ws[i] != [] && NoSpace(ws[i])
  }

  /** Length of the longest whitespace-free prefix of `s`. */
  function WordLen(s: string): (n: nat)
    ensures n <= |s|
    ensures NoSpace(s[..n])
    ensures n < |s| ==> IsSpace(s[n])
  {
    if s == [] || IsSpace(s[0]) then 0
    else
      var n := 1 + WordLen(s[1..]);
      assert s[..n] == [s[0]] + s[1..][..n - 1];
      n
  }

  /**
   * `s.split()`: the maximal runs of non-whitespace characters, in order;
   * each is a non-empty word, so there are at most as many words as
   * characters.
   */
  function Split(s: string): (ws: seq<string>)
    ensures |ws| <= |s|
    decreases |s|
  {
    if s == [] then []
    else if IsSpace(s[0]) then Split(s[1..])
    else
      var n := WordLen(s);
      [s[..n]] + Split(s[n..])
  }

  /** `' '.join(ws)`: the words with exactly one space between neighbours. */
  function Join(ws: seq<string>): (r: string)
    ensures ws != [] ==> |ws[0]| <= |r| && r[..|ws[0]|] == ws[0]
  {
    if ws == [] then ""
    else if |ws| == 1 then ws[0]
    else ws[0] + " " + Join(ws[1..])
  }

  /** `' '.join(s.split())`: the text in collapsed form. */
  function Collapse(s: string): (r: string)
    ensures Collapsed(r)
  {
    SplitWords(s);
    JoinCollapsed(Split(s));
    Join(Split(s))
  }

  /**
   * A string is in collapsed form when it neither starts nor ends with
   * whitespace, its only whitespace character is the plain space, and no two
   * whitespace characters are adjacent.
   */
  predicate Collapsed(t: string) {
    && (t != [] ==> !IsSpace(t[0]) && !IsSpace(t[|t| - 1]))
    && (forall i | 0 <= i < |t| && IsSpace(t[i]) :: t[i] == ' ')
    && (forall i | 0 <= i < |t| - 1 :: !(IsSpace(t[i]) && IsSpace(t[i + 1])))
  }

  /** The non-whitespace characters of `s`, in order. */
  function NonSpace(s: string): (r: string)
    ensures |r| <= |s|
  {
    if s == [] then []
    else if IsSpace(s[0]) then NonSpace(s[1..])
    else [s[0]] + NonSpace(s[1..])
  }

  function Concat(ws: seq<string>): string {
    if ws == [] then [] else ws[0] + Concat(ws[1..])
  }

  // ---------------------------------------------------------------------
  // Lemmas about Split and Join
  // ---------------------------------------------------------------------

  lemma {:induction false} SplitWords(s: string)
    ensures Words(Split(s))
    decreases |s|
  {
    if s == [] {
    } else if IsSpace(s[0]) {
      SplitWords(s[1..]);
    } else {
      var n := WordLen(s);
      SplitWords(s[n..]);
    }
  }

  /** Split finds a word exactly when `s` holds a non-whitespace character. */
  lemma {:induction false} SplitEmpty(s: string)
    ensures Split(s) == [] <==> (forall i | 0 <= i < |s| :: IsSpace(s[i]))
    decreases |s|
  {
    if s != [] {
      if IsSpace(s[0]) {
        SplitEmpty(s[1..]);
        if forall i | 0 <= i < |s[1..]| :: IsSpace(s[1..][i]) {
          forall i | 0 <= i < |s| ensures IsSpace(s[i]) {
            if i > 0 { assert s[i] == s[1..][i - 1]; }
          }
        }
      }
    }
  }

  lemma {:induction false} WordLenOfWord(w: string, rest: string)
    requires NoSpace(w)
    requires rest == [] || IsSpace(rest[0])
    ensures WordLen(w + rest) == |w|
    decreases |w|
  {
    if w != [] {
      assert (w + rest)[0] == w[0] && !IsSpace(w[0]);
      assert (w + rest)[1..] == w[1..] + rest;
      NoSpaceTail(w);
      WordLenOfWord(w[1..], rest);
    } else {
      assert w + rest == rest;
    }
  }

  lemma NoSpaceTail(w: string)
    requires NoSpace(w) && w != []
    ensures NoSpace(w[1..])
  {
    forall i | 0 <= i < |w[1..]| ensures !IsSpace(w[1..][i]) {
      assert w[1..][i] == w[i + 1];
    }
  }

  lemma SplitWordThen(w: string, rest: string)
    requires w != [] && NoSpace(w)
    requires rest == [] || IsSpace(rest[0])
    ensures Split(w + rest) == [w] + Split(rest)
  {
    WordLenOfWord(w, rest);
    assert (w + rest)[..|w|] == w;
    assert (w + rest)[|w|..] == rest;
  }

  lemma SplitSpaceThen(c: char, rest: string)
    requires IsSpace(c)
    ensures Split([c] + rest) == Split(rest)
  {
    assert ([c] + rest)[1..] == rest;
  }

  lemma {:induction false} SplitSpacesThen(sp: string, rest: string)
    requires forall i | 0 <= i < |sp| :: IsSpace(sp[i])
    ensures Split(sp + rest) == Split(rest)
  {
    if sp != [] {
      assert sp + rest == [sp[0]] + (sp[1..] + rest);
      SplitSpaceThen(sp[0], sp[1..] + rest);
      SplitSpacesThen(sp[1..], rest);
    } else {
      assert sp + rest == rest;
    }
  }

  /** Splitting a joined list of words gives the words back. */
  lemma {:induction false} SplitJoin(ws: seq<string>)
    requires Words(ws)
    ensures Split(Join(ws)) == ws
  {
    if ws == [] {
    } else if |ws| == 1 {
      var w := ws[0];
      WordLenOfWord(w, []);
      assert w + [] == w;
      assert w[|w|..] == [];
      assert w[..|w|] == w;
    } else {
      var w, j := ws[0], Join(ws[1..]);
      var t := w + " " + j;
      assert t == w + (" " + j);
      WordLenOfWord(w, " " + j);
      assert t[..|w|] == w;
      assert t[|w|..] == " " + j;
      assert (" " + j)[1..] == j;
      assert Words(ws[1..]) by {
        forall i | 0 <= i < |ws[1..]| ensures ws[1..][i] != [] && NoSpace(ws[1..][i]) {
          assert ws[1..][i] == ws[i + 1];
        }
      }
      SplitJoin(ws[1..]);
      assert ws == [w] + ws[1..];
    }
  }

  lemma {:induction false} JoinEnds(ws: seq<string>)
    requires Words(ws) && ws != []
    ensures Join(ws) != []
    ensures Join(ws)[0] == ws[0][0]
    ensures Join(ws)[|Join(ws)| - 1] == ws[|ws| - 1][|ws[|ws| - 1]| - 1]
  {
    if |ws| > 1 {
      var tail := ws[1..];
      WordsTail(ws);
      JoinEnds(tail);
      assert tail[|tail| - 1] == ws[|ws| - 1];
      assert Join(ws) == ws[0] + " " + Join(tail);
      JoinTwoEnds(ws[0], Join(tail));
    }
  }

  /** Joining words with single spaces yields a collapsed string. */
  lemma {:induction false} JoinCollapsed(ws: seq<string>)
    requires Words(ws)
    ensures Collapsed(Join(ws))
  {
    if |ws| > 1 {
      var tail := ws[1..];
      WordsTail(ws);
      JoinCollapsed(tail);
      JoinEnds(tail);
      CollapsedGlue(ws[0], Join(tail));
    } else if |ws| == 1 {
      assert ws[0] != [] && NoSpace(ws[0]);
    }
  }

  lemma WordsTail(ws: seq<string>)
    requires Words(ws) && ws != []
    ensures Words(ws[1..])
  {
    forall i | 0 <= i < |ws[1..]| ensures ws[1..][i] != [] && NoSpace(ws[1..][i]) {
      assert ws[1..][i] == ws[i + 1];
    }
  }

  /** A word, a space and a collapsed text that starts with a word form a collapsed text. */
  lemma CollapsedGlue(w: string, j: string)
    requires w != [] && NoSpace(w)
    requires Collapsed(j) && j != [] && !IsSpace(j[0])
    ensures Collapsed(w + " " + j)
  {
    var t := w + " " + j;
    forall i | 0 <= i < |t| && IsSpace(t[i]) ensures t[i] == ' ' {
      if i > |w| { assert t[i] == j[i - |w| - 1]; }
    }
    forall i | 0 <= i < |t| - 1 ensures !(IsSpace(t[i]) && IsSpace(t[i + 1])) {
      if i > |w| { assert t[i] == j[i - |w| - 1] && t[i + 1] == j[i - |w|]; }
      else if i == |w| { assert t[i + 1] == j[0]; }
      else if i == |w| - 1 { assert t[i] == w[i]; }
      else { assert t[i] == w[i] && t[i + 1] == w[i + 1]; }
    }
  }

  /** What follows a separating space of a collapsed string is collapsed and starts with a word. */
  lemma CollapsedTail(t: string, k: nat)
    requires Collapsed(t) && 0 < k < |t| && IsSpace(t[k - 1])
    ensures Collapsed(t[k..]) && !IsSpace(t[k])
  {
    var rest := t[k..];
    forall i | 0 <= i < |rest| && IsSpace(rest[i]) ensures rest[i] == ' ' {
      assert rest[i] == t[k + i];
    }
    forall i | 0 <= i < |rest| - 1 ensures !(IsSpace(rest[i]) && IsSpace(rest[i + 1])) {
      assert rest[i] == t[k + i] && rest[i + 1] == t[k + i + 1];
    }
    assert rest[|rest| - 1] == t[|t| - 1];
  }

  /** A collapsed string is its own collapse. */
  lemma {:induction false} CollapsedFixpoint(t: string)
    requires Collapsed(t)
    ensures Collapse(t) == t
    decreases |t|
  {
    if t != [] {
      var n := WordLen(t);
      var w := t[..n];
      if n == |t| {
        assert w == t;
        AppendEmpty(w);
        SplitWordThen(w, []);
        assert Split(t) == [w];
      } else {
        assert n > 0 && t[n] == ' ';
        var rest := t[n + 1..];
        CutAt(t, n);
        assert [t[n]] == " ";
        assert t == w + (" " + rest);
        CollapsedTail(t, n + 1);
        CollapsedFixpoint(rest);
        SplitWordThen(w, " " + rest);
        SplitSpaceThen(' ', rest);
        assert Split(t) == [w] + Split(rest);
        SplitEmpty(rest);
        JoinCons(w, Split(rest));
        assert Collapse(t) == w + " " + rest;
        Assoc(w, " ", rest);
      }
    }
  }

  /** Joining a word in front of a non-empty word list adds one space. */
  lemma JoinCons(w: string, xs: seq<string>)
    requires xs != []
    ensures Join([w] + xs) == w + " " + Join(xs)
  {
    assert ([w] + xs)[1..] == xs;
  }

  // ---------------------------------------------------------------------
  // The properties of the normalisation
  // ---------------------------------------------------------------------

  /**
   * The collapse has no leading or trailing whitespace, no two adjacent
   * whitespace characters and no whitespace other than ' '; and a string is
   * left unchanged by the collapse exactly when it already has that form.
   */
  lemma CollapseShape(s: string)
    ensures Collapsed(Collapse(s))
    ensures Collapse(s) == s <==> Collapsed(s)
  {
    SplitWords(s);
    JoinCollapsed(Split(s));
    if Collapsed(s) { CollapsedFixpoint(s); }
  }

  /** Collapsing twice is the same as collapsing once. */
  lemma CollapseIdempotent(s: string)
    ensures Collapse(Collapse(s)) == Collapse(s)
  {
    SplitWords(s);
    SplitJoin(Split(s));
  }

  lemma {:induction false} NonSpaceAppend(a: string, b: string)
    ensures NonSpace(a + b) == NonSpace(a) + NonSpace(b)
  {
    if a != [] {
      assert (a + b)[1..] == a[1..] + b;
      NonSpaceAppend(a[1..], b);
    } else {
      assert a + b == b;
    }
  }

  lemma {:induction false} NonSpaceOfWord(w: string)
    requires NoSpace(w)
    ensures NonSpace(w) == w
  {
    if w != [] {
      NonSpaceOfWord(w[1..]);
      assert w == [w[0]] + w[1..];
    }
  }

  lemma {:induction false} ConcatSplit(s: string)
    ensures Concat(Split(s)) == NonSpace(s)
    decreases |s|
  {
    if s != [] {
      if IsSpace(s[0]) {
        ConcatSplit(s[1..]);
      } else {
        var n := WordLen(s);
        ConcatSplit(s[n..]);
        assert s == s[..n] + s[n..];
        NonSpaceAppend(s[..n], s[n..]);
        NonSpaceOfWord(s[..n]);
        assert ([s[..n]] + Split(s[n..]))[1..] == Split(s[n..]);
      }
    }
  }

  lemma {:induction false} NonSpaceJoin(ws: seq<string>)
    requires Words(ws)
    ensures NonSpace(Join(ws)) == Concat(ws)
  {
    if ws == [] {
    } else if |ws| == 1 {
      NonSpaceOfWord(ws[0]);
      assert Concat(ws) == ws[0] + Concat([]);
    } else {
      assert Words(ws[1..]) by {
        forall i | 0 <= i < |ws[1..]| ensures ws[1..][i] != [] && NoSpace(ws[1..][i]) {
          assert ws[1..][i] == ws[i + 1];
        }
      }
      var w, rest := ws[0], Join(ws[1..]);
      assert Join(ws) == w + " " + rest;
      assert Concat(ws) == w + Concat(ws[1..]);
      NonSpaceJoin(ws[1..]);
      NonSpaceSeparated(w, rest);
    }
  }

  /** A word followed by a space contributes the word itself. */
  lemma NonSpaceSeparated(w: string, rest: string)
    requires NoSpace(w)
    ensures NonSpace(w + " " + rest) == w + NonSpace(rest)
  {
    NonSpaceOfWord(w);
    NonSpaceAppend(w + " ", rest);
    NonSpaceAppend(w, " ");
    assert NonSpace(" ") == [] by {
      assert IsSpace(" "[0]);
      assert " "[1..] == [];
    }
    AppendEmpty(w);
  }

  /**
   * A non-empty run of whitespace separates words: the words of
   * `a + sp + b` are those of `a` followed by those of `b`.
   */
  lemma {:induction false} SplitSeparated(a: string, sp: string, b: string)
    requires sp != [] && forall i | 0 <= i < |sp| :: IsSpace(sp[i])
    ensures Split(a + sp + b) == Split(a) + Split(b)
    decreases |a|
  {
    if a == [] {
      assert a + sp + b == sp + b;
      SplitSpacesThen(sp, b);
    } else if IsSpace(a[0]) {
      assert (a + sp + b)[1..] == a[1..] + sp + b;
      SplitSeparated(a[1..], sp, b);
    } else {
      var n := WordLen(a);
      var w, r := a[..n], a[n..];
      assert a == w + r;
      SplitSeparated(r, sp, b);
      SplitWordSeparated(w, r, sp, b);
    }
  }

  /** The word case of `SplitSeparated`: a leading word stays a word of its own. */
  lemma SplitWordSeparated(w: string, r: string, sp: string, b: string)
    requires w != [] && NoSpace(w) && (r == [] || IsSpace(r[0]))
    requires sp != [] && IsSpace(sp[0])
    requires Split(r + sp + b) == Split(r) + Split(b)
    ensures Split(w + r + sp + b) == Split(w + r) + Split(b)
  {
    var tail := r + sp + b;
    Regroup(w, r, sp, b);
    assert tail[0] == if r == [] then sp[0] else r[0];
    SplitWordThen(w, tail);
    SplitWordThen(w, r);
    ConsAppend(w, Split(r), Split(b));
  }

  /** Joining two non-empty word lists one after the other puts one space between them. */
  lemma {:induction false} JoinAppend(xs: seq<string>, ys: seq<string>)
    requires xs != [] && ys != []
    ensures Join(xs + ys) == Join(xs) + " " + Join(ys)
  {
    if |xs| == 1 {
      assert (xs + ys)[1..] == ys;
    } else {
      assert (xs + ys)[1..] == xs[1..] + ys;
      JoinAppend(xs[1..], ys);
    }
  }

  /**
   * Whitespace between two pieces of text that each hold a non-whitespace
   * character becomes exactly one space, however long the run is.
   */
  lemma CollapseSeparated(a: string, sp: string, b: string)
    requires sp != [] && forall i | 0 <= i < |sp| :: IsSpace(sp[i])
    requires exists i | 0 <= i < |a| :: !IsSpace(a[i])
    requires exists i | 0 <= i < |b| :: !IsSpace(b[i])
    ensures Collapse(a + sp + b) == Collapse(a) + " " + Collapse(b)
  {
    SplitSeparated(a, sp, b);
    SplitEmpty(a);
    SplitEmpty(b);
    JoinAppend(Split(a), Split(b));
  }

  /** The collapse keeps every non-whitespace character, in order. */
  lemma CollapseKeepsNonSpace(s: string)
    ensures NonSpace(Collapse(s)) == NonSpace(s)
  {
    SplitWords(s);
    NonSpaceJoin(Split(s));
    ConcatSplit(s);
  }

  // ---------------------------------------------------------------------
  // Regrouping steps: one-line facts about `+` and indexing that the proofs
  // above call so that the solver need not search for them.
  // ---------------------------------------------------------------------

  lemma JoinTwoEnds(a: string, j: string)
    requires a != [] && j != []
    ensures (a + " " + j)[0] == a[0]
    ensures (a + " " + j)[|a + " " + j| - 1] == j[|j| - 1]
  {
  }

  /** Cutting a string around the character at `n`. */
  lemma CutAt(t: string, n: nat)
    requires n < |t|
    ensures t == t[..n] + ([t[n]] + t[n + 1..])
  {
  }

  lemma Regroup(w: string, r: string, sp: string, b: string)
    ensures w + r + sp + b == w + (r + sp + b)
  {
  }

  lemma Assoc(a: string, b: string, c: string)
    ensures a + b + c == a + (b + c)
  {
  }

  lemma AppendEmpty(w: string)
    ensures w + [] == w
  {
  }

  lemma ConsAppend(w: string, xs: seq<string>, ys: seq<string>)
    ensures [w] + (xs + ys) == [w] + xs + ys
  {
  }
}
