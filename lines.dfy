/**
 * The URL file between the crawl and the extraction: written one URL and a
 * '\n' per line, read back with `str.splitlines`.
 */
module Lines {

  /** The line boundaries `str.splitlines` recognises. */
  predicate IsLineBreak(c: char) {
    c == '\n' || c == '\r' || c == '\U{0B}' || c == '\U{0C}'
    || ('\U{1C}' <= c <= '\U{1E}') || c == '\U{85}' || c == '\U{2028}' || c == '\U{2029}'
  }

  predicate NoLineBreak(s: string) {
    forall i | 0 <= i < |s| :: !IsLineBreak(s[i])
  }

  /** Index of the first line boundary in `s`, or `|s|`. */
  function LineEnd(s: string): (n: nat)
    ensures n <= |s|
    ensures NoLineBreak(s[..n])
    ensures n < |s| ==> IsLineBreak(s[n])
  {
    if s == [] || IsLineBreak(s[0]) then 0
    else
      var n := 1 + LineEnd(s[1..]);
      assert s[..n] == [s[0]] + s[1..][..n - 1];
      n
  }

  /**
   * `s.splitlines()`: the lines without their boundaries; "\r\n" is one
   * boundary, and a final boundary does not start an extra empty line.
   */
  function SplitLines(s: string): (lines: seq<string>)
    ensures forall i | 0 <= i < |lines| :: NoLineBreak(lines[i])
    decreases |s|
  {
    if s == [] then []
    else
      var n := LineEnd(s);
      if n == |s| then [s]
      else
        var skip := if s[n] == '\r' && n + 1 < |s| && s[n + 1] == '\n' then 2 else 1;
        [s[..n]] + SplitLines(s[n + skip..])
  }

  /**
   * The contents of the URL file: `'%s\n' % url` for each URL in order. The
   * file is empty exactly when there is no URL, and otherwise ends with a
   * line break.
   */
  function UrlFile(urls: seq<string>): (f: string)
    ensures f == [] <==> urls == []
    ensures urls != [] ==> f[|f| - 1] == '\n'
  {
    if urls == [] then "" else urls[0] + "\n" + UrlFile(urls[1..])
  }

  lemma {:induction false} UrlFileSnoc(urls: seq<string>, u: string)
    ensures UrlFile(urls + [u]) == UrlFile(urls) + u + "\n"
  {
    if urls == [] {
      assert [] + [u] == [u];
    } else {
      assert (urls + [u])[1..] == urls[1..] + [u];
      UrlFileSnoc(urls[1..], u);
    }
  }

  /** The `for` loop that writes the URL file, one line per URL. */
  method WriteUrlFile(urls: seq<string>) returns (contents: string)
    ensures contents == UrlFile(urls)
  {
    contents := "";
    for i := 0 to |urls|
      invariant contents == UrlFile(urls[..i])
    {
      UrlFileSnoc(urls[..i], urls[i]);
      assert urls[..i + 1] == urls[..i] + [urls[i]];
      contents := contents + urls[i] + "\n";
    }
    assert urls[..|urls|] == urls;
  }

  lemma LineEndOfLine(u: string, rest: string)
    requires NoLineBreak(u)
    ensures LineEnd(u + "\n" + rest) == |u|
    decreases |u|
  {
    if u != [] {
      assert (u + "\n" + rest)[1..] == u[1..] + "\n" + rest;
      LineEndOfLine(u[1..], rest);
    }
  }

  /**
   * Reading the URL file back with `splitlines` gives the URL list that was
   * written, provided no URL holds a line boundary itself.
   */
  lemma {:induction false} ReadBackUrlFile(urls: seq<string>)
    requires forall i | 0 <= i < |urls| :: NoLineBreak(urls[i])
    ensures SplitLines(UrlFile(urls)) == urls
  {
    if urls != [] {
      var u, rest := urls[0], UrlFile(urls[1..]);
      var t := u + "\n" + rest;
      LineEndOfLine(u, rest);
      assert t[|u|] == '\n';
      assert t[..|u|] == u;
      assert t[|u| + 1..] == rest;
      ReadBackUrlFile(urls[1..]);
      assert urls == [u] + urls[1..];
    }
  }

  /** A URL holding a line boundary comes back as two lines: the round trip needs the precondition. */
  lemma LineBreakInUrlSplits(a: string, b: string)
    requires a == "x" && b == "y"
    ensures SplitLines(UrlFile([a + "\n" + b])) == [a, b]
  {
    var t := a + "\n" + b + "\n";
    assert UrlFile([a + "\n" + b]) == t by {
      assert UrlFile([a + "\n" + b]) == a + "\n" + b + "\n" + UrlFile([]);
    }
    assert LineEnd(t) == 1 by { assert IsLineBreak(t[1]); assert LineEnd(t[1..]) == 0; }
    assert t[2..] == b + "\n" + "";
    LineEndOfLine(b, "");
    var r := t[2..];
    assert r[..1] == b && r[1] == '\n' && r[2..] == [];
    assert SplitLines(r) == [b] + SplitLines(r[2..]);
    assert t[..1] == a;
    assert SplitLines(t) == [a] + SplitLines(r);
  }
}
