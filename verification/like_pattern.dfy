/** The `ilike` filter of the claim list: the route sends the pattern
    `%text%`, the REST layer reads `*` in a pattern as `%`, and the database
    matches it with SQL `LIKE` rules after lower-casing both sides: `%`
    matches any run of characters, `_` any one character, and a backslash
    makes the next character literal. */
module LikePattern {
  import opened Seqs
  import opened Text

  /** A character with a meaning in a pattern. */
  predicate IsPatternChar(c: char)
  {
    c == '%' || c == '_' || c == '\\' || c == '*'
  }

  /** The pattern has no character with a meaning. */
  predicate IsLiteral(p: string)
  {
    forall i :: 0 <= i < |p| ==> !IsPatternChar(p[i])
  }

  /** SQL `LIKE` matching of a whole string. */
  predicate Like(pat: string, s: string)
    decreases |pat| + |s|
  {
    if |pat| == 0 then |s| == 0
    else if pat[0] == '%' then Like(pat[1..], s) || (|s| > 0 && Like(pat, s[1..]))
    else if |s| == 0 then false
    else if pat[0] == '_' then Like(pat[1..], s[1..])
    else if pat[0] == '\\' && |pat| > 1 then s[0] == pat[1] && Like(pat[2..], s[1..])
    else s[0] == pat[0] && Like(pat[1..], s[1..])
  }

  function StarAsPercent(c: char): char
  {
    if c == '*' then '%' else c
  }

  /** The pattern the database receives for a search text. */
  function ContainsPattern(needle: string): (p: string)
    ensures |p| == |needle| + 2 && p[0] == '%' && p[|p| - 1] == '%'
    ensures forall i :: 0 <= i < |needle| ==> p[i + 1] == StarAsPercent(LowerChar(needle[i]))
    ensures IsLiteral(needle) ==> p == "%" + ToLower(needle) + "%"
  {
    LowerLiteral(needle);
    "%" + Map(ToLower(needle), StarAsPercent) + "%"
  }

  /** `cell ILIKE '%needle%'` as the route sends it. */
  predicate ILikeContains(hay: string, needle: string)
  {
    Like(ContainsPattern(needle), ToLower(hay))
  }

  /** The plain reading of a search: some window of the text is the needle. */
  predicate HasSubstring(hay: string, needle: string)
  {
    exists i :: 0 <= i <= |hay| - |needle| && SubstringAt(hay, needle, i)
  }

  predicate SubstringAt(hay: string, needle: string, i: int)
  {
    0 <= i <= |hay| - |needle| && hay[i..i + |needle|] == needle
  }

  /** Lower-casing and the `*` substitution leave a literal text literal and
      unchanged apart from case. */
  lemma LowerLiteral(needle: string)
    ensures IsLiteral(needle) ==> IsLiteral(ToLower(needle))
    ensures IsLiteral(needle) ==> Map(ToLower(needle), StarAsPercent) == ToLower(needle)
  {
  }

  /** `%` matches every string. */
  lemma {:induction false} PercentMatchesAll(s: string)
    ensures Like("%", s)
    decreases |s|
  {
    if |s| > 0 {
      PercentMatchesAll(s[1..]);
    }
  }

  /** A literal prefix of a pattern matches exactly the same prefix of the string. */
  lemma {:induction false} LiteralPrefix(p: string, rest: string, s: string)
    requires IsLiteral(p)
    ensures Like(p + rest, s) <==> |p| <= |s| && s[..|p|] == p && Like(rest, s[|p|..])
    decreases |p|
  {
    if |p| == 0 {
      assert p + rest == rest;
      assert s[..0] == p && s[0..] == s;
    } else {
      assert (p + rest)[0] == p[0] && !IsPatternChar(p[0]);
      assert (p + rest)[1..] == p[1..] + rest;
      if |s| > 0 {
        LiteralPrefix(p[1..], rest, s[1..]);
        if |p| <= |s| {
          assert s[1..][|p| - 1..] == s[|p|..];
          assert s[..|p|] == [s[0]] + s[1..][..|p| - 1];
          assert p == [p[0]] + p[1..];
        }
      }
    }
  }

  /** A leading `%` lets the rest of the pattern match any suffix. */
  lemma {:induction false} LeadingPercent(q: string, s: string)
    ensures Like("%" + q, s) <==> exists i :: 0 <= i <= |s| && Like(q, s[i..])
    decreases |s|
  {
    var p := "%" + q;
    assert p[0] == '%' && p[1..] == q;
    assert s[0..] == s;
    if |s| > 0 {
      LeadingPercent(q, s[1..]);
      if exists i :: 0 <= i <= |s| && Like(q, s[i..]) {
        var i :| 0 <= i <= |s| && Like(q, s[i..]);
        if i > 0 {
          assert s[1..][i - 1..] == s[i..];
        }
      }
      if exists j :: 0 <= j <= |s[1..]| && Like(q, s[1..][j..]) {
        var j :| 0 <= j <= |s[1..]| && Like(q, s[1..][j..]);
        assert s[1..][j..] == s[j + 1..];
      }
    }
  }

  /** At a fixed offset, a literal text followed by `%` matches exactly
      when the text sits there. */
  lemma LiteralAt(h: string, n: string, i: int)
    requires IsLiteral(n) && 0 <= i <= |h|
    ensures Like(n + "%", h[i..]) <==> SubstringAt(h, n, i)
  {
    LiteralPrefix(n, "%", h[i..]);
    if |n| <= |h[i..]| {
      PercentMatchesAll(h[i..][|n|..]);
      assert h[i..][..|n|] == h[i..i + |n|];
    }
  }

  /** A search text without pattern characters is a case-insensitive
      substring test. */
  lemma LiteralNeedleIsSubstring(hay: string, needle: string)
    requires IsLiteral(needle)
    ensures ILikeContains(hay, needle) <==> HasSubstring(ToLower(hay), ToLower(needle))
  {
    var h := ToLower(hay);
    var n := ToLower(needle);
    LowerLiteral(needle);
    assert ContainsPattern(needle) == "%" + (n + "%");
    LeadingPercent(n + "%", h);
    if ILikeContains(hay, needle) {
      var i :| 0 <= i <= |h| && Like(n + "%", h[i..]);
      LiteralAt(h, n, i);
    }
    if HasSubstring(h, n) {
      var i :| 0 <= i <= |h| - |n| && SubstringAt(h, n, i);
      LiteralAt(h, n, i);
    }
  }

  lemma LowerSamples()
    ensures ToLower("ABC") == "abc" && ToLower("a_c") == "a_c"
  {
  }

  /** `%a_c%` matches "abc". */
  lemma UnderscorePatternMatches()
    ensures Like("%a_c%", "abc")
  {
  }

  /** An underscore typed into the search is a wildcard: "a_c" finds the
      script "ABC", which does not contain the text "a_c". */
  lemma UnderscoreIsWildcard()
    ensures ILikeContains("ABC", "a_c")
    ensures !HasSubstring(ToLower("ABC"), ToLower("a_c"))
  {
    LowerSamples();
    assert ContainsPattern("a_c") == "%a_c%";
    UnderscorePatternMatches();
    assert "abc"[0..3] != "a_c";
  }
}
