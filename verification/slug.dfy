/** `slugify` and the report file names built from slugs.

    `slugify` lower-cases the ASCII letters and digits of its input and
    joins the runs between them with single underscores. The model takes
    the input as already in NFKD form (exact for ASCII text), so the
    normalisation step is the identity and only the removal of combining
    marks remains. */
module Slug {
  import opened Wrappers
  import opened Seqs
  import opened Text

  /** The combining diacritical marks, U+0300 to U+036F. */
  predicate IsCombiningMark(c: char)
  {
    '\U{0300}' <= c <= '\U{036F}'
  }

  predicate IsBaseChar(c: char)
  {
    !IsCombiningMark(c)
  }

  predicate IsUnderscore(c: char)
  {
    c == '_'
  }

  /** The characters a slug is made of: `[a-z0-9_]`. */
  predicate IsSlugChar(c: char)
  {
    IsAsciiLower(c) || IsAsciiDigit(c) || c == '_'
  }

  /** No two adjacent `c` characters. */
  predicate NoDouble(s: string, c: char)
  {
    forall i :: 0 <= i < |s| - 1 ==> !(s[i] == c && s[i + 1] == c)
  }

  /** The shape of every slug: only `[a-z0-9_]`, no `__`, and no `_` at
      either end. */
  predicate SlugShaped(s: string)
  {
    && (forall i :: 0 <= i < |s| ==> IsSlugChar(s[i]))
    && NoDouble(s, '_')
    && (|s| > 0 ==> s[0] != '_' && s[|s| - 1] != '_')
  }

  /** `s.replace(/c{2,}/g, c)`: every run of two or more `c` becomes one. */
  function CollapseRuns(s: string, c: char): (r: string)
    ensures |s| > 0 ==> |r| > 0 && r[0] == s[0]
    ensures NoDouble(r, c)
    ensures forall x :: x in r ==> x in s
    decreases |s|
  {
    if |s| == 0 then ""
    else if |s| >= 2 && s[0] == c && s[1] == c then CollapseRuns(s[1..], c)
    else
      var rest := CollapseRuns(s[1..], c);
      assert forall i :: 1 <= i < |rest| + 1 ==> ([s[0]] + rest)[i] == rest[i - 1];
      [s[0]] + rest
  }

  /** The transformation chain of `slugify` applied to a non-falsy string. */
  function SlugOf(s: string): string
  {
    var marksGone := Filter(s, IsBaseChar);
    var underscored := ReplaceRuns(marksGone, IsAsciiAlnum, '_');
    var collapsed := CollapseRuns(underscored, '_');
    var trimmed := Trim(collapsed, IsUnderscore);
    ToLower(trimmed)
  }

  /** `slugify(input)`; `None` is a falsy input (`null`, `undefined`). The
      result has the slug shape, and its letters and digits are exactly the
      input's, lower-cased and in order. */
  function Slugify(input: Option<string>): (r: string)
    ensures SlugShaped(r)
    ensures Filter(r, IsAsciiAlnum) == ToLower(Filter(input.GetOr(""), IsAsciiAlnum))
    ensures r == "" <==> Filter(input.GetOr(""), IsAsciiAlnum) == ""
    ensures input.None? || input == Some("") ==> r == ""
  {
    var s := input.GetOr("");
    SlugOfShape(s);
    SlugOfLetters(s);
    SlugEmptyIff(SlugOf(s), Filter(s, IsAsciiAlnum));
    SlugOf(s)
  }

  // ---------------------------------------------------------------------
  // Shape
  // ---------------------------------------------------------------------

  lemma SlugOfShape(s: string)
    ensures SlugShaped(SlugOf(s))
  {
    var marksGone := Filter(s, IsBaseChar);
    var underscored := ReplaceRuns(marksGone, IsAsciiAlnum, '_');
    ReplaceRunsNoDoubleRep(marksGone, IsAsciiAlnum, '_');
    var collapsed := CollapseRuns(underscored, '_');
    assert forall i :: 0 <= i < |collapsed| ==> IsAsciiAlnum(collapsed[i]) || collapsed[i] == '_' by {
      forall i | 0 <= i < |collapsed|
        ensures IsAsciiAlnum(collapsed[i]) || collapsed[i] == '_'
      {
        assert collapsed[i] in underscored;
      }
    }
    var trimmed := Trim(collapsed, IsUnderscore);
    TrimKeepsShape(collapsed);
    LowerKeepsShape(trimmed);
  }

  /** Letters, digits and isolated underscores survive trimming, which
      leaves no underscore at either end. */
  lemma TrimKeepsShape(s: string)
    requires forall i :: 0 <= i < |s| ==> IsAsciiAlnum(s[i]) || s[i] == '_'
    requires NoDouble(s, '_')
    ensures var t := Trim(s, IsUnderscore);
      && (forall i :: 0 <= i < |t| ==> IsAsciiAlnum(t[i]) || t[i] == '_')
      && NoDouble(t, '_')
      && (|t| > 0 ==> t[0] != '_' && t[|t| - 1] != '_')
  {
    var u := TrimStart(s, IsUnderscore);
    var t := TrimEnd(u, IsUnderscore);
    var k := |s| - |u|;
    assert t == s[k..k + |t|] by {
      assert u == s[k..] && t == u[..|t|];
    }
    SliceKeepsShape(s, k, k + |t|);
  }

  lemma SliceKeepsShape(s: string, lo: int, hi: int)
    requires 0 <= lo <= hi <= |s|
    requires forall i :: 0 <= i < |s| ==> IsAsciiAlnum(s[i]) || s[i] == '_'
    requires NoDouble(s, '_')
    ensures forall i :: 0 <= i < hi - lo ==> IsAsciiAlnum(s[lo..hi][i]) || s[lo..hi][i] == '_'
    ensures NoDouble(s[lo..hi], '_')
  {
    var t := s[lo..hi];
    assert forall i :: 0 <= i < |t| ==> t[i] == s[lo + i];
  }

  /** Lower-casing maps `[a-zA-Z0-9_]` into `[a-z0-9_]` and moves no underscore. */
  lemma LowerKeepsShape(s: string)
    requires forall i :: 0 <= i < |s| ==> IsAsciiAlnum(s[i]) || s[i] == '_'
    requires NoDouble(s, '_')
    requires |s| > 0 ==> s[0] != '_' && s[|s| - 1] != '_'
    ensures SlugShaped(ToLower(s))
  {
    var t := ToLower(s);
    assert forall i :: 0 <= i < |t| ==> t[i] == LowerChar(s[i]);
    assert forall i :: 0 <= i < |t| ==> (t[i] == '_' <==> s[i] == '_');
  }

  lemma SlugEmptyIff(r: string, letters: string)
    requires SlugShaped(r)
    requires Filter(r, IsAsciiAlnum) == ToLower(letters)
    ensures r == "" <==> letters == ""
  {
    if |r| > 0 {
      assert IsAsciiAlnum(r[0]);
      assert r[0] in Filter(r, IsAsciiAlnum);
    }
  }

  // ---------------------------------------------------------------------
  // Letters and digits are kept, in order
  // ---------------------------------------------------------------------

  lemma SlugOfLetters(s: string)
    ensures Filter(SlugOf(s), IsAsciiAlnum) == ToLower(Filter(s, IsAsciiAlnum))
  {
    var marksGone := Filter(s, IsBaseChar);
    FilterFuseInto(s, IsBaseChar, IsAsciiAlnum, IsAsciiAlnum);
    var underscored := ReplaceRuns(marksGone, IsAsciiAlnum, '_');
    FilterReplaceRuns(marksGone, IsAsciiAlnum, '_', IsAsciiAlnum);
    var collapsed := CollapseRuns(underscored, '_');
    FilterCollapseRuns(underscored, '_', IsAsciiAlnum);
    var trimmed := Trim(collapsed, IsUnderscore);
    FilterTrimStart(collapsed, IsUnderscore, IsAsciiAlnum);
    FilterTrimEnd(TrimStart(collapsed, IsUnderscore), IsUnderscore, IsAsciiAlnum);
    FilterToLower(trimmed);
  }

  lemma {:induction false} FilterCollapseRuns(s: string, c: char, keep: char -> bool)
    requires !keep(c)
    ensures Filter(CollapseRuns(s, c), keep) == Filter(s, keep)
    decreases |s|
  {
    if |s| > 0 {
      FilterCollapseRuns(s[1..], c, keep);
      if !(|s| >= 2 && s[0] == c && s[1] == c) {
        var rest := CollapseRuns(s[1..], c);
        assert ([s[0]] + rest)[1..] == rest;
      }
    }
  }

  lemma {:induction false} FilterTrimStart(s: string, ws: char -> bool, keep: char -> bool)
    requires forall x :: ws(x) ==> !keep(x)
    ensures Filter(TrimStart(s, ws), keep) == Filter(s, keep)
    decreases |s|
  {
    if |s| > 0 && ws(s[0]) {
      FilterTrimStart(s[1..], ws, keep);
    }
  }

  lemma {:induction false} FilterTrimEnd(s: string, ws: char -> bool, keep: char -> bool)
    requires forall x :: ws(x) ==> !keep(x)
    ensures Filter(TrimEnd(s, ws), keep) == Filter(s, keep)
    decreases |s|
  {
    if |s| > 0 && ws(s[|s| - 1]) {
      var front := s[..|s| - 1];
      FilterTrimEnd(front, ws, keep);
      assert s == front + [s[|s| - 1]];
      FilterConcat(front, [s[|s| - 1]], keep);
      assert Filter([s[|s| - 1]], keep) == Filter([s[|s| - 1]][1..], keep);
    }
  }

  /** Lower-casing and keeping the letters and digits commute. */
  lemma {:induction false} FilterToLower(s: string)
    ensures Filter(ToLower(s), IsAsciiAlnum) == ToLower(Filter(s, IsAsciiAlnum))
    decreases |s|
  {
    if |s| > 0 {
      FilterToLower(s[1..]);
      assert ToLower(s)[1..] == ToLower(s[1..]);
      assert ToLower(s)[0] == LowerChar(s[0]);
      if IsAsciiAlnum(s[0]) {
        var rest := Filter(s[1..], IsAsciiAlnum);
        assert ToLower([s[0]] + rest) == [LowerChar(s[0])] + ToLower(rest);
      }
    }
  }

  // ---------------------------------------------------------------------
  // Idempotence
  // ---------------------------------------------------------------------

  lemma {:induction false} CollapseRunsNoDouble(s: string, c: char)
    requires NoDouble(s, c)
    ensures CollapseRuns(s, c) == s
    decreases |s|
  {
    if |s| > 0 {
      CollapseRunsNoDouble(s[1..], c);
    }
  }

  /** A slug is its own slug. */
  lemma SlugOfSlug(t: string)
    requires SlugShaped(t)
    ensures SlugOf(t) == t
  {
    MarksGoneOfSlug(t);
    UnderscoredOfSlug(t);
    CollapseRunsNoDouble(t, '_');
    TrimOfSlug(t);
    LowerOfSlugChars(t);
  }

  lemma MarksGoneOfSlug(t: string)
    requires SlugShaped(t)
    ensures Filter(t, IsBaseChar) == t
  {
    assert forall i :: 0 <= i < |t| ==> IsBaseChar(t[i]);
    FilterAll(t, IsBaseChar);
  }

  lemma UnderscoredOfSlug(t: string)
    requires SlugShaped(t)
    ensures ReplaceRuns(t, IsAsciiAlnum, '_') == t
  {
    assert forall i :: 0 <= i < |t| ==> IsAsciiAlnum(t[i]) || t[i] == '_';
    assert forall i :: 0 <= i < |t| - 1 ==> !(!IsAsciiAlnum(t[i]) && !IsAsciiAlnum(t[i + 1]));
    ReplaceRunsFixedPoint(t, IsAsciiAlnum, '_');
  }

  lemma TrimOfSlug(t: string)
    requires SlugShaped(t)
    ensures Trim(t, IsUnderscore) == t
  {
    assert TrimStart(t, IsUnderscore) == t;
    assert TrimEnd(t, IsUnderscore) == t;
  }

  lemma LowerOfSlugChars(t: string)
    requires forall i :: 0 <= i < |t| ==> IsSlugChar(t[i])
    ensures ToLower(t) == t
  {
    assert forall i :: 0 <= i < |t| ==> !IsAsciiUpper(t[i]);
  }

  /** `slugify(slugify(x)) == slugify(x)`. */
  lemma SlugifyIdempotent(input: Option<string>)
    ensures Slugify(Some(Slugify(input))) == Slugify(input)
  {
    SlugOfSlug(Slugify(input));
  }

  // ---------------------------------------------------------------------
  // Report file names
  // ---------------------------------------------------------------------

  datatype FilenameParams = FilenameParams(folder: string, pbmSlug: string, from: string, to: string,
                                           part: Option<int>)

  /** `report_${folder}_${pbmSlug}_${from}_${to}` */
  function FilenameBase(p: FilenameParams): string
  {
    "report_" + p.folder + "_" + p.pbmSlug + "_" + p.from + "_" + p.to
  }

  /** `buildReportFilename`: the base, then `_part{n}` for a part above 1,
      then `.pdf`. */
  function BuildReportFilename(p: FilenameParams): (r: string)
    ensures |r| >= |FilenameBase(p)| + 4
    ensures r[..|FilenameBase(p)|] == FilenameBase(p)
    ensures r[|r| - 4..] == ".pdf"
    ensures |r| == |FilenameBase(p)| + 4 <==> p.part.None? || p.part.value <= 1
  {
    var base := FilenameBase(p);
    if p.part.Some? && p.part.value > 1 then
      assert (base + "_part" + NatToString(p.part.value) + ".pdf")[..|base|] == base;
      base + "_part" + NatToString(p.part.value) + ".pdf"
    else
      base + ".pdf"
  }

  /** An absent part, or one of at most 1, names the unsplit report. */
  lemma PartAtMostOneIsUnsplit(p: FilenameParams, n: int)
    requires n <= 1
    ensures BuildReportFilename(p.(part := Some(n))) == BuildReportFilename(p.(part := None))
  {
  }

  lemma {:induction false} NatToStringInjective(a: nat, b: nat)
    requires NatToString(a) == NatToString(b)
    ensures a == b
    decreases a
  {
    var s := NatToString(a);
    if a >= 10 && b >= 10 {
      assert s[|s| - 1] == ('0' as int + a % 10) as char;
      assert s[|s| - 1] == ('0' as int + b % 10) as char;
      assert s[..|s| - 1] == NatToString(a / 10);
      assert s[..|s| - 1] == NatToString(b / 10);
      NatToStringInjective(a / 10, b / 10);
    }
  }

  /** The parts of a split report get distinct file names. */
  lemma DistinctPartsDistinctNames(p: FilenameParams, m: int, n: int)
    requires 1 < m && 1 < n && m != n
    ensures BuildReportFilename(p.(part := Some(m))) != BuildReportFilename(p.(part := Some(n)))
  {
    var base := FilenameBase(p);
    var a := BuildReportFilename(p.(part := Some(m)));
    var b := BuildReportFilename(p.(part := Some(n)));
    if a == b {
      var dm := NatToString(m);
      var dn := NatToString(n);
      assert a == base + "_part" + dm + ".pdf";
      assert b == base + "_part" + dn + ".pdf";
      assert |dm| == |dn|;
      assert a[|base| + 5..|a| - 4] == dm;
      assert b[|base| + 5..|b| - 4] == dn;
      NatToStringInjective(m, n);
    }
  }
}
