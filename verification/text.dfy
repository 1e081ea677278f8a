/** Character classes and string helpers shared by the models. Case mapping
    is ASCII-only; whitespace follows the JavaScript and Python definitions. */
module Text {
  import opened Seqs

  predicate IsAsciiDigit(c: char)
  {
    '0' <= c <= '9'
  }

  predicate IsAsciiUpper(c: char)
  {
    'A' <= c <= 'Z'
  }

  predicate IsAsciiLower(c: char)
  {
    'a' <= c <= 'z'
  }

  /** Membership in the regular-expression class `[a-zA-Z0-9]`. */
  predicate IsAsciiAlnum(c: char)
  {
    IsAsciiDigit(c) || IsAsciiUpper(c) || IsAsciiLower(c)
  }

  function LowerChar(c: char): char
  {
    if IsAsciiUpper(c) then (c as int + 32) as char else c
  }

  function UpperChar(c: char): char
  {
    if IsAsciiLower(c) then (c as int - 32) as char else c
  }

  function ToLower(s: string): (r: string)
    ensures |r| == |s|
  {
    Map(s, LowerChar)
  }

  function ToUpper(s: string): (r: string)
    ensures |r| == |s|
  {
    Map(s, UpperChar)
  }

  /** `String.prototype.trim`: WhiteSpace and LineTerminator code points. */
  predicate IsJsWhitespace(c: char)
  {
    c == '\t' || c == '\n' || c == '\U{000B}' || c == '\U{000C}' || c == '\r' || c == ' '
    || c == '\U{00A0}' || c == '\U{1680}' || ('\U{2000}' <= c <= '\U{200A}')
    || c == '\U{2028}' || c == '\U{2029}' || c == '\U{202F}' || c == '\U{205F}'
    || c == '\U{3000}' || c == '\U{FEFF}'
  }

  /** Python `str.isspace` (what `str.strip()` removes). */
  predicate IsPyWhitespace(c: char)
  {
    ('\t' <= c <= '\r') || ('\U{001C}' <= c <= ' ') || c == '\U{0085}' || c == '\U{00A0}'
    || c == '\U{1680}' || ('\U{2000}' <= c <= '\U{200A}') || c == '\U{2028}'
    || c == '\U{2029}' || c == '\U{202F}' || c == '\U{205F}' || c == '\U{3000}'
  }

  function TrimStart(s: string, ws: char -> bool): (r: string)
    ensures |r| <= |s| && r == s[|s| - |r|..]
    ensures |r| > 0 ==> !ws(r[0])
    ensures forall i :: 0 <= i < |s| - |r| ==> ws(s[i])
  {
    if |s| > 0 && ws(s[0]) then
      var r := TrimStart(s[1..], ws);
      assert forall i :: 1 <= i < |s| - |r| ==> s[i] == s[1..][i - 1];
      r
    else s
  }

  function TrimEnd(s: string, ws: char -> bool): (r: string)
    ensures |r| <= |s| && r == s[..|r|]
    ensures |r| > 0 ==> !ws(r[|r| - 1])
    ensures forall i :: |r| <= i < |s| ==> ws(s[i])
  {
    if |s| > 0 && ws(s[|s| - 1]) then TrimEnd(s[..|s| - 1], ws) else s
  }

  /** Removes the longest `ws` prefix and suffix. */
  function Trim(s: string, ws: char -> bool): (r: string)
    ensures |r| <= |s|
    ensures |r| > 0 ==> !ws(r[0]) && !ws(r[|r| - 1])
  {
    TrimEnd(TrimStart(s, ws), ws)
  }

  function JsTrim(s: string): string
  {
    Trim(s, IsJsWhitespace)
  }

  function PyStrip(s: string): string
  {
    Trim(s, IsPyWhitespace)
  }

  /** A string with no trimmable character at either end is its own trim. */
  lemma TrimUntouched(s: string, ws: char -> bool)
    requires |s| > 0 && !ws(s[0]) && !ws(s[|s| - 1])
    ensures Trim(s, ws) == s
  {
    assert TrimStart(s, ws) == s;
  }

  /** One trimmable character on each side of an untouched string is removed. */
  lemma TrimPadded(w: string, pad: char, ws: char -> bool)
    requires ws(pad) && |w| > 0 && !ws(w[0]) && !ws(w[|w| - 1])
    ensures Trim([pad] + w + [pad], ws) == w
  {
    var s := [pad] + w + [pad];
    assert s[1..] == w + [pad];
    assert TrimStart(w + [pad], ws) == w + [pad];
    assert TrimStart(s, ws) == w + [pad];
    assert (w + [pad])[..|w|] == w;
    assert TrimEnd(w, ws) == w;
  }

  /** Upper-casing a one-character string upper-cases that character. */
  lemma UpperSingle(c: char)
    ensures ToUpper([c]) == [UpperChar(c)]
  {
    assert ToUpper([c])[0] == UpperChar(c);
  }

  /** Code-point lexicographic order, `a <= b` on strings. */
  predicate LexLe(a: string, b: string)
  {
    if |a| == 0 then true
    else if |b| == 0 then false
    else if a[0] != b[0] then a[0] < b[0]
    else LexLe(a[1..], b[1..])
  }

  /** `parts.join(sep)` */
  function Join(parts: seq<string>, sep: string): string
  {
    if |parts| == 0 then ""
    else if |parts| == 1 then parts[0]
    else parts[0] + sep + Join(parts[1..], sep)
  }

  /** Skips the rest of a run of characters outside `keep`. */
  function SkipRun(s: string, keep: char -> bool): (r: string)
    ensures |r| <= |s| && r == s[|s| - |r|..]
    ensures |r| > 0 ==> keep(r[0])
    ensures forall i :: 0 <= i < |s| - |r| ==> !keep(s[i])
  {
    if |s| > 0 && !keep(s[0]) then
      var r := SkipRun(s[1..], keep);
      assert forall i :: 1 <= i < |s| - |r| ==> s[i] == s[1..][i - 1];
      r
    else s
  }

  /** `s.replace(/[^keep]+/g, rep)`: every maximal run of characters outside
      `keep` becomes the single character `rep`. */
  function ReplaceRuns(s: string, keep: char -> bool, rep: char): (r: string)
    ensures forall i :: 0 <= i < |r| ==> keep(r[i]) || r[i] == rep
    ensures |r| <= |s|
    decreases |s|
  {
    if |s| == 0 then ""
    else if keep(s[0]) then [s[0]] + ReplaceRuns(s[1..], keep, rep)
    else [rep] + ReplaceRuns(SkipRun(s[1..], keep), keep, rep)
  }

  /** The output of `ReplaceRuns` starts with a kept input character exactly
      when the input does. */
  lemma ReplaceRunsHead(s: string, keep: char -> bool, rep: char)
    requires |s| > 0
    ensures |ReplaceRuns(s, keep, rep)| > 0
    ensures keep(s[0]) ==> ReplaceRuns(s, keep, rep)[0] == s[0]
    ensures !keep(s[0]) ==> ReplaceRuns(s, keep, rep)[0] == rep
  {
  }

  /** When `rep` is not a kept character, `ReplaceRuns` never emits `rep` twice in a row. */
  lemma {:induction false} ReplaceRunsNoDoubleRep(s: string, keep: char -> bool, rep: char)
    requires !keep(rep)
    ensures forall i :: 0 <= i < |ReplaceRuns(s, keep, rep)| - 1 ==>
      !(ReplaceRuns(s, keep, rep)[i] == rep && ReplaceRuns(s, keep, rep)[i + 1] == rep)
    decreases |s|
  {
    if |s| > 0 {
      if keep(s[0]) {
        ReplaceRunsNoDoubleRep(s[1..], keep, rep);
      } else {
        var t := SkipRun(s[1..], keep);
        ReplaceRunsNoDoubleRep(t, keep, rep);
        if |t| > 0 {
          ReplaceRunsHead(t, keep, rep);
        }
      }
    }
  }

  /** A string made of kept characters and isolated `rep` characters is a fixed point. */
  lemma {:induction false} ReplaceRunsFixedPoint(s: string, keep: char -> bool, rep: char)
    requires forall i :: 0 <= i < |s| ==> keep(s[i]) || s[i] == rep
    requires forall i :: 0 <= i < |s| - 1 ==> !(!keep(s[i]) && !keep(s[i + 1]))
    ensures ReplaceRuns(s, keep, rep) == s
    decreases |s|
  {
    if |s| > 0 {
      if keep(s[0]) {
        ReplaceRunsFixedPoint(s[1..], keep, rep);
      } else {
        assert SkipRun(s[1..], keep) == s[1..];
        ReplaceRunsFixedPoint(s[1..], keep, rep);
      }
    }
  }

  lemma {:induction false} FilterSkipRun(s: string, keep: char -> bool, kept: char -> bool)
    requires forall c :: kept(c) ==> keep(c)
    ensures Filter(SkipRun(s, keep), kept) == Filter(s, kept)
    decreases |s|
  {
    if |s| > 0 && !keep(s[0]) {
      FilterSkipRun(s[1..], keep, kept);
    }
  }

  /** Replacing runs of dropped characters changes none of the kept ones:
      the characters satisfying `kept` (a narrower class than `keep` that
      leaves out `rep`) are the same, in the same order. */
  lemma {:induction false} FilterReplaceRuns(s: string, keep: char -> bool, rep: char, kept: char -> bool)
    requires forall c :: kept(c) ==> keep(c)
    requires !kept(rep)
    ensures Filter(ReplaceRuns(s, keep, rep), kept) == Filter(s, kept)
    decreases |s|
  {
    if |s| > 0 {
      if keep(s[0]) {
        var rest := ReplaceRuns(s[1..], keep, rep);
        assert ([s[0]] + rest)[1..] == rest;
        FilterReplaceRuns(s[1..], keep, rep, kept);
      } else {
        var skipped := SkipRun(s[1..], keep);
        var rest := ReplaceRuns(skipped, keep, rep);
        assert ([rep] + rest)[1..] == rest;
        FilterReplaceRuns(skipped, keep, rep, kept);
        FilterSkipRun(s[1..], keep, kept);
      }
    }
  }

  /** `s.split(sep)` for a one-character separator: always at least one piece. */
  function Split(s: string, sep: char): (r: seq<string>)
    ensures |r| >= 1
    decreases |s|
  {
    if |s| == 0 then [""]
    else if s[0] == sep then [""] + Split(s[1..], sep)
    else
      var rest := Split(s[1..], sep);
      [[s[0]] + rest[0]] + rest[1..]
  }

  /** A piece without the separator, followed by the separator, splits off as one piece. */
  lemma {:induction false} SplitPrefix(a: string, b: string, sep: char)
    requires forall i :: 0 <= i < |a| ==> a[i] != sep
    ensures Split(a + [sep] + b, sep) == [a] + Split(b, sep)
    decreases |a|
  {
    if |a| == 0 {
      assert a + [sep] + b == [sep] + b;
    } else {
      assert (a + [sep] + b)[1..] == a[1..] + [sep] + b;
      SplitPrefix(a[1..], b, sep);
      assert [a[0]] + a[1..] == a;
    }
  }

  /** A string without the separator is a single piece. */
  lemma {:induction false} SplitNone(a: string, sep: char)
    requires forall i :: 0 <= i < |a| ==> a[i] != sep
    ensures Split(a, sep) == [a]
    decreases |a|
  {
    if |a| > 0 {
      SplitNone(a[1..], sep);
      assert [a[0]] + a[1..] == a;
    }
  }

  /** Splitting a join recovers the parts, provided no part holds the separator. */
  lemma {:induction false} SplitJoin(parts: seq<string>, sep: char)
    requires |parts| >= 1
    requires forall k, i :: 0 <= k < |parts| && 0 <= i < |parts[k]| ==> parts[k][i] != sep
    ensures Split(Join(parts, [sep]), sep) == parts
    decreases |parts|
  {
    if |parts| == 1 {
      SplitNone(parts[0], sep);
    } else {
      SplitJoin(parts[1..], sep);
      SplitPrefix(parts[0], Join(parts[1..], [sep]), sep);
    }
  }

  /** The first piece is the longest prefix without the separator. */
  lemma {:induction false} SplitHead(s: string, sep: char)
    ensures var h := Split(s, sep)[0];
      && |h| <= |s| && h == s[..|h|]
      && (forall i :: 0 <= i < |h| ==> h[i] != sep)
      && (|h| < |s| ==> s[|h|] == sep)
      && (|h| == |s| ==> |Split(s, sep)| == 1)
    decreases |s|
  {
    if |s| > 0 && s[0] != sep {
      SplitHead(s[1..], sep);
      var h := Split(s[1..], sep)[0];
      assert Split(s, sep)[0] == [s[0]] + h;
      assert s[..|h| + 1] == [s[0]] + s[1..][..|h|];
    }
  }

  /** The last piece is what follows the last separator. */
  lemma {:induction false} SplitLast(dir: string, name: string, sep: char)
    requires forall i :: 0 <= i < |name| ==> name[i] != sep
    ensures |Split(dir + [sep] + name, sep)| >= 2
    ensures Split(dir + [sep] + name, sep)[|Split(dir + [sep] + name, sep)| - 1] == name
    decreases |dir|
  {
    var s := dir + [sep] + name;
    if |dir| == 0 {
      assert s == [sep] + name;
      assert s[1..] == name;
      SplitNone(name, sep);
    } else {
      assert s[1..] == dir[1..] + [sep] + name;
      SplitLast(dir[1..], name, sep);
    }
  }

  /** Decimal digits of a natural number (`String(n)`). */
  function NatToString(n: nat): (r: string)
    ensures |r| >= 1
    ensures forall i :: 0 <= i < |r| ==> IsAsciiDigit(r[i])
  {
    if n < 10 then [('0' as int + n) as char]
    else NatToString(n / 10) + [('0' as int + n % 10) as char]
  }

  /** `String(n)` for an integer. */
  function IntToString(n: int): (r: string)
    ensures |r| >= 1
    ensures forall i :: 0 <= i < |r| ==> IsAsciiDigit(r[i]) || r[i] == '-'
  {
    if n < 0 then "-" + NatToString(-n) else NatToString(n)
  }
}
