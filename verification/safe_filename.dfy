/** `safe_filename`: the characters that are unsafe in file names on some
    operating system become underscores. */
module SafeFilename {
  import opened Seqs

  /** Backslash, slash, star, question mark, colon, double quote, angle
      brackets and vertical bar. */
  predicate IsUnsafe(c: char)
  {
    c == '\\' || c == '/' || c == '*' || c == '?' || c == ':' || c == '"' || c == '<' || c == '>' || c == '|'
  }

  function SafeChar(c: char): char
  {
    if IsUnsafe(c) then '_' else c
  }

  /** `safe_filename(s)` for `s` already converted with `str`. */
  function SafeFilename(s: string): (r: string)
    ensures |r| == |s|
    ensures forall i :: 0 <= i < |r| ==> !IsUnsafe(r[i])
    ensures forall i :: 0 <= i < |s| && !IsUnsafe(s[i]) ==> r[i] == s[i]
    ensures forall i :: 0 <= i < |s| && IsUnsafe(s[i]) ==> r[i] == '_'
  {
    Map(s, SafeChar)
  }

  /** Names that are already safe are left alone, so the function is idempotent. */
  lemma SafeNameUnchanged(s: string)
    requires forall i :: 0 <= i < |s| ==> !IsUnsafe(s[i])
    ensures SafeFilename(s) == s
  {
  }

  lemma SafeFilenameIdempotent(s: string)
    ensures SafeFilename(SafeFilename(s)) == SafeFilename(s)
  {
    SafeNameUnchanged(SafeFilename(s));
  }
}
