/** The SQLite-to-Supabase migration script: CSV serialisation of the
    exported tables (quoting as in section 2 of RFC 4180), the `num`
    coercion, the validation of a configured pharmacy id, and the upload of
    each table in upsert chunks of 1000 rows. */
module Migrate {
  import opened Wrappers
  import opened Seqs
  import opened Text

  // ---------------------------------------------------------------------
  // CSV fields
  // ---------------------------------------------------------------------

  /** A cell handed to `esc`: `null`/`undefined`, or the text `String(v)`
      gives for it. */
  datatype CsvValue = Missing | Text(s: string)

  function TextOf(v: CsvValue): string
  {
    match v
    case Missing => ""
    case Text(s) => s
  }

  /** The characters that force quoting: `[",\n]`. */
  predicate IsSpecial(c: char)
  {
    c == '"' || c == ',' || c == '\n'
  }

  predicate NeedsQuotes(s: string)
  {
    exists i :: 0 <= i < |s| && IsSpecial(s[i])
  }

  /** `s.replace(/"/g, '""')` */
  function DoubleQuotes(s: string): (r: string)
    ensures |r| >= |s|
    decreases |s|
  {
    if |s| == 0 then ""
    else if s[0] == '"' then "\"\"" + DoubleQuotes(s[1..])
    else [s[0]] + DoubleQuotes(s[1..])
  }

  /** `esc`: nothing for a missing value, the text itself when it holds no
      special character, and otherwise the text in double quotes with every
      quote doubled. */
  function Esc(v: CsvValue): (r: string)
    ensures v.Missing? ==> r == ""
    ensures v.Text? && !NeedsQuotes(v.s) ==> r == v.s
    ensures v.Text? && NeedsQuotes(v.s) ==> |r| >= 2 && r[0] == '"' && r[|r| - 1] == '"'
    ensures r == TextOf(v) || (|r| >= 2 && r[0] == '"' && r[|r| - 1] == '"' && Undouble(r[1..|r| - 1]) == TextOf(v))
  {
    match v
    case Missing => ""
    case Text(s) =>
      if NeedsQuotes(s) then
        var body := DoubleQuotes(s);
        var r := "\"" + body + "\"";
        assert r[1..|r| - 1] == body;
        UndoubleDouble(s);
        r
      else s
  }

  /** Removing the doubling: each `""` becomes `"`. */
  function Undouble(s: string): string
    decreases |s|
  {
    if |s| == 0 then ""
    else if |s| >= 2 && s[0] == '"' && s[1] == '"' then "\"" + Undouble(s[2..])
    else [s[0]] + Undouble(s[1..])
  }

  /** Un-doubling the quotes recovers the text. */
  lemma {:induction false} UndoubleDouble(s: string)
    ensures Undouble(DoubleQuotes(s)) == s
    decreases |s|
  {
    if |s| > 0 {
      UndoubleDouble(s[1..]);
      if s[0] == '"' {
        assert ("\"\"" + DoubleQuotes(s[1..]))[2..] == DoubleQuotes(s[1..]);
      } else {
        var rest := DoubleQuotes(s[1..]);
        assert ([s[0]] + rest)[1..] == rest;
        assert [s[0]] + s[1..] == s;
      }
    }
  }

  /** One CSV line: the escaped fields joined by ",". */
  function Line(row: seq<CsvValue>): string
  {
    Join(Map(row, Esc), ",")
  }

  /** `writeCsv`'s file contents: the header line and the row lines, each
      followed by "\n". */
  function WriteCsv(header: seq<string>, rows: seq<seq<CsvValue>>): (r: string)
    ensures |r| > 0 && r[|r| - 1] == '\n'
  {
    Join(Map([Map(header, s => Text(s))] + rows, Line), "\n") + "\n"
  }

  // ---------------------------------------------------------------------
  // Reading the CSV back
  // ---------------------------------------------------------------------

  /** Reads the rest of a quoted field (after its opening quote): `""` is a
      quote, a lone `"` closes the field. Gives the field and what follows
      the closing quote. */
  function ParseQuoted(s: string): (r: Option<(string, string)>)
    ensures r.Some? ==> |r.value.1| < |s|
    decreases |s|
  {
    if |s| == 0 then None
    else if s[0] == '"' then
      if |s| >= 2 && s[1] == '"' then
        match ParseQuoted(s[2..])
        case None => None
        case Some((f, rest)) => Some(("\"" + f, rest))
      else Some(("", s[1..]))
    else
      match ParseQuoted(s[1..])
      case None => None
      case Some((f, rest)) => Some(([s[0]] + f, rest))
  }

  /** Reads an unquoted field: everything up to the next `,` or line break. */
  function ParseUnquoted(s: string): (r: (string, string))
    ensures |r.1| <= |s|
    decreases |s|
  {
    if |s| == 0 || s[0] == ',' || s[0] == '\n' then ("", s)
    else
      var (f, rest) := ParseUnquoted(s[1..]);
      ([s[0]] + f, rest)
  }

  function ParseField(s: string): (r: Option<(string, string)>)
    ensures r.Some? ==> |r.value.1| <= |s|
  {
    if |s| > 0 && s[0] == '"' then ParseQuoted(s[1..]) else Some(ParseUnquoted(s))
  }

  /** Reads the fields of one record, up to a line break or the end. */
  function ParseRecord(s: string): (r: Option<(seq<string>, string)>)
    ensures r.Some? ==> |r.value.1| <= |s|
    decreases |s|
  {
    match ParseField(s)
    case None => None
    case Some((f, rest)) =>
      if |rest| > 0 && rest[0] == ',' then
        match ParseRecord(rest[1..])
        case None => None
        case Some((fs, after)) => Some(([f] + fs, after))
      else Some(([f], rest))
  }

  /** Reads a file of records, each ended by a line break. */
  function ParseFile(s: string): Option<seq<seq<string>>>
    decreases |s|
  {
    if |s| == 0 then Some([])
    else
      match ParseRecord(s)
      case None => None
      case Some((fields, rest)) =>
        if |rest| > 0 && rest[0] == '\n' then
          match ParseFile(rest[1..])
          case None => None
          case Some(records) => Some([fields] + records)
        else None
  }

  /** What can follow a field: nothing, a field separator or a line break. */
  predicate FieldEnd(rest: string)
  {
    |rest| == 0 || rest[0] == ',' || rest[0] == '\n'
  }

  lemma {:induction false} ParseQuotedDoubled(s: string, rest: string)
    requires |rest| == 0 || rest[0] != '"'
    ensures ParseQuoted(DoubleQuotes(s) + "\"" + rest) == Some((s, rest))
    decreases |s|
  {
    var input := DoubleQuotes(s) + "\"" + rest;
    if |s| == 0 {
      assert input == "\"" + rest;
      assert input[1..] == rest;
    } else {
      ParseQuotedDoubled(s[1..], rest);
      var tail := DoubleQuotes(s[1..]) + "\"" + rest;
      if s[0] == '"' {
        assert input == "\"\"" + tail;
        assert input[2..] == tail;
      } else {
        assert input == [s[0]] + tail;
        assert input[1..] == tail;
      }
      assert [s[0]] + s[1..] == s;
    }
  }

  lemma {:induction false} ParseUnquotedPlain(s: string, rest: string)
    requires forall i :: 0 <= i < |s| ==> !IsSpecial(s[i])
    requires FieldEnd(rest)
    ensures ParseUnquoted(s + rest) == (s, rest)
    decreases |s|
  {
    if |s| == 0 {
      assert s + rest == rest;
    } else {
      assert (s + rest)[1..] == s[1..] + rest;
      ParseUnquotedPlain(s[1..], rest);
      assert [s[0]] + s[1..] == s;
    }
  }

  /** An escaped value reads back as its text, whatever field or line follows. */
  lemma EscReadsBack(v: CsvValue, rest: string)
    requires FieldEnd(rest)
    ensures ParseField(Esc(v) + rest) == Some((TextOf(v), rest))
  {
    match v
    case Missing =>
      ParseUnquotedPlain("", rest);
      assert Esc(v) + rest == rest;
    case Text(s) =>
      if NeedsQuotes(s) {
        var input := Esc(v) + rest;
        assert input == "\"" + (DoubleQuotes(s) + "\"" + rest);
        assert input[1..] == DoubleQuotes(s) + "\"" + rest;
        ParseQuotedDoubled(s, rest);
      } else {
        ParseUnquotedPlain(s, rest);
      }
  }

  lemma LineCons(row: seq<CsvValue>)
    requires |row| >= 2
    ensures Line(row) == Esc(row[0]) + "," + Line(row[1..])
  {
    MapTail(row, Esc);
  }

  /** The record reader takes a field and, after a comma, the rest of the record. */
  lemma ParseRecordCons(s: string, f: string, after: string, fs: seq<string>, rest: string)
    requires ParseField(s) == Some((f, after))
    requires |after| > 0 && after[0] == ','
    requires ParseRecord(after[1..]) == Some((fs, rest))
    ensures ParseRecord(s) == Some(([f] + fs, rest))
  {
  }

  lemma SingleFieldReadsBack(row: seq<CsvValue>, rest: string)
    requires |row| == 1
    requires |rest| == 0 || rest[0] == '\n'
    ensures ParseRecord(Line(row) + rest) == Some((Map(row, TextOf), rest))
  {
    assert Line(row) == Esc(row[0]);
    EscReadsBack(row[0], rest);
    assert Map(row, TextOf) == [TextOf(row[0])];
  }

  /** A line of escaped values reads back as their texts. */
  lemma {:induction false} LineReadsBack(row: seq<CsvValue>, rest: string)
    requires |row| >= 1
    requires |rest| == 0 || rest[0] == '\n'
    ensures ParseRecord(Line(row) + rest) == Some((Map(row, TextOf), rest))
    decreases |row|
  {
    if |row| == 1 {
      SingleFieldReadsBack(row, rest);
    } else {
      LineReadsBack(row[1..], rest);
      ConsLineReadsBack(row, rest);
    }
  }

  /** A line of two or more values reads back when the line of all but its
      first value does. */
  lemma ConsLineReadsBack(row: seq<CsvValue>, rest: string)
    requires |row| >= 2
    requires |rest| == 0 || rest[0] == '\n'
    requires ParseRecord(Line(row[1..]) + rest) == Some((Map(row[1..], TextOf), rest))
    ensures ParseRecord(Line(row) + rest) == Some((Map(row, TextOf), rest))
  {
    var tail := row[1..];
    var after := "," + (Line(tail) + rest);
    LineSplit(row, rest);
    AfterSeparator(',', Line(tail) + rest);
    EscReadsBack(row[0], after);
    ParseRecordCons(Line(row) + rest, TextOf(row[0]), after, Map(tail, TextOf), rest);
    MapCons(row, TextOf);
  }

  /** A line of two or more values is the first escaped value, a comma, and
      the line of the others. */
  lemma LineSplit(row: seq<CsvValue>, rest: string)
    requires |row| >= 2
    ensures Line(row) + rest == Esc(row[0]) + ("," + (Line(row[1..]) + rest))
  {
    LineCons(row);
  }

  /** Dropping the separator in front of a string gives the string. */
  lemma AfterSeparator(c: char, x: string)
    ensures ([c] + x)[1..] == x
  {
  }

  /** The file reader takes a record and, after its line break, the rest of the file. */
  lemma ParseFileCons(s: string, fields: seq<string>, rest: string, records: seq<seq<string>>)
    requires |s| > 0
    requires ParseRecord(s) == Some((fields, rest))
    requires |rest| > 0 && rest[0] == '\n'
    requires ParseFile(rest[1..]) == Some(records)
    ensures ParseFile(s) == Some([fields] + records)
  {
  }

  function RowTexts(row: seq<CsvValue>): seq<string>
  {
    Map(row, TextOf)
  }

  /** Lines joined by line breaks, with a final line break, read back as
      the rows' texts. */
  lemma {:induction false} LinesReadBack(rows: seq<seq<CsvValue>>)
    requires |rows| > 0
    requires forall k :: 0 <= k < |rows| ==> |rows[k]| >= 1
    ensures ParseFile(Join(Map(rows, Line), "\n") + "\n") == Some(Map(rows, RowTexts))
    decreases |rows|
  {
    if |rows| == 1 {
      SingleLineFile(rows);
    } else {
      LinesReadBack(rows[1..]);
      ConsLinesReadBack(rows);
    }
  }

  lemma SingleLineFile(rows: seq<seq<CsvValue>>)
    requires |rows| == 1 && |rows[0]| >= 1
    ensures ParseFile(Join(Map(rows, Line), "\n") + "\n") == Some(Map(rows, RowTexts))
  {
    var s := Join(Map(rows, Line), "\n") + "\n";
    var rest := "\n";
    assert s == Line(rows[0]) + rest;
    assert ParseFile(rest[1..]) == Some([]);
    LineReadsBack(rows[0], rest);
    ParseFileCons(s, RowTexts(rows[0]), rest, []);
    MapCons(rows, RowTexts);
  }

  /** A file of two or more lines reads back when the file of all but its
      first line does. */
  lemma ConsLinesReadBack(rows: seq<seq<CsvValue>>)
    requires |rows| >= 2 && |rows[0]| >= 1
    requires ParseFile(Join(Map(rows[1..], Line), "\n") + "\n") == Some(Map(rows[1..], RowTexts))
    ensures ParseFile(Join(Map(rows, Line), "\n") + "\n") == Some(Map(rows, RowTexts))
  {
    var tail := rows[1..];
    var s := Join(Map(rows, Line), "\n") + "\n";
    var rest := "\n" + (Join(Map(tail, Line), "\n") + "\n");
    JoinLinesCons(rows);
    AfterSeparator('\n', Join(Map(tail, Line), "\n") + "\n");
    LineReadsBack(rows[0], rest);
    ParseFileCons(s, RowTexts(rows[0]), rest, Map(tail, RowTexts));
    MapCons(rows, RowTexts);
  }

  lemma JoinLinesCons(rows: seq<seq<CsvValue>>)
    requires |rows| >= 2
    ensures Join(Map(rows, Line), "\n") + "\n" == Line(rows[0]) + ("\n" + (Join(Map(rows[1..], Line), "\n") + "\n"))
  {
    MapTail(rows, Line);
  }

  /** Reading a written CSV gives back the header and every row's texts,
      with missing values as empty fields. A row needs at least one field:
      an empty row and a row of one empty field write the same line. */
  lemma CsvRoundTrip(header: seq<string>, rows: seq<seq<CsvValue>>)
    requires |header| >= 1
    requires forall k :: 0 <= k < |rows| ==> |rows[k]| >= 1
    ensures ParseFile(WriteCsv(header, rows)) == Some([header] + Map(rows, RowTexts))
  {
    var headerRow := Map(header, s => Text(s));
    var all := [headerRow] + rows;
    assert all[0] == headerRow;
    assert forall k :: 1 <= k < |all| ==> all[k] == rows[k - 1];
    LinesReadBack(all);
    var texts := Map(all, RowTexts);
    assert texts[0] == header;
    assert texts[1..] == Map(rows, RowTexts);
    assert texts == [header] + texts[1..];
  }

  // ---------------------------------------------------------------------
  // num, PHARMACY_ID
  // ---------------------------------------------------------------------

  /** A JavaScript number after `Number(v)`. */
  datatype JsNum = Finite(x: real) | NaN | PositiveInfinity | NegativeInfinity

  /** `num(v)`; `None` in and out is `null` (or `undefined` in). Converting a
      string with `Number` is not part of this model, so the input is the
      number it already converted to. */
  function Num(v: Option<JsNum>): (r: Option<real>)
    ensures r.Some? <==> v.Some? && v.value.Finite?
    ensures r.Some? ==> v.value == Finite(r.value)
  {
    match v
    case Some(Finite(x)) => Some(x)
    case _ => None
  }

  /** `/^[0-9a-f-]{36}$/i` */
  predicate IsIdChar(c: char)
  {
    IsAsciiDigit(c) || ('a' <= c <= 'f') || ('A' <= c <= 'F') || c == '-'
  }

  predicate IsPharmacyId(s: string)
  {
    |s| == 36 && forall i :: 0 <= i < |s| ==> IsIdChar(s[i])
  }

  /** `PHARMACY_ID`: the environment's value when it is set and has the
      shape of an id; otherwise the freshly generated one. */
  function ChoosePharmacyId(env: Option<string>, generated: string): (r: string)
    ensures env.Some? && IsPharmacyId(env.value) ==> r == env.value
    ensures env.None? || !IsPharmacyId(env.value) ==> r == generated
  {
    if env.Some? && env.value != "" && IsPharmacyId(env.value) then env.value else generated
  }

  /** A configured id is kept exactly when it has the shape of an id. */
  lemma ConfiguredIdKeptIff(env: string, generated: string)
    requires env != generated
    ensures ChoosePharmacyId(Some(env), generated) == env <==> IsPharmacyId(env)
  {
  }

  // ---------------------------------------------------------------------
  // Chunked upserts
  // ---------------------------------------------------------------------

  const ChunkSize: nat := 1000

  /** The chunks of the upload loop: `rows.slice(i, i + 1000)` for
      `i = 0, 1000, 2000, ...` while `i < rows.length`. */
  method UpsertChunks<T>(rows: seq<T>) returns (chunks: seq<seq<T>>)
    ensures chunks == Chunks(rows, ChunkSize)
  {
    chunks := [];
    var i := 0;
    while i < |rows|
      invariant 0 <= i <= |rows|
      invariant chunks + Chunks(rows[i..], ChunkSize) == Chunks(rows, ChunkSize)
      decreases |rows| - i
    {
      var end := if i + ChunkSize <= |rows| then i + ChunkSize else |rows|;
      var chunk := rows[i..end];
      assert (chunks + [chunk]) + Chunks(rows[end..], ChunkSize) == Chunks(rows, ChunkSize) by {
        ChunksAt(rows, i, end, ChunkSize);
        assert (chunks + [chunk]) + Chunks(rows[end..], ChunkSize) == chunks + ([chunk] + Chunks(rows[end..], ChunkSize));
      }
      chunks := chunks + [chunk];
      i := end;
    }
    assert rows[i..] == [];
  }

  lemma ChunksAt<T>(rows: seq<T>, i: nat, end: nat, n: nat)
    requires n > 0 && i < |rows|
    requires end == if i + n <= |rows| then i + n else |rows|
    ensures Chunks(rows[i..], n) == [rows[i..end]] + Chunks(rows[end..], n)
  {
    ChunksStep(rows[i..], n);
    assert rows[i..][..end - i] == rows[i..end];
    assert rows[i..][end - i..] == rows[end..];
  }

  /** One step of the chunking: a non-empty input's chunks are its first
      slice followed by the chunks of the rest. */
  lemma ChunksStep<T>(s: seq<T>, n: nat)
    requires n > 0 && |s| > 0
    ensures var k := if n <= |s| then n else |s|;
      Chunks(s, n) == [s[..k]] + Chunks(s[k..], n)
  {
    if |s| <= n {
      assert s[|s|..] == [];
      assert s[..|s|] == s;
    }
  }

  /** No row after position `i` has the key of row `i`. */
  predicate LastWithKey<K(==), V>(rows: seq<V>, i: int, key: V -> K)
    requires 0 <= i < |rows|
  {
    forall j :: i < j < |rows| ==> key(rows[j]) != key(rows[i])
  }

  /** A table keyed on `key`: upserting a row replaces the one with the same
      key, so each upserted key ends up holding the last row with that key,
      and every other key keeps its row. */
  function UpsertAll<K, V>(table: map<K, V>, rows: seq<V>, key: V -> K): (r: map<K, V>)
    ensures r.Keys == table.Keys + set i | 0 <= i < |rows| :: key(rows[i])
    ensures forall i :: 0 <= i < |rows| && LastWithKey(rows, i, key) ==> r[key(rows[i])] == rows[i]
    ensures forall k :: k in table && (forall i :: 0 <= i < |rows| ==> key(rows[i]) != k) ==> r[k] == table[k]
    decreases |rows|
  {
    if |rows| == 0 then table
    else
      var r := UpsertAll(table[key(rows[0]) := rows[0]], rows[1..], key);
      UpsertStepKeys(table, rows, key, r);
      UpsertStepLast(table, rows, key, r);
      UpsertStepUntouched(table, rows, key, r);
      r
  }

  /** The keys after upserting a non-empty sequence, from those after its tail. */
  lemma UpsertStepKeys<K, V>(table: map<K, V>, rows: seq<V>, key: V -> K, r: map<K, V>)
    requires |rows| > 0
    requires r.Keys == table[key(rows[0]) := rows[0]].Keys + set i | 0 <= i < |rows[1..]| :: key(rows[1..][i])
    ensures r.Keys == table.Keys + set i | 0 <= i < |rows| :: key(rows[i])
  {
    assert forall i :: 1 <= i < |rows| ==> rows[i] == rows[1..][i - 1];
  }

  /** The last row with each key wins, from the same fact about the tail. */
  lemma UpsertStepLast<K, V>(table: map<K, V>, rows: seq<V>, key: V -> K, r: map<K, V>)
    requires |rows| > 0
    requires r.Keys == table[key(rows[0]) := rows[0]].Keys + set i | 0 <= i < |rows[1..]| :: key(rows[1..][i])
    requires forall i :: 0 <= i < |rows[1..]| && LastWithKey(rows[1..], i, key) ==> r[key(rows[1..][i])] == rows[1..][i]
    requires forall k :: k in table[key(rows[0]) := rows[0]] && (forall i :: 0 <= i < |rows[1..]| ==> key(rows[1..][i]) != k) ==>
      r[k] == table[key(rows[0]) := rows[0]][k]
    ensures forall i :: 0 <= i < |rows| && LastWithKey(rows, i, key) ==> r[key(rows[i])] == rows[i]
  {
    forall i | 0 <= i < |rows| && LastWithKey(rows, i, key)
      ensures r[key(rows[i])] == rows[i]
    {
      if i == 0 {
        assert forall j :: 0 <= j < |rows[1..]| ==> key(rows[1..][j]) != key(rows[0]) by {
          forall j | 0 <= j < |rows[1..]|
            ensures key(rows[1..][j]) != key(rows[0])
          {
            assert rows[1..][j] == rows[j + 1];
          }
        }
      } else {
        assert rows[1..][i - 1] == rows[i];
        assert LastWithKey(rows[1..], i - 1, key) by {
          forall j | i - 1 < j < |rows[1..]|
            ensures key(rows[1..][j]) != key(rows[1..][i - 1])
          {
            assert rows[1..][j] == rows[j + 1];
          }
        }
      }
    }
  }

  /** Keys no row mentions keep their rows, from the same fact about the tail. */
  lemma UpsertStepUntouched<K, V>(table: map<K, V>, rows: seq<V>, key: V -> K, r: map<K, V>)
    requires |rows| > 0
    requires table[key(rows[0]) := rows[0]].Keys <= r.Keys
    requires forall k :: k in table[key(rows[0]) := rows[0]] && (forall i :: 0 <= i < |rows[1..]| ==> key(rows[1..][i]) != k) ==>
      r[k] == table[key(rows[0]) := rows[0]][k]
    ensures forall k :: k in table && (forall i :: 0 <= i < |rows| ==> key(rows[i]) != k) ==> r[k] == table[k]
  {
    forall k | k in table && (forall i :: 0 <= i < |rows| ==> key(rows[i]) != k)
      ensures r[k] == table[k]
    {
      assert key(rows[0]) != k;
      assert forall i :: 0 <= i < |rows[1..]| ==> key(rows[1..][i]) != k by {
        forall i | 0 <= i < |rows[1..]|
          ensures key(rows[1..][i]) != k
        {
          assert rows[1..][i] == rows[i + 1];
        }
      }
    }
  }

  lemma {:induction false} UpsertAllConcat<K, V>(table: map<K, V>, a: seq<V>, b: seq<V>, key: V -> K)
    ensures UpsertAll(table, a + b, key) == UpsertAll(UpsertAll(table, a, key), b, key)
    decreases |a|
  {
    if |a| == 0 {
      assert a + b == b;
    } else {
      assert (a + b)[0] == a[0];
      assert (a + b)[1..] == a[1..] + b;
      UpsertAllConcat(table[key(a[0]) := a[0]], a[1..], b, key);
    }
  }

  /** Upserting chunk by chunk leaves the table as one upsert of all rows
      would. */
  lemma {:induction false} ChunkedUpsertIsWhole<K, V>(table: map<K, V>, chunks: seq<seq<V>>, key: V -> K)
    ensures UpsertChunked(table, chunks, key) == UpsertAll(table, Flatten(chunks), key)
    decreases |chunks|
  {
    if |chunks| > 0 {
      UpsertAllConcat(table, chunks[0], Flatten(chunks[1..]), key);
      ChunkedUpsertIsWhole(UpsertAll(table, chunks[0], key), chunks[1..], key);
    }
  }

  /** One upsert call per chunk, in order. */
  function UpsertChunked<K, V>(table: map<K, V>, chunks: seq<seq<V>>, key: V -> K): map<K, V>
    decreases |chunks|
  {
    if |chunks| == 0 then table
    else UpsertChunked(UpsertAll(table, chunks[0], key), chunks[1..], key)
  }

  /** The upload of one table: every chunk upserted in turn, ending where a
      single upsert of the rows would. */
  method UploadTable<K, V>(table: map<K, V>, rows: seq<V>, key: V -> K) returns (result: map<K, V>)
    ensures result == UpsertAll(table, rows, key)
  {
    var chunks := UpsertChunks(rows);
    result := table;
    var k := 0;
    while k < |chunks|
      invariant 0 <= k <= |chunks|
      invariant UpsertChunked(result, chunks[k..], key) == UpsertChunked(table, chunks, key)
      decreases |chunks| - k
    {
      assert UpsertChunked(UpsertAll(result, chunks[k], key), chunks[k + 1..], key) == UpsertChunked(table, chunks, key) by {
        assert chunks[k..][1..] == chunks[k + 1..];
      }
      result := UpsertAll(result, chunks[k], key);
      k := k + 1;
    }
    ChunkedUpsertIsWhole(table, chunks, key);
    ChunksCover(rows, ChunkSize);
  }
}
