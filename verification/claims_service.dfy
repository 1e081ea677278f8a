/** The browser-side claims service: the query strings it sends to the list
    and KPI routes, and the coercion of the list route's JSON reply into
    client rows. */
module ClaimsService {
  import opened Wrappers
  import opened JsNumber
  import opened Seqs
  import opened Text
  import opened ClaimEval
  import opened UserDataRoute

  /** Parameters of `getClaims`; `getKpis` takes the same minus paging and sorting. */
  datatype ClaimsParams = ClaimsParams(
    dateFrom: Option<string>, dateTo: Option<string>,
    script: Option<string>, ndc: Option<string>, drug: Option<string>,
    bin: Option<string>, status: Option<string>,
    owedType: Option<string>, basisParam: Option<string>, pbm: Option<string>,
    sortKey: Option<string>, sortDir: Option<string>,
    page: Option<int>, limit: Option<int>)

  // ---------------------------------------------------------------------
  // application/x-www-form-urlencoded serialisation (URLSearchParams)
  // ---------------------------------------------------------------------

  /** Characters the form serialiser leaves as they are. */
  predicate FormSafe(c: char)
  {
    IsAsciiAlnum(c) || c == '*' || c == '-' || c == '.' || c == '_'
  }

  function HexDigit(n: int): (c: char)
    requires 0 <= n < 16
    ensures IsAsciiAlnum(c)
  {
    if n < 10 then ('0' as int + n) as char else ('A' as int + n - 10) as char
  }

  predicate IsHexDigit(c: char)
  {
    IsAsciiDigit(c) || 'A' <= c <= 'F'
  }

  function HexValue(c: char): (n: int)
    requires IsHexDigit(c)
    ensures 0 <= n < 16
  {
    if IsAsciiDigit(c) then c as int - '0' as int else c as int - 'A' as int + 10
  }

  lemma HexRoundTrip(n: int)
    requires 0 <= n < 16
    ensures IsHexDigit(HexDigit(n)) && HexValue(HexDigit(n)) == n
  {
  }

  /** The UTF-8 encoding of one code point. */
  function Utf8(c: char): (bs: seq<int>)
    ensures 1 <= |bs| <= 4
    ensures forall i :: 0 <= i < |bs| ==> 0 <= bs[i] < 256
    ensures |bs| == 1 <==> c as int < 128
    ensures |bs| == 1 ==> bs[0] == c as int
  {
    var cp := c as int;
    if cp < 0x80 then [cp]
    else if cp < 0x800 then [0xC0 + cp / 64, 0x80 + cp % 64]
    else if cp < 0x10000 then [0xE0 + cp / 4096, 0x80 + (cp / 64) % 64, 0x80 + cp % 64]
    else [0xF0 + cp / 262144, 0x80 + (cp / 4096) % 64, 0x80 + (cp / 64) % 64, 0x80 + cp % 64]
  }

  /** `%XX` with upper-case hex digits for each byte. */
  function PercentBytes(bs: seq<int>): (r: string)
    requires forall i :: 0 <= i < |bs| ==> 0 <= bs[i] < 256
    ensures |r| == 3 * |bs|
    ensures forall i :: 0 <= i < |r| ==> FormSafe(r[i]) || r[i] == '%'
  {
    if |bs| == 0 then ""
    else ['%', HexDigit(bs[0] / 16), HexDigit(bs[0] % 16)] + PercentBytes(bs[1..])
  }

  function EncodeChar(c: char): (r: string)
    ensures |r| >= 1
    ensures forall i :: 0 <= i < |r| ==> FormSafe(r[i]) || r[i] == '+' || r[i] == '%'
  {
    if FormSafe(c) then [c]
    else if c == ' ' then "+"
    else PercentBytes(Utf8(c))
  }

  /** The form serialiser's byte encoding of a name or value. Its output
      never holds `&` or `=`, so pairs and names stay separable. */
  function FormEncode(s: string): (r: string)
    ensures forall i :: 0 <= i < |r| ==> FormSafe(r[i]) || r[i] == '+' || r[i] == '%'
  {
    if |s| == 0 then "" else EncodeChar(s[0]) + FormEncode(s[1..])
  }

  /** The form parser's decoding, for input that encodes ASCII text: `+` is a
      space and `%XX` a byte. */
  function FormDecodeAscii(s: string): string
    decreases |s|
  {
    if |s| == 0 then ""
    else if s[0] == '+' then " " + FormDecodeAscii(s[1..])
    else if s[0] == '%' && |s| >= 3 && IsHexDigit(s[1]) && IsHexDigit(s[2]) then
      [(HexValue(s[1]) * 16 + HexValue(s[2])) as char] + FormDecodeAscii(s[3..])
    else [s[0]] + FormDecodeAscii(s[1..])
  }

  lemma DecodeEncodedChar(c: char, rest: string)
    requires c as int < 128
    ensures FormDecodeAscii(EncodeChar(c) + rest) == [c] + FormDecodeAscii(rest)
  {
    if !FormSafe(c) && c != ' ' {
      var n := c as int;
      HexRoundTrip(n / 16);
      HexRoundTrip(n % 16);
      var e := EncodeChar(c) + rest;
      assert e == ['%', HexDigit(n / 16), HexDigit(n % 16)] + rest;
      assert e[3..] == rest;
    } else if FormSafe(c) {
      assert (EncodeChar(c) + rest)[1..] == rest;
    } else {
      assert (EncodeChar(c) + rest)[1..] == rest;
    }
  }

  /** Encoding then decoding gives back any ASCII text. */
  lemma {:induction false} FormRoundTrip(s: string)
    requires forall i :: 0 <= i < |s| ==> s[i] as int < 128
    ensures FormDecodeAscii(FormEncode(s)) == s
    decreases |s|
  {
    if |s| > 0 {
      FormRoundTrip(s[1..]);
      DecodeEncodedChar(s[0], FormEncode(s[1..]));
    }
  }

  function EncodePair(p: (string, string)): string
  {
    FormEncode(p.0) + "=" + FormEncode(p.1)
  }

  /** `URLSearchParams.toString()`. */
  function Serialize(pairs: seq<(string, string)>): (r: string)
    ensures |pairs| == 0 <==> r == ""
  {
    if |pairs| == 0 then "" else Join(Map(pairs, EncodePair), "&")
  }

  /** `new URLSearchParams(s)` for text that encodes ASCII names and values. */
  function ParseQuery(s: string): seq<(string, string)>
  {
    if s == "" then [] else Map(Split(s, '&'), ParsePair)
  }

  /** One `name=value` piece: the name runs to the first `=`. */
  function ParsePair(part: string): (string, string)
  {
    var pieces := Split(part, '=');
    (FormDecodeAscii(pieces[0]), FormDecodeAscii(Join(pieces[1..], "=")))
  }

  predicate AsciiText(s: string)
  {
    forall i :: 0 <= i < |s| ==> s[i] as int < 128
  }

  predicate AsciiPairs(pairs: seq<(string, string)>)
  {
    forall k :: 0 <= k < |pairs| ==> AsciiText(pairs[k].0) && AsciiText(pairs[k].1)
  }

  lemma JoinLength(parts: seq<string>, sep: string)
    requires |parts| >= 1
    ensures |Join(parts, sep)| >= |parts[0]|
  {
  }

  lemma {:induction false} JoinHasNo(parts: seq<string>, sep: string, c: char)
    requires forall i :: 0 <= i < |sep| ==> sep[i] != c
    requires forall k, i :: 0 <= k < |parts| && 0 <= i < |parts[k]| ==> parts[k][i] != c
    ensures forall i :: 0 <= i < |Join(parts, sep)| ==> Join(parts, sep)[i] != c
    decreases |parts|
  {
    if |parts| > 1 {
      JoinHasNo(parts[1..], sep, c);
    }
  }

  lemma EncodePairShape(p: (string, string))
    ensures forall i :: 0 <= i < |EncodePair(p)| ==> EncodePair(p)[i] != '&'
    ensures Split(EncodePair(p), '=') == [FormEncode(p.0), FormEncode(p.1)]
  {
    var n := FormEncode(p.0);
    var v := FormEncode(p.1);
    assert EncodePair(p) == n + ['='] + v;
    SplitPrefix(n, v, '=');
    SplitNone(v, '=');
  }

  lemma ParseEncodedPair(p: (string, string))
    requires AsciiText(p.0) && AsciiText(p.1)
    ensures ParsePair(EncodePair(p)) == p
  {
    EncodePairShape(p);
    FormRoundTrip(p.0);
    FormRoundTrip(p.1);
  }

  /** Parsing a serialised ASCII parameter list gives back the list. */
  lemma SerializeRoundTrip(pairs: seq<(string, string)>)
    requires AsciiPairs(pairs)
    ensures ParseQuery(Serialize(pairs)) == pairs
  {
    if |pairs| > 0 {
      var parts := Map(pairs, EncodePair);
      forall k | 0 <= k < |parts|
        ensures forall i :: 0 <= i < |parts[k]| ==> parts[k][i] != '&'
        ensures ParsePair(parts[k]) == pairs[k]
      {
        EncodePairShape(pairs[k]);
        ParseEncodedPair(pairs[k]);
      }
      SplitJoin(parts, '&');
      assert Split(Serialize(pairs), '&') == parts;
    }
  }

  // ---------------------------------------------------------------------
  // Query construction
  // ---------------------------------------------------------------------

  /** One parameter, emitted only when its value is truthy. */
  function TextParam(name: string, value: Option<string>): seq<(string, string)>
  {
    if Truthy(value) then [(name, value.value)] else []
  }

  /** A numeric parameter is set only when non-zero, as `String(n)`. */
  function NumberText(value: Option<int>): (r: Option<string>)
    ensures Truthy(r) <==> value.Some? && value.value != 0
  {
    if value.Some? && value.value != 0 then Some(IntToString(value.value)) else None
  }

  /** The pairs set from named slots, in order, skipping falsy values. */
  function Emit(slots: seq<(string, Option<string>)>): seq<(string, string)>
  {
    if |slots| == 0 then [] else TextParam(slots[0].0, slots[0].1) + Emit(slots[1..])
  }

  lemma {:induction false} EmitConcat(a: seq<(string, Option<string>)>, b: seq<(string, Option<string>)>)
    ensures Emit(a + b) == Emit(a) + Emit(b)
    decreases |a|
  {
    if |a| == 0 {
      assert a + b == b;
    } else {
      assert (a + b)[0] == a[0];
      assert (a + b)[1..] == a[1..] + b;
      EmitConcat(a[1..], b);
    }
  }

  /** The filter slots both queries share, in the order they are set;
      `owedType=all` is never sent. */
  function FilterSlots(p: ClaimsParams): seq<(string, Option<string>)>
  {
    [("dateFrom", p.dateFrom), ("dateTo", p.dateTo), ("script", p.script), ("ndc", p.ndc),
     ("drug", p.drug), ("bin", p.bin), ("status", p.status),
     ("owedType", if p.owedType == Some("all") then None else p.owedType),
     ("method", p.basisParam), ("pbm", p.pbm)]
  }

  function PagingSlots(p: ClaimsParams): seq<(string, Option<string>)>
  {
    [("sortKey", p.sortKey), ("sortDir", p.sortDir), ("page", NumberText(p.page)), ("limit", NumberText(p.limit))]
  }

  /** The parameters `buildQuery` sets. */
  function ClaimsPairs(p: ClaimsParams): seq<(string, string)>
  {
    Emit(FilterSlots(p) + PagingSlots(p))
  }

  /** `buildQuery`: "" when nothing is set, else "?" and the encoded pairs. */
  function BuildQuery(p: ClaimsParams): (r: string)
    ensures r == "" <==> |ClaimsPairs(p)| == 0
    ensures r != "" ==> r[0] == '?'
  {
    var s := Serialize(ClaimsPairs(p));
    if s == "" then "" else "?" + s
  }

  /** The route parsing the query sees exactly the parameters that were set
      (for ASCII names and values). */
  lemma BuildQueryParses(p: ClaimsParams)
    requires AsciiPairs(ClaimsPairs(p))
    ensures BuildQuery(p) == "" || ParseQuery(BuildQuery(p)[1..]) == ClaimsPairs(p)
  {
    SerializeRoundTrip(ClaimsPairs(p));
  }

  /** The query string `getKpis` builds, from its own list of parameters. */
  function KpisQuery(p: ClaimsParams): (r: string)
    ensures r == "" <==> |Emit(FilterSlots(p))| == 0
  {
    var s := Serialize(Emit(FilterSlots(p)));
    if s == "" then "" else "?" + s
  }

  /** The KPI query is the list query with paging and sorting cleared. */
  lemma KpisQueryDropsPaging(p: ClaimsParams)
    ensures KpisQuery(p) == BuildQuery(p.(sortKey := None, sortDir := None, page := None, limit := None))
  {
    var p' := p.(sortKey := None, sortDir := None, page := None, limit := None);
    EmitConcat(FilterSlots(p'), PagingSlots(p'));
    EmitNothing(PagingSlots(p'));
    assert FilterSlots(p') == FilterSlots(p);
    assert ClaimsPairs(p') == Emit(FilterSlots(p));
  }

  /** The first value given for `name` (`URLSearchParams.get`). */
  function Lookup(pairs: seq<(string, string)>, name: string): Option<string>
  {
    if |pairs| == 0 then None
    else if pairs[0].0 == name then Some(pairs[0].1)
    else Lookup(pairs[1..], name)
  }

  lemma {:induction false} LookupConcat(a: seq<(string, string)>, b: seq<(string, string)>, name: string)
    ensures Lookup(a + b, name) == if Lookup(a, name).Some? then Lookup(a, name) else Lookup(b, name)
    decreases |a|
  {
    if |a| == 0 {
      assert a + b == b;
    } else {
      assert (a + b)[0] == a[0];
      assert (a + b)[1..] == a[1..] + b;
      LookupConcat(a[1..], b, name);
    }
  }

  /** Slots whose values are all falsy set nothing. */
  lemma {:induction false} EmitNothing(slots: seq<(string, Option<string>)>)
    requires forall k :: 0 <= k < |slots| ==> !Truthy(slots[k].1)
    ensures Emit(slots) == []
    decreases |slots|
  {
    if |slots| > 0 {
      EmitNothing(slots[1..]);
    }
  }

  predicate DistinctNames(slots: seq<(string, Option<string>)>)
  {
    forall a, b :: 0 <= a < b < |slots| ==> slots[a].0 != slots[b].0
  }

  lemma {:induction false} EmitLookupAbsent(slots: seq<(string, Option<string>)>, name: string)
    requires forall k :: 0 <= k < |slots| ==> slots[k].0 != name
    ensures Lookup(Emit(slots), name) == None
    decreases |slots|
  {
    if |slots| > 0 {
      EmitLookupAbsent(slots[1..], name);
      LookupConcat(TextParam(slots[0].0, slots[0].1), Emit(slots[1..]), name);
    }
  }

  /** Each named slot reads back as its value when truthy and as absent otherwise. */
  lemma {:induction false} EmitLookup(slots: seq<(string, Option<string>)>, j: nat)
    requires DistinctNames(slots) && j < |slots|
    ensures Lookup(Emit(slots), slots[j].0) == if Truthy(slots[j].1) then slots[j].1 else None
    decreases |slots|
  {
    LookupConcat(TextParam(slots[0].0, slots[0].1), Emit(slots[1..]), slots[j].0);
    if j == 0 {
      if !Truthy(slots[0].1) {
        EmitLookupAbsent(slots[1..], slots[0].0);
      }
    } else {
      EmitLookup(slots[1..], j - 1);
    }
  }

  /** What the list route reads from the query: every parameter that was
      set, and nothing else; `owedType=all` reads as absent. The KPI query
      carries no paging or sorting parameter. */
  lemma QueryParameters(p: ClaimsParams)
    ensures forall j :: 0 <= j < |FilterSlots(p) + PagingSlots(p)| ==>
      var slot := (FilterSlots(p) + PagingSlots(p))[j];
      Lookup(ClaimsPairs(p), slot.0) == if Truthy(slot.1) then slot.1 else None
    ensures Lookup(ClaimsPairs(p), "owedType") == if Truthy(p.owedType) && p.owedType != Some("all") then p.owedType else None
    ensures forall name :: name in ["page", "limit", "sortKey", "sortDir"] ==> Lookup(Emit(FilterSlots(p)), name) == None
  {
    var slots := FilterSlots(p) + PagingSlots(p);
    assert DistinctNames(slots);
    forall j | 0 <= j < |slots|
      ensures Lookup(ClaimsPairs(p), slots[j].0) == if Truthy(slots[j].1) then slots[j].1 else None
    {
      EmitLookup(slots, j);
    }
    assert slots[7].0 == "owedType";
    forall name | name in ["page", "limit", "sortKey", "sortDir"]
      ensures Lookup(Emit(FilterSlots(p)), name) == None
    {
      EmitLookupAbsent(FilterSlots(p), name);
    }
  }

  // ---------------------------------------------------------------------
  // The list route's JSON reply and its coercion into client rows
  // ---------------------------------------------------------------------

  /** A JSON value in a numeric position of a reply. */
  datatype WireNumber = Absent | Null | JsonNum(v: real) | JsonText(text: string)

  /** A row of the reply as JSON; `None` strings are absent or null. */
  datatype WireRow = WireRow(
    script: string, date: Option<string>, ndc: Option<string>, drugName: Option<string>,
    qty: WireNumber, aac: WireNumber, wac: WireNumber, methodLabel: Option<string>,
    expected: WireNumber, paid: WireNumber, newPaid: WireNumber, owed: WireNumber,
    bin: Option<string>, pbmName: Option<string>, report: Option<string>,
    status: Option<string>, pdfUrl: Option<string>)

  /** The client's row (`AdminRow`); `None` numbers are undefined or null. */
  datatype ClientRow = ClientRow(
    script: string, date: Option<string>, ndc: string, drugName: string,
    qty: real, aac: Option<real>, wac: Option<real>, methodLabel: string,
    expected: Option<real>, paid: real, newPaid: Option<real>, owed: Option<real>,
    bin: Option<string>, pbmName: Option<string>, report: Option<string>,
    status: Option<string>, pdfUrl: Option<string>)

  /** `Number(x ?? default)`; `numberOf` is `Number` on text. */
  function NumberOr(c: WireNumber, default: real, numberOf: string -> real): (r: real)
    ensures c.JsonNum? ==> r == c.v
    ensures c.Absent? || c.Null? ==> r == default
    ensures c.JsonText? ==> r == numberOf(c.text)
  {
    match c
    case Absent => default
    case Null => default
    case JsonNum(v) => v
    case JsonText(t) => numberOf(t)
  }

  /** `x != null ? Number(x) : undefined` */
  function OptionalNumber(c: WireNumber, numberOf: string -> real): (r: Option<real>)
    ensures r.None? <==> c.Absent? || c.Null?
    ensures c.JsonNum? ==> r == Some(c.v)
    ensures c.JsonText? ==> r == Some(numberOf(c.text))
  {
    match c
    case Absent => None
    case Null => None
    case JsonNum(v) => Some(v)
    case JsonText(t) => Some(numberOf(t))
  }

  /** The row mapping of `getClaims`. */
  function CoerceRow(w: WireRow, numberOf: string -> real): (c: ClientRow)
    ensures c.methodLabel != ""
    ensures w.methodLabel.Some? && w.methodLabel.value != "" ==> c.methodLabel == w.methodLabel.value
    ensures w.qty.Absent? || w.qty.Null? ==> c.qty == 0.0
    ensures w.paid.Absent? || w.paid.Null? ==> c.paid == 0.0
    ensures c.newPaid.None? <==> w.newPaid.Absent? || w.newPaid.Null?
    ensures c.expected.None? <==> w.expected.Absent? || w.expected.Null?
    ensures c.owed.None? <==> w.owed.Absent? || w.owed.Null?
  {
    ClientRow(
      w.script, w.date, w.ndc.GetOr(""), w.drugName.GetOr(""),
      NumberOr(w.qty, 0.0, numberOf), OptionalNumber(w.aac, numberOf), OptionalNumber(w.wac, numberOf),
      if Truthy(w.methodLabel) then w.methodLabel.value else "Other",
      OptionalNumber(w.expected, numberOf), NumberOr(w.paid, 0.0, numberOf),
      OptionalNumber(w.newPaid, numberOf), OptionalNumber(w.owed, numberOf),
      w.bin, w.pbmName, w.report, w.status, w.pdfUrl)
  }

  /** `JSON.stringify` of an optional number: undefined drops the key, NaN
      becomes null. */
  function NumberToWire(n: Option<Number>): WireNumber
  {
    match n
    case None => Absent
    case Some(NaN) => Null
    case Some(Num(v)) => JsonNum(v)
  }

  /** The finite part of an optional number. */
  function FiniteOf(n: Option<Number>): Option<real>
  {
    if n.Some? && n.value.Num? then Some(n.value.val) else None
  }

  /** An enriched row as the list route serialises it. */
  function ToWire(e: ListRow): WireRow
  {
    WireRow(
      e.script, e.date, Some(e.ndc), Some(e.drugName),
      JsonNum(e.qty), NumberToWire(e.aac), NumberToWire(e.wac), Some(MethodName(e.basis)),
      NumberToWire(e.expected), JsonNum(e.paid),
      if e.newPaid.Some? then JsonNum(e.newPaid.value) else Null,
      NumberToWire(e.owed), e.bin, Some(e.pbmName), None, e.status, e.pdfUrl)
  }

  /** What the client sees of a server row: every field arrives, except that
      a NaN price, expected or owed amount arrives as undefined, so the
      client takes a NaN-priced row for an unpriced one. */
  lemma WireRoundTrip(e: ListRow, numberOf: string -> real)
    ensures var c := CoerceRow(ToWire(e), numberOf);
      && c.script == e.script && c.date == e.date && c.ndc == e.ndc && c.drugName == e.drugName
      && c.qty == e.qty && c.paid == e.paid && c.newPaid == e.newPaid
      && c.methodLabel == MethodName(e.basis) && c.pbmName == Some(e.pbmName)
      && c.aac == FiniteOf(e.aac) && c.wac == FiniteOf(e.wac)
      && c.expected == FiniteOf(e.expected) && c.owed == FiniteOf(e.owed)
      && c.bin == e.bin && c.status == e.status && c.pdfUrl == e.pdfUrl && c.report == None
  {
  }

  /** The service's example: text numbers are converted, a null WAC and a
      null new payment stay empty. */
  lemma CoerceRowExample(numberOf: string -> real)
    requires numberOf("2") == 2.0 && numberOf("3.0") == 3.0 && numberOf("1.0") == 1.0 && numberOf("2.0") == 2.0
    ensures var c := CoerceRow(WireRow("S1", Some("2025-01-10"), Some("0000-1111"), Some("Drug A"),
                                       JsonText("2"), JsonNum(1.5), Null, Some("AAC"),
                                       JsonText("3.0"), JsonText("1.0"), Null, JsonText("2.0"),
                                       Some("123456"), Some("Express Scripts"), None, Some("emailed PBM"), None),
                               numberOf);
      && c.qty == 2.0 && c.expected == Some(3.0) && c.paid == 1.0 && c.owed == Some(2.0)
      && c.methodLabel == "AAC" && c.wac == None && c.newPaid == None && c.aac == Some(1.5)
  {
  }

  datatype WireResponse = WireResponse(rows: Option<seq<WireRow>>, total: WireNumber,
                                       totalAfterDerivedFilters: WireNumber, page: WireNumber, limit: WireNumber)

  datatype ClientResponse = ClientResponse(rows: seq<ClientRow>, total: real,
                                           totalAfterDerivedFilters: Option<real>, page: real, limit: real)

  /** The response mapping of `getClaims`: missing rows are none, and the
      total, page and limit default to 0, 1 and 25. */
  function CoerceResponse(w: WireResponse, numberOf: string -> real): (c: ClientResponse)
    ensures w.rows.None? ==> c.rows == []
    ensures w.rows.Some? ==> |c.rows| == |w.rows.value|
    ensures w.total.Absent? || w.total.Null? ==> c.total == 0.0
    ensures w.page.Absent? || w.page.Null? ==> c.page == 1.0
    ensures w.limit.Absent? || w.limit.Null? ==> c.limit == DefaultLimit as real
    ensures w.rows.Some? ==> forall i :: 0 <= i < |c.rows| ==> c.rows[i] == CoerceRow(w.rows.value[i], numberOf)
    ensures w.total.JsonNum? ==> c.total == w.total.v
    ensures w.total.JsonText? ==> c.total == numberOf(w.total.text)
    ensures w.page.JsonNum? ==> c.page == w.page.v
    ensures w.page.JsonText? ==> c.page == numberOf(w.page.text)
    ensures w.limit.JsonNum? ==> c.limit == w.limit.v
    ensures w.limit.JsonText? ==> c.limit == numberOf(w.limit.text)
    ensures c.totalAfterDerivedFilters.None? <==> w.totalAfterDerivedFilters.Absent? || w.totalAfterDerivedFilters.Null?
    ensures w.totalAfterDerivedFilters.JsonNum? ==> c.totalAfterDerivedFilters == Some(w.totalAfterDerivedFilters.v)
    ensures w.totalAfterDerivedFilters.JsonText? ==>
      c.totalAfterDerivedFilters == Some(numberOf(w.totalAfterDerivedFilters.text))
  {
    ClientResponse(
      if w.rows.Some? then Map(w.rows.value, (r: WireRow) => CoerceRow(r, numberOf)) else [],
      NumberOr(w.total, 0.0, numberOf), OptionalNumber(w.totalAfterDerivedFilters, numberOf),
      NumberOr(w.page, 1.0, numberOf), NumberOr(w.limit, DefaultLimit as real, numberOf))
  }

  function ParsedToWire(p: ParsedInt): WireNumber
  {
    if p.IntValue? then JsonNum(p.i as real) else Null
  }

  /** A page of the list route as JSON. */
  function PageToWire(rows: seq<ListRow>, total: nat, totalAfter: nat, page: ParsedInt, limit: ParsedInt): WireResponse
  {
    WireResponse(Some(Map(rows, ToWire)), JsonNum(total as real), JsonNum(totalAfter as real),
                 ParsedToWire(page), ParsedToWire(limit))
  }

  /** The client receives the route's totals unchanged; a NaN page or limit
      (serialised as null) is shown as page 1 of 25, alongside the empty
      row list the route sends for it. */
  lemma ResponseRoundTrip(rows: seq<ListRow>, total: nat, page: ParsedInt, limit: ParsedInt, numberOf: string -> real)
    ensures var c := CoerceResponse(PageToWire(rows, total, total, page, limit), numberOf);
      && c.total == total as real && c.totalAfterDerivedFilters == Some(total as real)
      && |c.rows| == |rows|
      && (forall i :: 0 <= i < |rows| ==> c.rows[i] == CoerceRow(ToWire(rows[i]), numberOf))
      && c.page == (if page.IntValue? then page.i as real else 1.0)
      && c.limit == (if limit.IntValue? then limit.i as real else DefaultLimit as real)
  {
  }
}
