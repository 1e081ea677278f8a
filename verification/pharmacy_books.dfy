/** The desktop reconciliation screen: the cleaning of imported numbers,
    the import loop over a claims file, the priced and filtered claim table
    (`fetch_data`), the commercial KPIs shown above it, and the rules that
    show the save and email buttons.

    The desktop prices every row: a baseline row wins whatever its price,
    otherwise the WAC fallback, otherwise a unit price of 0.0. The lemmas at
    the end set this against the web routes' pricing, payer naming, KPIs and
    button rules. */
module PharmacyBooks {
  import opened Wrappers
  import opened Seqs
  import opened Text
  import opened DbHelpers
  import Pricing
  import JsNumber
  import ClaimEval
  import ClaimsService
  import UserDataStore
  import ReportActions

  // ------------------------------------------------------ number cleaning

  predicate AllDigits(s: string)
  {
    forall i :: 0 <= i < |s| ==> IsAsciiDigit(s[i])
  }

  function DigitValue(c: char): nat
    requires IsAsciiDigit(c)
  {
    c as int - '0' as int
  }

  /** The value of a decimal digit string, most significant digit first. */
  function DigitsValue(s: string): nat
    requires AllDigits(s)
  {
    if |s| == 0 then 0 else DigitsValue(s[..|s| - 1]) * 10 + DigitValue(s[|s| - 1])
  }

  function Pow10(k: nat): (r: nat)
    ensures r >= 1
  {
    if k == 0 then 1 else 10 * Pow10(k - 1)
  }

  /** Python's `float()` on an unsigned decimal: digits with at most one
      point and at least one digit. */
  function ParseUnsigned(s: string): (r: Option<real>)
    ensures r.Some? ==> r.value >= 0.0
    ensures r.Some? ==> |s| > 0
  {
    var parts := Split(s, '.');
    if |parts| == 1 then
      if |s| > 0 && AllDigits(s) then Some(DigitsValue(s) as real) else None
    else if |parts| == 2 && AllDigits(parts[0]) && AllDigits(parts[1]) && |parts[0]| + |parts[1]| > 0 then
      Some(DigitsValue(parts[0]) as real + DigitsValue(parts[1]) as real / Pow10(|parts[1]|) as real)
    else None
  }

  /** Python's `float()` on text over the alphabet `[0-9.-]`: an optional
      leading minus and an unsigned decimal; anything else raises. */
  function ParseFloat(s: string): (r: Option<real>)
    ensures |s| > 0 && s[0] != '-' ==> r == ParseUnsigned(s)
    ensures r.Some? ==> |s| > 0
    ensures r.Some? && r.value < 0.0 ==> |s| > 0 && s[0] == '-'
  {
    if |s| > 0 && s[0] == '-' then
      match ParseUnsigned(s[1..])
      case None => None
      case Some(v) => Some(-v)
    else ParseUnsigned(s)
  }

  /** The characters the cleaning regex keeps. */
  predicate IsNumberChar(c: char)
  {
    IsAsciiDigit(c) || c == '.' || c == '-'
  }

  /** The value of cleaned text once the brackets are off: the regex strip
      followed by `float()`, with 0.0 when `float()` raises. */
  function ReadPlain(s: string): (r: real)
    ensures ParseFloat(Filter(s, IsNumberChar)).None? ==> r == 0.0
  {
    match ParseFloat(Filter(s, IsNumberChar))
    case None => 0.0
    case Some(v) => v
  }

  /** The stripped cell text is wrapped in accounting parentheses. */
  predicate Bracketed(s: string)
  {
    |s| >= 2 && s[0] == '(' && s[|s| - 1] == ')'
  }

  /** `clean_numeric`: `None` is a missing cell (NaN), `Some(s)` is the
      cell's text. Blank, missing or unreadable cells are 0.0, and a value
      written in accounting parentheses is negated. */
  function CleanNumeric(value: Option<string>): (r: real)
    ensures value.None? ==> r == 0.0
    ensures value.Some? && PyStrip(value.value) == "" ==> r == 0.0
    ensures (value.Some? && PyStrip(value.value) != ""
             && ParseFloat(Filter(PyStrip(value.value), IsNumberChar)).None?) ==> r == 0.0
  {
    if value.None? then 0.0
    else
      var s := PyStrip(value.value);
      if s == "" then 0.0
      else if Bracketed(s) then
        FilterDropsBrackets(s);
        -ReadPlain(s[1..|s| - 1])
      else ReadPlain(s)
  }

  /** The digits of a natural number read back as that number. */
  lemma {:induction false} DigitsValueOfNatToString(n: nat)
    ensures AllDigits(NatToString(n))
    ensures DigitsValue(NatToString(n)) == n
    decreases n
  {
    var s := NatToString(n);
    if n >= 10 {
      DigitsValueOfNatToString(n / 10);
      assert s[..|s| - 1] == NatToString(n / 10);
    }
  }

  /** A string starting and ending in non-whitespace is its own strip. */
  lemma StripUnchanged(s: string)
    requires |s| > 0 && !IsPyWhitespace(s[0]) && !IsPyWhitespace(s[|s| - 1])
    ensures PyStrip(s) == s
  {
    assert TrimStart(s, IsPyWhitespace) == s;
  }

  /** Writing a cell in parentheses negates what the cell cleans to. */
  lemma CleanNumericNegatesParens(x: string)
    requires |x| > 0 && !IsPyWhitespace(x[0]) && !IsPyWhitespace(x[|x| - 1])
    requires !Bracketed(x)
    ensures CleanNumeric(Some("(" + x + ")")) == -CleanNumeric(Some(x))
  {
    var p := "(" + x + ")";
    StripUnchanged(p);
    assert Bracketed(p) && p[1..|p| - 1] == x;
    CleanNumericPlain(x);
  }

  /** The brackets are not number characters, so the cleaning regex drops them anyway. */
  lemma FilterDropsBrackets(s: string)
    requires Bracketed(s)
    ensures Filter(s, IsNumberChar) == Filter(s[1..|s| - 1], IsNumberChar)
  {
    var body := s[1..|s| - 1];
    var init := s[..|s| - 1];
    assert s == init + [s[|s| - 1]];
    FilterConcat(init, [s[|s| - 1]], IsNumberChar);
    assert Filter([s[|s| - 1]], IsNumberChar) == [];
    assert init == [s[0]] + body;
    FilterConcat([s[0]], body, IsNumberChar);
    assert Filter([s[0]], IsNumberChar) == [];
  }

  /** Unbracketed, stripped text cleans to what it reads as. */
  lemma CleanNumericPlain(x: string)
    requires |x| > 0 && !IsPyWhitespace(x[0]) && !IsPyWhitespace(x[|x| - 1]) && !Bracketed(x)
    ensures CleanNumeric(Some(x)) == ReadPlain(x)
  {
    StripUnchanged(x);
  }

  /** A digit string reads as its value, and with a leading minus as the
      negated value. */
  lemma ReadPlainDigits(s: string)
    requires |s| > 0 && AllDigits(s)
    ensures ReadPlain(s) == DigitsValue(s) as real
    ensures ReadPlain("-" + s) == -(DigitsValue(s) as real)
  {
    ReadPlainUnsigned(s);
    ReadPlainNegative(s);
  }

  lemma ReadPlainUnsigned(s: string)
    requires |s| > 0 && AllDigits(s)
    ensures ReadPlain(s) == DigitsValue(s) as real
  {
    FilterAll(s, IsNumberChar);
    SplitNone(s, '.');
  }

  lemma ReadPlainNegative(s: string)
    requires |s| > 0 && AllDigits(s)
    ensures ReadPlain("-" + s) == -(DigitsValue(s) as real)
  {
    SplitNone(s, '.');
    var m := "-" + s;
    assert m[1..] == s && m[0] == '-';
    assert forall i :: 0 <= i < |m| ==> IsNumberChar(m[i]);
    FilterAll(m, IsNumberChar);
  }

  lemma CleanNumericOfDigits(s: string)
    requires |s| > 0 && AllDigits(s)
    ensures CleanNumeric(Some(s)) == DigitsValue(s) as real
    ensures CleanNumeric(Some("-" + s)) == -(DigitsValue(s) as real)
    ensures CleanNumeric(Some("(" + s + ")")) == -(DigitsValue(s) as real)
  {
    CleanUnsignedDigits(s);
    CleanNegativeDigits(s);
    CleanBracketedDigits(s);
  }

  lemma CleanBracketedDigits(s: string)
    requires |s| > 0 && AllDigits(s)
    ensures CleanNumeric(Some("(" + s + ")")) == -(DigitsValue(s) as real)
  {
    assert IsAsciiDigit(s[0]) && IsAsciiDigit(s[|s| - 1]);
    CleanNumericNegatesParens(s);
    CleanUnsignedDigits(s);
  }

  lemma CleanUnsignedDigits(s: string)
    requires |s| > 0 && AllDigits(s)
    ensures CleanNumeric(Some(s)) == DigitsValue(s) as real
  {
    assert IsAsciiDigit(s[0]) && IsAsciiDigit(s[|s| - 1]);
    ReadPlainUnsigned(s);
    CleanNumericPlain(s);
  }

  lemma CleanNegativeDigits(s: string)
    requires |s| > 0 && AllDigits(s)
    ensures CleanNumeric(Some("-" + s)) == -(DigitsValue(s) as real)
  {
    var m := "-" + s;
    assert IsAsciiDigit(s[|s| - 1]) && m[|m| - 1] == s[|s| - 1];
    ReadPlainNegative(s);
    CleanNumericPlain(m);
  }

  /** A printed whole number cleans back to itself, also with a minus sign
      or in parentheses. */
  lemma CleanNumericReadsNumbers(n: nat)
    ensures CleanNumeric(Some(NatToString(n))) == n as real
    ensures CleanNumeric(Some("-" + NatToString(n))) == -(n as real)
    ensures CleanNumeric(Some("(" + NatToString(n) + ")")) == -(n as real)
  {
    DigitsValueOfNatToString(n);
    CleanNumericOfDigits(NatToString(n));
  }

  // ------------------------------------------------------------- importing

  /** A claim-file row after column resolution, with every column present.
      The text columns (script, drug_ndc, drug_name, bin) hold what
      `astype(str)` makes of the cell, so a blank cell arrives as the text
      "nan" and a blank script is stored under "nan". `None` in qty or
      total_paid is a blank cell, which `clean_numeric` reads as 0.0. */
  datatype RawClaim = RawClaim(script: string, dateDispensed: string, drugNdc: string, drugName: string,
                               qty: Option<string>, totalPaid: Option<string>, bin: string)

  /** The per-column cleaning of an imported row; `normalizeDate` stands for
      `normalize_date` (a `YYYY-MM-DD` date, or "" when unreadable). */
  function CleanImportRow(raw: RawClaim, normalizeDate: string -> string): (r: IncomingRow)
    ensures r.totalPaid == CleanNumeric(raw.totalPaid) && r.qty == CleanNumeric(raw.qty)
    ensures forall i :: 0 <= i < |r.drugNdc| ==> IsAsciiDigit(r.drugNdc[i])
    ensures |r.script| > 0 ==> !IsPyWhitespace(r.script[0]) && !IsPyWhitespace(r.script[|r.script| - 1])
    ensures r.dateDispensed == normalizeDate(raw.dateDispensed)
  {
    IncomingRow(PyStrip(raw.script), normalizeDate(raw.dateDispensed), DigitsOnly(raw.drugNdc),
                PyStrip(raw.drugName), CleanNumeric(raw.qty), CleanNumeric(raw.totalPaid), PyStrip(raw.bin))
  }

  /** Rows whose date did not normalise are skipped. */
  predicate Dated(row: IncomingRow)
  {
    row.dateDispensed != ""
  }

  /** The import loop: each dated row goes through the store's
      insert-or-update, in file order. */
  function ImportRows(t: UserData, rows: seq<IncomingRow>): (r: UserData)
    decreases |rows|
  {
    if |rows| == 0 then t
    else ImportRows(if Dated(rows[0]) then InsertOrUpdate(t, rows[0]) else t, rows[1..])
  }

  /** The scripts of the dated rows. */
  function DatedScripts(rows: seq<IncomingRow>): (r: set<string>)
    ensures forall i :: 0 <= i < |rows| && Dated(rows[i]) ==> rows[i].script in r
    decreases |rows|
  {
    if |rows| == 0 then {}
    else (if Dated(rows[0]) then {rows[0].script} else {}) + DatedScripts(rows[1..])
  }

  /** An import adds exactly the dated rows' scripts, never changes a stored
      paid amount, and leaves scripts it does not mention alone. */
  lemma {:induction false} ImportRowsSpec(t: UserData, rows: seq<IncomingRow>)
    ensures ImportRows(t, rows).Keys == t.Keys + DatedScripts(rows)
    ensures forall s :: s in t ==> ImportRows(t, rows)[s].totalPaid == t[s].totalPaid
    ensures forall s :: s in t && s !in DatedScripts(rows) ==> ImportRows(t, rows)[s] == t[s]
    decreases |rows|
  {
    if |rows| > 0 {
      var t1 := if Dated(rows[0]) then InsertOrUpdate(t, rows[0]) else t;
      ImportRowsSpec(t1, rows[1..]);
    }
  }

  /** Undated rows contribute nothing: importing a file is importing its dated rows. */
  lemma {:induction false} ImportSkipsUndated(t: UserData, rows: seq<IncomingRow>)
    ensures ImportRows(t, rows) == ImportRows(t, Filter(rows, Dated))
    decreases |rows|
  {
    if |rows| > 0 {
      var t1 := if Dated(rows[0]) then InsertOrUpdate(t, rows[0]) else t;
      ImportSkipsUndated(t1, rows[1..]);
    }
  }

  // ---------------------------------------------------------------- pricing

  /** The generic indicator, stripped and upper-cased, is exactly "N". */
  predicate IsBrandDesk(indicator: string)
  {
    var shown := ToUpper(PyStrip(indicator));
    |shown| == 1 && shown[0] == 'N'
  }

  /** WAC, package size and multiplier all positive (a missing WAC row reads
      as NaN and fails every comparison). */
  predicate FallbackUsable(alt: Option<AltRate>)
  {
    alt.Some? && alt.value.pkgSize > 0.0 && alt.value.pkgSizeMult > 0.0 && alt.value.wac > 0.0
  }

  /** `compute_fallback`: the unit price from the WAC row, or 0.0. */
  function ComputeFallback(alt: Option<AltRate>): (u: real)
    ensures u > 0.0 <==> FallbackUsable(alt)
    ensures !FallbackUsable(alt) ==> u == 0.0
    ensures FallbackUsable(alt) && IsBrandDesk(alt.value.genericIndicator) ==>
      u * (alt.value.pkgSize * alt.value.pkgSizeMult) == Pricing.BrandFactor * alt.value.wac
    ensures FallbackUsable(alt) && !IsBrandDesk(alt.value.genericIndicator) ==>
      u * (alt.value.pkgSize * alt.value.pkgSizeMult) == alt.value.wac
  {
    if FallbackUsable(alt) then
      var a := alt.value;
      var units := a.pkgSize * a.pkgSizeMult;
      Pricing.MulPositive(a.pkgSize, a.pkgSizeMult);
      if IsBrandDesk(a.genericIndicator) then
        Pricing.DivPositive(a.wac * Pricing.BrandFactor, units);
        (a.wac * Pricing.BrandFactor) / units
      else
        Pricing.DivPositive(a.wac, units);
        a.wac / units
    else 0.0
  }

  /** The desktop's pricing method (`method_for_row`). */
  datatype DeskMethod = BaselineAac | BrandWac | GenericWac | NoMethod

  /** The text shown in the Method column. */
  function MethodLabel(m: DeskMethod): (shown: string)
    ensures shown == "AAC" <==> m == BaselineAac
    ensures shown == "" <==> m == NoMethod
    ensures shown != "WAC"
  {
    match m
    case BaselineAac => "AAC"
    case BrandWac => "0.96*WAC/(pkg_size*pkg_size_mult)"
    case GenericWac => "WAC/(pkg_size*pkg_size_mult)"
    case NoMethod => ""
  }

  /** A stored claim with its script number. */
  datatype Claim = Claim(script: string, stored: StoredRow)

  /** The three reference tables as the merges see them: baseline price by
      NDC, WAC row by NDC, PBM name by bin. */
  datatype Lookups = Lookups(baseline: map<string, real>, altRates: map<string, AltRate>,
                             pbmNames: map<string, string>)

  /** A claim after the merges and the derived columns. */
  datatype DeskRow = DeskRow(claim: Claim, pbmName: string, aac: real, basis: DeskMethod,
                             expected: real, difference: real, updatedDiff: Option<real>)

  function NdcOf(c: Claim): string
  {
    DigitsOnly(c.stored.drugNdc)
  }

  function AltFor(c: Claim, t: Lookups): Option<AltRate>
  {
    Get(t.altRates, NdcOf(c))
  }

  /** One row of `fetch_data`'s frame. */
  function Enrich(c: Claim, t: Lookups): (e: DeskRow)
    ensures e.claim == c
    ensures e.basis == BaselineAac <==> NdcOf(c) in t.baseline
    ensures NdcOf(c) in t.baseline ==> e.aac == t.baseline[NdcOf(c)]
    ensures e.basis == BrandWac || e.basis == GenericWac <==>
      NdcOf(c) !in t.baseline && FallbackUsable(AltFor(c, t))
    ensures e.basis == BrandWac ==> IsBrandDesk(AltFor(c, t).value.genericIndicator)
    ensures NdcOf(c) !in t.baseline ==> e.aac == ComputeFallback(AltFor(c, t))
    ensures e.basis == NoMethod ==> e.aac == 0.0 && e.expected == Pricing.FixedFee
    ensures e.expected == Pricing.ExpectedPaid(c.stored.qty, e.aac)
    ensures e.difference == c.stored.totalPaid - e.expected
    ensures e.updatedDiff.Some? <==> c.stored.newPaid.Some?
    ensures e.updatedDiff.Some? ==> e.updatedDiff.value == c.stored.newPaid.value - c.stored.totalPaid
    ensures c.stored.bin in t.pbmNames ==> e.pbmName == t.pbmNames[c.stored.bin]
    ensures c.stored.bin !in t.pbmNames ==> e.pbmName == ClaimEval.Federal
  {
    var ndc := NdcOf(c);
    var alt := AltFor(c, t);
    var aac := if ndc in t.baseline then t.baseline[ndc] else ComputeFallback(alt);
    var basis :=
      if ndc in t.baseline then BaselineAac
      else if FallbackUsable(alt) then (if IsBrandDesk(alt.value.genericIndicator) then BrandWac else GenericWac)
      else NoMethod;
    var expected := Pricing.ExpectedPaid(c.stored.qty, aac);
    var pbmName := if c.stored.bin in t.pbmNames then t.pbmNames[c.stored.bin] else ClaimEval.Federal;
    var updated := if c.stored.newPaid.Some? then Some(c.stored.newPaid.value - c.stored.totalPaid) else None;
    DeskRow(c, pbmName, aac, basis, expected, c.stored.totalPaid - expected, updated)
  }

  /** `date_dispensed BETWEEN start AND end` on the stored text. */
  predicate InWindow(c: Claim, start: string, end: string)
  {
    LexLe(start, c.stored.dateDispensed) && LexLe(c.stored.dateDispensed, end)
  }

  /** The payer and owed filters of the screen. */
  predicate PassesDesk(e: DeskRow, flt: string, pbm: string)
  {
    (pbm == "All" || e.pbmName == pbm)
    && (flt == "Underpaid" ==> e.difference < 0.0)
    && (flt == "Overpaid" ==> e.difference > 0.0)
  }

  function WindowKeeper(start: string, end: string): Claim -> bool
  {
    (c: Claim) => InWindow(c, start, end)
  }

  function Enricher(t: Lookups): Claim -> DeskRow
  {
    (c: Claim) => Enrich(c, t)
  }

  function PayerKeeper(pbm: string): DeskRow -> bool
  {
    (e: DeskRow) => e.pbmName == pbm
  }

  predicate IsUnderpaidDesk(e: DeskRow) { e.difference < 0.0 }

  predicate IsOverpaidDesk(e: DeskRow) { e.difference > 0.0 }

  /** `fetch_data`: the claims dispensed in the window, priced, then kept
      when they pass the payer and owed filters, in table order. */
  function FetchData(claims: seq<Claim>, start: string, end: string, t: Lookups, flt: string, pbm: string)
    : (r: seq<DeskRow>)
    ensures |r| <= |claims|
    ensures forall e :: e in r ==>
      e.claim in claims && InWindow(e.claim, start, end) && e == Enrich(e.claim, t) && PassesDesk(e, flt, pbm)
    ensures forall c :: c in claims && InWindow(c, start, end) && PassesDesk(Enrich(c, t), flt, pbm) ==>
      Enrich(c, t) in r
    ensures Subseq(r, Map(Filter(claims, WindowKeeper(start, end)), Enricher(t)))
  {
    var inWindow := Filter(claims, WindowKeeper(start, end));
    EnrichedMembers(inWindow, t);
    DeskFilters(Map(inWindow, Enricher(t)), flt, pbm)
  }

  /** The payer and shortfall filters of the claims view, over priced rows. */
  function DeskFilters(enriched: seq<DeskRow>, flt: string, pbm: string): (r: seq<DeskRow>)
    ensures forall e :: e in r <==> e in enriched && PassesDesk(e, flt, pbm)
    ensures Subseq(r, enriched)
  {
    var byPayer := if pbm != "All" then Filter(enriched, PayerKeeper(pbm)) else enriched;
    KeptInOrder(enriched, byPayer, pbm);
    if flt == "Underpaid" then Filter(byPayer, IsUnderpaidDesk)
    else if flt == "Overpaid" then Filter(byPayer, IsOverpaidDesk)
    else byPayer
  }

  /** The payer and shortfall filters keep the priced rows in their order. */
  lemma KeptInOrder(enriched: seq<DeskRow>, byPayer: seq<DeskRow>, pbm: string)
    requires byPayer == if pbm != "All" then Filter(enriched, PayerKeeper(pbm)) else enriched
    ensures Subseq(byPayer, enriched)
    ensures Subseq(Filter(byPayer, IsUnderpaidDesk), enriched)
    ensures Subseq(Filter(byPayer, IsOverpaidDesk), enriched)
  {
    SubseqReflexive(enriched);
    if pbm != "All" {
      FilterIsSubseq(enriched, PayerKeeper(pbm));
    }
    FilterIsSubseq(byPayer, IsUnderpaidDesk);
    FilterIsSubseq(byPayer, IsOverpaidDesk);
    SubseqTransitive(Filter(byPayer, IsUnderpaidDesk), byPayer, enriched);
    SubseqTransitive(Filter(byPayer, IsOverpaidDesk), byPayer, enriched);
  }

  /** Every priced claim is in the priced list, and every priced row is
      the pricing of its own claim. */
  lemma EnrichedMembers(claims: seq<Claim>, t: Lookups)
    ensures forall c :: c in claims ==> Enrich(c, t) in Map(claims, Enricher(t))
    ensures forall e :: e in Map(claims, Enricher(t)) ==> e.claim in claims && e == Enrich(e.claim, t)
  {
    var enriched := Map(claims, Enricher(t));
    forall c | c in claims
      ensures Enrich(c, t) in enriched
    {
      var i :| 0 <= i < |claims| && claims[i] == c;
      assert enriched[i] == Enrich(c, t);
    }
    forall e | e in enriched
      ensures e.claim in claims && e == Enrich(e.claim, t)
    {
      var i :| 0 <= i < |enriched| && enriched[i] == e;
      assert e == Enrich(claims[i], t);
    }
  }

  // ------------------------------------------------------------------ KPIs

  /** The labels above the tables. */
  datatype DeskKpis = DeskKpis(underpaidAmt: real, scriptCount: nat, updatedDiffTotal: real, owed: real)

  /** Commercial means any payer name other than "Federal". */
  predicate IsCommercialDesk(e: DeskRow)
  {
    e.pbmName != ClaimEval.Federal
  }

  function Difference(e: DeskRow): real { e.difference }

  function UpdatedDiffOrZero(e: DeskRow): real { e.updatedDiff.GetOr(0.0) }

  /** `nunique()` of the script column. */
  function Scripts(rows: seq<DeskRow>): (r: set<string>)
    ensures |r| <= |rows|
    ensures forall s :: s in r <==> exists i :: 0 <= i < |rows| && rows[i].claim.script == s
    decreases |rows|
  {
    if |rows| == 0 then {}
    else
      var rest := Scripts(rows[1..]);
      assert forall i :: 1 <= i < |rows| ==> rows[i] == rows[1..][i - 1];
      {rows[0].claim.script} + rest
  }

  predicate IsUnderpaidCommercialDesk(e: DeskRow) { IsCommercialDesk(e) && IsUnderpaidDesk(e) }

  function Shortfall(e: DeskRow): real { -e.difference }

  /** What one row adds to the underpaid amount: its shortfall when it is
      an underpaid commercial row. */
  function DeskUnderpaidShare(e: DeskRow): real
  {
    if IsUnderpaidCommercialDesk(e) then Shortfall(e) else 0.0
  }

  /** What one row adds to the updated-difference total: its updated
      difference (missing as zero) when it is commercial. */
  function DeskUpdatedShare(e: DeskRow): real
  {
    if IsCommercialDesk(e) then UpdatedDiffOrZero(e) else 0.0
  }

  /** The KPI block of `_render_all` over the fetched rows: the commercial
      underpaid amount (clamped at zero), the number of distinct commercial
      scripts, the total of updated differences with missing ones as zero,
      and what is owed after the updates. */
  function DesktopKpis(rows: seq<DeskRow>): (k: DeskKpis)
    ensures k.underpaidAmt == Sum(rows, DeskUnderpaidShare)
    ensures k.underpaidAmt >= 0.0
    ensures k.scriptCount == |set e | e in rows && IsCommercialDesk(e) :: e.claim.script|
    ensures k.scriptCount <= Count(rows, IsCommercialDesk)
    ensures k.updatedDiffTotal == Sum(rows, DeskUpdatedShare)
    ensures k.owed == k.underpaidAmt - k.updatedDiffTotal
  {
    var comm := Filter(rows, IsCommercialDesk);
    var underpaidTotal := Sum(Filter(comm, IsUnderpaidDesk), Difference);
    ShortfallsOfUnderpaid(Filter(comm, IsUnderpaidDesk));
    FilterFuseInto(rows, IsCommercialDesk, IsUnderpaidDesk, IsUnderpaidCommercialDesk);
    SumFilterGuarded(rows, IsUnderpaidCommercialDesk, Shortfall, DeskUnderpaidShare);
    SumFilterGuarded(rows, IsCommercialDesk, UpdatedDiffOrZero, DeskUpdatedShare);
    CommercialScripts(rows);
    var amt := if underpaidTotal < 0.0 then -underpaidTotal else 0.0;
    var updated := Sum(comm, UpdatedDiffOrZero);
    DeskKpis(amt, |Scripts(comm)|, updated, amt - updated)
  }

  /** The scripts of the commercial rows, as `nunique()` sees them. */
  lemma CommercialScripts(rows: seq<DeskRow>)
    ensures Scripts(Filter(rows, IsCommercialDesk)) == set e | e in rows && IsCommercialDesk(e) :: e.claim.script
  {
    var comm := Filter(rows, IsCommercialDesk);
    forall s | s in Scripts(comm)
      ensures s in set e | e in rows && IsCommercialDesk(e) :: e.claim.script
    {
      var i :| 0 <= i < |comm| && comm[i].claim.script == s;
      assert comm[i] in comm;
    }
    forall e | e in rows && IsCommercialDesk(e)
      ensures e.claim.script in Scripts(comm)
    {
      assert e in comm;
      var i :| 0 <= i < |comm| && comm[i] == e;
    }
  }

  /** Rows that are all underpaid have a non-positive total difference,
      which is minus the total of their shortfalls. */
  lemma ShortfallsOfUnderpaid(under: seq<DeskRow>)
    requires forall e :: e in under ==> IsUnderpaidDesk(e)
    ensures Sum(under, Difference) <= 0.0
    ensures Sum(under, Shortfall) == -Sum(under, Difference)
  {
    assert forall i :: 0 <= i < |under| ==> Difference(under[i]) <= 0.0 by {
      forall i | 0 <= i < |under|
        ensures Difference(under[i]) <= 0.0
      {
        assert under[i] in under;
      }
    }
    SumNonPositive(under, Difference);
    SumNegate(under, Difference, Shortfall);
  }

  /** The clamp never bites: the commercial underpaid amount is the sum of
      the shortfalls of the underpaid commercial rows. */
  lemma UnderpaidIsSumOfShortfalls(rows: seq<DeskRow>)
    ensures DesktopKpis(rows).underpaidAmt
      == Sum(Filter(Filter(rows, IsCommercialDesk), IsUnderpaidDesk), Shortfall)
  {
    ShortfallsOfUnderpaid(Filter(Filter(rows, IsCommercialDesk), IsUnderpaidDesk));
  }

  /** Distinct scripts make the script count the number of commercial rows. */
  lemma {:induction false} ScriptCountOfDistinctRows(rows: seq<DeskRow>)
    requires forall i, j :: 0 <= i < j < |rows| ==> rows[i].claim.script != rows[j].claim.script
    ensures |Scripts(rows)| == |rows|
    decreases |rows|
  {
    if |rows| > 0 {
      ScriptCountOfDistinctRows(rows[1..]);
      assert rows[0].claim.script !in Scripts(rows[1..]);
    }
  }

  // ------------------------------------------------------------- buttons

  /** `_update_action_buttons`: Save for underpaid rows of one chosen payer. */
  predicate CanSaveDesk(flt: string, pbm: string)
  {
    flt == "Underpaid" && pbm != "All"
  }

  /** Email for one chosen payer other than Federal. */
  predicate CanEmailDesk(pbm: string)
  {
    pbm != "All" && pbm != "Federal"
  }

  /** The email address label of the KPI block. */
  predicate ShowsEmailAddress(flt: string, pbm: string)
  {
    flt == "Underpaid" && pbm != "All" && pbm != "Federal"
  }

  /** The dashboard's owed filter value for a desktop filter choice. */
  function OwedTypeOf(flt: string): (o: string)
    ensures o == "underpaid" <==> flt == "Underpaid"
  {
    if flt == "Underpaid" then "underpaid" else if flt == "Overpaid" then "overpaid" else "all"
  }

  /** The desktop and the dashboard show the same actions for the same choice. */
  lemma ButtonsAgreeWithDashboard(flt: string, pbm: string)
    ensures CanSaveDesk(flt, pbm) <==> ReportActions.CanShowSave(Some(OwedTypeOf(flt)), Some(pbm))
    ensures CanEmailDesk(pbm) <==> ReportActions.CanShowEmail(Some(OwedTypeOf(flt)), Some(pbm))
    ensures ShowsEmailAddress(flt, pbm) <==> ReportActions.ShowEmailLabel(Some(OwedTypeOf(flt)), Some(pbm))
    ensures ShowsEmailAddress(flt, pbm) <==> CanSaveDesk(flt, pbm) && CanEmailDesk(pbm)
  {
  }
  // ------------------------------------------- against the web routes

  /** The PBM table as the web routes see it (names are never null here). */
  function WebNames(m: map<string, string>): (w: map<string, Option<string>>)
    ensures w.Keys == m.Keys
    ensures forall b :: b in m ==> w[b] == Some(m[b])
  {
    map b | b in m :: Some(m[b])
  }

  /** The desktop names the payer as the list route does, except for a
      claim whose bin is empty or whose PBM row has an empty name: the
      desktop keeps the mapped name (so an empty name counts as commercial)
      where the list route says "Federal". */
  lemma PayerNameAgainstListRoute(c: Claim, t: Lookups)
    ensures var bin := c.stored.bin;
      Enrich(c, t).pbmName == ClaimEval.PbmName(Some(bin), WebNames(t.pbmNames))
      <==> !(bin in t.pbmNames && t.pbmNames[bin] != ClaimEval.Federal
             && (bin == "" || t.pbmNames[bin] == ""))
  {
  }

  /** The baseline record the web routes would see for this claim. */
  function WebBaseline(c: Claim, t: Lookups): (b: Option<Pricing.BaselineRecord>)
    ensures b.Some? <==> NdcOf(c) in t.baseline
    ensures b.Some? ==> b.value.aac == JsNumber.Num(t.baseline[NdcOf(c)])
  {
    if NdcOf(c) in t.baseline then Some(Pricing.BaselineRecord(JsNumber.Num(t.baseline[NdcOf(c)]), None))
    else None
  }

  /** The WAC record the web routes would see for this claim. */
  function WebAlt(c: Claim, t: Lookups): (a: Option<Pricing.AltRateRecord>)
    ensures a.Some? <==> AltFor(c, t).Some?
    ensures Pricing.WacUsable(a) <==> FallbackUsable(AltFor(c, t))
    ensures a.Some? ==> a.value.genericIndicator == AltFor(c, t).value.genericIndicator
  {
    match AltFor(c, t)
    case None => None
    case Some(r) =>
      Some(Pricing.AltRateRecord(JsNumber.Num(r.wac), JsNumber.Num(r.pkgSize), JsNumber.Num(r.pkgSizeMult),
                                 r.genericIndicator))
  }

  /** With a baseline row the desktop always says AAC, the web only when
      the price is positive, and then both use that price. */
  lemma BaselineAgainstWebRoutes(c: Claim, t: Lookups)
    ensures Enrich(c, t).basis == BaselineAac <==> WebBaseline(c, t).Some?
    ensures Pricing.ResolveStrict(WebBaseline(c, t), WebAlt(c, t)).basis == Pricing.AAC
      <==> NdcOf(c) in t.baseline && t.baseline[NdcOf(c)] > 0.0
    ensures Pricing.ResolveStrict(WebBaseline(c, t), WebAlt(c, t)).basis == Pricing.AAC ==>
      Pricing.ResolveStrict(WebBaseline(c, t), WebAlt(c, t)).aac == Some(JsNumber.Num(Enrich(c, t).aac))
  {
    var b := WebBaseline(c, t);
    assert Pricing.AacUsable(b) <==> NdcOf(c) in t.baseline && t.baseline[NdcOf(c)] > 0.0;
  }

  /** Without a baseline row both take the WAC branch on the same records
      and, when the two trims agree on the indicator, at the same unit price. */
  lemma WacAgainstWebRoutes(c: Claim, t: Lookups)
    requires NdcOf(c) !in t.baseline
    ensures (Enrich(c, t).basis == BrandWac || Enrich(c, t).basis == GenericWac)
      <==> Pricing.ResolveStrict(WebBaseline(c, t), WebAlt(c, t)).basis == Pricing.WAC
    ensures (FallbackUsable(AltFor(c, t))
             && JsTrim(AltFor(c, t).value.genericIndicator) == PyStrip(AltFor(c, t).value.genericIndicator)) ==>
      Pricing.ResolveStrict(WebBaseline(c, t), WebAlt(c, t)).aac == Some(JsNumber.Num(Enrich(c, t).aac))
  {
    var alt := AltFor(c, t);
    assert !Pricing.AacUsable(WebBaseline(c, t));
    if FallbackUsable(alt) && JsTrim(alt.value.genericIndicator) == PyStrip(alt.value.genericIndicator) {
      BrandTestsAgree(alt.value.genericIndicator);
      WacPricesAgree(alt.value, WebAlt(c, t).value);
      assert Enrich(c, t).aac == ComputeFallback(alt);
    }
  }

  /** The desktop fallback and the web WAC price agree on the same record. */
  lemma WacPricesAgree(a: AltRate, r: Pricing.AltRateRecord)
    requires FallbackUsable(Some(a)) && Pricing.IsBrand(a.genericIndicator) == IsBrandDesk(a.genericIndicator)
    requires r == Pricing.AltRateRecord(JsNumber.Num(a.wac), JsNumber.Num(a.pkgSize), JsNumber.Num(a.pkgSizeMult),
                                        a.genericIndicator)
    ensures Pricing.WacUsable(Some(r))
    ensures Pricing.WacUnitPrice(r) == ComputeFallback(Some(a))
  {
    assert r.wac.val == a.wac && r.pkgSize.val == a.pkgSize && r.pkgSizeMult.val == a.pkgSizeMult;
    assert r.genericIndicator == a.genericIndicator;
    var brand := IsBrandDesk(a.genericIndicator);
    var units := a.pkgSize * a.pkgSizeMult;
    FallbackQuotient(a);
    WacQuotient(r);
    assert Pricing.IsBrand(r.genericIndicator) == brand;
    assert r.pkgSize.val * r.pkgSizeMult.val == units;
    assert Pricing.WacUnitPrice(r) == QuotientPrice(brand, a.wac, units);
  }

  /** The WAC price per unit, with the brand discount when `brand` holds. */
  function QuotientPrice(brand: bool, wac: real, units: real): real
    requires units > 0.0
  {
    (if brand then wac * Pricing.BrandFactor else wac) / units
  }

  /** The desktop fallback written as one quotient. */
  lemma FallbackQuotient(a: AltRate)
    requires FallbackUsable(Some(a))
    ensures a.pkgSize * a.pkgSizeMult > 0.0
    ensures ComputeFallback(Some(a)) == QuotientPrice(IsBrandDesk(a.genericIndicator), a.wac, a.pkgSize * a.pkgSizeMult)
  {
    Pricing.MulPositive(a.pkgSize, a.pkgSizeMult);
  }

  /** The web WAC price written as one quotient. */
  lemma WacQuotient(r: Pricing.AltRateRecord)
    requires Pricing.WacUsable(Some(r))
    ensures r.pkgSize.val * r.pkgSizeMult.val > 0.0
    ensures Pricing.WacUnitPrice(r)
            == QuotientPrice(Pricing.IsBrand(r.genericIndicator), r.wac.val, r.pkgSize.val * r.pkgSizeMult.val)
  {
    Pricing.MulPositive(r.pkgSize.val, r.pkgSizeMult.val);
  }

  /** Where both trims agree, both brand tests agree. */
  lemma BrandTestsAgree(indicator: string)
    requires JsTrim(indicator) == PyStrip(indicator)
    ensures Pricing.IsBrand(indicator) == IsBrandDesk(indicator)
  {
  }

  /** A claim neither side can price has no price on the web but the bare
      dispensing fee as its expected payment on the desktop. */
  lemma UnpricedAgainstWebRoutes(c: Claim, t: Lookups)
    requires NdcOf(c) !in t.baseline && !FallbackUsable(AltFor(c, t))
    ensures Pricing.ResolveStrict(WebBaseline(c, t), WebAlt(c, t)).aac.None?
    ensures Enrich(c, t).basis == NoMethod && Enrich(c, t).expected == Pricing.FixedFee
  {
    assert !Pricing.AacUsable(WebBaseline(c, t)) && !Pricing.WacUsable(WebAlt(c, t));
  }

  /** The dashboard's view of a desktop row: the dashboard's owed amount is
      the desktop's difference with the sign turned. */
  function AsDashboardRow(e: DeskRow): (r: ClaimsService.ClientRow)
    ensures r.owed == Some(-e.difference) && r.pbmName == Some(e.pbmName)
    ensures r.paid == e.claim.stored.totalPaid && r.newPaid == e.claim.stored.newPaid
  {
    ClaimsService.ClientRow(e.claim.script, Some(e.claim.stored.dateDispensed), NdcOf(e.claim),
                            e.claim.stored.drugName, e.claim.stored.qty, Some(e.aac), None, MethodLabel(e.basis),
                            Some(e.expected), e.claim.stored.totalPaid, e.claim.stored.newPaid,
                            Some(-e.difference), Some(e.claim.stored.bin), Some(e.pbmName), None,
                            e.claim.stored.status, None)
  }

  /** The updated difference of a row is its new payment less the original. */
  predicate UpdatedDiffConsistent(e: DeskRow)
  {
    e.updatedDiff == (if e.claim.stored.newPaid.Some?
                      then Some(e.claim.stored.newPaid.value - e.claim.stored.totalPaid) else None)
  }

  predicate DeskHasNewPaid(e: DeskRow) { e.claim.stored.newPaid.Some? }

  /** The dashboard's owed amount of a desktop row. */
  function DashboardOwed(e: DeskRow): real
  {
    UserDataStore.OwedOrZero(AsDashboardRow(e))
  }

  /** The dashboard's updated difference of a desktop row. */
  function DashboardUpdated(e: DeskRow): real
  {
    UserDataStore.UpdatedDifference(AsDashboardRow(e))
  }

  function GuardedDashboardUpdated(e: DeskRow): real
  {
    if DeskHasNewPaid(e) then DashboardUpdated(e) else 0.0
  }

  lemma GuardedUpdatedIsUpdatedDiff(e: DeskRow)
    requires UpdatedDiffConsistent(e)
    ensures GuardedDashboardUpdated(e) == UpdatedDiffOrZero(e)
  {
    var d := AsDashboardRow(e);
    assert d.newPaid == e.claim.stored.newPaid && d.paid == e.claim.stored.totalPaid;
  }

  /** The desktop's commercial underpaid amount is the dashboard's. */
  lemma UnderpaidMatchesDashboard(rows: seq<DeskRow>)
    ensures DesktopKpis(rows).underpaidAmt
      == UserDataStore.CalculateKpis(Map(rows, AsDashboardRow)).underpaidCommercialAbs
  {
    var under := Filter(Filter(rows, IsCommercialDesk), IsUnderpaidDesk);
    var dash := Filter(Filter(Map(rows, AsDashboardRow), UserDataStore.IsCommercialRow), UserDataStore.IsOwedPositive);
    assert UserDataStore.CalculateKpis(Map(rows, AsDashboardRow)).underpaidCommercialAbs
      == Sum(dash, UserDataStore.OwedOrZero);
    DashboardUnderpaidRows(rows);
    DashboardOwedSum(under);
    UnderpaidIsSumOfShortfalls(rows);
  }

  /** The dashboard's underpaid commercial rows are the desktop's, converted. */
  lemma DashboardUnderpaidRows(rows: seq<DeskRow>)
    ensures Filter(Filter(Map(rows, AsDashboardRow), UserDataStore.IsCommercialRow), UserDataStore.IsOwedPositive)
      == Map(Filter(Filter(rows, IsCommercialDesk), IsUnderpaidDesk), AsDashboardRow)
  {
    var comm := Filter(rows, IsCommercialDesk);
    FilterMapCommute(rows, AsDashboardRow, UserDataStore.IsCommercialRow, IsCommercialDesk);
    FilterMapCommute(comm, AsDashboardRow, UserDataStore.IsOwedPositive, IsUnderpaidDesk);
  }

  /** The dashboard's owed amounts of converted rows add up to their shortfalls. */
  lemma DashboardOwedSum(under: seq<DeskRow>)
    ensures Sum(Map(under, AsDashboardRow), UserDataStore.OwedOrZero) == Sum(under, Shortfall)
  {
    SumMapInto(under, AsDashboardRow, UserDataStore.OwedOrZero, DashboardOwed);
    SumCongruent(under, DashboardOwed, Shortfall);
  }

  /** The desktop's total of updated differences is the dashboard's, given
      rows whose updated difference is computed from their payments. */
  lemma UpdatedMatchesDashboard(rows: seq<DeskRow>)
    requires forall i :: 0 <= i < |rows| ==> UpdatedDiffConsistent(rows[i])
    ensures DesktopKpis(rows).updatedDiffTotal
      == UserDataStore.CalculateKpis(Map(rows, AsDashboardRow)).updatedDifferenceTotal
  {
    var comm := Filter(rows, IsCommercialDesk);
    var ccomm := Filter(Map(rows, AsDashboardRow), UserDataStore.IsCommercialRow);
    var withNew := Filter(comm, DeskHasNewPaid);
    var dash := Filter(ccomm, UserDataStore.HasNewPaid);
    assert UserDataStore.CalculateKpis(Map(rows, AsDashboardRow)).updatedDifferenceTotal
      == Sum(dash, UserDataStore.UpdatedDifference);
    FilterMapCommute(rows, AsDashboardRow, UserDataStore.IsCommercialRow, IsCommercialDesk);
    assert ccomm == Map(comm, AsDashboardRow);
    FilterMapCommute(comm, AsDashboardRow, UserDataStore.HasNewPaid, DeskHasNewPaid);
    assert dash == Map(withNew, AsDashboardRow);
    SumMapInto(withNew, AsDashboardRow, UserDataStore.UpdatedDifference, DashboardUpdated);
    SumFilterGuarded(comm, DeskHasNewPaid, DashboardUpdated, GuardedDashboardUpdated);
    forall i | 0 <= i < |comm|
      ensures GuardedDashboardUpdated(comm[i]) == UpdatedDiffOrZero(comm[i])
    {
      assert comm[i] in rows;
      GuardedUpdatedIsUpdatedDiff(comm[i]);
    }
    SumCongruent(comm, GuardedDashboardUpdated, UpdatedDiffOrZero);
  }

  /** The desktop's commercial KPIs are the dashboard's on the same rows:
      the same underpaid amount, updated difference and owed total; the
      desktop counts distinct scripts, so its count is never larger. */
  lemma DesktopKpisMatchDashboard(rows: seq<DeskRow>)
    requires forall i :: 0 <= i < |rows| ==> UpdatedDiffConsistent(rows[i])
    ensures var k := DesktopKpis(rows);
      var d := UserDataStore.CalculateKpis(Map(rows, AsDashboardRow));
      && k.underpaidAmt == d.underpaidCommercialAbs
      && k.updatedDiffTotal == d.updatedDifferenceTotal
      && k.owed == d.owedTotal
      && k.scriptCount <= d.scriptsCommercial
  {
    UnderpaidMatchesDashboard(rows);
    UpdatedMatchesDashboard(rows);
    FilterMapCommute(rows, AsDashboardRow, UserDataStore.IsCommercialRow, IsCommercialDesk);
  }

  /** The rows the screen shows satisfy what the KPI comparison needs. */
  lemma FetchedRowsConsistent(claims: seq<Claim>, start: string, end: string, t: Lookups, flt: string, pbm: string)
    ensures var rows := FetchData(claims, start, end, t, flt, pbm);
      forall i :: 0 <= i < |rows| ==> UpdatedDiffConsistent(rows[i])
  {
    var rows := FetchData(claims, start, end, t, flt, pbm);
    forall i | 0 <= i < |rows|
      ensures UpdatedDiffConsistent(rows[i])
    {
      assert rows[i] in rows;
    }
  }
}
