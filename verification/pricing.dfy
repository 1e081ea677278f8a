/** Pricing resolution shared by the claim list route and the KPI route:
    the baseline acquisition cost (AAC) wins when it is a positive number,
    otherwise a unit price is computed from the wholesale acquisition cost
    (WAC) record. The two routes differ in what they leave behind when
    neither source is usable, so both variants are modelled. */
module Pricing {
  import opened Wrappers
  import opened JsNumber
  import opened Text

  datatype Method = AAC | WAC | Other

  /** A `pharma_baseline` row as stored in the per-batch map: `aac` is the
      stored number or `parseFloat` of the stored text, hence possibly NaN. */
  datatype BaselineRecord = BaselineRecord(aac: Number, drugName: Option<string>)

  /** A `pharma_alt_rates` row as stored in the per-batch map; a missing
      generic indicator is already replaced by "". */
  datatype AltRateRecord = AltRateRecord(wac: Number, pkgSize: Number, pkgSizeMult: Number,
                                         genericIndicator: string)

  /** Brand-name drugs are priced at 96% of the package WAC. */
  const BrandFactor: real := 0.96

  /** Dispensing fee added to every expected reimbursement. */
  const FixedFee: real := 10.64

  /** Quantity times unit price plus the dispensing fee; the desktop's
      `FIXED_FEE` is the same fee. */
  function ExpectedPaid(qty: real, aac: real): real
  {
    qty * aac + FixedFee
  }

  /** The indicator, trimmed and upper-cased, is exactly "N". */
  predicate IsBrand(indicator: string)
  {
    var shown := ToUpper(JsTrim(indicator));
    |shown| == 1 && shown[0] == 'N'
  }

  /** Guard of the AAC branch: a baseline record whose price is a positive number. */
  predicate AacUsable(base: Option<BaselineRecord>)
  {
    base.Some? && base.value.aac.IsPositive()
  }

  /** Guard of the WAC branch: WAC, package size and multiplier all positive numbers. */
  predicate WacUsable(alt: Option<AltRateRecord>)
  {
    alt.Some? && alt.value.wac.IsPositive() && alt.value.pkgSize.IsPositive()
    && alt.value.pkgSizeMult.IsPositive()
  }

  /** Per-unit price derived from a usable WAC record. */
  function WacUnitPrice(alt: AltRateRecord): (u: real)
    requires WacUsable(Some(alt))
    ensures u > 0.0
    ensures IsBrand(alt.genericIndicator) ==>
      u * (alt.pkgSize.val * alt.pkgSizeMult.val) == BrandFactor * alt.wac.val
    ensures !IsBrand(alt.genericIndicator) ==>
      u * (alt.pkgSize.val * alt.pkgSizeMult.val) == alt.wac.val
  {
    var units := alt.pkgSize.val * alt.pkgSizeMult.val;
    assert units > 0.0 by {
      MulPositive(alt.pkgSize.val, alt.pkgSizeMult.val);
    }
    if IsBrand(alt.genericIndicator) then
      DivPositive(alt.wac.val * BrandFactor, units);
      (alt.wac.val * BrandFactor) / units
    else
      DivPositive(alt.wac.val, units);
      alt.wac.val / units
  }

  lemma MulPositive(a: real, b: real)
    requires a > 0.0 && b > 0.0
    ensures a * b > 0.0
  {
  }

  lemma DivPositive(a: real, b: real)
    requires a > 0.0 && b > 0.0
    ensures a / b > 0.0 && (a / b) * b == a
  {
  }

  /** The unit price a resolver settled on (`undefined` when `None`) and the method label. */
  datatype Resolution = Resolution(aac: Option<Number>, basis: Method)

  /** The KPI route's resolver: `aac` starts undefined and is only ever set
      by one of the two guarded branches. */
  function ResolveStrict(base: Option<BaselineRecord>, alt: Option<AltRateRecord>): (r: Resolution)
    ensures r.basis == AAC <==> AacUsable(base)
    ensures r.basis == WAC <==> !AacUsable(base) && WacUsable(alt)
    ensures r.aac.Some? <==> r.basis != Other
    ensures r.aac.Some? ==> r.aac.value.IsPositive()
    ensures r.basis == AAC ==> r.aac == Some(base.value.aac)
    ensures r.basis == WAC ==> r.aac == Some(Num(WacUnitPrice(alt.value)))
  {
    if AacUsable(base) then Resolution(Some(base.value.aac), AAC)
    else if WacUsable(alt) then Resolution(Some(Num(WacUnitPrice(alt.value))), WAC)
    else Resolution(None, Other)
  }

  /** The list route's resolver: `aac` starts as the baseline price whatever
      its value, and the WAC branch overwrites it only when AAC is unusable. */
  function ResolveSeeded(base: Option<BaselineRecord>, alt: Option<AltRateRecord>): (r: Resolution)
    ensures r.basis == AAC <==> AacUsable(base)
    ensures r.basis == WAC <==> !AacUsable(base) && WacUsable(alt)
    ensures r.basis == AAC ==> r.aac == Some(base.value.aac)
    ensures r.basis == WAC ==> r.aac == Some(Num(WacUnitPrice(alt.value)))
    ensures r.basis == Other ==>
      r.aac == (if base.Some? then Some(base.value.aac) else None)
  {
    var seed := if base.Some? then Some(base.value.aac) else None;
    if seed.Some? && seed.value.IsPositive() then Resolution(seed, AAC)
    else if WacUsable(alt) then Resolution(Some(Num(WacUnitPrice(alt.value))), WAC)
    else Resolution(seed, Other)
  }

  /** The two resolvers agree exactly when a price was resolved or there is no
      baseline record; otherwise the list route keeps the unusable baseline
      value (zero, negative or NaN) where the KPI route has none. */
  lemma ResolversAgreeUnlessBaselineUnusable(base: Option<BaselineRecord>, alt: Option<AltRateRecord>)
    ensures ResolveSeeded(base, alt).basis == ResolveStrict(base, alt).basis
    ensures ResolveSeeded(base, alt) == ResolveStrict(base, alt)
        <==> (AacUsable(base) || WacUsable(alt) || base.None?)
    ensures ResolveSeeded(base, alt) != ResolveStrict(base, alt) ==>
        ResolveStrict(base, alt).aac.None? && ResolveSeeded(base, alt).aac == Some(base.value.aac)
        && !base.value.aac.IsPositive()
  {
  }

  /** A one-character indicator is a brand one exactly when it upper-cases to 'N'. */
  lemma BrandSingle(s: string)
    requires |s| == 1 && !IsJsWhitespace(s[0])
    ensures IsBrand(s) <==> UpperChar(s[0]) == 'N'
  {
    TrimUntouched(s, IsJsWhitespace);
    assert s == [s[0]];
    UpperSingle(s[0]);
  }

  /** So is one with a single space on each side. */
  lemma BrandPadded(s: string)
    requires |s| == 3 && s[0] == ' ' && s[2] == ' ' && !IsJsWhitespace(s[1])
    ensures IsBrand(s) <==> UpperChar(s[1]) == 'N'
  {
    assert s == [' '] + [s[1]] + [' '];
    TrimPadded([s[1]], ' ', IsJsWhitespace);
    UpperSingle(s[1]);
  }

  /** The documented example: WAC 100 for a package of 2 x 1 units costs 48
      per unit for a brand drug and 50 for a generic one. */
  lemma WacExamples(indicator: string)
    ensures var r := AltRateRecord(Num(100.0), Num(2.0), Num(1.0), indicator);
      WacUsable(Some(r)) && WacUnitPrice(r) == (if IsBrand(indicator) then 48.0 else 50.0)
  {
  }

  /** An empty indicator is a generic one. */
  lemma EmptyIndicatorIsGeneric()
    ensures !IsBrand("")
  {
  }
}
