/** The per-claim evaluator of the claim list route (`processBatch`'s
    enrichment step): pricing, expected reimbursement, owed amount and payer
    name for one dispensed claim, given the reference tables. */
module ClaimEval {
  import opened Wrappers
  import opened JsNumber
  import opened Pricing

  /** A `pharma_user_data` row. Numeric cells are null or finite numbers. */
  datatype ClaimRow = ClaimRow(
    script: string,
    dateDispensed: Option<string>,
    drugNdc: Option<string>,
    drugName: Option<string>,
    qty: Option<real>,
    totalPaid: Option<real>,
    newPaid: Option<real>,
    bin: Option<string>,
    pdfFile: Option<string>,
    status: Option<string>)

  /** Reference data keyed the way the per-batch maps are: baseline and WAC
      records by NDC, PBM names by bin (a stored `pbm_name` may be null). */
  datatype ReferenceTables = ReferenceTables(
    baseline: map<string, BaselineRecord>,
    altRates: map<string, AltRateRecord>,
    pbmNames: map<string, Option<string>>)

  /** The payer bucket of claims without a named PBM. */
  const Federal: string := "Federal"

  /** `typeof x === "number" ? x : x ? Number(x) : 0` for a null-or-number cell. */
  function CellOrZero(c: Option<real>): real
  {
    c.GetOr(0.0)
  }

  function BaselineFor(r: ClaimRow, t: ReferenceTables): Option<BaselineRecord>
  {
    var key := OrEmpty(r.drugNdc);
    if key != "" then Get(t.baseline, key) else None
  }

  function AltFor(r: ClaimRow, t: ReferenceTables): Option<AltRateRecord>
  {
    var key := OrEmpty(r.drugNdc);
    if key != "" then Get(t.altRates, key) else None
  }

  /** The bin has a PBM row whose name is non-empty. This is the KPI route's
      notion of "commercial". */
  predicate HasPbmName(bin: Option<string>, pbmNames: map<string, Option<string>>)
  {
    Truthy(bin) && bin.value in pbmNames && Truthy(pbmNames[bin.value])
  }

  /** The list route's payer name: the mapped PBM name, or "Federal" when the
      bin is missing or empty, has no PBM row, or maps to a null or empty name. */
  function PbmName(bin: Option<string>, pbmNames: map<string, Option<string>>): (name: string)
    ensures name != ""
    ensures HasPbmName(bin, pbmNames) ==> Some(name) == pbmNames[bin.value]
    ensures !HasPbmName(bin, pbmNames) ==> name == Federal
  {
    if Truthy(bin) then
      var mapped := if bin.value in pbmNames then pbmNames[bin.value] else None;
      if Truthy(mapped) then mapped.value else Federal
    else Federal
  }

  /** Expected reimbursement, payer-side difference and owed amount derived
      from a resolved unit price (`None` is `undefined`). */
  datatype Reconciliation = Reconciliation(expected: Option<Number>, difference: Option<Number>,
                                           owed: Option<Number>)

  /** `expected = qty * aac + 10.64`, `difference = paid - expected`,
      `owed = -difference`, each undefined when `aac` is. */
  function Reconcile(qty: real, paid: real, aac: Option<Number>): (m: Reconciliation)
    ensures m.expected.Some? <==> aac.Some?
    ensures m.difference.Some? <==> aac.Some?
    ensures m.owed.Some? <==> aac.Some?
    ensures aac.Some? && aac.value.NaN? ==>
      m.expected == Some(NaN) && m.difference == Some(NaN) && m.owed == Some(NaN)
    ensures aac.Some? && aac.value.Num? ==>
      && m.expected.value.Num? && m.difference.value.Num? && m.owed.value.Num?
      && m.expected.value.val - FixedFee == qty * aac.value.val
      && m.owed.value.val == m.expected.value.val - paid
      && m.difference.value.val == -m.owed.value.val
    ensures aac.Some? && aac.value.Num? ==>
      m.owed == Some(Num(ExpectedPaid(qty, aac.value.val) - paid))
      && m.difference == Some(Num(paid - ExpectedPaid(qty, aac.value.val)))
  {
    if aac.None? then Reconciliation(None, None, None)
    else
      var expected := Add(Mul(Num(qty), aac.value), Num(FixedFee));
      assert aac.value.Num? ==> expected == Num(ExpectedPaid(qty, aac.value.val));
      var difference := Sub(Num(paid), expected);
      Reconciliation(Some(expected), Some(difference), Some(Neg(difference)))
  }

  /** A claim row enriched by the list route (its JSON row shape). */
  datatype ListRow = ListRow(
    script: string,
    date: Option<string>,
    ndc: string,
    drugName: string,
    qty: real,
    aac: Option<Number>,
    wac: Option<Number>,
    basis: Method,
    expected: Option<Number>,
    paid: real,
    newPaid: Option<real>,
    owed: Option<Number>,
    bin: Option<string>,
    pbmName: string,
    status: Option<string>,
    pdfUrl: Option<string>)

  /** The enrichment of one row in `processBatch`. */
  function EvaluateForList(r: ClaimRow, t: ReferenceTables): (e: ListRow)
    ensures e.script == r.script && e.paid == CellOrZero(r.totalPaid) && e.qty == CellOrZero(r.qty)
    ensures e.basis == AAC <==> AacUsable(BaselineFor(r, t))
    ensures e.basis == AAC ==> e.aac == Some(BaselineFor(r, t).value.aac)
    ensures e.basis == WAC <==> !AacUsable(BaselineFor(r, t)) && WacUsable(AltFor(r, t))
    ensures e.basis == WAC ==> e.aac == Some(Num(WacUnitPrice(AltFor(r, t).value)))
    ensures e.expected.Some? <==> BaselineFor(r, t).Some? || WacUsable(AltFor(r, t))
    ensures e.expected.Some? <==> e.owed.Some?
    ensures e.basis != Other ==> e.expected.Some? && e.expected.value.Num?
    ensures e.basis == Other ==>
      e.aac == (if BaselineFor(r, t).Some? then Some(BaselineFor(r, t).value.aac) else None)
    ensures e.expected == Reconcile(e.qty, e.paid, e.aac).expected
    ensures e.owed == Reconcile(e.qty, e.paid, e.aac).owed
    ensures AacUsable(BaselineFor(r, t)) ==>
      e.owed == Some(Num(ExpectedPaid(e.qty, BaselineFor(r, t).value.aac.val) - e.paid))
    ensures !AacUsable(BaselineFor(r, t)) && WacUsable(AltFor(r, t)) ==>
      e.owed == Some(Num(ExpectedPaid(e.qty, WacUnitPrice(AltFor(r, t).value)) - e.paid))
    ensures e.wac == (if AltFor(r, t).Some? then Some(AltFor(r, t).value.wac) else None)
    ensures e.ndc == OrEmpty(r.drugNdc) && e.date == OrNull(r.dateDispensed) && e.bin == OrNull(r.bin)
    ensures e.status == OrNull(r.status) && e.pdfUrl == OrNull(r.pdfFile)
    ensures Truthy(r.drugName) ==> e.drugName == r.drugName.value
    ensures !Truthy(r.drugName) ==>
      e.drugName == (if BaselineFor(r, t).Some? then OrEmpty(BaselineFor(r, t).value.drugName) else "")
    ensures e.pbmName == PbmName(r.bin, t.pbmNames)
    ensures e.newPaid == r.newPaid
  {
    var base := BaselineFor(r, t);
    var alt := AltFor(r, t);
    var qty := CellOrZero(r.qty);
    var paid := CellOrZero(r.totalPaid);
    var res := ResolveSeeded(base, alt);
    assert AacUsable(base) ==> res.aac == Some(base.value.aac);
    assert !AacUsable(base) && WacUsable(alt) ==> res.aac == Some(Num(WacUnitPrice(alt.value)));
    var m := Reconcile(qty, paid, res.aac);
    ListRow(
      r.script,
      OrNull(r.dateDispensed),
      OrEmpty(r.drugNdc),
      if Truthy(r.drugName) then r.drugName.value
      else if base.Some? then OrEmpty(base.value.drugName) else "",
      qty,
      res.aac,
      if alt.Some? then Some(alt.value.wac) else None,
      res.basis,
      m.expected,
      paid,
      r.newPaid,
      m.owed,
      OrNull(r.bin),
      PbmName(r.bin, t.pbmNames),
      OrNull(r.status),
      OrNull(r.pdfFile))
  }

  /** The worked examples: 3 units at 10 are expected to pay 40.64, so a
      payment of 30 leaves 10.64 owed; 30 units at an AAC of 0.12 are
      expected to pay 14.24, so 9.76 paid leaves 4.48 owed. */
  lemma ReconcileExamples()
    ensures Reconcile(3.0, 30.0, Some(Num(10.0)))
         == Reconciliation(Some(Num(40.64)), Some(Num(-10.64)), Some(Num(10.64)))
    ensures Reconcile(30.0, 9.76, Some(Num(0.12)))
         == Reconciliation(Some(Num(14.24)), Some(Num(-4.48)), Some(Num(4.48)))
  {
  }

  /** The reference maps a batch builds: only the NDCs and bins that occur in
      the batch are fetched (`.in("ndc", ndcs)`, `.in("bin", bins)`). */
  function BatchTables(batch: seq<ClaimRow>, t: ReferenceTables): (b: ReferenceTables)
    ensures b.baseline.Keys <= t.baseline.Keys && b.altRates.Keys <= t.altRates.Keys
    ensures b.pbmNames.Keys <= t.pbmNames.Keys
    ensures forall k :: k in b.baseline ==> b.baseline[k] == t.baseline[k]
    ensures forall k :: k in b.altRates ==> b.altRates[k] == t.altRates[k]
    ensures forall k :: k in b.pbmNames ==> b.pbmNames[k] == t.pbmNames[k]
    ensures forall r :: r in batch && Truthy(r.drugNdc) && r.drugNdc.value in t.baseline ==> r.drugNdc.value in b.baseline
    ensures forall r :: r in batch && Truthy(r.drugNdc) && r.drugNdc.value in t.altRates ==> r.drugNdc.value in b.altRates
    ensures forall r :: r in batch && Truthy(r.bin) && r.bin.value in t.pbmNames ==> r.bin.value in b.pbmNames
  {
    var ndcs := set r | r in batch && Truthy(r.drugNdc) :: r.drugNdc.value;
    var bins := set r | r in batch && Truthy(r.bin) :: r.bin.value;
    ReferenceTables(
      map k | k in t.baseline && k in ndcs :: t.baseline[k],
      map k | k in t.altRates && k in ndcs :: t.altRates[k],
      map k | k in t.pbmNames && k in bins :: t.pbmNames[k])
  }

  /** Evaluating a row against its batch's maps gives the same result as
      against the whole reference tables, so batching is unobservable. */
  lemma BatchTablesAgree(batch: seq<ClaimRow>, t: ReferenceTables, r: ClaimRow)
    requires r in batch
    ensures EvaluateForList(r, BatchTables(batch, t)) == EvaluateForList(r, t)
    ensures BaselineFor(r, BatchTables(batch, t)) == BaselineFor(r, t)
    ensures AltFor(r, BatchTables(batch, t)) == AltFor(r, t)
    ensures HasPbmName(r.bin, BatchTables(batch, t).pbmNames) <==> HasPbmName(r.bin, t.pbmNames)
  {
  }
}
