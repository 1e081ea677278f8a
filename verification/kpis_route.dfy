/** The dashboard KPI route: a single pass over the matching claims that
    counts priced scripts and accumulates owed and updated-payment totals,
    split between all payers and commercial (named-PBM) payers. */
module KpisRoute {
  import opened Wrappers
  import opened JsNumber
  import opened Pricing
  import opened Seqs
  import opened ClaimEval
  import opened UserDataRoute

  /** What the aggregation needs of one claim. */
  datatype KpiRow = KpiRow(hasPrice: bool, basis: Method, difference: Option<Number>,
                           commercial: bool, paid: real, newPaid: Option<real>)

  /** Pricing of one claim as the KPI route does it: strict AAC guard, then
      WAC; "commercial" means the bin maps to a non-empty PBM name. */
  function EvaluateForKpis(r: ClaimRow, t: ReferenceTables): (k: KpiRow)
    ensures k.hasPrice <==> AacUsable(BaselineFor(r, t)) || WacUsable(AltFor(r, t))
    ensures k.hasPrice <==> k.basis != Other
    ensures k.hasPrice <==> k.difference.Some?
    ensures k.hasPrice ==> k.difference.value.Num?
    ensures k.commercial <==> HasPbmName(r.bin, t.pbmNames)
    ensures k.paid == CellOrZero(r.totalPaid) && k.newPaid == r.newPaid
    ensures k.difference == Reconcile(CellOrZero(r.qty), k.paid, ResolveStrict(BaselineFor(r, t), AltFor(r, t)).aac).difference
    ensures AacUsable(BaselineFor(r, t)) ==>
      k.difference == Some(Num(k.paid - ExpectedPaid(CellOrZero(r.qty), BaselineFor(r, t).value.aac.val)))
    ensures !AacUsable(BaselineFor(r, t)) && WacUsable(AltFor(r, t)) ==>
      k.difference == Some(Num(k.paid - ExpectedPaid(CellOrZero(r.qty), WacUnitPrice(AltFor(r, t).value))))
  {
    var base := BaselineFor(r, t);
    var alt := AltFor(r, t);
    var paid := CellOrZero(r.totalPaid);
    var res := ResolveStrict(base, alt);
    var m := Reconcile(CellOrZero(r.qty), paid, res.aac);
    KpiRow(res.aac.Some?, res.basis, m.difference, HasPbmName(r.bin, t.pbmNames), paid, r.newPaid)
  }

  function KpiEvaluator(t: ReferenceTables): ClaimRow -> KpiRow
  {
    r => EvaluateForKpis(r, t)
  }

  /** The owed-type and method filters (`passesDerived`). Underpaid means a
      negative payer-side difference; a NaN difference passes neither. */
  predicate KpiPasses(q: ListQuery, k: KpiRow)
  {
    && (q.owedType == Some("underpaid") ==> k.difference.Some? && k.difference.value.Num? && k.difference.value.val < 0.0)
    && (q.owedType == Some("overpaid") ==> k.difference.Some? && k.difference.value.Num? && k.difference.value.val > 0.0)
    && (q.basisParam == Some("AAC") ==> k.basis == AAC)
    && (q.basisParam == Some("WAC") ==> k.basis == WAC)
  }

  /** The nine totals the route returns. */
  datatype Kpis = Kpis(
    scriptsAll: nat, scriptsCommercial: nat,
    scriptsAllDerived: nat, scriptsCommercialDerived: nat,
    underpaidAllAbs: real, underpaidCommercialAbs: real,
    owedNetAll: real, owedNetCommercial: real,
    updatedDifferenceTotal: real)

  const Zero: Kpis := Kpis(0, 0, 0, 0, 0.0, 0.0, 0.0, 0.0, 0.0)

  /** A finite difference, or none. */
  function FiniteDifference(k: KpiRow): Option<real>
  {
    if k.difference.Some? && k.difference.value.Num? then Some(k.difference.value.val) else None
  }

  /** The body of the per-row loop: update the counters for one claim. */
  function Step(acc: Kpis, q: ListQuery, k: KpiRow): Kpis
  {
    var a1 := if k.hasPrice then
        acc.(scriptsAll := acc.scriptsAll + 1,
             scriptsCommercial := acc.scriptsCommercial + if k.commercial then 1 else 0)
      else acc;
    if !KpiPasses(q, k) then a1
    else
      var a2 := if k.hasPrice then
          a1.(scriptsAllDerived := a1.scriptsAllDerived + 1,
              scriptsCommercialDerived := a1.scriptsCommercialDerived + if k.commercial then 1 else 0)
        else a1;
      var d := FiniteDifference(k);
      var a3 := if d.Some? then
          a2.(owedNetAll := a2.owedNetAll - d.value,
              owedNetCommercial := a2.owedNetCommercial - if k.commercial then d.value else 0.0)
        else a2;
      var a4 := if d.Some? && d.value < 0.0 then
          a3.(underpaidAllAbs := a3.underpaidAllAbs - d.value,
              underpaidCommercialAbs := a3.underpaidCommercialAbs - if k.commercial then d.value else 0.0)
        else a3;
      if k.commercial && k.newPaid.Some? then
        a4.(updatedDifferenceTotal := a4.updatedDifferenceTotal + (k.newPaid.value - k.paid))
      else a4
  }

  /** The running totals after the loop has seen `ks` in order. */
  function Aggregate(q: ListQuery, ks: seq<KpiRow>): Kpis
    decreases |ks|
  {
    if |ks| == 0 then Zero else Step(Aggregate(q, ks[..|ks| - 1]), q, ks[|ks| - 1])
  }

  function Priced(): KpiRow -> bool { (k: KpiRow) => k.hasPrice }

  function PricedCommercial(): KpiRow -> bool { (k: KpiRow) => k.hasPrice && k.commercial }

  function Passing(q: ListQuery): KpiRow -> bool { k => KpiPasses(q, k) }

  function PassingCommercial(q: ListQuery): KpiRow -> bool { k => KpiPasses(q, k) && k.commercial }

  function PassingPriced(q: ListQuery): KpiRow -> bool { k => KpiPasses(q, k) && k.hasPrice }

  function PassingPricedCommercial(q: ListQuery): KpiRow -> bool
  {
    k => KpiPasses(q, k) && k.hasPrice && k.commercial
  }

  /** What the claim owes the pharmacy (`-difference`), 0 when unpriced or NaN. */
  function OwedAmount(k: KpiRow): real
  {
    var d := FiniteDifference(k);
    if d.Some? then -d.value else 0.0
  }

  /** The underpayment `|difference|` of an underpaid claim, else 0. */
  function UnderpaidAmount(k: KpiRow): (a: real)
    ensures a >= 0.0
  {
    var d := FiniteDifference(k);
    if d.Some? && d.value < 0.0 then -d.value else 0.0
  }

  /** `new_paid - total_paid` when a new payment is recorded, else 0. */
  function UpdatedAmount(k: KpiRow): real
  {
    if k.newPaid.Some? then k.newPaid.value - k.paid else 0.0
  }

  /** The totals as independent counts and sums over the claims. */
  function Reference(q: ListQuery, ks: seq<KpiRow>): Kpis
  {
    Kpis(
      Count(ks, Priced()), Count(ks, PricedCommercial()),
      Count(ks, PassingPriced(q)), Count(ks, PassingPricedCommercial(q)),
      Sum(Filter(ks, Passing(q)), UnderpaidAmount), Sum(Filter(ks, PassingCommercial(q)), UnderpaidAmount),
      Sum(Filter(ks, Passing(q)), OwedAmount), Sum(Filter(ks, PassingCommercial(q)), OwedAmount),
      Sum(Filter(ks, PassingCommercial(q)), UpdatedAmount))
  }

  function Indicator(b: bool): nat { if b then 1 else 0 }

  function IfReal(b: bool, x: real): real { if b then x else 0.0 }

  /** Each counter moves by the claim's contribution, if it counts there. */
  lemma StepEffect(acc: Kpis, q: ListQuery, k: KpiRow)
    ensures Step(acc, q, k) == Kpis(
      acc.scriptsAll + Indicator(Priced()(k)),
      acc.scriptsCommercial + Indicator(PricedCommercial()(k)),
      acc.scriptsAllDerived + Indicator(PassingPriced(q)(k)),
      acc.scriptsCommercialDerived + Indicator(PassingPricedCommercial(q)(k)),
      acc.underpaidAllAbs + IfReal(Passing(q)(k), UnderpaidAmount(k)),
      acc.underpaidCommercialAbs + IfReal(PassingCommercial(q)(k), UnderpaidAmount(k)),
      acc.owedNetAll + IfReal(Passing(q)(k), OwedAmount(k)),
      acc.owedNetCommercial + IfReal(PassingCommercial(q)(k), OwedAmount(k)),
      acc.updatedDifferenceTotal + IfReal(PassingCommercial(q)(k), UpdatedAmount(k)))
  {
  }

  /** The reference totals grow by the same contributions. */
  lemma ReferenceSnoc(q: ListQuery, init: seq<KpiRow>, k: KpiRow)
    ensures Reference(q, init + [k]) == Step(Reference(q, init), q, k)
  {
    StepEffect(Reference(q, init), q, k);
    CountSnoc(init, k, Priced());
    CountSnoc(init, k, PricedCommercial());
    CountSnoc(init, k, PassingPriced(q));
    CountSnoc(init, k, PassingPricedCommercial(q));
    SumFilterSnoc(init, k, Passing(q), UnderpaidAmount);
    SumFilterSnoc(init, k, PassingCommercial(q), UnderpaidAmount);
    SumFilterSnoc(init, k, Passing(q), OwedAmount);
    SumFilterSnoc(init, k, PassingCommercial(q), OwedAmount);
    SumFilterSnoc(init, k, PassingCommercial(q), UpdatedAmount);
  }

  /** The loop's running totals are the reference counts and sums. */
  lemma {:induction false} AggregateIsReference(q: ListQuery, ks: seq<KpiRow>)
    ensures Aggregate(q, ks) == Reference(q, ks)
    decreases |ks|
  {
    if |ks| > 0 {
      var init := ks[..|ks| - 1];
      var k := ks[|ks| - 1];
      assert ks == init + [k];
      AggregateIsReference(q, init);
      ReferenceSnoc(q, init, k);
    }
  }

  /** One more claim of the matching sequence folded in. */
  lemma AggregatePrefixSnoc(q: ListQuery, matching: seq<ClaimRow>, j: nat, t: ReferenceTables)
    requires j < |matching|
    ensures Aggregate(q, Map(matching[..j + 1], KpiEvaluator(t)))
         == Step(Aggregate(q, Map(matching[..j], KpiEvaluator(t))), q, EvaluateForKpis(matching[j], t))
  {
    MapPrefixSnoc(matching, j, KpiEvaluator(t));
    var m := Map(matching[..j + 1], KpiEvaluator(t));
    assert m[..|m| - 1] == Map(matching[..j], KpiEvaluator(t));
  }

  /** Order of the counters: commercial scripts are among all scripts and the
      derived counts are among the counts before the owed and method filters; underpaid totals are
      non-negative and the commercial one never exceeds the overall one. */
  lemma ReferenceBounds(q: ListQuery, ks: seq<KpiRow>)
    ensures var r := Reference(q, ks);
      && r.scriptsCommercial <= r.scriptsAll
      && r.scriptsAllDerived <= r.scriptsAll
      && r.scriptsCommercialDerived <= r.scriptsAllDerived
      && r.scriptsCommercialDerived <= r.scriptsCommercial
      && 0.0 <= r.underpaidCommercialAbs <= r.underpaidAllAbs
  {
    CountImplies(ks, PricedCommercial(), Priced());
    CountImplies(ks, PassingPriced(q), Priced());
    CountImplies(ks, PassingPricedCommercial(q), PassingPriced(q));
    CountImplies(ks, PassingPricedCommercial(q), PricedCommercial());
    SumFilterImplies(ks, PassingCommercial(q), Passing(q), UnderpaidAmount);
    var c := Filter(ks, PassingCommercial(q));
    SumNonNegative(c, UnderpaidAmount);
  }

  /** One claim of a batch, evaluated against the batch's maps. */
  lemma BatchKpiAgrees(batch: seq<ClaimRow>, t: ReferenceTables, r: ClaimRow)
    requires r in batch
    ensures EvaluateForKpis(r, BatchTables(batch, t)) == EvaluateForKpis(r, t)
  {
    BatchTablesAgree(batch, t, r);
  }

  /** The inner loop's step: a claim evaluated against its batch's maps
      extends the running totals over the matching prefix. */
  lemma BatchRowStep(q: ListQuery, matching: seq<ClaimRow>, start: nat, end: nat, i: nat, t: ReferenceTables,
                      totals: Kpis)
    requires start <= end <= |matching| && i < end - start
    requires totals == Aggregate(q, Map(matching[..start + i], KpiEvaluator(t)))
    ensures Step(totals, q, EvaluateForKpis(matching[start..end][i], BatchTables(matching[start..end], t)))
         == Aggregate(q, Map(matching[..start + (i + 1)], KpiEvaluator(t)))
  {
    var batch := matching[start..end];
    assert batch[i] == matching[start + i];
    BatchKpiAgrees(batch, t, batch[i]);
    AggregatePrefixSnoc(q, matching, start + i, t);
  }

  /** The inner loop over one batch: each row, evaluated against the
      batch's maps, is folded into the running totals. */
  method FoldBatch(q: ListQuery, matching: seq<ClaimRow>, start: nat, end: nat, t: ReferenceTables, totals: Kpis)
    returns (r: Kpis)
    requires start <= end <= |matching|
    requires totals == Aggregate(q, Map(matching[..start], KpiEvaluator(t)))
    ensures r == Aggregate(q, Map(matching[..end], KpiEvaluator(t)))
  {
    var batch := matching[start..end];
    var maps := BatchTables(batch, t);
    r := totals;
    var i := 0;
    while i < |batch|
      invariant 0 <= i <= |batch|
      invariant r == Aggregate(q, Map(matching[..start + i], KpiEvaluator(t)))
    {
      BatchRowStep(q, matching, start, end, i, t, r);
      r := Step(r, q, EvaluateForKpis(batch[i], maps));
      i := i + 1;
    }
  }

  /** The route's loop: batches of 1000 matching claims, each folded into
      the totals; stop on an empty or short batch. */
  method ComputeKpis(matching: seq<ClaimRow>, t: ReferenceTables, q: ListQuery) returns (totals: Kpis)
    ensures totals == Reference(q, Map(matching, KpiEvaluator(t)))
  {
    var start := 0;
    totals := Zero;
    while true
      invariant 0 <= start <= |matching|
      invariant totals == Aggregate(q, Map(matching[..start], KpiEvaluator(t)))
      decreases |matching| - start
    {
      var end := Min(start + BatchSize, |matching|);
      var batch := matching[start..end];
      if |batch| == 0 {
        break;
      }
      totals := FoldBatch(q, matching, start, end, t, totals);
      start := end;
      if |batch| < BatchSize {
        break;
      }
    }
    assert matching[..start] == matching;
    AggregateIsReference(q, Map(matching, KpiEvaluator(t)));
  }

  datatype KpiResponse = KpiUnauthorized | KpiTotals(kpis: Kpis)

  /** The KPI route. It reads the store filters, `owedType` and `method`;
      the PBM, sort and paging parameters play no part. */
  method GetKpis(signedIn: bool, q: ListQuery, store: seq<ClaimRow>, t: ReferenceTables)
    returns (resp: KpiResponse)
    ensures !signedIn <==> resp.KpiUnauthorized?
    ensures resp.KpiTotals? ==>
      resp.kpis == Reference(q, Map(Filter(store, r => StoreMatches(q, r)), KpiEvaluator(t)))
    ensures resp.KpiTotals? ==>
      && resp.kpis.scriptsCommercialDerived <= resp.kpis.scriptsAllDerived <= resp.kpis.scriptsAll
      && 0.0 <= resp.kpis.underpaidCommercialAbs <= resp.kpis.underpaidAllAbs
  {
    if !signedIn {
      return KpiUnauthorized;
    }
    var matching := Filter(store, r => StoreMatches(q, r));
    var totals := ComputeKpis(matching, t, q);
    ReferenceBounds(q, Map(matching, KpiEvaluator(t)));
    resp := KpiTotals(totals);
  }
}
