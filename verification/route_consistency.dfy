/** How the claim list's derived total relates to the KPI route's derived
    script count, and the two inputs on which they part ways. */
module RouteConsistency {
  import opened Wrappers
  import opened JsNumber
  import opened Pricing
  import opened Seqs
  import opened ClaimEval
  import opened UserDataRoute
  import opened KpisRoute

  /** Both resolvers see the claim the same way: it is priced, or it has no
      baseline record at all. */
  predicate PricedAlike(r: ClaimRow, t: ReferenceTables)
  {
    AacUsable(BaselineFor(r, t)) || WacUsable(AltFor(r, t)) || BaselineFor(r, t).None?
  }

  /** Per claim: the list route keeps it exactly when the KPI route counts it
      as a derived script, given no PBM filter and alike pricing. */
  lemma RowAgreement(q: ListQuery, r: ClaimRow, t: ReferenceTables)
    requires !PbmFilterOn(DerivedOf(q))
    requires PricedAlike(r, t)
    ensures PassesDerived(DerivedOf(q), EvaluateForList(r, t)) <==> PassingPriced(q)(EvaluateForKpis(r, t))
  {
    ResolversAgreeUnlessBaselineUnusable(BaselineFor(r, t), AltFor(r, t));
  }

  /** Without a PBM filter, and when every matching claim is priced alike,
      the list's `totalAfterDerivedFilters` equals the KPI `scriptsAllDerived`. */
  lemma ListTotalIsKpiDerivedCount(q: ListQuery, matching: seq<ClaimRow>, t: ReferenceTables)
    requires !PbmFilterOn(DerivedOf(q))
    requires forall i :: 0 <= i < |matching| ==> PricedAlike(matching[i], t)
    ensures |DerivedRows(matching, t, DerivedOf(q))| == Reference(q, Map(matching, KpiEvaluator(t))).scriptsAllDerived
  {
    var listKeep: ClaimRow -> bool := x => Keeper(DerivedOf(q))(Evaluator(t)(x));
    var kpiKeep: ClaimRow -> bool := x => PassingPriced(q)(KpiEvaluator(t)(x));
    CountMapInto(matching, Evaluator(t), Keeper(DerivedOf(q)), listKeep);
    CountMapInto(matching, KpiEvaluator(t), PassingPriced(q), kpiKeep);
    forall i | 0 <= i < |matching|
      ensures listKeep(matching[i]) == kpiKeep(matching[i])
    {
      RowAgreement(q, matching[i], t);
    }
    FilterCongruent(matching, listKeep, kpiKeep);
  }

  /** A claim whose baseline price is 0 and that has no WAC record. */
  const ZeroPricedClaim: ClaimRow :=
    ClaimRow("RX1", Some("2024-01-02"), Some("00000000001"), None, Some(2.0), Some(5.0),
             None, None, None, None)

  const ZeroPricedTables: ReferenceTables :=
    ReferenceTables(map["00000000001" := BaselineRecord(Num(0.0), None)], map[], map[])

  /** The list route prices the zero-baseline claim under Other, at the fee. */
  lemma ZeroBaselineListRow()
    ensures var e := EvaluateForList(ZeroPricedClaim, ZeroPricedTables);
      e.basis == Other && e.expected == Some(Num(FixedFee)) && e.owed == Some(Num(5.64))
  {
    assert BaselineFor(ZeroPricedClaim, ZeroPricedTables) == Some(BaselineRecord(Num(0.0), None));
    assert AltFor(ZeroPricedClaim, ZeroPricedTables) == None;
  }

  /** The KPI route finds no price for the zero-baseline claim. */
  lemma ZeroBaselineKpiRow()
    ensures !EvaluateForKpis(ZeroPricedClaim, ZeroPricedTables).hasPrice
  {
    assert BaselineFor(ZeroPricedClaim, ZeroPricedTables) == Some(BaselineRecord(Num(0.0), None));
    assert AltFor(ZeroPricedClaim, ZeroPricedTables) == None;
  }

  /** A zero baseline price: the list route keeps the claim with an expected
      payment of just the fee, while the KPI route does not count it. */
  lemma ZeroBaselineDiverges()
    ensures var e := EvaluateForList(ZeroPricedClaim, ZeroPricedTables);
      e.basis == Other && e.expected == Some(Num(FixedFee)) && e.owed == Some(Num(5.64))
    ensures !EvaluateForKpis(ZeroPricedClaim, ZeroPricedTables).hasPrice
    ensures |DerivedRows([ZeroPricedClaim], ZeroPricedTables, DerivedFilters(None, None, None))| == 1
    ensures Reference(NoFilters, Map([ZeroPricedClaim], KpiEvaluator(ZeroPricedTables))).scriptsAllDerived == 0
  {
    ZeroBaselineListRow();
    ZeroBaselineKpiRow();
    var e := EvaluateForList(ZeroPricedClaim, ZeroPricedTables);
    assert Map([ZeroPricedClaim], Evaluator(ZeroPricedTables)) == [e];
    assert Filter([e], Keeper(DerivedFilters(None, None, None))) == [e];
    var k := EvaluateForKpis(ZeroPricedClaim, ZeroPricedTables);
    assert Map([ZeroPricedClaim], KpiEvaluator(ZeroPricedTables)) == [k];
    assert Filter([k], PassingPriced(NoFilters)) == [];
  }

  const NoFilters: ListQuery :=
    ListQuery(None, None, None, None, None, None, None, None, None, None, None, None, None)

  /** A PBM whose name is literally "Federal": the list route files the claim
      under the Federal name, while the KPI route counts it as commercial. */
  lemma FederalNamedPbmDiverges()
    ensures var pbms := map["610014" := Some(Federal)];
      PbmName(Some("610014"), pbms) == Federal && HasPbmName(Some("610014"), pbms)
  {
  }
}
