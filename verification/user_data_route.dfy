/** The claim list route: the store query, batch-wise enrichment, the
    derived filters applied after pricing, and page slicing of the result. */
module UserDataRoute {
  import opened Wrappers
  import opened JsNumber
  import opened Pricing
  import opened Seqs
  import opened Text
  import opened ClaimEval
  import opened LikePattern

  /** The outcome of `parseInt(text, 10)`. */
  datatype ParsedInt = NotANumber | IntValue(i: int)

  /** Rows fetched per store round trip. */
  const BatchSize: nat := 1000
  const MaxLimit: int := 10000
  const DefaultLimit: int := 25

  /** The query string. `None` is a missing or empty parameter; `page` and
      `limit` hold what `parseInt` made of a non-empty parameter. */
  datatype ListQuery = ListQuery(
    dateFrom: Option<string>, dateTo: Option<string>,
    script: Option<string>, ndc: Option<string>, drug: Option<string>,
    bin: Option<string>, status: Option<string>,
    owedType: Option<string>, basisParam: Option<string>, pbm: Option<string>,
    sortDir: Option<string>,
    page: Option<ParsedInt>, limit: Option<ParsedInt>)

  /** An optional store-side condition: no condition when the parameter is falsy. */
  predicate TextCondition(param: Option<string>, cell: Option<string>, test: (string, string) -> bool)
  {
    Truthy(param) ==> cell.Some? && test(cell.value, param.value)
  }

  predicate Equal(cell: string, param: string) { cell == param }

  predicate AtLeast(cell: string, param: string) { LexLe(param, cell) }

  predicate AtMost(cell: string, param: string) { LexLe(cell, param) }

  /** The store-side filters of one batch query (a null cell fails every
      comparison). The pharmacy scope is not a filter here: it is the
      `store` the route queries. */
  predicate StoreMatches(q: ListQuery, r: ClaimRow)
  {
    && TextCondition(q.dateFrom, r.dateDispensed, AtLeast)
    && TextCondition(q.dateTo, r.dateDispensed, AtMost)
    && TextCondition(q.script, Some(r.script), ILikeContains)
    && TextCondition(q.ndc, r.drugNdc, ILikeContains)
    && TextCondition(q.drug, r.drugName, ILikeContains)
    && TextCondition(q.bin, r.bin, Equal)
    && TextCondition(q.status, r.status, Equal)
  }

  /** The filters applied to enriched rows. */
  datatype DerivedFilters = DerivedFilters(owedType: Option<string>, basisParam: Option<string>,
                                           pbm: Option<string>)

  function DerivedOf(q: ListQuery): DerivedFilters
  {
    DerivedFilters(q.owedType, q.basisParam, q.pbm)
  }

  predicate HasExpected(e: ListRow) { e.expected.Some? }

  /** `typeof owed === "number" && owed > 0` (a NaN owed is neither). */
  predicate IsUnderpaid(e: ListRow) { e.owed.Some? && e.owed.value.Num? && e.owed.value.val > 0.0 }

  predicate IsOverpaid(e: ListRow) { e.owed.Some? && e.owed.value.Num? && e.owed.value.val < 0.0 }

  predicate OwedFilterOn(f: DerivedFilters) { f.owedType == Some("underpaid") || f.owedType == Some("overpaid") }

  predicate OwedOk(f: DerivedFilters, e: ListRow)
  {
    (f.owedType == Some("underpaid") ==> IsUnderpaid(e)) && (f.owedType == Some("overpaid") ==> IsOverpaid(e))
  }

  function MethodName(m: Method): string
  {
    match m
    case AAC => "AAC"
    case WAC => "WAC"
    case Other => "Other"
  }

  predicate MethodFilterOn(f: DerivedFilters) { f.basisParam == Some("AAC") || f.basisParam == Some("WAC") }

  predicate MethodOk(f: DerivedFilters, e: ListRow)
  {
    MethodFilterOn(f) ==> Some(MethodName(e.basis)) == f.basisParam
  }

  predicate PbmFilterOn(f: DerivedFilters) { Truthy(f.pbm) && f.pbm.value != "All" }

  predicate PbmOk(f: DerivedFilters, e: ListRow)
  {
    PbmFilterOn(f) ==> e.pbmName == f.pbm.value
  }

  /** Every derived filter at once: the row is priced and passes the owed,
      method and PBM filters that are switched on. */
  predicate PassesDerived(f: DerivedFilters, e: ListRow)
  {
    HasExpected(e) && OwedOk(f, e) && MethodOk(f, e) && PbmOk(f, e)
  }

  function Evaluator(t: ReferenceTables): ClaimRow -> ListRow
  {
    r => EvaluateForList(r, t)
  }

  function Keeper(f: DerivedFilters): ListRow -> bool
  {
    e => PassesDerived(f, e)
  }

  /** The reference result: every matching claim, enriched against the whole
      reference tables and kept when it passes every derived filter. */
  function DerivedRows(rows: seq<ClaimRow>, t: ReferenceTables, f: DerivedFilters): (r: seq<ListRow>)
    ensures |r| <= |rows|
  {
    Filter(Map(rows, Evaluator(t)), Keeper(f))
  }

  lemma DerivedRowsConcat(a: seq<ClaimRow>, b: seq<ClaimRow>, t: ReferenceTables, f: DerivedFilters)
    ensures DerivedRows(a + b, t, f) == DerivedRows(a, t, f) + DerivedRows(b, t, f)
  {
    MapConcat(a, b, Evaluator(t));
    FilterConcat(Map(a, Evaluator(t)), Map(b, Evaluator(t)), Keeper(f));
  }

  function OwedKeeper(f: DerivedFilters): ListRow -> bool { e => OwedOk(f, e) }

  function MethodKeeper(f: DerivedFilters): ListRow -> bool { e => MethodOk(f, e) }

  function PbmKeeper(f: DerivedFilters): ListRow -> bool { e => PbmOk(f, e) }

  /** The derived filters of `processBatch`, applied one after another, each
      only when its parameter switches it on. */
  function StagedFilters(enriched: seq<ListRow>, f: DerivedFilters): (r: seq<ListRow>)
    ensures |r| <= |enriched|
    ensures forall e :: e in r ==> e in enriched && PassesDerived(f, e)
  {
    var priced := Filter(enriched, HasExpected);
    var owed := if OwedFilterOn(f) then Filter(priced, OwedKeeper(f)) else priced;
    var byMethod := if MethodFilterOn(f) then Filter(owed, MethodKeeper(f)) else owed;
    if PbmFilterOn(f) then Filter(byMethod, PbmKeeper(f)) else byMethod
  }

  /** `processBatch`: enrich the batch against its own reference maps, then
      apply the derived filters. */
  function ProcessBatch(batch: seq<ClaimRow>, t: ReferenceTables, f: DerivedFilters): (r: seq<ListRow>)
    ensures |r| <= |batch|
    ensures forall e :: e in r ==> PassesDerived(f, e)
  {
    StagedFilters(Map(batch, Evaluator(BatchTables(batch, t))), f)
  }

  /** A filter that is switched off is the filter by a predicate that always holds. */
  lemma OptionalFilter(s: seq<ListRow>, on: bool, p: ListRow -> bool)
    requires !on ==> forall e :: p(e)
    ensures (if on then Filter(s, p) else s) == Filter(s, p)
  {
    if !on {
      FilterAll(s, p);
    }
  }

  function PricedOwedKeeper(f: DerivedFilters): ListRow -> bool
  {
    e => HasExpected(e) && OwedOk(f, e)
  }

  function PricedOwedMethodKeeper(f: DerivedFilters): ListRow -> bool
  {
    e => HasExpected(e) && OwedOk(f, e) && MethodOk(f, e)
  }

  /** Applying the filters in stages is filtering once by their conjunction. */
  lemma StagedFiltersFuse(s: seq<ListRow>, f: DerivedFilters)
    ensures StagedFilters(s, f) == Filter(s, Keeper(f))
  {
    var priced := Filter(s, HasExpected);
    OptionalFilter(priced, OwedFilterOn(f), OwedKeeper(f));
    FilterFuseInto(s, HasExpected, OwedKeeper(f), PricedOwedKeeper(f));
    var owed := Filter(s, PricedOwedKeeper(f));
    OptionalFilter(owed, MethodFilterOn(f), MethodKeeper(f));
    FilterFuseInto(s, PricedOwedKeeper(f), MethodKeeper(f), PricedOwedMethodKeeper(f));
    var byMethod := Filter(s, PricedOwedMethodKeeper(f));
    OptionalFilter(byMethod, PbmFilterOn(f), PbmKeeper(f));
    FilterFuseInto(s, PricedOwedMethodKeeper(f), PbmKeeper(f), Keeper(f));
  }

  /** Enriching a batch against its own maps is enriching it against the
      whole reference tables. */
  lemma BatchEnrichmentAgrees(batch: seq<ClaimRow>, t: ReferenceTables)
    ensures Map(batch, Evaluator(BatchTables(batch, t))) == Map(batch, Evaluator(t))
  {
    var enriched := Map(batch, Evaluator(BatchTables(batch, t)));
    var whole := Map(batch, Evaluator(t));
    forall i | 0 <= i < |batch|
      ensures enriched[i] == whole[i]
    {
      BatchTablesAgree(batch, t, batch[i]);
    }
  }

  /** Processing one batch against its own maps gives exactly the reference
      rows of that batch. */
  lemma ProcessBatchIsDerived(batch: seq<ClaimRow>, t: ReferenceTables, f: DerivedFilters)
    ensures ProcessBatch(batch, t, f) == DerivedRows(batch, t, f)
  {
    BatchEnrichmentAgrees(batch, t);
    StagedFiltersFuse(Map(batch, Evaluator(t)), f);
  }

  /** Page number after `Math.max(parseInt(page || "1"), 1)`. */
  function ClampPage(p: Option<ParsedInt>): (r: ParsedInt)
    ensures r.IntValue? ==> r.i >= 1
    ensures r.NotANumber? <==> p == Some(NotANumber)
    ensures p.None? ==> r == IntValue(1)
    ensures p.Some? && p.value.IntValue? && p.value.i >= 1 ==> r == p.value
  {
    match p
    case None => IntValue(1)
    case Some(NotANumber) => NotANumber
    case Some(IntValue(i)) => IntValue(if i < 1 then 1 else i)
  }

  /** Page size after `Math.min(Math.max(parseInt(limit || "25"), 1), 10000)`. */
  function ClampLimit(p: Option<ParsedInt>): (r: ParsedInt)
    ensures r.IntValue? ==> 1 <= r.i <= MaxLimit
    ensures r.NotANumber? <==> p == Some(NotANumber)
    ensures p.None? ==> r == IntValue(DefaultLimit)
    ensures p.Some? && p.value.IntValue? && 1 <= p.value.i <= MaxLimit ==> r == p.value
  {
    match p
    case None => IntValue(DefaultLimit)
    case Some(NotANumber) => NotANumber
    case Some(IntValue(i)) => IntValue(if i < 1 then 1 else if i > MaxLimit then MaxLimit else i)
  }

  function Min(a: int, b: int): int { if a < b then a else b }

  /** The first row index of a page: `(page - 1) * limit`. */
  function PageStart(page: int, limit: int): (start: int)
    requires page >= 1 && limit >= 1
    ensures start >= 0
    ensures start == 0 <==> page == 1
  {
    MulNonNegative(page - 1, limit);
    (page - 1) * limit
  }

  /** `rows.slice((page - 1) * limit, (page - 1) * limit + limit)`; a NaN
      bound acts as 0, so a NaN page or limit gives no rows. */
  function PageSlice<T>(rows: seq<T>, page: ParsedInt, limit: ParsedInt): (r: seq<T>)
    requires page.IntValue? ==> page.i >= 1
    requires limit.IntValue? ==> limit.i >= 1
    ensures page.NotANumber? || limit.NotANumber? ==> r == []
    ensures page.IntValue? && limit.IntValue? ==>
      var start := PageStart(page.i, limit.i);
      && |r| <= limit.i
      && (forall j :: 0 <= j < |r| ==> start + j < |rows| && r[j] == rows[start + j])
      && (start + limit.i <= |rows| ==> |r| == limit.i)
      && (start < |rows| ==> |r| > 0)
  {
    if page.NotANumber? || limit.NotANumber? then []
    else
      var start := PageStart(page.i, limit.i);
      SliceWindow(rows, start, limit.i);
      rows[Min(start, |rows|)..Min(start + limit.i, |rows|)]
  }

  lemma MulNonNegative(a: int, b: int)
    requires a >= 0 && b >= 0
    ensures a * b >= 0
    ensures a * b == 0 <==> a == 0 || b == 0
  {
  }

  /** The rows `slice(start, start + size)` keeps, for a non-negative start. */
  lemma SliceWindow<T>(rows: seq<T>, start: int, size: int)
    requires start >= 0 && size >= 1
    ensures var r := rows[Min(start, |rows|)..Min(start + size, |rows|)];
      && |r| <= size
      && (forall j :: 0 <= j < |r| ==> start + j < |rows| && r[j] == rows[start + j])
      && (start + size <= |rows| ==> |r| == size)
      && (start < |rows| ==> |r| > 0)
  {
  }

  /** Reading pages 1 to n in turn yields the first n * limit derived rows,
      so the pages tile the filtered result without gaps or overlaps. */
  lemma {:induction false} PagesTile<T>(rows: seq<T>, limit: int, n: nat)
    requires limit >= 1
    ensures Pages(rows, limit, n) == rows[..Min(n * limit, |rows|)]
  {
    if n > 0 {
      PagesTile(rows, limit, n - 1);
      var before := Min((n - 1) * limit, |rows|);
      var after := Min(n * limit, |rows|);
      assert PageSlice(rows, IntValue(n), IntValue(limit)) == rows[before..after];
      assert rows[..before] + rows[before..after] == rows[..after];
    }
  }

  function Pages<T>(rows: seq<T>, limit: int, n: nat): seq<T>
    requires limit >= 1
  {
    if n == 0 then [] else Pages(rows, limit, n - 1) + PageSlice(rows, IntValue(n), IntValue(limit))
  }

  /** The route's JSON reply. */
  datatype ListResponse =
    | Unauthorized
    | ListPage(rows: seq<ListRow>, total: nat, totalAfterDerivedFilters: nat, page: ParsedInt, limit: ParsedInt)

  /** The batch loop: fetch the matching claims 1000 at a time, process each
      batch and accumulate; stop on an empty or a short batch. `matching` is
      the store's answer to the query, in its sort order. */
  method CollectDerived(matching: seq<ClaimRow>, t: ReferenceTables, f: DerivedFilters)
    returns (rows: seq<ListRow>)
    ensures rows == DerivedRows(matching, t, f)
  {
    var start := 0;
    rows := [];
    while true
      invariant 0 <= start <= |matching|
      invariant rows == DerivedRows(matching[..start], t, f)
      decreases |matching| - start
    {
      var end := Min(start + BatchSize, |matching|);
      var batch := matching[start..end];
      if |batch| == 0 {
        assert matching[..start] == matching;
        break;
      }
      NextBatch(matching, start, end, t, f);
      rows := rows + ProcessBatch(batch, t, f);
      start := end;
      if |batch| < BatchSize {
        assert matching[..start] == matching;
        break;
      }
    }
  }

  /** One turn of the batch loop extends the processed prefix. */
  lemma NextBatch(matching: seq<ClaimRow>, start: nat, end: nat, t: ReferenceTables, f: DerivedFilters)
    requires start <= end <= |matching|
    ensures DerivedRows(matching[..start], t, f) + ProcessBatch(matching[start..end], t, f)
         == DerivedRows(matching[..end], t, f)
  {
    ProcessBatchIsDerived(matching[start..end], t, f);
    DerivedRowsConcat(matching[..start], matching[start..end], t, f);
    assert matching[..start] + matching[start..end] == matching[..end];
  }

  /** The list route. `store` is the pharmacy's claims in the query's sort
      order (date, then script); `signedIn` is whether a session exists. */
  method ListClaims(signedIn: bool, q: ListQuery, store: seq<ClaimRow>, t: ReferenceTables)
    returns (resp: ListResponse)
    ensures !signedIn <==> resp.Unauthorized?
    ensures resp.ListPage? ==>
      var derived := DerivedRows(Filter(store, r => StoreMatches(q, r)), t, DerivedOf(q));
      && resp.total == resp.totalAfterDerivedFilters == |derived|
      && resp.page == ClampPage(q.page) && resp.limit == ClampLimit(q.limit)
      && resp.rows == PageSlice(derived, resp.page, resp.limit)
      && forall e :: e in resp.rows ==> e in derived
  {
    var page := ClampPage(q.page);
    var limit := ClampLimit(q.limit);
    if !signedIn {
      return Unauthorized;
    }
    var matching := Filter(store, r => StoreMatches(q, r));
    var all := CollectDerived(matching, t, DerivedOf(q));
    resp := ListPage(PageSlice(all, page, limit), |all|, |all|, page, limit);
  }

  /** A NaN page or limit leaves the total intact but returns no rows. */
  lemma NotANumberPageIsEmpty(rows: seq<ListRow>, limit: ParsedInt)
    requires limit.IntValue? ==> limit.i >= 1
    ensures PageSlice(rows, ClampPage(Some(NotANumber)), limit) == []
  {
  }
}
