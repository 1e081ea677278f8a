/** The dashboard's client-side store: filtering of the fetched rows, the
    commercial KPIs computed from them, the filter state updates, and the
    map of saved PDF paths keyed by report context. */
module UserDataStore {
  import opened Wrappers
  import opened Seqs
  import opened Text
  import opened ClaimEval
  import opened ClaimsService
  import opened ReportTabs

  /** The store's filters; `None` is an unset (or undefined) filter. */
  datatype StoreFilters = StoreFilters(dateFrom: Option<string>, dateTo: Option<string>,
                                       owedType: Option<string>, pbm: Option<string>)

  const NoStoreFilters: StoreFilters := StoreFilters(None, None, None, None)

  /** `row.owed ?? 0` */
  function OwedOrZero(r: ClientRow): real
  {
    r.owed.GetOr(0.0)
  }

  /** A row dated on or after the bound; an empty or missing date never is. */
  predicate OnOrAfter(r: ClientRow, bound: string)
  {
    Truthy(r.date) && LexLe(bound, r.date.value)
  }

  predicate OnOrBefore(r: ClientRow, bound: string)
  {
    Truthy(r.date) && LexLe(r.date.value, bound)
  }

  predicate OwedTypeOn(f: StoreFilters) { Truthy(f.owedType) && f.owedType != Some("all") }

  /** The owed-type test; an unknown owed type keeps every row. */
  predicate OwedTypeMatches(f: StoreFilters, r: ClientRow)
  {
    if f.owedType == Some("underpaid") then OwedOrZero(r) > 0.0
    else if f.owedType == Some("overpaid") then OwedOrZero(r) < 0.0
    else true
  }

  predicate StorePbmOn(f: StoreFilters) { Truthy(f.pbm) && f.pbm != Some("All") }

  /** All active filters at once. */
  predicate PassesStoreFilters(f: StoreFilters, r: ClientRow)
  {
    && (Truthy(f.dateFrom) ==> OnOrAfter(r, f.dateFrom.value))
    && (Truthy(f.dateTo) ==> OnOrBefore(r, f.dateTo.value))
    && (OwedTypeOn(f) ==> OwedTypeMatches(f, r))
    && (StorePbmOn(f) ==> r.pbmName == f.pbm)
  }

  function FromKeeper(f: StoreFilters): ClientRow -> bool
  {
    (r: ClientRow) => Truthy(f.dateFrom) ==> OnOrAfter(r, f.dateFrom.value)
  }

  function ToKeeper(f: StoreFilters): ClientRow -> bool
  {
    (r: ClientRow) => Truthy(f.dateTo) ==> OnOrBefore(r, f.dateTo.value)
  }

  function OwedTypeKeeper(f: StoreFilters): ClientRow -> bool
  {
    (r: ClientRow) => OwedTypeOn(f) ==> OwedTypeMatches(f, r)
  }

  function StorePbmKeeper(f: StoreFilters): ClientRow -> bool
  {
    (r: ClientRow) => StorePbmOn(f) ==> r.pbmName == f.pbm
  }

  function StoreKeeper(f: StoreFilters): ClientRow -> bool
  {
    (r: ClientRow) => PassesStoreFilters(f, r)
  }

  /** `applyClientSideFilters`: date bounds, owed type and PBM, each applied
      only when set. */
  function ApplyClientSideFilters(rows: seq<ClientRow>, f: StoreFilters): (r: seq<ClientRow>)
    ensures |r| <= |rows|
    ensures forall x :: x in r ==> x in rows && PassesStoreFilters(f, x)
  {
    var a := if Truthy(f.dateFrom) then Filter(rows, FromKeeper(f)) else rows;
    var b := if Truthy(f.dateTo) then Filter(a, ToKeeper(f)) else a;
    var c := if OwedTypeOn(f) then Filter(b, OwedTypeKeeper(f)) else b;
    if StorePbmOn(f) then Filter(c, StorePbmKeeper(f)) else c
  }

  lemma OptionalStoreFilter(s: seq<ClientRow>, on: bool, p: ClientRow -> bool)
    requires !on ==> forall e :: p(e)
    ensures (if on then Filter(s, p) else s) == Filter(s, p)
  {
    if !on {
      FilterAll(s, p);
    }
  }

  function FromToKeeper(f: StoreFilters): ClientRow -> bool
  {
    (r: ClientRow) => FromKeeper(f)(r) && ToKeeper(f)(r)
  }

  function FromToOwedKeeper(f: StoreFilters): ClientRow -> bool
  {
    (r: ClientRow) => FromKeeper(f)(r) && ToKeeper(f)(r) && OwedTypeKeeper(f)(r)
  }

  /** The staged filters keep exactly the rows passing every active filter,
      in their original order. */
  lemma ClientFiltersAreOneFilter(rows: seq<ClientRow>, f: StoreFilters)
    ensures ApplyClientSideFilters(rows, f) == Filter(rows, StoreKeeper(f))
    ensures Subseq(ApplyClientSideFilters(rows, f), rows)
  {
    OptionalStoreFilter(rows, Truthy(f.dateFrom), FromKeeper(f));
    StoreStage(rows, FromKeeper(f), Truthy(f.dateTo), ToKeeper(f), FromToKeeper(f));
    StoreStage(rows, FromToKeeper(f), OwedTypeOn(f), OwedTypeKeeper(f), FromToOwedKeeper(f));
    StoreStage(rows, FromToOwedKeeper(f), StorePbmOn(f), StorePbmKeeper(f), StoreKeeper(f));
    FilterIsSubseq(rows, StoreKeeper(f));
  }

  /** One more optional stage after the filters fused into `p` is the
      filter by their conjunction `r`. */
  lemma StoreStage(s: seq<ClientRow>, p: ClientRow -> bool, on: bool, q: ClientRow -> bool, r: ClientRow -> bool)
    requires !on ==> forall e :: q(e)
    requires forall x :: r(x) == (p(x) && q(x))
    ensures (if on then Filter(Filter(s, p), q) else Filter(s, p)) == Filter(s, r)
  {
    OptionalStoreFilter(Filter(s, p), on, q);
    FilterFuseInto(s, p, q, r);
  }

  /** With no filter set every row is kept. */
  lemma NoFiltersKeepAll(rows: seq<ClientRow>)
    ensures ApplyClientSideFilters(rows, NoStoreFilters) == rows
  {
  }

  /** A row missing its owed amount counts as owing 0: neither underpaid nor
      overpaid. */
  lemma MissingOwedIsNeither(r: ClientRow)
    requires r.owed.None?
    ensures !PassesStoreFilters(StoreFilters(None, None, Some("underpaid"), None), r)
    ensures !PassesStoreFilters(StoreFilters(None, None, Some("overpaid"), None), r)
  {
  }

  /** The commercial KPIs the dashboard shows. */
  datatype ClientKpis = ClientKpis(underpaidCommercialAbs: real, scriptsCommercial: nat,
                                   updatedDifferenceTotal: real, owedTotal: real)

  /** Commercial means any PBM name other than "Federal", a missing one included. */
  predicate IsCommercialRow(r: ClientRow) { r.pbmName != Some(Federal) }

  predicate IsOwedPositive(r: ClientRow) { OwedOrZero(r) > 0.0 }

  predicate HasNewPaid(r: ClientRow) { r.newPaid.Some? }

  /** `(newPaid ?? 0) - paid` */
  function UpdatedDifference(r: ClientRow): real
  {
    r.newPaid.GetOr(0.0) - r.paid
  }

  predicate IsUnderpaidCommercial(r: ClientRow) { IsCommercialRow(r) && IsOwedPositive(r) }

  predicate IsRepaidCommercial(r: ClientRow) { IsCommercialRow(r) && HasNewPaid(r) }

  /** What one row adds to the underpaid total: its owed amount when it is
      a commercial row owing something. */
  function UnderpaidShare(r: ClientRow): real
  {
    if IsUnderpaidCommercial(r) then OwedOrZero(r) else 0.0
  }

  /** What one row adds to the updated-difference total: its repayment
      difference when it is a commercial row with a new payment. */
  function UpdatedShare(r: ClientRow): real
  {
    if IsRepaidCommercial(r) then UpdatedDifference(r) else 0.0
  }

  /** `calculateKPIs` */
  function CalculateKpis(rows: seq<ClientRow>): (k: ClientKpis)
    ensures k.scriptsCommercial == Count(rows, IsCommercialRow)
    ensures k.underpaidCommercialAbs == Sum(rows, UnderpaidShare)
    ensures k.updatedDifferenceTotal == Sum(rows, UpdatedShare)
    ensures k.underpaidCommercialAbs >= 0.0
    ensures k.owedTotal == k.underpaidCommercialAbs - k.updatedDifferenceTotal
  {
    var commercial := Filter(rows, IsCommercialRow);
    var underpaid := Filter(commercial, IsOwedPositive);
    SumNonNegativeOwed(underpaid);
    FilterFuseInto(rows, IsCommercialRow, IsOwedPositive, IsUnderpaidCommercial);
    SumFilterGuarded(rows, IsUnderpaidCommercial, OwedOrZero, UnderpaidShare);
    FilterFuseInto(rows, IsCommercialRow, HasNewPaid, IsRepaidCommercial);
    SumFilterGuarded(rows, IsRepaidCommercial, UpdatedDifference, UpdatedShare);
    var under := Sum(underpaid, OwedOrZero);
    var updated := Sum(Filter(commercial, HasNewPaid), UpdatedDifference);
    ClientKpis(under, |commercial|, updated, under - updated)
  }

  /** The KPIs of one row: it counts when commercial, and adds its shares. */
  lemma {:induction false} CalculateKpisOfOneRow(x: ClientRow)
    ensures CalculateKpis([x]) == ClientKpis(UnderpaidShare(x), if IsCommercialRow(x) then 1 else 0,
                                             UpdatedShare(x), UnderpaidShare(x) - UpdatedShare(x))
  {
    assert [x][1..] == [];
    assert Sum([x], UnderpaidShare) == UnderpaidShare(x);
    assert Sum([x], UpdatedShare) == UpdatedShare(x);
    assert Count([x], IsCommercialRow) == |Filter([x], IsCommercialRow)|;
    assert Filter([x], IsCommercialRow) == if IsCommercialRow(x) then [x] else [];
  }

  lemma SumNonNegativeOwed(s: seq<ClientRow>)
    requires forall x :: x in s ==> IsOwedPositive(x)
    ensures Sum(s, OwedOrZero) >= 0.0
  {
    forall i | 0 <= i < |s|
      ensures OwedOrZero(s[i]) >= 0.0
    {
      assert s[i] in s;
    }
    SumNonNegative(s, OwedOrZero);
  }

  /** The KPIs of a concatenation add up: the counts and all three totals
      are sums over rows. */
  lemma KpisAdditive(a: seq<ClientRow>, b: seq<ClientRow>)
    ensures var ka := CalculateKpis(a);
      var kb := CalculateKpis(b);
      var k := CalculateKpis(a + b);
      && k.scriptsCommercial == ka.scriptsCommercial + kb.scriptsCommercial
      && k.underpaidCommercialAbs == ka.underpaidCommercialAbs + kb.underpaidCommercialAbs
      && k.updatedDifferenceTotal == ka.updatedDifferenceTotal + kb.updatedDifferenceTotal
      && k.owedTotal == ka.owedTotal + kb.owedTotal
  {
    var ca := Filter(a, IsCommercialRow);
    var cb := Filter(b, IsCommercialRow);
    FilterConcat(a, b, IsCommercialRow);
    FilterConcat(ca, cb, IsOwedPositive);
    FilterConcat(ca, cb, HasNewPaid);
    SumConcat(Filter(ca, IsOwedPositive), Filter(cb, IsOwedPositive), OwedOrZero);
    SumConcat(Filter(ca, HasNewPaid), Filter(cb, HasNewPaid), UpdatedDifference);
  }

  function ExampleRow(script: string, pbm: string, owed: real, paid: real, newPaid: Option<real>): ClientRow
  {
    ClientRow(script, Some("2024-01-10"), "0000", "Drug", 1.0, None, None, "AAC", None, paid,
              newPaid, Some(owed), None, Some(pbm), None, None, None)
  }

  /** The store's example: two commercial rows owing 10 and 20, one of them
      repaid from 80 to 100, and a Federal row that does not count. */
  lemma CalculateKpisExample()
    ensures CalculateKpis([ExampleRow("A", "OptumRx", 10.0, 90.0, None),
                           ExampleRow("B", "Caremark", 20.0, 80.0, Some(100.0)),
                           ExampleRow("C", Federal, 999.0, 50.0, Some(60.0))])
         == ClientKpis(30.0, 2, 20.0, 10.0)
  {
    var a := ExampleRow("A", "OptumRx", 10.0, 90.0, None);
    var b := ExampleRow("B", "Caremark", 20.0, 80.0, Some(100.0));
    var c := ExampleRow("C", Federal, 999.0, 50.0, Some(60.0));
    var rows := [a, b, c];
    assert rows[1..] == [b, c];
    assert [b, c][1..] == [c];
    assert [c][1..] == [];
    assert Filter([c], IsCommercialRow) == [];
    assert Filter([b, c], IsCommercialRow) == [b];
    assert Filter(rows, IsCommercialRow) == [a, b];
    assert [a, b][1..] == [b];
    assert [b][1..] == [];
    assert Filter([b], IsOwedPositive) == [b];
    assert Filter([a, b], IsOwedPositive) == [a, b];
    assert Filter([b], HasNewPaid) == [b];
    assert Filter([a, b], HasNewPaid) == [b];
    assert Sum([b], OwedOrZero) == 20.0;
    assert Sum([a, b], OwedOrZero) == 30.0;
    assert Sum([b], UpdatedDifference) == 20.0;
  }

  /** Dates within one month compare by day. */
  lemma SameMonthDateComparisons()
    ensures !LexLe("2024-01-10", "2024-01-05")
    ensures LexLe("2024-01-10", "2024-01-20") && LexLe("2024-01-20", "2024-01-31")
  {
    LexLeCommonPrefix("2024-01-10", "2024-01-05", 8);
    LexLeCommonPrefix("2024-01-10", "2024-01-20", 8);
    LexLeCommonPrefix("2024-01-20", "2024-01-31", 8);
  }

  /** Dates in different months compare by month. */
  lemma CrossMonthDateComparisons()
    ensures LexLe("2024-01-10", "2024-02-01") && !LexLe("2024-02-01", "2024-01-31")
  {
    LexLeCommonPrefix("2024-01-10", "2024-02-01", 6);
    LexLeCommonPrefix("2024-02-01", "2024-01-31", 6);
  }

  /** Three rows, one before the window, one inside and one after it: only
      the one inside is kept. */
  lemma DateWindowPicksMiddle(a: ClientRow, b: ClientRow, c: ClientRow, f: StoreFilters)
    requires Truthy(f.dateFrom) && Truthy(f.dateTo) && !OwedTypeOn(f) && !StorePbmOn(f)
    requires !FromKeeper(f)(a) && FromKeeper(f)(b) && ToKeeper(f)(b) && !ToKeeper(f)(c)
    ensures ApplyClientSideFilters([a, b, c], f) == [b]
  {
    var from := FromKeeper(f);
    var to := ToKeeper(f);
    assert [a, b, c][1..] == [b, c];
    assert [b, c][1..] == [c];
    assert [c][1..] == [];
    var once := Filter([a, b, c], from);
    assert once == Filter([b, c], from);
    assert Filter([b, c], from) == [b] + Filter([c], from);
    assert Filter([b] + Filter([c], from), to) == [b] + Filter(Filter([c], from), to) by {
      FilterConcat([b], Filter([c], from), to);
      assert Filter([b], to) == [b];
    }
    assert Filter(Filter([c], from), to) == [] by {
      if from(c) {
        assert Filter([c], from) == [c];
        assert Filter([c], to) == Filter([c][1..], to);
      } else {
        assert Filter([c], from) == Filter([c][1..], from);
      }
    }
  }

  /** The date example: only the row dated inside the window is kept. */
  lemma DateFilterExample(a: ClientRow, b: ClientRow, c: ClientRow)
    requires a.date == Some("2024-01-05") && b.date == Some("2024-01-20") && c.date == Some("2024-02-01")
    ensures ApplyClientSideFilters([a, b, c], StoreFilters(Some("2024-01-10"), Some("2024-01-31"), None, None)) == [b]
  {
    var f := StoreFilters(Some("2024-01-10"), Some("2024-01-31"), None, None);
    SameMonthDateComparisons();
    CrossMonthDateComparisons();
    DateWindowPicksMiddle(a, b, c, f);
  }

  /** Comparing strings that agree on their first `n` characters is decided
      by the character after the common prefix. */
  lemma {:induction false} LexLeCommonPrefix(a: string, b: string, n: nat)
    requires n < |a| && n < |b| && a[..n] == b[..n] && a[n] != b[n]
    ensures LexLe(a, b) <==> a[n] < b[n]
    decreases n
  {
    if n > 0 {
      assert a[1..][..n - 1] == a[..n][1..];
      assert b[1..][..n - 1] == b[..n][1..];
      assert a[0] == a[..n][0];
      assert b[0] == b[..n][0];
      LexLeCommonPrefix(a[1..], b[1..], n - 1);
    }
  }

  // ---------------------------------------------------------------------
  // Saved PDFs by context
  // ---------------------------------------------------------------------

  /** `${tab}|${pbm}|${dateFrom}|${dateTo}` */
  function ContextKey(tab: Tab, pbm: string, dateFrom: string, dateTo: string): string
  {
    TabName(tab) + "|" + pbm + "|" + dateFrom + "|" + dateTo
  }

  type PdfMap = map<string, seq<string>>

  /** `setLastSavedPdfForContext`; `paths` is `None` when not an array. */
  function SetSavedPdfs(m: PdfMap, tab: Tab, pbm: string, dateFrom: string, dateTo: string,
                        paths: Option<seq<string>>): (m': PdfMap)
    ensures m'.Keys == m.Keys + {ContextKey(tab, pbm, dateFrom, dateTo)}
    ensures forall k :: k in m && k != ContextKey(tab, pbm, dateFrom, dateTo) ==> m'[k] == m[k]
  {
    m[ContextKey(tab, pbm, dateFrom, dateTo) := paths.GetOr([])]
  }

  /** `getLastSavedPdfForContext`: the stored list, or none. */
  function GetSavedPdfs(m: PdfMap, tab: Tab, pbm: string, dateFrom: string, dateTo: string): (r: seq<string>)
    ensures ContextKey(tab, pbm, dateFrom, dateTo) !in m ==> r == []
  {
    var key := ContextKey(tab, pbm, dateFrom, dateTo);
    if key in m then m[key] else []
  }

  /** `hasSavedPdfForContext` */
  predicate HasSavedPdfs(m: PdfMap, tab: Tab, pbm: string, dateFrom: string, dateTo: string)
  {
    |GetSavedPdfs(m, tab, pbm, dateFrom, dateTo)| > 0
  }

  predicate NoBar(s: string)
  {
    forall i :: 0 <= i < |s| ==> s[i] != '|'
  }

  /** Two strings each followed by `|` agree only if they agree up to it. */
  lemma BarPrefix(a: string, x: string, b: string, y: string)
    requires NoBar(a) && NoBar(b)
    requires a + "|" + x == b + "|" + y
    ensures a == b && x == y
  {
    var l := a + "|" + x;
    var r := b + "|" + y;
    if |a| < |b| {
      BarAt(a, x, b, y);
      assert false;
    } else if |b| < |a| {
      BarAt(b, y, a, x);
      assert false;
    } else {
      assert a == l[..|a|] == r[..|b|] == b;
      assert x == l[|a| + 1..] == r[|b| + 1..] == y;
    }
  }

  /** Where the shorter prefix ends, the one string has its `|` and the
      other a character of its longer, bar-free prefix. */
  lemma BarAt(a: string, x: string, b: string, y: string)
    ensures |a| < |b| ==> (a + "|" + x)[|a|] == '|' && (b + "|" + y)[|a|] == b[|a|]
  {
  }

  /** Context keys identify their context as long as neither the PBM name
      nor the start date holds a `|`. */
  lemma ContextKeyInjective(t1: Tab, p1: string, f1: string, d1: string,
                            t2: Tab, p2: string, f2: string, d2: string)
    requires NoBar(p1) && NoBar(f1) && NoBar(p2) && NoBar(f2)
    requires ContextKey(t1, p1, f1, d1) == ContextKey(t2, p2, f2, d2)
    ensures t1 == t2 && p1 == p2 && f1 == f2 && d1 == d2
  {
    ContextKeyShape(t1, p1, f1, d1);
    ContextKeyShape(t2, p2, f2, d2);
    BarPrefix(TabName(t1), p1 + "|" + (f1 + "|" + d1), TabName(t2), p2 + "|" + (f2 + "|" + d2));
    TabNameInjective(t1, t2);
    BarPrefix(p1, f1 + "|" + d1, p2, f2 + "|" + d2);
    BarPrefix(f1, d1, f2, d2);
  }

  lemma ContextKeyShape(t: Tab, p: string, f: string, d: string)
    ensures ContextKey(t, p, f, d) == TabName(t) + "|" + (p + "|" + (f + "|" + d))
  {
  }

  /** After saving paths for a context: reading it back gives the paths (or
      none when they were not a list), `has` holds exactly when that list is
      non-empty, and every other context reads as before. */
  lemma SavedPdfsReadBack(m: PdfMap, tab: Tab, pbm: string, dateFrom: string, dateTo: string,
                          paths: Option<seq<string>>,
                          tab': Tab, pbm': string, dateFrom': string, dateTo': string)
    requires NoBar(pbm) && NoBar(dateFrom) && NoBar(pbm') && NoBar(dateFrom')
    ensures var m' := SetSavedPdfs(m, tab, pbm, dateFrom, dateTo, paths);
      && GetSavedPdfs(m', tab, pbm, dateFrom, dateTo) == paths.GetOr([])
      && (HasSavedPdfs(m', tab, pbm, dateFrom, dateTo) <==> paths.Some? && |paths.value| > 0)
      && ((tab', pbm', dateFrom', dateTo') != (tab, pbm, dateFrom, dateTo) ==>
            GetSavedPdfs(m', tab', pbm', dateFrom', dateTo') == GetSavedPdfs(m, tab', pbm', dateFrom', dateTo'))
  {
    if ContextKey(tab', pbm', dateFrom', dateTo') == ContextKey(tab, pbm, dateFrom, dateTo) {
      ContextKeyInjective(tab', pbm', dateFrom', dateTo', tab, pbm, dateFrom, dateTo);
    }
  }

  /** Without the restriction two contexts can share a key: a PBM named
      "a|b" from "c" and a PBM "a" from "b|c". */
  lemma ContextKeyCollision()
    ensures ContextKey(CommercialTab, "a|b", "c", "d") == ContextKey(CommercialTab, "a", "b|c", "d")
  {
  }

  // ---------------------------------------------------------------------
  // Filter state
  // ---------------------------------------------------------------------

  /** A partial filter update: `None` leaves a field alone, `Some(v)` sets it
      to `v` (which may itself be unset). */
  datatype FilterPatch = FilterPatch(dateFrom: Option<Option<string>>, dateTo: Option<Option<string>>,
                                     owedType: Option<Option<string>>, pbm: Option<Option<string>>)

  /** The store's state, less loading and error flags. */
  datatype StoreState = StoreState(allRows: seq<ClientRow>, filteredRows: seq<ClientRow>,
                                   filters: StoreFilters, page: int, kpis: ClientKpis)

  function Overlay<T>(current: T, patch: Option<T>): T
  {
    if patch.Some? then patch.value else current
  }

  /** `setFilters`: spread the patch over the current filters. */
  function SetFilters(s: StoreState, patch: FilterPatch): (s': StoreState)
    ensures s'.allRows == s.allRows && s'.filteredRows == s.filteredRows && s'.page == s.page && s'.kpis == s.kpis
    ensures patch.dateFrom.None? ==> s'.filters.dateFrom == s.filters.dateFrom
    ensures patch.dateFrom.Some? ==> s'.filters.dateFrom == patch.dateFrom.value
    ensures patch.dateTo.None? ==> s'.filters.dateTo == s.filters.dateTo
    ensures patch.dateTo.Some? ==> s'.filters.dateTo == patch.dateTo.value
    ensures patch.owedType.None? ==> s'.filters.owedType == s.filters.owedType
    ensures patch.owedType.Some? ==> s'.filters.owedType == patch.owedType.value
    ensures patch.pbm.None? ==> s'.filters.pbm == s.filters.pbm
    ensures patch.pbm.Some? ==> s'.filters.pbm == patch.pbm.value
  {
    s.(filters := StoreFilters(Overlay(s.filters.dateFrom, patch.dateFrom), Overlay(s.filters.dateTo, patch.dateTo),
                               Overlay(s.filters.owedType, patch.owedType), Overlay(s.filters.pbm, patch.pbm)))
  }

  /** `applyFilters`: recompute the filtered rows and KPIs; back to page 1. */
  function ApplyFilters(s: StoreState): (s': StoreState)
    ensures s'.page == 1 && s'.allRows == s.allRows && s'.filters == s.filters
    ensures s'.filteredRows == Filter(s.allRows, StoreKeeper(s.filters))
    ensures s'.kpis == CalculateKpis(s'.filteredRows)
  {
    ClientFiltersAreOneFilter(s.allRows, s.filters);
    var rows := ApplyClientSideFilters(s.allRows, s.filters);
    s.(filteredRows := rows, kpis := CalculateKpis(rows), page := 1)
  }

  /** `clearFilters`: no filters, page 1, every row shown. */
  function ClearFilters(s: StoreState): (s': StoreState)
    ensures s'.filters == NoStoreFilters && s'.page == 1
    ensures s'.filteredRows == s.allRows
    ensures s'.kpis == CalculateKpis(s.allRows)
  {
    NoFiltersKeepAll(s.allRows);
    ApplyFilters(s.(filters := NoStoreFilters, page := 1))
  }

  /** Setting the same filters twice is setting them once. */
  lemma SetFiltersIdempotent(s: StoreState, patch: FilterPatch)
    ensures SetFilters(SetFilters(s, patch), patch) == SetFilters(s, patch)
  {
  }
}
