/** The four report tabs and the fixed labels and storage folders the
    report routes derive from a tab name. */
module ReportTabs {
  import opened Wrappers

  datatype Tab = CommercialTab | UpdatedTab | FederalTab | SummaryTab

  /** The tab's name on the wire. */
  function TabName(t: Tab): (s: string)
    ensures |s| > 0
    ensures forall i :: 0 <= i < |s| ==> s[i] != '|'
  {
    match t
    case CommercialTab => "commercial"
    case UpdatedTab => "updated"
    case FederalTab => "federal"
    case SummaryTab => "summary"
  }

  /** The tab a request names, if it names one of the four. */
  function ParseTab(s: string): (r: Option<Tab>)
    ensures r.Some? ==> TabName(r.value) == s
    ensures r.None? ==> forall t: Tab :: TabName(t) != s
  {
    if s == "commercial" then Some(CommercialTab)
    else if s == "updated" then Some(UpdatedTab)
    else if s == "federal" then Some(FederalTab)
    else if s == "summary" then Some(SummaryTab)
    else None
  }

  lemma ParseTabName(t: Tab)
    ensures ParseTab(TabName(t)) == Some(t)
  {
  }

  lemma TabNameInjective(s: Tab, t: Tab)
    requires TabName(s) == TabName(t)
    ensures s == t
  {
    ParseTabName(s);
    ParseTabName(t);
  }

  /** `labelForTab`: a fixed label per tab, "Report" for anything else. */
  function LabelForTab(tab: string): (r: string)
    ensures r == "Report" <==> ParseTab(tab).None?
    ensures |r| > 0
  {
    match ParseTab(tab)
    case Some(CommercialTab) => "Commercial Dollars"
    case Some(UpdatedTab) => "Updated Commercial Payments"
    case Some(FederalTab) => "Federal Dollars"
    case Some(SummaryTab) => "Summary"
    case None => "Report"
  }

  /** `folderForTab`: a fixed storage folder per tab, "reports" for anything
      else. Every folder name begins with "report". */
  function FolderForTab(tab: string): (r: string)
    ensures r == "reports" <==> ParseTab(tab).None?
    ensures |r| >= 6 && r[..6] == "report"
  {
    match ParseTab(tab)
    case Some(CommercialTab) => "report_commercialdollars"
    case Some(UpdatedTab) => "report_updatedpayments"
    case Some(FederalTab) => "report_federaldollars"
    case Some(SummaryTab) => "report_summary"
    case None => "reports"
  }

  /** Distinct tabs get distinct labels and distinct folders, so neither
      loses the tab. */
  lemma LabelsAndFoldersDistinct(s: Tab, t: Tab)
    requires s != t
    ensures LabelForTab(TabName(s)) != LabelForTab(TabName(t))
    ensures FolderForTab(TabName(s)) != FolderForTab(TabName(t))
  {
    ParseTabName(s);
    ParseTabName(t);
  }
}
