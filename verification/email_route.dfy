/** The report e-mail route: it validates the request, looks up the PBM's
    address, composes the subject and body, collects the PDF attachments
    from storage and names the `.eml` file. As a best-effort side step it
    marks the e-mailed claims of the pharmacy.

    The record store and the storage bucket are parameters (`EmailEnv`):
    each lookup is given by its outcome. */
module EmailRoute {
  import opened Wrappers
  import opened Seqs
  import opened Text
  import opened ReportTabs

  /** The request body; `None` is an absent (or `null`) field, and an
      absent body has every field absent. */
  datatype EmailPayload = EmailPayload(tab: Option<string>, dateFrom: Option<string>, dateTo: Option<string>,
                                       pbmName: Option<string>, pdfPaths: Option<seq<string>>)

  type Bytes = seq<bv8>

  /** Outcome of the `pharma_pbm_info` e-mail query (at most one row). */
  datatype EmailLookup = EmailLookupError(message: string) | EmailRows(emails: seq<Option<string>>)

  /** Outcome of a storage download. */
  datatype Download = DownloadError(message: string) | Downloaded(content: Bytes)

  /** Outcome of the `pharma_pbm_info` bin query. */
  datatype BinLookup = BinLookupError | BinRows(bins: seq<Option<string>>)

  /** The outside world as the route sees it. `pharmacyIdFor` is `None`
      when the profile lookup fails or finds no id. */
  datatype EmailEnv = EmailEnv(emailLookup: EmailLookup, download: string -> Download,
                               pharmacyIdFor: string -> Option<string>, binLookup: BinLookup)

  datatype Attachment = Attachment(filename: string, content: Bytes)

  /** Which claims of the pharmacy the status update selects by bin. */
  datatype BinFilter = BinIsNull | BinIn(bins: seq<string>) | AnyBin

  /** The status update: mark the selected claims as e-mailed with the PDF. */
  datatype StatusUpdate = StatusUpdate(pharmacyId: string, pdfFile: string, dateFrom: Option<string>,
                                       dateTo: Option<string>, binFilter: BinFilter)

  datatype EmailResponse =
    | EmailError(status: int, message: string)
    | Eml(to: string, subject: string, body: string, attachments: seq<Attachment>, fileName: string,
          update: Option<StatusUpdate>)

  // ---------------------------------------------------------------------
  // Subject and body
  // ---------------------------------------------------------------------

  /** `[dateFrom, dateTo].filter(Boolean)` */
  function PresentDates(dateFrom: Option<string>, dateTo: Option<string>): seq<string>
  {
    (if Truthy(dateFrom) then [dateFrom.value] else []) + (if Truthy(dateTo) then [dateTo.value] else [])
  }

  /** The date range: both dates joined by " to ", the one that is set, or
      nothing. */
  function DateRange(dateFrom: Option<string>, dateTo: Option<string>): (r: string)
    ensures Truthy(dateFrom) && Truthy(dateTo) ==> r == dateFrom.value + " to " + dateTo.value
    ensures Truthy(dateFrom) && !Truthy(dateTo) ==> r == dateFrom.value
    ensures !Truthy(dateFrom) && Truthy(dateTo) ==> r == dateTo.value
    ensures r == "" <==> !Truthy(dateFrom) && !Truthy(dateTo)
  {
    var dates := PresentDates(dateFrom, dateTo);
    if Truthy(dateFrom) && Truthy(dateTo) then
      assert dates == [dateFrom.value, dateTo.value];
      assert dates[1..] == [dateTo.value];
      assert Join(dates[1..], " to ") == dateTo.value;
      Join(dates, " to ")
    else Join(dates, " to ")
  }

  /** The subject before trimming: "{pbm} {label} Report", then " {range}"
      when there is a range. */
  function UntrimmedSubject(pbm: string, tab: Option<string>, range: string): string
  {
    pbm + " " + LabelForTab(tab.GetOr("")) + " Report" + (if range != "" then " " + range else "")
  }

  function Subject(pbm: string, tab: Option<string>, range: string): string
  {
    JsTrim(UntrimmedSubject(pbm, tab, range))
  }

  /** Trimming only matters when the PBM name starts, or the range ends,
      with white space. */
  lemma SubjectUntrimmed(pbm: string, tab: Option<string>, range: string)
    requires |pbm| > 0 && !IsJsWhitespace(pbm[0])
    requires range == "" || !IsJsWhitespace(range[|range| - 1])
    ensures Subject(pbm, tab, range) == UntrimmedSubject(pbm, tab, range)
  {
    var u := UntrimmedSubject(pbm, tab, range);
    assert u[0] == pbm[0];
    assert TrimStart(u, IsJsWhitespace) == u;
    if range == "" {
      assert u[|u| - 1] == 't';
    } else {
      assert u[|u| - 1] == range[|range| - 1];
    }
    assert TrimEnd(u, IsJsWhitespace) == u;
  }

  function TextBody(pbm: string, tab: Option<string>, range: string): string
  {
    "Hello " + pbm + ",\n\nPlease find attached the " + LabelForTab(tab.GetOr("")) + " report"
    + (if range != "" then " for " + range else "") + ".\n\nThank you,\nCyber Pharma"
  }

  // ---------------------------------------------------------------------
  // File names and paths
  // ---------------------------------------------------------------------

  /** `[a-zA-Z0-9._-]` */
  predicate IsFileChar(c: char)
  {
    IsAsciiAlnum(c) || c == '.' || c == '_' || c == '-'
  }

  /** A file character other than the replacement `_`. */
  predicate IsPlainFileChar(c: char)
  {
    IsFileChar(c) && c != '_'
  }

  const MaxFileStem: nat := 120

  /** `sanitizeFile`: every maximal run of other characters becomes one
      `_`, and the result is cut to 120 characters. Every character that
      is left is a file character; up to the cut, the file characters
      other than `_` are the input's, in order. */
  function SanitizeFile(name: string): (r: string)
    ensures |r| <= MaxFileStem
    ensures forall i :: 0 <= i < |r| ==> IsFileChar(r[i])
    ensures |r| <= |ReplaceRuns(name, IsFileChar, '_')|
    ensures r == ReplaceRuns(name, IsFileChar, '_')[..|r|]
    ensures |ReplaceRuns(name, IsFileChar, '_')| <= MaxFileStem ==>
      Filter(r, IsPlainFileChar) == Filter(name, IsPlainFileChar)
  {
    var replaced := ReplaceRuns(name, IsFileChar, '_');
    FilterReplaceRuns(name, IsFileChar, '_', IsPlainFileChar);
    if |replaced| <= MaxFileStem then replaced else replaced[..MaxFileStem]
  }

  /** Sanitising a sanitised name changes nothing. */
  lemma SanitizeFileIdempotent(name: string)
    ensures SanitizeFile(SanitizeFile(name)) == SanitizeFile(name)
  {
    var r := SanitizeFile(name);
    ReplaceRunsFixedPoint(r, IsFileChar, '_');
  }

  /** The `.eml` attachment name. */
  function EmlFileName(subject: string): (r: string)
    ensures 4 <= |r| <= MaxFileStem + 4
    ensures r[|r| - 4..] == ".eml"
  {
    SanitizeFile(subject) + ".eml"
  }

  /** A leading "/" is dropped. */
  function NormalizePath(path: string): (r: string)
    ensures |path| == 0 || path[0] != '/' ==> r == path
    ensures |path| > 0 && path[0] == '/' ==> r == path[1..]
  {
    if |path| > 0 && path[0] == '/' then path[1..] else path
  }

  /** `path.split("/").pop() || "report.pdf"` */
  function AttachmentName(path: string): (r: string)
    ensures |r| > 0
  {
    var parts := Split(path, '/');
    var last := parts[|parts| - 1];
    if last != "" then last else "report.pdf"
  }

  /** The attachment is named after the path's last segment. */
  lemma AttachmentNameIsLastSegment(dir: string, name: string)
    requires |name| > 0
    requires forall i :: 0 <= i < |name| ==> name[i] != '/'
    ensures AttachmentName(dir + "/" + name) == name
  {
    SplitLast(dir, name, '/');
  }

  /** A path ending in "/" falls back to "report.pdf". */
  lemma TrailingSlashFallsBack(dir: string)
    ensures AttachmentName(dir + "/") == "report.pdf"
  {
    SplitLast(dir, "", '/');
    assert dir + "/" == dir + ['/'] + "";
  }

  /** The pharmacy slug: the first segment of the first path, leading "/"
      removed. It is the longest prefix without "/". */
  function PharmacySlug(firstPath: string): (r: string)
    ensures var p := NormalizePath(firstPath);
      && |r| <= |p| && r == p[..|r|]
      && (forall i :: 0 <= i < |r| ==> r[i] != '/')
      && (|r| < |p| ==> p[|r|] == '/')
  {
    SplitHead(NormalizePath(firstPath), '/');
    Split(NormalizePath(firstPath), '/')[0]
  }

  // ---------------------------------------------------------------------
  // Attachments
  // ---------------------------------------------------------------------

  datatype Collected = DownloadFailed(path: string, message: string) | Attachments(files: seq<Attachment>)

  /** Downloads each path in turn; the first failure ends the route. */
  function CollectAttachments(paths: seq<string>, download: string -> Download): (r: Collected)
    ensures r.Attachments? ==> |r.files| == |paths|
    ensures r.Attachments? ==> forall i :: 0 <= i < |paths| ==>
      r.files[i].filename == AttachmentName(NormalizePath(paths[i]))
      && download(NormalizePath(paths[i])) == Downloaded(r.files[i].content)
    ensures r.DownloadFailed? <==> exists i :: 0 <= i < |paths| && download(NormalizePath(paths[i])).DownloadError?
    decreases |paths|
  {
    if |paths| == 0 then Attachments([])
    else
      var path := NormalizePath(paths[0]);
      FailureSplits(paths, download);
      match download(path)
      case DownloadError(msg) => DownloadFailed(path, msg)
      case Downloaded(content) =>
        match CollectAttachments(paths[1..], download)
        case DownloadFailed(p, m) => DownloadFailed(p, m)
        case Attachments(files) =>
          AttachmentsCons(paths, download, content, files);
          Attachments([Attachment(AttachmentName(path), content)] + files)
  }

  /** Some download fails exactly when the first one or a later one does. */
  lemma FailureSplits(paths: seq<string>, download: string -> Download)
    requires |paths| > 0
    ensures (exists i :: 0 <= i < |paths| && download(NormalizePath(paths[i])).DownloadError?)
        <==> download(NormalizePath(paths[0])).DownloadError?
             || exists i :: 0 <= i < |paths[1..]| && download(NormalizePath(paths[1..][i])).DownloadError?
  {
  }

  /** Prepending the first download to the later attachments keeps every
      attachment paired with its path. */
  lemma AttachmentsCons(paths: seq<string>, download: string -> Download, content: Bytes, files: seq<Attachment>)
    requires |paths| > 0 && download(NormalizePath(paths[0])) == Downloaded(content)
    requires |files| == |paths| - 1
    requires forall i :: 0 <= i < |paths[1..]| ==>
      files[i].filename == AttachmentName(NormalizePath(paths[1..][i]))
      && download(NormalizePath(paths[1..][i])) == Downloaded(files[i].content)
    ensures var all := [Attachment(AttachmentName(NormalizePath(paths[0])), content)] + files;
      forall i :: 0 <= i < |paths| ==>
        all[i].filename == AttachmentName(NormalizePath(paths[i]))
        && download(NormalizePath(paths[i])) == Downloaded(all[i].content)
  {
    var all := [Attachment(AttachmentName(NormalizePath(paths[0])), content)] + files;
    forall i | 0 < i < |paths|
      ensures all[i].filename == AttachmentName(NormalizePath(paths[i]))
      ensures download(NormalizePath(paths[i])) == Downloaded(all[i].content)
    {
      assert all[i] == files[i - 1] && paths[1..][i - 1] == paths[i];
    }
  }

  // ---------------------------------------------------------------------
  // The best-effort status update
  // ---------------------------------------------------------------------

  /** The bins of a non-Federal PBM: `null` when the lookup fails,
      otherwise the non-empty bins found. */
  function ResolvedBins(pbm: string, lookup: BinLookup): (r: Option<seq<string>>)
    ensures r.Some? ==> forall i :: 0 <= i < |r.value| ==> r.value[i] != ""
  {
    if pbm != "Federal" then
      match lookup
      case BinLookupError => None
      case BinRows(bins) => Some(TruthyValues(bins))
    else None
  }

  /** The present, non-empty strings, in order. */
  function TruthyValues(xs: seq<Option<string>>): (r: seq<string>)
    ensures forall i :: 0 <= i < |r| ==> r[i] != ""
    ensures forall s :: s in r <==> Some(s) in xs && s != ""
    decreases |xs|
  {
    if |xs| == 0 then []
    else if Truthy(xs[0]) then [xs[0].value] + TruthyValues(xs[1..])
    else TruthyValues(xs[1..])
  }

  /** The bin filter the route applies, as written: Federal selects claims
      without a bin, resolved bins select claims with one of them, and in
      every other case no bin filter is applied. */
  function ChooseBinFilterAsWritten(pbm: string, bins: Option<seq<string>>): (r: BinFilter)
    ensures pbm == "Federal" <==> r == BinIsNull
    ensures r.BinIn? <==> pbm != "Federal" && bins.Some? && |bins.value| > 0
  {
    if pbm == "Federal" then BinIsNull
    else if bins.Some? && |bins.value| > 0 then BinIn(bins.value)
    else AnyBin
  }

  /** The bin filter as the route's comment intends it: a named PBM other
      than Federal whose bins did not resolve gets no update at all
      (`None`); only "All" updates every bin. */
  function ChooseBinFilter(pbm: string, bins: Option<seq<string>>): (r: Option<BinFilter>)
    ensures r == Some(BinIsNull) <==> pbm == "Federal"
    ensures r == Some(AnyBin) <==> pbm == "All" && !(bins.Some? && |bins.value| > 0)
    ensures r.None? <==> pbm != "Federal" && pbm != "All" && !(bins.Some? && |bins.value| > 0)
    ensures r.Some? && r.value.BinIn? ==> bins == Some(r.value.bins)
  {
    if pbm == "Federal" then Some(BinIsNull)
    else if bins.Some? && |bins.value| > 0 then Some(BinIn(bins.value))
    else if pbm == "All" then Some(AnyBin)
    else None
  }

  /** The two agree except on a named PBM without resolved bins. */
  lemma BinFilterChoicesAgree(pbm: string, bins: Option<seq<string>>)
    requires pbm == "Federal" || pbm == "All" || (bins.Some? && |bins.value| > 0)
    ensures ChooseBinFilter(pbm, bins) == Some(ChooseBinFilterAsWritten(pbm, bins))
  {
  }

  /** A row of `pharma_user_data` as the update sees it. */
  datatype StoredClaim = StoredClaim(pharmacyId: string, dateDispensed: Option<string>, bin: Option<string>,
                                     status: Option<string>, pdfFile: Option<string>)

  predicate BinSelected(f: BinFilter, bin: Option<string>)
  {
    match f
    case BinIsNull => bin.None?
    case BinIn(bins) => bin.Some? && bin.value in bins
    case AnyBin => true
  }

  /** The rows the update query selects (`gte`/`lte` on the date when set;
      a NULL date never compares). */
  predicate Selected(u: StatusUpdate, c: StoredClaim)
  {
    && c.pharmacyId == u.pharmacyId
    && (Truthy(u.dateFrom) ==> c.dateDispensed.Some? && LexLe(u.dateFrom.value, c.dateDispensed.value))
    && (Truthy(u.dateTo) ==> c.dateDispensed.Some? && LexLe(c.dateDispensed.value, u.dateTo.value))
    && BinSelected(u.binFilter, c.bin)
  }

  function Mark(u: StatusUpdate, c: StoredClaim): StoredClaim
  {
    if Selected(u, c) then c.(status := Some("emailed"), pdfFile := Some(u.pdfFile)) else c
  }

  /** Applies the update to the table: selected rows are marked, the rest
      are left as they are. */
  function ApplyStatusUpdate(u: StatusUpdate, rows: seq<StoredClaim>): (r: seq<StoredClaim>)
    ensures |r| == |rows|
    ensures forall i :: 0 <= i < |rows| && !Selected(u, rows[i]) ==> r[i] == rows[i]
    ensures forall i :: 0 <= i < |rows| && Selected(u, rows[i]) ==>
      r[i] == rows[i].(status := Some("emailed"), pdfFile := Some(u.pdfFile))
  {
    Map(rows, c => Mark(u, c))
  }

  /** The as-written choice marks a claim of another payer: for a PBM whose
      bins do not resolve, every claim of the pharmacy is marked. */
  lemma AsWrittenMarksOtherPayers()
    ensures ChooseBinFilterAsWritten("Acme", Some([])) == AnyBin
    ensures ChooseBinFilterAsWritten("Acme", ResolvedBins("Acme", BinLookupError)) == AnyBin
    ensures var u := StatusUpdate("ph-1", "ph/report_commercialdollars/a.pdf", None, None, AnyBin);
      var other := StoredClaim("ph-1", Some("2024-01-02"), Some("610014"), None, None);
      ApplyStatusUpdate(u, [other])[0].status == Some("emailed")
  {
  }

  /** With the intended choice, every marked claim belongs to the PBM:
      no bin for Federal, one of the PBM's bins otherwise, any bin only for
      "All". */
  lemma IntendedMarksOnlyThePbm(pbm: string, bins: Option<seq<string>>, pharmacyId: string, pdfFile: string,
                                dateFrom: Option<string>, dateTo: Option<string>, c: StoredClaim)
    requires ChooseBinFilter(pbm, bins).Some?
    requires Selected(StatusUpdate(pharmacyId, pdfFile, dateFrom, dateTo, ChooseBinFilter(pbm, bins).value), c)
    ensures c.pharmacyId == pharmacyId
    ensures pbm == "Federal" ==> c.bin.None?
    ensures pbm != "Federal" && pbm != "All" ==> bins.Some? && c.bin.Some? && c.bin.value in bins.value
  {
  }

  // ---------------------------------------------------------------------
  // The route
  // ---------------------------------------------------------------------

  /** The status update the route attempts, as written: it needs a first
      PDF path whose pharmacy slug resolves to an id; the bin filter is the
      as-written choice, so a named PBM without resolved bins updates every
      bin. */
  function PlanStatusUpdate(p: EmailPayload, pbm: string, env: EmailEnv): (r: Option<StatusUpdate>)
    requires p.pdfPaths.Some? && |p.pdfPaths.value| > 0
    ensures r.Some? <==> Truthy(env.pharmacyIdFor(PharmacySlug(p.pdfPaths.value[0])))
    ensures r.Some? ==> r.value.pdfFile == NormalizePath(p.pdfPaths.value[0])
    ensures r.Some? ==> env.pharmacyIdFor(PharmacySlug(p.pdfPaths.value[0])) == Some(r.value.pharmacyId)
    ensures r.Some? ==> r.value.dateFrom == p.dateFrom && r.value.dateTo == p.dateTo
    ensures r.Some? ==> r.value.binFilter == ChooseBinFilterAsWritten(pbm, ResolvedBins(pbm, env.binLookup))
  {
    var normalized := NormalizePath(p.pdfPaths.value[0]);
    var id := env.pharmacyIdFor(PharmacySlug(p.pdfPaths.value[0]));
    if !Truthy(id) then None
    else Some(StatusUpdate(id.value, normalized, p.dateFrom, p.dateTo,
                           ChooseBinFilterAsWritten(pbm, ResolvedBins(pbm, env.binLookup))))
  }

  /** The status update as the route's comment intends it: the same update,
      skipped when a named PBM has no resolved bins. */
  function IntendedStatusUpdate(p: EmailPayload, pbm: string, env: EmailEnv): (r: Option<StatusUpdate>)
    requires p.pdfPaths.Some? && |p.pdfPaths.value| > 0
    ensures r.Some? <==> Truthy(env.pharmacyIdFor(PharmacySlug(p.pdfPaths.value[0])))
                         && ChooseBinFilter(pbm, ResolvedBins(pbm, env.binLookup)).Some?
    ensures r.Some? ==> r.value.binFilter == ChooseBinFilter(pbm, ResolvedBins(pbm, env.binLookup)).value
    ensures r.Some? ==> r.value.pdfFile == NormalizePath(p.pdfPaths.value[0])
    ensures r.Some? ==> env.pharmacyIdFor(PharmacySlug(p.pdfPaths.value[0])) == Some(r.value.pharmacyId)
    ensures r.Some? ==> r.value.dateFrom == p.dateFrom && r.value.dateTo == p.dateTo
  {
    var normalized := NormalizePath(p.pdfPaths.value[0]);
    var id := env.pharmacyIdFor(PharmacySlug(p.pdfPaths.value[0]));
    if !Truthy(id) then None
    else
      match ChooseBinFilter(pbm, ResolvedBins(pbm, env.binLookup))
      case None => None
      case Some(f) => Some(StatusUpdate(id.value, normalized, p.dateFrom, p.dateTo, f))
  }

  /** The intended update is the as-written one, or nothing: it is never a
      different update, and it is skipped exactly when a named PBM's bins
      did not resolve. */
  lemma IntendedUpdateRefinesAsWritten(p: EmailPayload, pbm: string, env: EmailEnv)
    requires p.pdfPaths.Some? && |p.pdfPaths.value| > 0
    ensures IntendedStatusUpdate(p, pbm, env).Some? ==>
      IntendedStatusUpdate(p, pbm, env) == PlanStatusUpdate(p, pbm, env)
    ensures PlanStatusUpdate(p, pbm, env).Some? && IntendedStatusUpdate(p, pbm, env).None? <==>
      PlanStatusUpdate(p, pbm, env).Some? && ChooseBinFilter(pbm, ResolvedBins(pbm, env.binLookup)).None?
  {
  }

  /** `POST /api/reports/email`. */
  function EmailReport(p: EmailPayload, env: EmailEnv): (r: EmailResponse)
    ensures !Truthy(p.pbmName) <==> r == EmailError(400, "Missing pbmName")
    ensures Truthy(p.pbmName) && env.emailLookup.EmailLookupError? ==>
      r == EmailError(500, "PBM lookup failed: " + env.emailLookup.message)
    ensures r.Eml? ==>
      (Truthy(p.pbmName) && env.emailLookup.EmailRows? && |env.emailLookup.emails| > 0
       && env.emailLookup.emails[0] == Some(r.to) && r.to != "")
    ensures r.Eml? ==> r.subject == Subject(p.pbmName.value, p.tab, DateRange(p.dateFrom, p.dateTo))
    ensures r.Eml? ==> r.fileName == EmlFileName(r.subject)
    ensures r.Eml? && p.pdfPaths.None? ==> r.attachments == []
    ensures r.Eml? && p.pdfPaths.Some? ==> |r.attachments| == |p.pdfPaths.value|
    ensures r.Eml? && r.update.Some? ==> p.pdfPaths.Some? && |p.pdfPaths.value| > 0
    ensures r.Eml? ==> r.update == (if p.pdfPaths.Some? && |p.pdfPaths.value| > 0
                                    then PlanStatusUpdate(p, p.pbmName.value, env) else None)
    ensures Truthy(p.pbmName) && env.emailLookup.EmailRows? ==>
      (r == EmailError(404, "No email found for PBM: " + p.pbmName.value)
       <==> !(|env.emailLookup.emails| > 0 && Truthy(env.emailLookup.emails[0])))
    ensures r.Eml? <==>
      && Truthy(p.pbmName) && env.emailLookup.EmailRows?
      && |env.emailLookup.emails| > 0 && Truthy(env.emailLookup.emails[0])
      && (p.pdfPaths.None? || CollectAttachments(p.pdfPaths.value, env.download).Attachments?)
    ensures Truthy(p.pbmName) && env.emailLookup.EmailRows?
            && |env.emailLookup.emails| > 0 && Truthy(env.emailLookup.emails[0])
            && p.pdfPaths.Some? && CollectAttachments(p.pdfPaths.value, env.download).DownloadFailed? ==>
      var c := CollectAttachments(p.pdfPaths.value, env.download);
      r == EmailError(500, "Failed to download " + c.path + ": " + c.message)
    ensures r.Eml? && p.pdfPaths.Some? ==> r.attachments == CollectAttachments(p.pdfPaths.value, env.download).files
    ensures r.Eml? ==> r.body == TextBody(p.pbmName.value, p.tab, DateRange(p.dateFrom, p.dateTo))
  {
    if !Truthy(p.pbmName) then EmailError(400, "Missing pbmName")
    else
      var pbm := p.pbmName.value;
      match env.emailLookup
      case EmailLookupError(msg) => EmailError(500, "PBM lookup failed: " + msg)
      case EmailRows(emails) =>
        var email := if |emails| > 0 then emails[0] else None;
        if !Truthy(email) then EmailError(404, "No email found for PBM: " + pbm)
        else
          var collected := if p.pdfPaths.Some? then CollectAttachments(p.pdfPaths.value, env.download)
                           else Attachments([]);
          match collected
          case DownloadFailed(path, msg) => EmailError(500, "Failed to download " + path + ": " + msg)
          case Attachments(files) =>
            var range := DateRange(p.dateFrom, p.dateTo);
            var subject := Subject(pbm, p.tab, range);
            var update := if p.pdfPaths.Some? && |p.pdfPaths.value| > 0 then PlanStatusUpdate(p, pbm, env)
                          else None;
            Eml(email.value, subject, TextBody(pbm, p.tab, range), files, EmlFileName(subject), update)
  }

  /** The status update is best effort: whatever the pharmacy and bin
      lookups return, the reply is the same apart from the planned update. */
  lemma StatusUpdateDoesNotBlock(p: EmailPayload, env: EmailEnv, ids: string -> Option<string>, bins: BinLookup)
    ensures var r1 := EmailReport(p, env);
      var r2 := EmailReport(p, env.(pharmacyIdFor := ids, binLookup := bins));
      && (r1.Eml? <==> r2.Eml?)
      && (r1.Eml? ==> r1.(update := None) == r2.(update := None))
      && (!r1.Eml? ==> r1 == r2)
  {
  }

  /** No lookup happens before the PBM name is checked: the answer to a
      request without one does not depend on the outside world. */
  lemma MissingPbmNameBeforeLookup(p: EmailPayload, e1: EmailEnv, e2: EmailEnv)
    requires !Truthy(p.pbmName)
    ensures EmailReport(p, e1) == EmailReport(p, e2) == EmailError(400, "Missing pbmName")
  {
  }

  /** A PBM without an address is answered with 404, before any download. */
  lemma NoEmailIsNotFound(p: EmailPayload, env: EmailEnv)
    requires Truthy(p.pbmName)
    requires env.emailLookup == EmailRows([]) || env.emailLookup == EmailRows([None]) || env.emailLookup == EmailRows([Some("")])
    ensures EmailReport(p, env) == EmailError(404, "No email found for PBM: " + p.pbmName.value)
  {
  }
}
