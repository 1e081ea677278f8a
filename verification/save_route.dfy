/** The report save route: it validates the request, names the report's
    folder, title and file, and either returns the PDF for download or
    uploads it under the pharmacy's folder and returns a signed link.

    Rendering the PDF is not modelled; storage is a parameter
    (`StorageOutcome`) that says how the upload and the signing went. */
module SaveRoute {
  import opened Wrappers
  import opened Text
  import opened ReportTabs
  import opened Slug

  /** A report row is passed through to the PDF renderer untouched. */
  datatype ReportRow = ReportRow(cells: seq<string>)

  /** The request body; `None` is an absent or falsy field, and `rows` is
      `None` when the body's `rows` is not an array. */
  datatype SavePayload = SavePayload(tab: Option<string>, dateFrom: Option<string>, dateTo: Option<string>,
                                     pbmName: Option<string>, rows: Option<seq<ReportRow>>,
                                     pharmacySlug: Option<string>)

  /** How the storage calls went. */
  datatype StorageOutcome = UploadFailed(message: string) | SignFailed(message: string) | Signed(url: Option<string>)

  datatype SaveResponse =
    | SaveError(status: int, message: string)
    | PdfDownload(filename: string, title: string, rows: seq<ReportRow>)
    | Uploaded(pdfPath: string, signedUrl: Option<string>, title: string, rows: seq<ReportRow>)

  const MissingFields: string := "Missing required fields: tab, dateFrom, dateTo, pbmName, rows"

  predicate ValidPayload(p: SavePayload)
  {
    Truthy(p.tab) && Truthy(p.dateFrom) && Truthy(p.dateTo) && Truthy(p.pbmName) && p.rows.Some?
  }

  /** The report's title: the tab's label followed by " Report". */
  function Title(tab: string): (r: string)
    ensures |r| > 7 && r[|r| - 7..] == " Report"
    ensures r[..|r| - 7] == LabelForTab(tab)
  {
    LabelForTab(tab) + " Report"
  }

  /** The report's file name inside its folder. */
  function SaveFilename(p: SavePayload): string
    requires ValidPayload(p)
  {
    var folder := FolderForTab(p.tab.value);
    BuildReportFilename(FilenameParams(folder, Slugify(p.pbmName), p.dateFrom.value, p.dateTo.value, None))
  }

  /** `POST /api/reports/save`. */
  function SaveReport(p: SavePayload, storage: StorageOutcome): (r: SaveResponse)
    ensures !ValidPayload(p) <==> r == SaveError(400, MissingFields)
    ensures ValidPayload(p) && !Truthy(p.pharmacySlug) ==> r.PdfDownload? && r.filename == SaveFilename(p)
    ensures r.Uploaded? ==>
      (ValidPayload(p) && Truthy(p.pharmacySlug)
       && r.pdfPath == p.pharmacySlug.value + "/" + FolderForTab(p.tab.value) + "/" + SaveFilename(p))
    ensures r.PdfDownload? || r.Uploaded? ==> r.title == Title(p.tab.value) && r.rows == p.rows.value
    ensures r.Uploaded? <==> ValidPayload(p) && Truthy(p.pharmacySlug) && storage.Signed?
    ensures ValidPayload(p) && Truthy(p.pharmacySlug) && storage.UploadFailed? ==>
      r == SaveError(500, "Upload failed: " + storage.message)
    ensures ValidPayload(p) && Truthy(p.pharmacySlug) && storage.SignFailed? ==>
      r == SaveError(500, "Signed URL failed: " + storage.message)
    ensures r.Uploaded? ==> (r.signedUrl.Some? <==> Truthy(storage.url))
    ensures r.Uploaded? && r.signedUrl.Some? ==> r.signedUrl == storage.url
  {
    if !ValidPayload(p) then SaveError(400, MissingFields)
    else
      var title := Title(p.tab.value);
      var filename := SaveFilename(p);
      if !Truthy(p.pharmacySlug) then PdfDownload(filename, title, p.rows.value)
      else
        var storagePath := p.pharmacySlug.value + "/" + FolderForTab(p.tab.value) + "/" + filename;
        match storage
        case UploadFailed(msg) => SaveError(500, "Upload failed: " + msg)
        case SignFailed(msg) => SaveError(500, "Signed URL failed: " + msg)
        case Signed(url) => Uploaded(storagePath, OrNull(url), title, p.rows.value)
  }

  /** Without a pharmacy slug nothing is uploaded, whatever storage would do. */
  lemma NoSlugNoUpload(p: SavePayload, s1: StorageOutcome, s2: StorageOutcome)
    requires !Truthy(p.pharmacySlug)
    ensures SaveReport(p, s1) == SaveReport(p, s2)
    ensures !SaveReport(p, s1).Uploaded?
  {
  }

  /** Every saved file name starts with "report_report": the file name
      adds its own "report_" in front of a folder name that already begins
      with "report". */
  lemma FilenameDoublesReportPrefix(p: SavePayload)
    requires ValidPayload(p)
    ensures |SaveFilename(p)| >= 13 && SaveFilename(p)[..13] == "report_report"
  {
    var folder := FolderForTab(p.tab.value);
    ReportFolderFilename(FilenameParams(folder, Slugify(p.pbmName), p.dateFrom.value, p.dateTo.value, None));
  }

  lemma ReportFolderFilename(params: FilenameParams)
    requires |params.folder| >= 6 && params.folder[..6] == "report"
    ensures |BuildReportFilename(params)| >= 13 && BuildReportFilename(params)[..13] == "report_report"
  {
    var base := FilenameBase(params);
    assert base == "report_" + (params.folder + "_" + params.pbmSlug + "_" + params.from + "_" + params.to);
    assert base[..13] == "report_" + params.folder[..6];
    var name := BuildReportFilename(params);
    assert name[..|base|] == base;
    assert name[..13] == base[..13];
  }

  /** The uploaded path is "{slug}/{folder}/{file}" and its file part is
      the download name. */
  lemma UploadPathShape(p: SavePayload, url: Option<string>)
    requires ValidPayload(p) && Truthy(p.pharmacySlug)
    ensures var r := SaveReport(p, Signed(url));
      r.Uploaded? && r.signedUrl == OrNull(url)
      && r.pdfPath == p.pharmacySlug.value + "/" + FolderForTab(p.tab.value) + "/" + SaveFilename(p)
    ensures SaveReport(p.(pharmacySlug := None), Signed(url)).PdfDownload?
    ensures SaveReport(p.(pharmacySlug := None), Signed(url)).filename == SaveFilename(p)
  {
  }
}
