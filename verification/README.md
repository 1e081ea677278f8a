# Cyber Pharma claim reconciliation — a Dafny model

This project models the claim pricing and reconciliation engine of Cyber Pharma. Cyber Pharma is a dashboard that compares what a pharmacy was paid for a dispensed prescription with what it should have been paid.

Each claim is priced in one of two ways:
- from the baseline table, using a positive AAC (actual acquisition cost) unit price;
- failing that, from the alternate-rates table, using a WAC (wholesale acquisition cost) unit price.

The WAC unit price is `wac / (pkg_size * pkg_size_mult)`, multiplied by 0.96 for brand drugs. A drug is brand when its indicator is "N". The expected payment is `qty * unit + 10.64`, and the owed amount is `expected - paid`. A claim is filed under its payer (PBM) by bin, or under "Federal" when no payer name is found.

Around that engine the model covers:
- the list route (batching, derived filters, pagination) and the KPI route (the same batch loop folded into counters);
- the client store (filters, KPIs, the saved-PDF map);
- the desktop application's `fetch_data`, KPI block, number cleaning and import upsert;
- the desktop record store;
- the query builder and row coercion of the claims service;
- the report email and save routes;
- slugs and report file names, user roles, and report-button visibility;
- the SQLite migration script's CSV writer and chunked upsert;
- `safe_filename`.

Money is `real`. The constants 10.64 and 0.96 are exact literals. NaN and `undefined` are explicit constructors (`JsNumber.NaN`, `Option.None`).

Module layout, leaf first:
- `Wrappers`, `Seqs`, `Text`, `JsNumber`: option type, sequence combinators, character classes, trimming and run replacement, JavaScript numbers.
- `Pricing`: the two resolvers.
- `ClaimEval`: the list route's per-claim evaluation and the per-batch reference tables.
- `UserDataRoute`, `KpisRoute`: the two API routes.
- `RouteConsistency`: where the list route and the KPI route agree, and where they do not.
- `UserDataStore`, `ClaimsService`: the client store and the fetch service.
- `ReportTabs`, `Slug`, `SaveRoute`, `EmailRoute`, `ReportActions`, `UserRole`: reporting helpers and routes.
- `PharmacyBooks`, `DbHelpers`, `SafeFilename`: the desktop application.
- `Migrate`: the migration script.

Storage, the database, clocks, hashing and text-to-number parsing are parameters of the operations that use them. The claim store is the signed-in pharmacy's rows, in the order the query asks for. The route's storage-side filters are the concrete predicate `UserDataRoute.StoreMatches`: a date range by string order, `ilike` pattern matching (module `LikePattern`) and equality on bin and status. Reference tables are maps. A row's result records what a storage call returned, as a datatype.

## Model

| member | source | states |
|---|---|---|
| Pricing.WacUnitPrice | src/app/api/user-data/route.ts:201-212 | With wac, pkg_size and pkg_size_mult all positive numbers, the WAC unit price is positive. Multiplied by pkg_size·pkg_size_mult it gives 0.96·wac for a brand ("N") drug, and wac otherwise. |
| Pricing.ResolveSeeded | src/app/api/user-data/route.ts:194-213 | List-route resolver. The method is AAC exactly when the baseline price is a positive number, and then the unit price is that price. It is WAC exactly when AAC fails and the WAC guard passes, with the WAC unit price. Otherwise the method is Other and the unit price stays the baseline value (even 0 or NaN), or undefined when there is no baseline row. |
| Pricing.ResolveStrict | src/app/api/kpis/route.ts:137-156 | KPI-route resolver. It has the same AAC/WAC choice, but a unit price exists exactly when the method is not Other, and that price is always positive. |
| Pricing.ResolversAgreeUnlessBaselineUnusable | src/app/api/user-data/route.ts:194-213 | The two resolvers always pick the same method. They return the same result exactly when AAC or WAC is usable or there is no baseline row. When they differ, the KPI route has no price and the list route keeps a non-positive or NaN baseline price. |
| Pricing.BrandSingle | src/app/api/user-data/route.ts:205-206 | A one-character indicator marks a brand drug exactly when it upper-cases to "N". |
| Pricing.BrandPadded | src/app/api/user-data/route.ts:205-206 | An indicator padded with spaces is trimmed first, so " n " is brand. |
| Pricing.WacExamples | src/app/api/user-data/route.ts:207-212 | wac 100, package 2×1 prices at 48 for a brand drug and at 50 otherwise. |
| Pricing.EmptyIndicatorIsGeneric | src/app/api/user-data/route.ts:205 | A missing or empty indicator is generic. |
| ClaimEval.PbmName | src/app/api/user-data/route.ts:222 | The payer name is the mapped name when the bin is non-empty and maps to a non-empty name, and "Federal" otherwise. It is never empty. |
| ClaimEval.Reconcile | src/app/api/user-data/route.ts:215-220 | expected, difference and owed are all defined exactly when the unit price is. expected − 10.64 = qty·unit and owed = expected − paid = −difference. A NaN price makes all three NaN. |
| ClaimEval.EvaluateForList | src/app/api/user-data/route.ts:186-244 | The evaluated row has the claim's script, the paid and qty with a null counted as 0, and the resolver's method and price. Under Other the price is the baseline's own value, kept even when it is not positive, or none without a baseline row. expected and owed are the reconciliation of that qty, paid and price. So owed = qty·price + 10.64 − paid under AAC and WAC, and both are defined exactly when a baseline row exists or WAC is usable. The row carries the NDC, date, bin, status, PDF path, the WAC of the WAC row, the claim's drug name (else the baseline's), and `PbmName` of the bin. |
| ClaimEval.ReconcileExamples | src/app/api/user-data/route.ts:215-220 | Two worked reconciliations with exact decimals (e.g. qty 3, price 10, paid 30 gives expected 40.64 and owed 10.64). |
| ClaimEval.BatchTables | src/app/api/user-data/route.ts:137-183 | The per-batch lookup tables are restrictions of the full reference tables: their keys are full-table keys with the full-table values, and every truthy NDC or bin of the batch that the full tables know is kept. |
| ClaimEval.BatchTablesAgree | src/app/api/user-data/route.ts:137-183 | For a claim of the batch, evaluating against the batch's tables gives the same row as against the full tables. |
| KpisRoute.EvaluateForKpis | src/app/api/kpis/route.ts:130-168 | A claim has a price exactly when AAC or WAC is usable. That holds exactly when its method is not Other and exactly when its difference is defined. The difference is the reconciliation's, paid − (qty·price + 10.64), with the AAC price or else the WAC unit price. It is commercial exactly when its bin maps to a non-empty payer name. |
| KpisRoute.StepEffect | src/app/api/kpis/route.ts:170-210 | Each of the nine counters moves by the claim's contribution exactly when the claim counts there. |
| KpisRoute.ReferenceSnoc | src/app/api/kpis/route.ts:170-210 | The reference totals, defined by filtering and summing, extend by one step per appended claim. |
| KpisRoute.AggregateIsReference | src/app/api/kpis/route.ts:130-211 | The accumulator fold equals the reference totals (counts of filtered sequences, sums over them). |
| KpisRoute.ReferenceBounds | src/app/api/kpis/route.ts:170-201 | scriptsCommercial ≤ scriptsAll, and scriptsCommercialDerived ≤ scriptsAllDerived ≤ scriptsAll. Also scriptsCommercialDerived ≤ scriptsCommercial and 0 ≤ underpaidCommercialAbs ≤ underpaidAllAbs. |
| KpisRoute.BatchKpiAgrees | src/app/api/kpis/route.ts:84-128 | The per-batch lookup maps give the same KPI row as the full tables. |
| KpisRoute.BatchRowStep | src/app/api/kpis/route.ts:130-211 | Processing the i-th row of a batch extends the totals of the prefix by that row. |
| KpisRoute.ComputeKpis | src/app/api/kpis/route.ts:61-215 | The batch loop over pages of 1000 returns the reference totals of all matching claims. |
| KpisRoute.GetKpis | src/app/api/kpis/route.ts:17-227 | Unauthenticated requests get 401. Otherwise the response holds the reference totals over the store-matching claims, and they satisfy the count and sum bounds. |
| UserDataRoute.StagedFilters | src/app/api/user-data/route.ts:246-276 | The derived filters keep only rows that were in the input and pass every switched-on filter. |
| UserDataRoute.ProcessBatch | src/app/api/user-data/route.ts:129-277 | A batch's output has no more rows than the batch, and every row passes the derived filters. |
| UserDataRoute.StagedFiltersFuse | src/app/api/user-data/route.ts:246-276 | The staged filters are one order-preserving filter by the conjunction of the switched-on predicates. |
| UserDataRoute.BatchEnrichmentAgrees | src/app/api/user-data/route.ts:137-244 | Enriching a batch against its own lookup tables gives the same rows as against the full tables. |
| UserDataRoute.ProcessBatchIsDerived | src/app/api/user-data/route.ts:129-277 | `processBatch` is the derived-row reference: evaluate every claim, then filter. |
| UserDataRoute.ClampPage | src/app/api/user-data/route.ts:52 | page is at least 1. It defaults to 1 when absent, keeps any value ≥ 1, and stays NaN when the text is not a number. |
| UserDataRoute.ClampLimit | src/app/api/user-data/route.ts:54-57 | limit lies in 1..10000. It defaults to 25, keeps any in-range value, and stays NaN when the text is not a number. |
| UserDataRoute.PageStart | src/app/api/user-data/route.ts:58 | The first index of a page is non-negative, and 0 exactly on page 1. |
| UserDataRoute.PageSlice | src/app/api/user-data/route.ts:104-108 | The page holds at most `limit` rows. Its j-th row is row (page−1)·limit + j of the whole list. It is full when enough rows follow, and non-empty when its start is in range. A NaN page or limit gives no rows. |
| UserDataRoute.PagesTile | src/app/api/user-data/route.ts:104-108 | Pages 1..n concatenated are the first n·limit rows. |
| UserDataRoute.CollectDerived | src/app/api/user-data/route.ts:72-102 | The batch loop over pages of 1000 accumulates exactly the derived rows of all matching claims, in order. |
| UserDataRoute.NextBatch | src/app/api/user-data/route.ts:97-101 | Appending one batch's output to the derived rows of the prefix gives the derived rows of the longer prefix. |
| UserDataRoute.ListClaims | src/app/api/user-data/route.ts:31-119 | Unauthenticated requests get 401. Otherwise `total` and `totalAfterDerivedFilters` both count all derived rows, page and limit are clamped, and `rows` is that page's slice of the derived rows. |
| UserDataRoute.NotANumberPageIsEmpty | src/app/api/user-data/route.ts:52 | A page parameter that is not a number yields an empty page. |
| LikePattern.ContainsPattern | src/app/api/user-data/route.ts:87-89 | The pattern sent for a search text is the lower-cased text between two `%`, with `*` read as `%`; for text without pattern characters it is exactly "%" + text + "%". |
| LikePattern.LiteralNeedleIsSubstring | src/app/api/user-data/route.ts:87-89 | For search text without `%`, `_`, `*` or backslash, the `ilike` filter holds exactly when the lower-cased text occurs in the lower-cased cell. |
| LikePattern.UnderscoreIsWildcard | src/app/api/user-data/route.ts:87 | Search characters are not escaped: "a_c" matches the script "ABC", although "ABC" does not contain "a_c". |
| UserDataStore.ApplyClientSideFilters | src/stores/useUserDataStore.ts:75-112 | Every kept row was in the input and passes the date, owed-type and payer filters. |
| UserDataStore.ClientFiltersAreOneFilter | src/stores/useUserDataStore.ts:75-112 | The three stages are one order-preserving filter, so the result is a subsequence of the input. |
| UserDataStore.NoFiltersKeepAll | src/stores/useUserDataStore.ts:75-112 | With no filter set, every row is kept. |
| UserDataStore.MissingOwedIsNeither | src/stores/useUserDataStore.ts:94-104 | A row without owed is neither underpaid nor overpaid. |
| UserDataStore.CalculateKpis | src/stores/useUserDataStore.ts:114-140 | scriptsCommercial counts rows whose payer is not "Federal" (a missing payer is commercial). underpaidCommercialAbs is the sum of the positive owed amounts of commercial rows, so it is ≥ 0. updatedDifferenceTotal is the sum of newPaid − paid over commercial rows with a newPaid. owedTotal = underpaidCommercialAbs − updatedDifferenceTotal. |
| UserDataStore.CalculateKpisOfOneRow | src/stores/useUserDataStore.ts:114-140 | One row counts once when commercial, and adds its positive owed amount and its newPaid − paid when commercial. |
| UserDataStore.KpisAdditive | src/stores/useUserDataStore.ts:114-140 | Every KPI of a concatenation is the sum of the two parts' KPIs. |
| UserDataStore.CalculateKpisExample | src/stores/__tests__/useUserDataStore.test.ts:52-68 | The store test's three rows give underpaid 30, two commercial scripts, updated 20 and owed 10. |
| UserDataStore.SameMonthDateComparisons | src/stores/useUserDataStore.ts:79-91 | String order on ISO dates within a month follows the day. |
| UserDataStore.CrossMonthDateComparisons | src/stores/useUserDataStore.ts:79-91 | String order on ISO dates across months follows the month. |
| UserDataStore.DateWindowPicksMiddle | src/stores/useUserDataStore.ts:78-91 | With both bounds set, a row before the window and one after it are dropped, and the row inside is kept. |
| UserDataStore.DateFilterExample | src/stores/__tests__/useUserDataStore.test.ts:24-34 | The store test's date window keeps only the 2024-01-20 row. |
| UserDataStore.SetSavedPdfs | src/stores/useUserDataStore.ts:157-162 | Storing PDFs adds the context key and leaves every other key's entry unchanged. |
| UserDataStore.GetSavedPdfs | src/stores/useUserDataStore.ts:163-166 | A context never stored reads back as no paths. |
| UserDataStore.ContextKeyInjective | src/stores/useUserDataStore.ts:158 | When the payer name and start date contain no vertical bar, distinct contexts have distinct keys. |
| UserDataStore.SavedPdfsReadBack | src/stores/useUserDataStore.ts:157-171 | After a store, get returns the paths (or [] when absent), and has is true exactly when they are non-empty. Other contexts read back as before. |
| UserDataStore.ContextKeyCollision | src/stores/useUserDataStore.ts:158 | Without that condition, two distinct contexts can share a key. |
| UserDataStore.SetFilters | src/stores/useUserDataStore.ts:173-177 | Each filter field takes the patch's value when the patch has one, and keeps its value otherwise. Rows, page and KPIs are untouched. |
| UserDataStore.ApplyFilters | src/stores/useUserDataStore.ts:179-185 | The filtered rows are the client-side filter of all rows, the KPIs are computed from them, and the page is 1. |
| UserDataStore.ClearFilters | src/stores/useUserDataStore.ts:238-244 | Clearing resets the filters and the page, keeps every row, and recomputes the KPIs over all rows. |
| UserDataStore.SetFiltersIdempotent | src/stores/useUserDataStore.ts:173-177 | Applying the same patch twice is the same as once. |
| ClaimsService.FormRoundTrip | src/services/ClaimsServices.ts:77 | Form-decoding the form encoding of an ASCII string gives it back. |
| ClaimsService.Serialize | src/services/ClaimsServices.ts:77-78 | The serialised query is empty exactly when there are no pairs. |
| ClaimsService.SerializeRoundTrip | src/services/ClaimsServices.ts:61-79 | Parsing the serialised pairs gives the same pairs back. |
| ClaimsService.BuildQuery | src/services/ClaimsServices.ts:61-79 | The query is "" when no parameter is emitted, and otherwise starts with "?". |
| ClaimsService.BuildQueryParses | src/services/ClaimsServices.ts:61-79 | What follows "?" parses back to the emitted pairs. |
| ClaimsService.NumberText | src/services/ClaimsServices.ts:75-76 | page and limit are emitted exactly when present and non-zero. |
| ClaimsService.KpisQuery | src/services/ClaimsServices.ts:118-131 | The KPI query is empty exactly when no filter parameter is emitted. |
| ClaimsService.KpisQueryDropsPaging | src/services/ClaimsServices.ts:118-131 | The KPI query is the list query with page, limit and sort removed. |
| ClaimsService.QueryParameters | src/services/ClaimsServices.ts:62-76 | Each parameter is present exactly when its value is truthy, with that value. owedType "all" is never sent, and the filter part carries no paging or sort. |
| ClaimsService.NumberOr | src/services/ClaimsServices.ts:95-100 | A JSON number is kept, and an absent or null value becomes the default. |
| ClaimsService.OptionalNumber | src/services/ClaimsServices.ts:96-102 | An absent or null value becomes undefined/null, and a JSON number is kept. |
| ClaimsService.CoerceRow | src/services/ClaimsServices.ts:90-108 | method defaults to "Other", qty and paid to 0. newPaid, expected and owed are missing exactly when absent or null on the wire. |
| ClaimsService.WireRoundTrip | src/services/ClaimsServices.ts:90-108 | Coercing a row the list route sent gives back every field. A NaN price becomes missing. |
| ClaimsService.CoerceRowExample | src/services/ClaimsServices.test.ts:56-76 | The service test's row with string numbers coerces to the numbers it spells. |
| ClaimsService.CoerceResponse | src/services/ClaimsServices.ts:109-115 | Missing rows become [], with one coerced row per wire row. Missing total, page and limit default to 0, 1 and 25. |
| ClaimsService.ResponseRoundTrip | src/services/ClaimsServices.ts:109-115 | Coercing a list-route page gives back its total, page, limit and rows. |
| EmailRoute.DateRange | src/app/api/reports/email/route.ts:35 | The range joins the present dates with " to ", and is empty exactly when neither is present. |
| EmailRoute.SubjectUntrimmed | src/app/api/reports/email/route.ts:36 | When the payer name and range carry no outer whitespace, the subject is "{pbm} {label} Report" followed by " {range}" when the range is non-empty. |
| EmailRoute.SanitizeFile | src/app/api/reports/email/route.ts:157-159 | The result has at most 120 characters, all from [A-Za-z0-9._-]. It is a prefix of the input with each run of other characters replaced by one "_", and when nothing is cut it keeps every non-"_" character. |
| EmailRoute.SanitizeFileIdempotent | src/app/api/reports/email/route.ts:157-159 | Sanitising twice is the same as once. |
| EmailRoute.EmlFileName | src/app/api/reports/email/route.ts:121 | The file name ends in ".eml" and has at most 124 characters. |
| EmailRoute.NormalizePath | src/app/api/reports/email/route.ts:45 | One leading "/" is removed, and nothing else changes. |
| EmailRoute.AttachmentName | src/app/api/reports/email/route.ts:50 | The attachment name is never empty. |
| EmailRoute.AttachmentNameIsLastSegment | src/app/api/reports/email/route.ts:50 | For a path ending in a non-empty segment, the name is that segment. |
| EmailRoute.TrailingSlashFallsBack | src/app/api/reports/email/route.ts:50 | A path ending in "/" gets "report.pdf". |
| EmailRoute.PharmacySlug | src/app/api/reports/email/route.ts:71-74 | The slug is the first "/"-free segment of the normalised first path. |
| EmailRoute.CollectAttachments | src/app/api/reports/email/route.ts:42-53 | On success there is one attachment per path, named by its last segment and holding what was downloaded from the normalised path. It fails exactly when some download fails. |
| EmailRoute.ResolvedBins | src/app/api/reports/email/route.ts:86-95 | Resolved bins are never empty strings. |
| EmailRoute.TruthyValues | src/app/api/reports/email/route.ts:93 | The kept bins are exactly the non-empty bins of the lookup. |
| EmailRoute.ChooseBinFilterAsWritten | src/app/api/reports/email/route.ts:106-112 | As written, "Federal" selects bin IS NULL, and `bin IN bins` is chosen exactly for another payer with resolved bins. Every other case updates every bin. |
| EmailRoute.ChooseBinFilter | src/app/api/reports/email/route.ts:106-112 | As the comment intends, a named payer with no resolved bins selects no update at all. |
| EmailRoute.BinFilterChoicesAgree | src/app/api/reports/email/route.ts:106-112 | The two choices agree for "Federal", for "All", and whenever bins were resolved. |
| EmailRoute.ApplyStatusUpdate | src/app/api/reports/email/route.ts:98-114 | Selected claims become "emailed" with the PDF path, and every other claim is unchanged. |
| EmailRoute.AsWrittenMarksOtherPayers | src/app/api/reports/email/route.ts:108-112 | A payer whose bins resolve to nothing, or whose bin lookup fails, marks another payer's claim as emailed. |
| EmailRoute.IntendedMarksOnlyThePbm | src/app/api/reports/email/route.ts:106-112 | With the intended choice, an updated claim belongs to the pharmacy, has no bin for "Federal", and has one of the payer's bins otherwise. |
| EmailRoute.PlanStatusUpdate | src/app/api/reports/email/route.ts:69-116 | As written, an update is planned exactly when the first path's slug resolves to a pharmacy id. It writes the first normalised path over the requested dates, with the as-written bin filter. |
| EmailRoute.IntendedStatusUpdate | src/app/api/reports/email/route.ts:69-116 | As the comment intends, the same update, planned only when the intended bin filter exists. |
| EmailRoute.IntendedUpdateRefinesAsWritten | src/app/api/reports/email/route.ts:106-112 | The intended update is the as-written one whenever it exists. It is skipped exactly where the as-written route updates a named payer with no resolved bins. |
| EmailRoute.EmailReport | src/app/api/reports/email/route.ts:15-133 | A missing pbmName gives 400, and a failed lookup gives 500. Once the lookup succeeds, the answer is 404 "No email found for PBM: …" exactly when the first email is missing or empty. A failed download gives 500 "Failed to download {path}: {message}". A message is built exactly when the payer has a first email and every download succeeds. It goes to that email, with the composed subject and text body, the sanitised ".eml" name, and the downloaded files as attachments. With at least one path, the status update is the as-written `PlanStatusUpdate`; without one there is none. |
| EmailRoute.StatusUpdateDoesNotBlock | src/app/api/reports/email/route.ts:68-116 | The pharmacy-id and bin lookups behind the status update never change the response: the status code, error and message are the same whatever those lookups return. |
| EmailRoute.MissingPbmNameBeforeLookup | src/app/api/reports/email/route.ts:18-21 | A missing pbmName gives 400 whatever the lookups would return. |
| EmailRoute.NoEmailIsNotFound | src/app/api/reports/email/route.ts:31-32 | A payer with no (or an empty) email gives 404. |
| SaveRoute.Title | src/app/api/reports/save/route.ts:28 | The title is the tab's label followed by " Report". |
| SaveRoute.SaveReport | src/app/api/reports/save/route.ts:17-69 | Missing fields give 400. Without a pharmacy slug the PDF is returned under its report file name. A failed upload gives 500 "Upload failed: …", and a failed signing gives 500 "Signed URL failed: …". Otherwise the file is stored at "{slug}/{folder}/{file}", and the response carries the signed URL exactly when one came back. |
| SaveRoute.NoSlugNoUpload | src/app/api/reports/save/route.ts:35-46 | Without a slug the outcome does not depend on storage, and nothing is uploaded. |
| SaveRoute.FilenameDoublesReportPrefix | src/app/api/reports/save/route.ts:71-84 | Every saved file name starts with "report_report". |
| SaveRoute.ReportFolderFilename | src/utils/slug.ts:19-20 | A folder starting with "report" yields a file name starting with "report_report". |
| SaveRoute.UploadPathShape | src/app/api/reports/save/route.ts:48-65 | The upload path is "{slug}/{folder}/{file}" with the signed link passed through. The file part equals the download name. |
| ReportTabs.ParseTab | src/app/api/reports/save/route.ts:9 | A tab name parses exactly to the tab it names. |
| ReportTabs.LabelForTab | src/app/api/reports/save/route.ts:86-99 | The label is "Report" exactly for an unknown tab, and never empty. |
| ReportTabs.FolderForTab | src/app/api/reports/save/route.ts:71-84 | The folder is "reports" exactly for an unknown tab, and always starts with "report". |
| ReportTabs.LabelsAndFoldersDistinct | src/app/api/reports/save/route.ts:71-99 | Distinct tabs have distinct labels and distinct folders. |
| ReportActions.ActionVisibility | src/components/admin/ReportActions.tsx:15-20 | Save needs underpaid and a payer other than "All". Email needs a payer other than "All" and "Federal". The label shows exactly when both do, and the defaults show nothing. |
| ReportActions.EmailIndependentOfOwedType | src/components/admin/ReportActions.tsx:19 | Email visibility does not depend on the owed type. |
| ReportActions.FederalSavedNotEmailed | src/components/admin/ReportActions.tsx:18-20 | An underpaid Federal report can be saved but not emailed. |
| UserRole.GetUserRole | src/utils/get-user-role.ts:9-27 | Missing metadata gives no role. A returned role's flag is true and no higher-ranked flag is. No role means no flag is true. |
| UserRole.RoleIsDetermined | src/utils/get-user-role.ts:22-24 | A true flag with no higher true flag determines the role. |
| UserRole.TrimmedUpperTrue | src/utils/get-user-role.ts:13-20 | " TRUE " counts as true. |
| UserRole.YesIsNotTrue | src/utils/get-user-role.ts:13-20 | "yes" does not count as true. |
| UserRole.IsTrueExamples | src/utils/get-user-role.ts:13-20 | 1, true and " TRUE " count. 2, "yes", false and null do not. |
| UserRole.SuperadminWins | src/utils/get-user-role.ts:22 | A true superadmin flag wins over the others. |
| Slug.CollapseRuns | src/utils/slug.ts:7 | The result has no doubled separator, keeps the first character, and adds no new characters. |
| Slug.Slugify | src/utils/slug.ts:1-10 | The slug holds only [a-z0-9_], with no leading, trailing or doubled "_". Its letters and digits are the input's, lower-cased. It is empty exactly when the input has none, and for a missing or empty input. |
| Slug.SlugOfShape | src/utils/slug.ts:5-9 | The pipeline always produces slug-shaped text. |
| Slug.SlugOfLetters | src/utils/slug.ts:5-9 | The pipeline keeps exactly the input's letters and digits, lower-cased. |
| Slug.SlugifyIdempotent | src/utils/slug.ts:1-10 | Slugifying a slug returns it unchanged. |
| Slug.BuildReportFilename | src/utils/slug.ts:12-21 | The name is the base "report_{folder}_{pbm}_{from}_{to}", then a part suffix, then ".pdf". The suffix is absent exactly when there is no part or the part is at most 1. |
| Slug.PartAtMostOneIsUnsplit | src/utils/slug.ts:20 | Parts ≤ 1 give the unsplit name. |
| Slug.DistinctPartsDistinctNames | src/utils/slug.ts:20 | Distinct parts above 1 give distinct names. |
| PharmacyBooks.CleanNumeric | pharma_book/pharmacybooks.py:44-59 | A missing or blank value, or one that does not parse after stripping, gives 0.0. |
| PharmacyBooks.ParseFloat | pharma_book/pharmacybooks.py:55-58 | Unsigned text reads as the unsigned number, and only text starting with "-" reads negative. |
| PharmacyBooks.CleanNumericNegatesParens | pharma_book/pharmacybooks.py:51-53 | "(x)" reads as the negation of x. |
| PharmacyBooks.ReadPlainDigits | pharma_book/pharmacybooks.py:54-58 | A digit string reads as its value, and with a leading "-" as its negation. |
| PharmacyBooks.CleanNumericOfDigits | pharma_book/pharmacybooks.py:44-59 | "d", "-d" and "(d)" read as d, −d and −d. |
| PharmacyBooks.CleanNumericReadsNumbers | pharma_book/pharmacybooks.py:44-59 | The decimal text of every natural number reads back as that number, and negated when signed or bracketed. |
| PharmacyBooks.CleanImportRow | pharma_book/pharmacybooks.py:378-384 | For a file with every column present: imported paid and qty are the cleaned numbers, the NDC holds only digits, the script is stripped and the date normalised. |
| PharmacyBooks.ImportRowsSpec | pharma_book/pharmacybooks.py:385-407 | After the import loop the scripts are the old ones plus the dated new ones. No stored total_paid changes, and scripts not imported are untouched. |
| PharmacyBooks.ImportSkipsUndated | pharma_book/pharmacybooks.py:386-387 | Rows with an empty date have no effect. |
| PharmacyBooks.ComputeFallback | pharma_book/pharmacybooks.py:431-438 | The fallback price is positive exactly when pkg_size, pkg_size_mult and wac are all positive, and 0.0 otherwise. Times the package size it is 0.96·wac for "N" and wac otherwise. |
| PharmacyBooks.MethodLabel | pharma_book/pharmacybooks.py:440-450 | The label is "AAC" exactly for a baseline row and empty exactly for no method. It is never "WAC" (the WAC labels are formulas). |
| PharmacyBooks.Enrich | pharma_book/pharmacybooks.py:424-454 | Any baseline row, even at 0, gives method AAC with its price, and otherwise the fallback price. The expected payment is qty·aac + 10.64. An unpriced claim expects 10.64. difference = paid − expected, and updated_diff = new_paid − paid when new_paid exists. An unmatched bin is "Federal". |
| PharmacyBooks.FetchData | pharma_book/pharmacybooks.py:412-461 | The result holds exactly the enriched claims in the date window that pass the payer and owed filters, in the order of the claims. |
| PharmacyBooks.DeskFilters | pharma_book/pharmacybooks.py:455-460 | The payer and shortfall filters keep exactly the rows that pass both, in order. |
| PharmacyBooks.DesktopKpis | pharma_book/pharmacybooks.py:656-661 | underpaid_amt is the sum of the shortfalls of underpaid commercial rows, so it is ≥ 0. The script count is the number of distinct scripts among commercial rows, at most their number. updated_diff_total sums the commercial rows' updated differences, a missing one as 0. owed = underpaid_amt − updated_diff_total. |
| PharmacyBooks.CommercialScripts | pharma_book/pharmacybooks.py:659 | The scripts `nunique()` counts are exactly those of the commercial rows. |
| PharmacyBooks.UnderpaidIsSumOfShortfalls | pharma_book/pharmacybooks.py:657-658 | underpaid_amt is the sum of the shortfalls of underpaid commercial rows, so the clamp never bites. |
| PharmacyBooks.ScriptCountOfDistinctRows | pharma_book/pharmacybooks.py:659 | With distinct scripts, the unique-script count is the row count. |
| PharmacyBooks.ButtonsAgreeWithDashboard | pharma_book/pharmacybooks.py:463-477 | Desktop Save and Email enabling, and the email-address label, match the web ReportActions predicates. |
| PharmacyBooks.PayerNameAgainstListRoute | pharma_book/pharmacybooks.py:428 | The desktop payer name equals the list route's, except when a mapped name is empty or the bin is empty. |
| PharmacyBooks.BaselineAgainstWebRoutes | pharma_book/pharmacybooks.py:430-442 | The desktop says AAC for any baseline row, and the web routes only for a positive price. When the web routes say AAC they use the same price. |
| PharmacyBooks.WacAgainstWebRoutes | pharma_book/pharmacybooks.py:431-439 | Without a baseline row both sides use WAC under the same guard, with the same price when the indicator trims alike. |
| PharmacyBooks.WacPricesAgree | pharma_book/pharmacybooks.py:431-437 | The desktop fallback price equals the web WAC unit price on the same record. |
| PharmacyBooks.BrandTestsAgree | pharma_book/pharmacybooks.py:433-434 | The desktop and web brand tests agree when both trims agree. |
| PharmacyBooks.UnpricedAgainstWebRoutes | pharma_book/pharmacybooks.py:438-452 | An unpriced claim has no price on the web KPI route, but the desktop expects 10.64. |
| PharmacyBooks.AsDashboardRow | pharma_book/pharmacybooks.py:453 | A desktop row seen as a dashboard row owes −difference, with the same payer, paid and new paid. |
| PharmacyBooks.UnderpaidMatchesDashboard | pharma_book/pharmacybooks.py:656-658 | Desktop underpaid_amt equals the dashboard's underpaidCommercialAbs on the same rows. |
| PharmacyBooks.UpdatedMatchesDashboard | pharma_book/pharmacybooks.py:660 | Desktop updated_diff_total equals the dashboard's updatedDifferenceTotal. |
| PharmacyBooks.DesktopKpisMatchDashboard | pharma_book/pharmacybooks.py:656-661 | The desktop KPIs equal the dashboard KPIs, with the script count bounded by the commercial count. |
| PharmacyBooks.FetchedRowsConsistent | pharma_book/pharmacybooks.py:454 | Every fetched row's updated_diff is new_paid − paid. |
| DbHelpers.InsertOrUpdate | pharma_book/helpers/db_helpers.py:207-226 | A new script is inserted with new_paid, pdf_file and status NULL. An existing script with a different total_paid gets new_paid = the incoming paid and the incoming details. One with an equal total_paid is left as is. The stored total_paid, pdf_file and status never change, and other scripts are untouched. |
| DbHelpers.InsertOrUpdateIdempotent | pharma_book/helpers/db_helpers.py:219 | Upserting the same row twice is the same as once. |
| DbHelpers.UpdateUserStatus | pharma_book/helpers/db_helpers.py:228-233 | Only that script's status changes. |
| DbHelpers.ScriptsByStatus | pharma_book/helpers/db_helpers.py:258-263 | The result is exactly the scripts with that status. |
| DbHelpers.UpdateThenQuery | pharma_book/helpers/db_helpers.py:228-263 | After an update the script joins the new status's set and leaves every other status's set. |
| DbHelpers.GetReportFile | pharma_book/helpers/db_helpers.py:235-241 | A path is found exactly when the (script, report_type) key is stored. |
| DbHelpers.InsertReportFile | pharma_book/helpers/db_helpers.py:243-252 | Insertion adds the key and leaves other keys unchanged. |
| DbHelpers.RemoveReportFile | pharma_book/helpers/db_helpers.py:265-270 | Removal drops the key and nothing else. |
| DbHelpers.GetAfterInsert | pharma_book/helpers/db_helpers.py:235-252 | Get after insert returns the inserted path, and other keys read back as before. |
| DbHelpers.GetAfterRemove | pharma_book/helpers/db_helpers.py:265-270 | Get after remove returns nothing, and other keys read back as before. |
| DbHelpers.InsertReplacesAndRemoveUndoes | pharma_book/helpers/db_helpers.py:243-270 | A second insert replaces the first. Removing a fresh insert restores the table. |
| DbHelpers.CreateUser | pharma_book/helpers/db_helpers.py:103-110 | A user is created exactly when the name is new, and an existing hash is never replaced. |
| DbHelpers.ValidateAfterCreate | pharma_book/helpers/db_helpers.py:103-115 | After creation, validation accepts exactly the password (for an injective hash). Other users validate as before. |
| DbHelpers.DigitsOnly | pharma_book/helpers/db_helpers.py:136 | The result holds only digits. It is a subsequence of the input, so the digits keep their order, and each digit occurs in it exactly as often as in the input. |
| DbHelpers.DigitsOnlyOfDigits | pharma_book/helpers/db_helpers.py:136 | Text that is all digits is unchanged. |
| DbHelpers.DigitsOnlyJoins | pharma_book/helpers/db_helpers.py:136 | "a-b" over digit strings becomes "ab". |
| DbHelpers.LoadBaselineRow | pharma_book/helpers/db_helpers.py:131-138 | The loaded NDC is the digits of the file's NDC. A numeric AAC is kept, and a non-numeric one becomes 0.0. |
| DbHelpers.ReloadBaselineRow | pharma_book/helpers/db_helpers.py:131-138 | Loading a loaded baseline row again changes nothing. |
| DbHelpers.LoadAltRateRow | pharma_book/helpers/db_helpers.py:140-169 | For a file with the NDC and the three price columns present: the loaded NDC is the digits of the file's NDC. Numeric WAC, package size and multiplier are kept, and non-numeric ones become 0.0. The indicator is the file's indicator stripped of outer whitespace, or empty when missing. |
| DbHelpers.ReloadAltRateRow | pharma_book/helpers/db_helpers.py:140-169 | Loading a loaded alternate-rate row again changes nothing. |
| RouteConsistency.RowAgreement | src/app/api/kpis/route.ts:137-188 | Without a payer filter, and when both resolvers price the claim alike, the list route keeps a claim exactly when the KPI route counts it as a derived script. |
| RouteConsistency.ListTotalIsKpiDerivedCount | src/app/api/user-data/route.ts:246-250 | Under the same conditions, the list's `totalAfterDerivedFilters` equals the KPI `scriptsAllDerived`. |
| RouteConsistency.ZeroBaselineDiverges | src/app/api/user-data/route.ts:194-220 | A zero baseline price: the list route keeps the claim with method Other and expected 10.64, while the KPI route does not count it. |
| RouteConsistency.FederalNamedPbmDiverges | src/app/api/kpis/route.ts:165-168 | A payer literally named "Federal" is filed under Federal by the list route but counted as commercial by the KPI route. |
| Migrate.Esc | pharma_book/scripts/migrateSqliteToSupabase.js:42-46 | Null gives "". Text without `"`, `,` or line break is unchanged. Other text is quoted, and un-doubling the inside recovers it. |
| Migrate.UndoubleDouble | pharma_book/scripts/migrateSqliteToSupabase.js:45 | Un-doubling the doubled quotes recovers the text. |
| Migrate.WriteCsv | pharma_book/scripts/migrateSqliteToSupabase.js:40-50 | The file is non-empty and ends in a line break. |
| Migrate.EscReadsBack | pharma_book/scripts/migrateSqliteToSupabase.js:42-46 | An escaped field reads back (section 2 of RFC 4180) as its text. |
| Migrate.LineReadsBack | pharma_book/scripts/migrateSqliteToSupabase.js:47 | A row's line reads back as the row's texts. |
| Migrate.LinesReadBack | pharma_book/scripts/migrateSqliteToSupabase.js:47 | The joined lines read back as all the rows. |
| Migrate.CsvRoundTrip | pharma_book/scripts/migrateSqliteToSupabase.js:40-50 | Reading the written file gives back the header and every row's texts. |
| Migrate.Num | pharma_book/scripts/migrateSqliteToSupabase.js:52-56 | A value is kept exactly when it is a finite number. Null, missing and non-finite values give null. |
| Migrate.ChoosePharmacyId | pharma_book/scripts/migrateSqliteToSupabase.js:29-31 | The environment id is used when it is 36 characters from [0-9a-fA-F-], and the generated one otherwise. |
| Migrate.ConfiguredIdKeptIff | pharma_book/scripts/migrateSqliteToSupabase.js:29-31 | The configured id is kept exactly when it has that shape. |
| Seqs.ChunksCover | pharma_book/scripts/migrateSqliteToSupabase.js:156-157 | The chunks concatenate back to the rows. Each holds 1 to 1000 rows, and all but the last exactly 1000. |
| Migrate.UpsertChunks | pharma_book/scripts/migrateSqliteToSupabase.js:156-157 | The upload loop slices exactly the chunks of 1000. |
| Migrate.UpsertAll | pharma_book/scripts/migrateSqliteToSupabase.js:158 | After an upsert the table's keys are the old keys plus the rows' keys. Each upserted key holds the last row with that key, and every other key keeps its row. |
| Migrate.UpsertAllConcat | pharma_book/scripts/migrateSqliteToSupabase.js:155-160 | Upserting a + b is upserting a, then b. |
| Migrate.ChunkedUpsertIsWhole | pharma_book/scripts/migrateSqliteToSupabase.js:155-160 | Upserting chunk by chunk equals one upsert of all rows. |
| Migrate.UploadTable | pharma_book/scripts/migrateSqliteToSupabase.js:155-162 | The chunked upload leaves the table as a single upsert of all rows would. |
| SafeFilename.SafeFilename | pharma_book/safe_filename.py:3-8 | The output has the input's length. None of the unsafe characters (backslash, slash, `*?:"<>` and the vertical bar) remains: each becomes "_", and every other character stays in place. |
| SafeFilename.SafeNameUnchanged | pharma_book/safe_filename.py:8 | A name with no unsafe character is unchanged. |
| SafeFilename.SafeFilenameIdempotent | pharma_book/safe_filename.py:8 | Applying it twice is the same as once. |

## Left out

- Record-store, auth and storage I/O: Supabase and SQLite calls, `auth.getUser`, uploads, downloads and signed links are parameters or datatypes of outcomes. The catch-all 500 responses for thrown exceptions are not modelled.
- Sorting and scoping of the claim store: the `sortDir` parameter and the two `order` calls only set the order of the rows the store returns, and row-level security limits them to the signed-in pharmacy. The model takes the store's rows as given, in that order.
- `ilike` escapes: the route never escapes the search text, so a backslash in it escapes the next character. The model reads a backslash as SQL `LIKE` does; a lone backslash at the end of a pattern cannot occur because the pattern always ends in `%`.
- Floating point: money is exact `real`, so IEEE-754 rounding, `toFixed`/`round(…, 2)` display and Infinity are out. NaN is modelled.
- Text-to-number parsing: `Number`, `parseFloat`, `parseInt`, `pd.to_numeric` and `pd.to_datetime` are parameters or already-parsed values. The one exception is Python's `float()` inside `clean_numeric`, which is modelled for the `[0-9.-]` text left after its regex. An exponent such as "1e5" loses its "e" there, as in the code.
- Character sets: `\D`, `\w` and case mapping are ASCII-only, and string order is by code point. `slugify`'s NFKD normalisation is not modelled; only its removal of combining marks is.
- Duplicate keys in reference tables: the web routes build their lookups with `Map.set`, so the last row the store returns wins; the model's tables are those maps. The desktop `pd.merge` (pharmacybooks.py:425-427) instead repeats a claim once for each matching reference row. Those repeated rows are not modelled: the desktop tables are maps too.
- PDF and EML generation, mail composition, Outlook and mailto: not modelled. Only the file names, subject and attachment list are.
- Randomness and the clock: `cryptoUuid` and `NOW` in the migration script are parameters.
- The migration script's per-table column fallbacks, its CSV/Supabase mode dispatch and the credential check: plain I/O around the modelled `esc`, `writeCsv`, `num`, id choice and upsert chunking.
- SHA-256 password hashing: a function parameter, assumed injective where a lemma needs it.
- Desktop UI and I/O: Tk dialogs, `set_profile`/`get_profile`, `load_pbm`, `get_pbm_emails`, `fetch_table`, `fetch_user_data_between_dates`, `save_pdf`, `manual_email_dialog`, and the file-existence cleanup in `_render_all`.
- `resolve_columns`: its difflib fuzzy column matching is left to the caller. The import model starts from rows whose columns are already resolved.
- PharmacyBooks.CleanImportRow: assumes every column is present. A resolved claims file without a qty column makes `df.get('qty', '')` return the text `''`, and `.apply` on it raises; a missing drug_ndc, drug_name or bin column fails the same way at `.astype` (pharmacybooks.py:380-383). Only script, total_paid and date_dispensed are required, so such a file aborts the import instead of defaulting the column.
- DbHelpers.LoadAltRateRow: assumes the wac, pkg_size, pkg_size_mult and NDC columns are present. Without one of the price columns, `pd.to_numeric(dfw.get(col, 0))` is the scalar 0, which has no `.fillna`, and without the NDC column `''.astype` fails (db_helpers.py:161-162), so start-up loading raises instead of defaulting to 0 or "".
- The kpis route's `pbm` parameter: it is never read, so it has no effect in `KpisRoute`.
- Migrate.UpsertAll: a failed upsert call (`if (error) throw error`) aborting the upload part-way is not modelled. Neither is the database rejecting a chunk that hits one conflict key twice; the model lets the last row win, so `ChunkedUpsertIsWhole` and `UploadTable` describe a run in which every call succeeds.
- UserDataStore.ContextKeyInjective: holds only when the payer name and start date contain no vertical bar. `ContextKeyCollision` shows the store's key is not injective without that condition.
- EmailRoute.SubjectUntrimmed: states the subject only when no outer whitespace would be trimmed.
- PharmacyBooks.WacAgainstWebRoutes: equal prices are stated only when the JavaScript and Python trims agree on the indicator. Their whitespace sets differ.
- Tests that contradict the code: the save-route tests expect auth checks, a slug lookup and a single "report_" prefix. The model follows the route, which does none of this (`SaveRoute.FilenameDoublesReportPrefix`). The ReportActions tests name Preview and Download buttons the component does not render.

## Findings

| source | as written | input that shows it | evidently intended | confidence | as-written member | corrected member |
|---|---|---|---|---|---|---|
| src/app/api/reports/email/route.ts:106-112 | When the payer is neither "Federal" nor "All" and no bins resolve, no bin condition is added. The update then marks every claim of the pharmacy in the date range as emailed. | pbm "Acme" whose bin lookup returns no rows or an error. A claim of another payer (bin "610014") in the range gets status "emailed". | As the comment says, skip the update when a named payer has no bins, so that only that payer's claims are marked. | not executed | EmailRoute.AsWrittenMarksOtherPayers (with EmailRoute.ChooseBinFilterAsWritten and EmailRoute.PlanStatusUpdate, which the route model uses) | EmailRoute.IntendedMarksOnlyThePbm (with EmailRoute.ChooseBinFilter, EmailRoute.IntendedStatusUpdate and EmailRoute.IntendedUpdateRefinesAsWritten) |
