/** The desktop application's record store: the claim table keyed by
    script number and its import upsert, the saved-report table keyed by
    (script, report type), the login table keyed by user name, the status
    column, and the normalisation the reference-list loaders apply.

    Every table is a finite map from its primary key; SQL statements are
    functions from the old map to the new one. */
module DbHelpers {
  import opened Wrappers
  import opened Seqs
  import opened Text

  // ---------------------------------------------------------------- claims

  /** A stored `user_data` row (its key, the script number, is the map key).
      `None` is SQL NULL. */
  datatype StoredRow = StoredRow(dateDispensed: string, drugNdc: string, drugName: string,
                                 qty: real, totalPaid: real, newPaid: Option<real>, bin: string,
                                 pdfFile: Option<string>, status: Option<string>)

  /** A cleaned claim as the import hands it to the store. */
  datatype IncomingRow = IncomingRow(script: string, dateDispensed: string, drugNdc: string,
                                     drugName: string, qty: real, totalPaid: real, bin: string)

  type UserData = map<string, StoredRow>

  /** The stored row carries the incoming claim's descriptive fields. */
  predicate Carries(s: StoredRow, row: IncomingRow)
  {
    s.dateDispensed == row.dateDispensed && s.drugNdc == row.drugNdc && s.drugName == row.drugName
    && s.qty == row.qty && s.bin == row.bin
  }

  /** `insert_or_update_user_data`: a new script is stored with no updated
      payment; a known script whose paid amount differs records the incoming
      amount as its updated payment and takes the incoming descriptive
      fields, while the originally stored paid amount stays; a known script
      with the same paid amount is left alone. */
  function InsertOrUpdate(t: UserData, row: IncomingRow): (r: UserData)
    ensures r.Keys == t.Keys + {row.script}
    ensures forall s :: s in t && s != row.script ==> r[s] == t[s]
    ensures row.script !in t ==>
      Carries(r[row.script], row) && r[row.script].totalPaid == row.totalPaid
      && r[row.script].newPaid.None? && r[row.script].pdfFile.None? && r[row.script].status.None?
    ensures row.script in t ==>
      r[row.script].totalPaid == t[row.script].totalPaid
      && r[row.script].pdfFile == t[row.script].pdfFile && r[row.script].status == t[row.script].status
    ensures row.script in t && t[row.script].totalPaid != row.totalPaid ==>
      Carries(r[row.script], row) && r[row.script].newPaid == Some(row.totalPaid)
    ensures row.script in t && t[row.script].totalPaid == row.totalPaid ==> r == t
  {
    if row.script !in t then
      t[row.script := StoredRow(row.dateDispensed, row.drugNdc, row.drugName, row.qty, row.totalPaid,
                                None, row.bin, None, None)]
    else
      var prev := t[row.script];
      if row.totalPaid != prev.totalPaid then
        t[row.script := prev.(dateDispensed := row.dateDispensed, drugNdc := row.drugNdc,
                             drugName := row.drugName, qty := row.qty, newPaid := Some(row.totalPaid),
                             bin := row.bin)]
      else t
  }

  /** Importing the same claim twice stores what importing it once does. */
  lemma InsertOrUpdateIdempotent(t: UserData, row: IncomingRow)
    ensures InsertOrUpdate(InsertOrUpdate(t, row), row) == InsertOrUpdate(t, row)
  {
    var once := InsertOrUpdate(t, row);
    if row.script in t && t[row.script].totalPaid != row.totalPaid {
      assert once[row.script].totalPaid == t[row.script].totalPaid;
      var twice := InsertOrUpdate(once, row);
      assert twice[row.script] == once[row.script];
      assert twice == once;
    }
  }

  /** `update_user_status`: only that script's status changes; an unknown
      script changes nothing. */
  function UpdateUserStatus(t: UserData, script: string, status: string): (r: UserData)
    ensures r.Keys == t.Keys
    ensures script in t ==> r[script] == t[script].(status := Some(status))
    ensures forall s :: s in t && s != script ==> r[s] == t[s]
  {
    if script in t then t[script := t[script].(status := Some(status))] else t
  }

  /** `get_scripts_by_status`: the scripts whose status equals the given
      one. The query has no ORDER BY, so the result is a set. */
  function ScriptsByStatus(t: UserData, status: string): (r: set<string>)
    ensures forall s :: s in r <==> s in t && t[s].status == Some(status)
  {
    set s | s in t && t[s].status == Some(status)
  }

  /** Setting a script's status moves it into that status's query result
      and out of every other one, and no other script moves. */
  lemma UpdateThenQuery(t: UserData, script: string, status: string, other: string)
    requires other != status
    ensures ScriptsByStatus(UpdateUserStatus(t, script, status), status)
      == ScriptsByStatus(t, status) + (if script in t then {script} else {})
    ensures ScriptsByStatus(UpdateUserStatus(t, script, status), other)
      == ScriptsByStatus(t, other) - {script}
  {
    var u := UpdateUserStatus(t, script, status);
    assert ScriptsByStatus(u, status) == ScriptsByStatus(t, status) + (if script in t then {script} else {});
    assert ScriptsByStatus(u, other) == ScriptsByStatus(t, other) - {script};
  }

  // ---------------------------------------------------------- report files

  /** The composite primary key of `report_files`. */
  datatype ReportKey = ReportKey(script: string, reportType: string)

  /** At most one file per (script, report type): the table is a map. */
  type ReportFiles = map<ReportKey, string>

  /** `get_report_file` */
  function GetReportFile(f: ReportFiles, script: string, reportType: string): (r: Option<string>)
    ensures r.Some? <==> ReportKey(script, reportType) in f
  {
    Get(f, ReportKey(script, reportType))
  }

  /** `insert_report_file`: an insert that replaces the file on a key conflict. */
  function InsertReportFile(f: ReportFiles, script: string, reportType: string, pdfFile: string): (r: ReportFiles)
    ensures r.Keys == f.Keys + {ReportKey(script, reportType)}
    ensures forall k :: k in f && k != ReportKey(script, reportType) ==> r[k] == f[k]
  {
    f[ReportKey(script, reportType) := pdfFile]
  }

  /** `remove_report_file` */
  function RemoveReportFile(f: ReportFiles, script: string, reportType: string): (r: ReportFiles)
    ensures r.Keys == f.Keys - {ReportKey(script, reportType)}
    ensures forall k :: k in r ==> r[k] == f[k]
  {
    f - {ReportKey(script, reportType)}
  }

  /** A file just recorded is the one read back, for that key only. */
  lemma GetAfterInsert(f: ReportFiles, script: string, reportType: string, pdfFile: string,
                       script2: string, reportType2: string)
    ensures GetReportFile(InsertReportFile(f, script, reportType, pdfFile), script, reportType) == Some(pdfFile)
    ensures (script2, reportType2) != (script, reportType) ==>
      GetReportFile(InsertReportFile(f, script, reportType, pdfFile), script2, reportType2)
      == GetReportFile(f, script2, reportType2)
  {
  }

  /** A removed file is gone, and only that one. */
  lemma GetAfterRemove(f: ReportFiles, script: string, reportType: string, script2: string, reportType2: string)
    ensures GetReportFile(RemoveReportFile(f, script, reportType), script, reportType) == None
    ensures (script2, reportType2) != (script, reportType) ==>
      GetReportFile(RemoveReportFile(f, script, reportType), script2, reportType2)
      == GetReportFile(f, script2, reportType2)
  {
  }

  /** Recording a file twice under one key keeps only the second, and
      removing a file recorded under a fresh key restores the table. */
  lemma InsertReplacesAndRemoveUndoes(f: ReportFiles, script: string, reportType: string, p: string, q: string)
    ensures InsertReportFile(InsertReportFile(f, script, reportType, p), script, reportType, q)
      == InsertReportFile(f, script, reportType, q)
    ensures GetReportFile(f, script, reportType).None? ==>
      RemoveReportFile(InsertReportFile(f, script, reportType, p), script, reportType) == f
  {
  }

  // ----------------------------------------------------------------- users

  /** The login table: user name to password hash (user names are unique). */
  type Users = map<string, string>

  datatype CreateResult = CreateResult(created: bool, users: Users)

  /** `create_user`; `hash` stands for the SHA-256 hex digest of the UTF-8
      password. A taken user name is refused and keeps its stored hash. */
  function CreateUser(u: Users, username: string, password: string, hash: string -> string): (r: CreateResult)
    ensures r.created <==> username !in u
    ensures r.users.Keys == u.Keys + {username}
    ensures r.users[username] == (if r.created then hash(password) else u[username])
    ensures forall n :: n in u ==> r.users[n] == u[n]
  {
    if username in u then CreateResult(false, u) else CreateResult(true, u[username := hash(password)])
  }

  /** `validate_user`: a known user whose stored hash is the password's hash. */
  predicate ValidateUser(u: Users, username: string, password: string, hash: string -> string)
  {
    username in u && u[username] == hash(password)
  }

  /** After a successful sign-up exactly the chosen password logs in, when
      the hash tells passwords apart; a refused sign-up changes no one's login. */
  lemma ValidateAfterCreate(u: Users, username: string, password: string, attempt: string,
                            other: string, hash: string -> string)
    requires forall a, b :: hash(a) == hash(b) ==> a == b
    ensures CreateUser(u, username, password, hash).created ==>
      (ValidateUser(CreateUser(u, username, password, hash).users, username, attempt, hash) <==> attempt == password)
    ensures !CreateUser(u, username, password, hash).created ==>
      (ValidateUser(CreateUser(u, username, password, hash).users, other, attempt, hash)
       <==> ValidateUser(u, other, attempt, hash))
    ensures other != username ==>
      (ValidateUser(CreateUser(u, username, password, hash).users, other, attempt, hash)
       <==> ValidateUser(u, other, attempt, hash))
  {
  }

  // --------------------------------------------------------------- loaders

  /** `str.replace(r'\D+', '')` on an NDC: only the digits remain, in order. */
  function DigitsOnly(s: string): (r: string)
    ensures |r| <= |s|
    ensures forall i :: 0 <= i < |r| ==> IsAsciiDigit(r[i])
    ensures forall i :: 0 <= i < |s| && IsAsciiDigit(s[i]) ==> s[i] in r
    ensures Subseq(r, s)
    ensures forall c :: IsAsciiDigit(c) ==> multiset(r)[c] == multiset(s)[c]
  {
    var r := Filter(s, IsAsciiDigit);
    assert forall i :: 0 <= i < |r| ==> r[i] in r;
    assert forall i :: 0 <= i < |s| ==> s[i] in s;
    FilterIsSubseq(s, IsAsciiDigit);
    FilterCounts(s, IsAsciiDigit);
    r
  }

  /** A hyphenated NDC and its bare digits normalise to the same key, and a
      digit string is its own normal form. */
  lemma DigitsOnlyJoins(a: string, b: string)
    requires forall i :: 0 <= i < |a| ==> IsAsciiDigit(a[i])
    requires forall i :: 0 <= i < |b| ==> IsAsciiDigit(b[i])
    ensures DigitsOnly(a) == a
    ensures DigitsOnly(a + "-" + b) == a + b
  {
    FilterAll(a, IsAsciiDigit);
    FilterAll(b, IsAsciiDigit);
    var dash := "-";
    assert Filter(dash, IsAsciiDigit) == [] by {
      assert !IsAsciiDigit(dash[0]) && dash[1..] == [];
    }
    FilterConcat(a, dash, IsAsciiDigit);
    assert Filter(a + dash, IsAsciiDigit) == a;
    FilterConcat(a + dash, b, IsAsciiDigit);
  }

  /** `pd.to_numeric(errors='coerce').fillna(0.0)`: `None` is a cell that
      is blank or does not read as a number. */
  function CoercePrice(parsed: Option<real>): (r: real)
    ensures parsed.None? ==> r == 0.0
    ensures parsed.Some? ==> r == parsed.value
  {
    parsed.GetOr(0.0)
  }

  /** A baseline row as read from the AAC list; the price is already parsed
      where it parses. */
  datatype RawBaseline = RawBaseline(ndc: string, aac: Option<real>)

  datatype BaselineRow = BaselineRow(ndc: string, aac: real)

  /** `load_baseline`, one row. */
  function LoadBaselineRow(raw: RawBaseline): (r: BaselineRow)
    ensures forall i :: 0 <= i < |r.ndc| ==> IsAsciiDigit(r.ndc[i])
    ensures r.ndc == DigitsOnly(raw.ndc)
    ensures raw.aac.None? ==> r.aac == 0.0
    ensures raw.aac.Some? ==> r.aac == raw.aac.value
  {
    BaselineRow(DigitsOnly(raw.ndc), CoercePrice(raw.aac))
  }

  /** A WAC-list row of a file that has the wac, package-size, multiplier
      and NDC columns; `indicator` is `None` when the file has no generic
      indicator column. Text cells hold what `astype(str)` makes of them, so
      a blank indicator cell arrives as "nan". */
  datatype RawAltRate = RawAltRate(ndc: string, wac: Option<real>, pkgSize: Option<real>,
                                   pkgSizeMult: Option<real>, indicator: Option<string>)

  /** An `alt_rates` row as stored. */
  datatype AltRate = AltRate(ndc: string, wac: real, pkgSize: real, pkgSizeMult: real, genericIndicator: string)

  /** `load_alt_rates`, one row: unreadable numbers become 0.0, the NDC
      keeps its digits, the indicator is stripped or empty. */
  function LoadAltRateRow(raw: RawAltRate): (r: AltRate)
    ensures forall i :: 0 <= i < |r.ndc| ==> IsAsciiDigit(r.ndc[i])
    ensures raw.wac.None? ==> r.wac == 0.0
    ensures raw.pkgSize.None? ==> r.pkgSize == 0.0
    ensures raw.pkgSizeMult.None? ==> r.pkgSizeMult == 0.0
    ensures r.ndc == DigitsOnly(raw.ndc)
    ensures raw.wac.Some? ==> r.wac == raw.wac.value
    ensures raw.pkgSize.Some? ==> r.pkgSize == raw.pkgSize.value
    ensures raw.pkgSizeMult.Some? ==> r.pkgSizeMult == raw.pkgSizeMult.value
    ensures raw.indicator.None? ==> r.genericIndicator == ""
    ensures raw.indicator.Some? ==> r.genericIndicator == PyStrip(raw.indicator.value)
    ensures |r.genericIndicator| > 0 ==>
      !IsPyWhitespace(r.genericIndicator[0]) && !IsPyWhitespace(r.genericIndicator[|r.genericIndicator| - 1])
  {
    AltRate(DigitsOnly(raw.ndc), CoercePrice(raw.wac), CoercePrice(raw.pkgSize), CoercePrice(raw.pkgSizeMult),
            if raw.indicator.Some? then PyStrip(raw.indicator.value) else "")
  }

  /** A digit string is its own normal form. */
  lemma DigitsOnlyOfDigits(s: string)
    requires forall i :: 0 <= i < |s| ==> IsAsciiDigit(s[i])
    ensures DigitsOnly(s) == s
  {
    FilterAll(s, IsAsciiDigit);
  }

  /** Loading a stored baseline row again gives the same row. */
  lemma ReloadBaselineRow(raw: RawBaseline)
    ensures var r := LoadBaselineRow(raw);
      LoadBaselineRow(RawBaseline(r.ndc, Some(r.aac))) == r
  {
    DigitsOnlyOfDigits(LoadBaselineRow(raw).ndc);
  }

  /** Loading a stored WAC row again gives the same row: its NDC is already
      digits and its indicator already stripped. */
  lemma ReloadAltRateRow(raw: RawAltRate)
    ensures var r := LoadAltRateRow(raw);
      LoadAltRateRow(RawAltRate(r.ndc, Some(r.wac), Some(r.pkgSize), Some(r.pkgSizeMult), Some(r.genericIndicator))) == r
  {
    var r := LoadAltRateRow(raw);
    DigitsOnlyOfDigits(r.ndc);
    if |r.genericIndicator| > 0 {
      TrimUntouched(r.genericIndicator, IsPyWhitespace);
    }
  }
}
