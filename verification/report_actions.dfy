/** The visibility predicates of the dashboard's report actions: the Save
    button, the Email button and the label announcing the email step. */
module ReportActions {
  import opened Wrappers

  /** `filters.owedType ?? "all"` */
  function OwedTypeOrAll(owedType: Option<string>): string
  {
    owedType.GetOr("all")
  }

  /** `filters.pbm ?? "All"` */
  function PbmOrAll(pbm: Option<string>): string
  {
    pbm.GetOr("All")
  }

  /** Save is offered for underpaid rows of one chosen PBM, Federal included. */
  predicate CanShowSave(owedType: Option<string>, pbm: Option<string>)
  {
    OwedTypeOrAll(owedType) == "underpaid" && PbmOrAll(pbm) != "All"
  }

  /** Email is offered for a chosen PBM other than Federal, whatever the
      owed filter. */
  predicate CanShowEmail(owedType: Option<string>, pbm: Option<string>)
  {
    PbmOrAll(pbm) != "All" && PbmOrAll(pbm) != "Federal"
  }

  predicate ShowEmailLabel(owedType: Option<string>, pbm: Option<string>)
  {
    OwedTypeOrAll(owedType) == "underpaid" && PbmOrAll(pbm) != "All" && PbmOrAll(pbm) != "Federal"
  }

  /** The three predicates as the component evaluates them. */
  datatype Visibility = Visibility(save: bool, email: bool, emailLabel: bool)

  function ActionVisibility(owedType: Option<string>, pbm: Option<string>): (v: Visibility)
    ensures v.emailLabel == (v.save && v.email)
    ensures v.email ==> pbm.Some? && pbm.value != "All" && pbm.value != "Federal"
    ensures v.save ==> owedType == Some("underpaid") && pbm.Some? && pbm.value != "All"
    ensures owedType.None? || pbm.None? ==> !v.save && !v.emailLabel
    ensures pbm.None? ==> !v.email
  {
    Visibility(CanShowSave(owedType, pbm), CanShowEmail(owedType, pbm), ShowEmailLabel(owedType, pbm))
  }

  /** The email button ignores the owed filter. */
  lemma EmailIndependentOfOwedType(a: Option<string>, b: Option<string>, pbm: Option<string>)
    ensures CanShowEmail(a, pbm) == CanShowEmail(b, pbm)
  {
  }

  /** Federal reports can be saved but not emailed. */
  lemma FederalSavedNotEmailed()
    ensures CanShowSave(Some("underpaid"), Some("Federal"))
    ensures !CanShowEmail(Some("underpaid"), Some("Federal"))
    ensures !ShowEmailLabel(Some("underpaid"), Some("Federal"))
  {
  }
}
