/** `getUserRole`: the single application role derived from a user's
    metadata flags, checked from the highest permission down. */
module UserRole {
  import opened Wrappers
  import opened Text

  /** A metadata flag as JavaScript sees it; an absent flag is `Undefined`. */
  datatype JsValue = Undefined | Null | Bool(b: bool) | Number(n: real) | Str(s: string) | Object

  /** The role flags of a user's metadata. */
  datatype Metadata = Metadata(superadmin: JsValue, admin: JsValue, member: JsValue)

  datatype AppRole = Superadmin | Admin | Member

  /** `isTrue`: the number 1, `true`, or a string that trims and lower-cases
      to "1" or "true". Lower-casing is ASCII only, which decides the same
      strings: no other character lower-cases into "true" or "1". */
  predicate IsTrue(v: JsValue)
  {
    match v
    case Number(n) => n == 1.0
    case Bool(b) => b
    case Str(s) => ToLower(JsTrim(s)) == "1" || ToLower(JsTrim(s)) == "true"
    case _ => false
  }

  /** Higher ranks are checked first. */
  function Rank(role: AppRole): nat
  {
    match role
    case Superadmin => 2
    case Admin => 1
    case Member => 0
  }

  function Flag(m: Metadata, role: AppRole): JsValue
  {
    match role
    case Superadmin => m.superadmin
    case Admin => m.admin
    case Member => m.member
  }

  /** `getUserRole`; `None` as input is falsy metadata (`null`,
      `undefined`), `None` as result is `null`. The result is the
      highest-ranked role whose flag is true, and `null` when no flag is. */
  function GetUserRole(meta: Option<Metadata>): (r: Option<AppRole>)
    ensures meta.None? ==> r.None?
    ensures r.Some? ==> IsTrue(Flag(meta.value, r.value))
    ensures r.Some? ==> forall q: AppRole :: Rank(q) > Rank(r.value) ==> !IsTrue(Flag(meta.value, q))
    ensures meta.Some? && r.None? ==> forall q: AppRole :: !IsTrue(Flag(meta.value, q))
  {
    if meta.None? then None
    else if IsTrue(meta.value.superadmin) then Some(Superadmin)
    else if IsTrue(meta.value.admin) then Some(Admin)
    else if IsTrue(meta.value.member) then Some(Member)
    else None
  }

  /** The contract above determines the role: any answer meeting it is the
      one `GetUserRole` gives. */
  lemma RoleIsDetermined(m: Metadata, role: AppRole)
    requires IsTrue(Flag(m, role))
    requires forall q: AppRole :: Rank(q) > Rank(role) ==> !IsTrue(Flag(m, q))
    ensures GetUserRole(Some(m)) == Some(role)
  {
  }

  lemma TrimmedUpperTrue()
    ensures IsTrue(Str(" TRUE "))
  {
    assert " TRUE " == [' '] + "TRUE" + [' '];
    PaddedWordIsTrue(' ', "TRUE");
  }

  /** "TRUE" with one whitespace character on each side counts as true. */
  lemma PaddedWordIsTrue(pad: char, w: string)
    requires IsJsWhitespace(pad) && w == "TRUE"
    ensures IsTrue(Str([pad] + w + [pad]))
  {
    TrimPadded(w, pad, IsJsWhitespace);
    LowerWord(w);
  }

  lemma LowerWord(w: string)
    requires w == "TRUE"
    ensures ToLower(w) == "true"
  {
    assert ToLower(w)[0] == 't' && ToLower(w)[1] == 'r' && ToLower(w)[2] == 'u' && ToLower(w)[3] == 'e';
  }

  lemma YesIsNotTrue()
    ensures !IsTrue(Str("yes"))
  {
    assert TrimStart("yes", IsJsWhitespace) == "yes";
    assert TrimEnd("yes", IsJsWhitespace) == "yes";
    assert ToLower("yes")[0] == 'y';
  }

  lemma IsTrueExamples()
    ensures IsTrue(Number(1.0)) && IsTrue(Bool(true)) && IsTrue(Str(" TRUE "))
    ensures !IsTrue(Number(2.0)) && !IsTrue(Str("yes")) && !IsTrue(Bool(false)) && !IsTrue(Null)
  {
    TrimmedUpperTrue();
    YesIsNotTrue();
  }

  /** The superadmin flag wins whatever the other two say. */
  lemma SuperadminWins(m: Metadata)
    requires IsTrue(m.superadmin)
    ensures GetUserRole(Some(m)) == Some(Superadmin)
  {
  }
}
