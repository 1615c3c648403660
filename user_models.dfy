/**
 * internal/user/models.go: the sign-up request and its validator. The
 * address parser of net/mail is a parameter: `parse` is
 * mail.ParseAddress (None for an error, when it hands back a nil
 * *Address) and `format` is (*Address).String.
 */
module UserModels {
  import opened Wrappers

  datatype Address = Address(name: string, address: string)

  datatype MailParser = MailParser(parse: string -> Option<Address>, format: Address -> string)

  /** A boolean Go expression that may also panic. */
  datatype Verdict = Holds | Fails | Panics

  /**
   * isEmail as written: address.String() is evaluated before `err == nil`,
   * so an address that does not parse is a nil dereference, not false.
   */
  function IsEmail(p: MailParser, email: string): (v: Verdict)
    ensures v == Panics <==> p.parse(email).None?
    ensures v == Holds <==> p.parse(email).Some? && p.format(p.parse(email).value) == email
  {
    match p.parse(email)
    case None => Panics
    case Some(a) => if p.format(a) == email then Holds else Fails
  }

  /** isEmail as intended: the parse succeeds and prints back as the input. */
  function IsEmailChecked(p: MailParser, email: string): (b: bool)
    ensures b <==> IsEmail(p, email) == Holds
  {
    match p.parse(email)
    case None => false
    case Some(a) => p.format(a) == email
  }

  datatype UserRequest = UserRequest(email: string, password: string) {

    /** UserRequest.Valid as written: the `&&` chain stops at an empty email before isEmail. */
    function Valid(p: MailParser): (v: Verdict)
      ensures v == Holds <==> email != "" && IsEmail(p, email) == Holds && password != ""
      ensures v == Panics <==> email != "" && IsEmail(p, email) == Panics
    {
      if email == "" then Fails
      else
        match IsEmail(p, email)
        case Panics => Panics
        case Fails => Fails
        case Holds => if password == "" then Fails else Holds
    }

    /** UserRequest.Valid over the corrected isEmail: never panics. */
    predicate ValidChecked(p: MailParser) {
      email != "" && IsEmailChecked(p, email) && password != ""
    }
  }

  const ZeroUserRequest: UserRequest := UserRequest("", "")

  /** An empty email is rejected, and without consulting the parser. */
  lemma EmptyEmailRejected(p: MailParser, password: string)
    ensures UserRequest("", password).Valid(p) == Fails
  {
  }

  /** An empty password is never valid (it may still panic on a bad email first). */
  lemma EmptyPasswordRejected(p: MailParser, email: string)
    ensures UserRequest(email, "").Valid(p) != Holds
    ensures !UserRequest(email, "").ValidChecked(p)
  {
  }

  /** Valid implies isEmail. */
  lemma ValidImpliesIsEmail(p: MailParser, r: UserRequest)
    requires r.Valid(p) == Holds
    ensures IsEmail(p, r.email) == Holds && IsEmailChecked(p, r.email)
  {
  }

  lemma ZeroValueInvalid(p: MailParser)
    ensures ZeroUserRequest.Valid(p) == Fails
    ensures !ZeroUserRequest.ValidChecked(p)
  {
  }

  /** As written, a non-empty address the parser refuses panics instead of failing validation. */
  lemma UnparseableEmailPanics(p: MailParser, email: string, password: string)
    requires email != "" && p.parse(email).None?
    ensures UserRequest(email, password).Valid(p) == Panics
    ensures !UserRequest(email, password).ValidChecked(p)
  {
  }

  /** Wherever the code as written does not panic, the corrected validator agrees with it. */
  lemma CheckedAgreesWithWritten(p: MailParser, r: UserRequest)
    ensures r.Valid(p) != Panics ==> (r.Valid(p) == Holds <==> r.ValidChecked(p))
    ensures r.Valid(p) == Panics ==> !r.ValidChecked(p)
  {
  }
}
