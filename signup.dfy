/** The sign-up page, src/pages/Signup.tsx: admin-email detection, the
    email check, the order of the form checks, and what a submission does to
    the page state. The remote `signup` call is a parameter: `None` when it
    succeeds, `Some(message)` when it throws an error with that message. */
module Signup {
  import opened Common
  import opened Text

  const AdminEmails: seq<string> := ["admin@buildpro.com", "manager@buildpro.com", "director@buildpro.com"]

  /** `isAdminEmail`: one of the three addresses, ignoring (ASCII) case. */
  predicate IsAdminEmail(email: string)
  {
    Lower(email) in AdminEmails
  }

  // ------------------------------------------------------------ the email pattern

  /** The character class `[^\s@]`: neither whitespace nor `@`. */
  predicate Plain(c: char)
  {
    !IsJsWhitespace(c) && c != '@'
  }

  predicate PlainBetween(e: string, lo: int, hi: int)
    requires 0 <= lo <= hi <= |e|
  {
    forall i :: lo <= i < hi ==> Plain(e[i])
  }

  /** `e` is `local@host.tld` with the `@` at `a` and the dot at `d`, each of
      the three parts non-empty and made of plain characters. */
  ghost predicate EmailShapeAt(e: string, a: int, d: int)
  {
    0 < a && a + 1 < d && d + 1 < |e| && e[a] == '@' && e[d] == '.'
    && PlainBetween(e, 0, a) && PlainBetween(e, a + 1, d) && PlainBetween(e, d + 1, |e|)
  }

  /** What `/^[^\s@]+@[^\s@]+\.[^\s@]+$/` accepts. */
  ghost predicate MatchesEmailPattern(e: string)
  {
    exists a, d :: EmailShapeAt(e, a, d)
  }

  /** The pattern as a direct check: the text before the first `@` is a
      non-empty local part; after it, only plain characters, with a dot that
      has text on both sides. */
  function EmailPatternCheck(e: string): bool
  {
    var at := IndexOf(e, '@');
    at > 0 && PlainBetween(e, 0, at) && PlainBetween(e, at + 1, |e|)
    && at + 4 <= |e| && '.' in e[at + 2..|e| - 1]
  }

  lemma EmailPatternCheckSound(e: string)
    requires EmailPatternCheck(e)
    ensures MatchesEmailPattern(e)
  {
    var at := IndexOf(e, '@');
    var j :| 0 <= j < |e[at + 2..|e| - 1]| && e[at + 2..|e| - 1][j] == '.';
    assert EmailShapeAt(e, at, at + 2 + j);
  }

  lemma EmailPatternCheckComplete(e: string)
    requires MatchesEmailPattern(e)
    ensures EmailPatternCheck(e)
  {
    var a, d :| EmailShapeAt(e, a, d);
    var at := IndexOf(e, '@');
    assert e[a] == '@';
    assert at <= a;
    assert at == a;
    assert e[a + 2..|e| - 1][d - (a + 2)] == '.';
  }

  /** The direct check accepts exactly the strings the pattern describes. */
  lemma EmailPatternCheckCorrect(e: string)
    ensures EmailPatternCheck(e) <==> MatchesEmailPattern(e)
  {
    if EmailPatternCheck(e) { EmailPatternCheckSound(e); }
    if MatchesEmailPattern(e) { EmailPatternCheckComplete(e); }
  }

  /** The pattern ignores case: if the lower-cased address matches, so does
      the address itself. */
  lemma PatternFromLower(e: string)
    requires MatchesEmailPattern(Lower(e))
    ensures MatchesEmailPattern(e)
  {
    var l := Lower(e);
    var a, d :| EmailShapeAt(l, a, d);
    forall i | 0 <= i < |e| && Plain(l[i])
      ensures Plain(e[i])
    {
      PlainFromLower(e[i]);
    }
    assert EmailShapeAt(e, a, d);
  }

  /** Lower-casing changes no character into or out of the class `[^\s@]`. */
  lemma PlainFromLower(c: char)
    requires Plain(ToLowerChar(c))
    ensures Plain(c)
  {
  }

  /** An address put together from three plain, non-empty parts has the
      pattern's shape. */
  lemma ShapeOfParts(local: string, host: string, tld: string)
    requires local != [] && host != [] && tld != []
    requires PlainBetween(local, 0, |local|) && PlainBetween(host, 0, |host|)
    requires PlainBetween(tld, 0, |tld|)
    ensures EmailShapeAt(local + "@" + host + "." + tld, |local|, |local| + 1 + |host|)
  {
    var e := local + "@" + host + "." + tld;
    var a, d := |local|, |local| + 1 + |host|;
    assert forall i :: 0 <= i < a ==> e[i] == local[i];
    assert forall i :: a + 1 <= i < d ==> e[i] == host[i - a - 1];
    assert forall i :: d + 1 <= i < |e| ==> e[i] == tld[i - d - 1];
  }

  lemma AdminShape(l: string)
    requires l == "admin@buildpro.com"
    ensures EmailShapeAt(l, 5, 14)
  {
    var local, host, tld := "admin", "buildpro", "com";
    assert local + "@" + host + "." + tld == l;
    ShapeOfParts(local, host, tld);
  }

  lemma ManagerShape(l: string)
    requires l == "manager@buildpro.com"
    ensures EmailShapeAt(l, 7, 16)
  {
    var local, host, tld := "manager", "buildpro", "com";
    assert local + "@" + host + "." + tld == l;
    ShapeOfParts(local, host, tld);
  }

  lemma DirectorShape(l: string)
    requires l == "director@buildpro.com"
    ensures EmailShapeAt(l, 8, 17)
  {
    var local, host, tld := "director", "buildpro", "com";
    assert local + "@" + host + "." + tld == l;
    ShapeOfParts(local, host, tld);
  }

  lemma AdminAddressShapes(l: string)
    requires l in AdminEmails
    ensures MatchesEmailPattern(l)
  {
    if l == AdminEmails[0] {
      AdminShape(l);
    } else if l == AdminEmails[1] {
      ManagerShape(l);
    } else {
      DirectorShape(l);
    }
  }

  /** The admin shortcut in `validateEmail` accepts nothing the pattern would
      reject: every admin address, in any case, matches the pattern too. */
  lemma AdminEmailsMatchPattern(email: string)
    requires IsAdminEmail(email)
    ensures EmailPatternCheck(email)
  {
    AdminAddressShapes(Lower(email));
    PatternFromLower(email);
    EmailPatternCheckCorrect(email);
  }

  // ------------------------------------------------------------ messages

  const EmailRequired := "Email is required"
  const InvalidEmail := "Please enter a valid email address"
  const PasswordsDiffer := "Passwords do not match"
  const PasswordTooShort := "Password must be at least 6 characters long"
  const AlreadyRegistered := "An account with this email already exists. Please sign in instead."
  const SignupFailed := "Signup failed. Please try again."

  /** `validateEmail`: "" when the address is acceptable, otherwise why not. */
  function ValidateEmail(email: string): (msg: string)
    ensures msg == "" || msg == EmailRequired || msg == InvalidEmail
    ensures msg == EmailRequired <==> email == ""
    ensures msg == "" <==> email != "" && (IsAdminEmail(email) || MatchesEmailPattern(email))
  {
    EmailPatternCheckCorrect(email);
    if email == "" then EmailRequired
    else if IsAdminEmail(email) then ""
    else if !EmailPatternCheck(email) then InvalidEmail
    else ""
  }

  /** Since the shortcut is redundant, acceptance is just the pattern. */
  lemma ValidEmailIsPattern(email: string)
    ensures ValidateEmail(email) == "" <==> MatchesEmailPattern(email)
  {
    EmailPatternCheckCorrect(email);
    if IsAdminEmail(email) { AdminEmailsMatchPattern(email); }
    if MatchesEmailPattern(email) { assert email != ""; }
  }

  const BannerStart := "Account created successfully! You will be assigned "
  const BannerEnd := ". Please check your email to verify your account."

  /** The role the banner announces. */
  function RoleClause(admin: bool): string
  {
    "the " + (if admin then "Administrator" else "Worker") + " role"
  }

  /** The text of the success banner. */
  function SuccessMessage(email: string): string
  {
    BannerStart + RoleClause(IsAdminEmail(email)) + BannerEnd
  }

  lemma RoleClauses()
    ensures RoleClause(true) == "the Administrator role" && RoleClause(false) == "the Worker role"
    ensures |RoleClause(true)| != |RoleClause(false)|
  {
  }

  /** The banner announces the Administrator role for an admin address and
      the Worker role otherwise, and depends on nothing else. */
  lemma SuccessMessageNamesRole(email: string, other: string)
    ensures IsAdminEmail(email) ==> Includes(SuccessMessage(email), "the Administrator role")
    ensures !IsAdminEmail(email) ==> Includes(SuccessMessage(email), "the Worker role")
    ensures SuccessMessage(email) == SuccessMessage(other) <==> IsAdminEmail(email) == IsAdminEmail(other)
  {
    var admin, otherAdmin := IsAdminEmail(email), IsAdminEmail(other);
    RoleClauses();
    IncludesMiddle(BannerStart, RoleClause(admin), BannerEnd);
    if admin != otherAdmin {
      assert |SuccessMessage(email)| != |SuccessMessage(other)|;
    }
  }

  /** A text includes whatever it is built around. */
  lemma IncludesMiddle(front: string, middle: string, back: string)
    ensures Includes(front + middle + back, middle)
  {
    var m := front + middle + back;
    assert m[|front|..|front| + |middle|] == middle;
    assert OccursAt(m, middle, |front|);
  }

  /** The error shown when `signup` throws with `message`. */
  function SignupErrorMessage(message: string): (m: string)
    ensures Includes(message, "already registered") ==> m == AlreadyRegistered
    ensures !Includes(message, "already registered") && message != [] ==> m == message
    ensures message == [] ==> m == SignupFailed
  {
    if Includes(message, "already registered") then AlreadyRegistered
    else if message == [] then SignupFailed
    else message
  }

  // ------------------------------------------------------------ the form

  datatype Field = Email | Password | ConfirmPassword | FirstName | LastName

  datatype SignupForm = SignupForm(email: string, password: string, confirmPassword: string,
                                   firstName: string, lastName: string)
  {
    function Get(f: Field): string
    {
      match f
      case Email => email
      case Password => password
      case ConfirmPassword => confirmPassword
      case FirstName => firstName
      case LastName => lastName
    }

    /** `{ ...formData, [name]: value }`. */
    function With(f: Field, value: string): (r: SignupForm)
      ensures r.Get(f) == value
      ensures forall g :: g != f ==> r.Get(g) == Get(g)
    {
      match f
      case Email => this.(email := value)
      case Password => this.(password := value)
      case ConfirmPassword => this.(confirmPassword := value)
      case FirstName => this.(firstName := value)
      case LastName => this.(lastName := value)
    }
  }

  const EmptyForm := SignupForm("", "", "", "", "")

  /** The checks `handleSubmit` runs before calling `signup`, in order; the
      first failing one is reported, "" when all pass. */
  function SubmitValidation(form: SignupForm): (err: string)
    ensures err == "" <==> ValidateEmail(form.email) == ""
                           && form.password == form.confirmPassword
                           && Utf16Length(form.password) >= 6
    ensures err != "" ==> err in {EmailRequired, InvalidEmail, PasswordsDiffer, PasswordTooShort}
  {
    var emailError := ValidateEmail(form.email);
    if emailError != "" then emailError
    else if form.password != form.confirmPassword then PasswordsDiffer
    else if Utf16Length(form.password) < 6 then PasswordTooShort
    else ""
  }

  /** The email is checked first, then the confirmation, then the length. */
  lemma ValidationOrder(form: SignupForm)
    ensures ValidateEmail(form.email) != "" ==> SubmitValidation(form) == ValidateEmail(form.email)
    ensures ValidateEmail(form.email) == "" && form.password != form.confirmPassword
            ==> SubmitValidation(form) == PasswordsDiffer
    ensures ValidateEmail(form.email) == "" && form.password == form.confirmPassword
            && Utf16Length(form.password) < 6
            ==> SubmitValidation(form) == PasswordTooShort
  {
  }

  class SignupPage {
    var form: SignupForm
    var error: string
    var success: string
    var isSubmitting: bool

    constructor()
      ensures form == EmptyForm && error == "" && success == "" && !isSubmitting
    {
      form := EmptyForm;
      error := "";
      success := "";
      isSubmitting := false;
    }

    /** Typing into a field updates only that field and clears the error. */
    method HandleChange(f: Field, value: string)
      modifies this
      ensures form == old(form).With(f, value)
      ensures error == ""
      ensures success == old(success) && isSubmitting == old(isSubmitting)
    {
      form := form.With(f, value);
      if error != "" {
        error := "";
      }
    }

    /** Submitting: the checks, then (only if they pass) the `signup` call
        with outcome `outcome`; `called` tells whether it was made. */
    method HandleSubmit(outcome: Option<string>) returns (called: bool)
      modifies this
      ensures called <==> SubmitValidation(old(form)) == ""
      ensures !called ==> error == SubmitValidation(old(form)) && success == ""
                          && form == old(form) && isSubmitting == old(isSubmitting)
      ensures called ==> !isSubmitting
      ensures called && outcome.None? ==>
                success == SuccessMessage(old(form).email) && error == "" && form == EmptyForm
      ensures called && outcome.Some? ==>
                error == SignupErrorMessage(outcome.value) && success == "" && form == old(form)
    {
      error := "";
      success := "";
      var emailError := ValidateEmail(form.email);
      if emailError != "" {
        error := emailError;
        return false;
      }
      if form.password != form.confirmPassword {
        error := PasswordsDiffer;
        return false;
      }
      if Utf16Length(form.password) < 6 {
        error := PasswordTooShort;
        return false;
      }
      isSubmitting := true;
      called := true;
      match outcome {
        case None =>
          success := SuccessMessage(form.email);
          form := EmptyForm;
        case Some(message) =>
          error := SignupErrorMessage(message);
      }
      isSubmitting := false;
    }
  }
}
