/**
 * The sign-up form: its schema (name, e-mail, password length and the confirmation
 * refinement) and the two loading flags of its handlers.
 */
module SignupForm {
  import opened Wrappers
  import opened Validations

  datatype SignupValues = SignupValues(name: string, email: string, password: string, confirmPassword: string)

  const SignupDefaults := SignupValues("", "", "", "")

  /**
   * `signupSchema`: the field rules in order, then the refinement, which also runs when a
   * field rule is broken and reports on the confirmation field.
   */
  function SignupIssues(v: SignupValues, isEmail: string -> bool): seq<Issue> {
    Check(|v.name| >= 2, Name, NameTooShort)
    + Check(isEmail(v.email), Email, InvalidEmail)
    + Check(|v.password| >= 8, Password, PasswordTooShort)
    + Check(v.password == v.confirmPassword, ConfirmPassword, PasswordsDiffer)
  }

  predicate SignupValid(v: SignupValues, isEmail: string -> bool) {
    SignupIssues(v, isEmail) == []
  }

  /** A sign-up is valid exactly when the name has two characters, the e-mail is an address and the two passwords agree and have eight. */
  lemma SignupValidIff(v: SignupValues, isEmail: string -> bool)
    ensures SignupValid(v, isEmail)
        <==> |v.name| >= 2 && isEmail(v.email) && |v.password| >= 8 && v.password == v.confirmPassword
  {
  }

  /** Each field carries an issue exactly when its rule is broken; a mismatch is reported on the confirmation. */
  lemma SignupIssuePaths(v: SignupValues, isEmail: string -> bool, p: Field)
    ensures HasIssue(SignupIssues(v, isEmail), p)
        <==> (p == Name && |v.name| < 2) || (p == Email && !isEmail(v.email))
             || (p == Password && |v.password| < 8) || (p == ConfirmPassword && v.password != v.confirmPassword)
  {
    var c1 := Check(|v.name| >= 2, Name, NameTooShort);
    var c2 := Check(isEmail(v.email), Email, InvalidEmail);
    var c3 := Check(|v.password| >= 8, Password, PasswordTooShort);
    var c4 := Check(v.password == v.confirmPassword, ConfirmPassword, PasswordsDiffer);
    HasIssueAppend(c1, c2, p);
    HasIssueAppend(c1 + c2, c3, p);
    HasIssueAppend(c1 + c2 + c3, c4, p);
    HasIssueCheck(|v.name| >= 2, Name, NameTooShort, p);
    HasIssueCheck(isEmail(v.email), Email, InvalidEmail, p);
    HasIssueCheck(|v.password| >= 8, Password, PasswordTooShort, p);
    HasIssueCheck(v.password == v.confirmPassword, ConfirmPassword, PasswordsDiffer, p);
  }

  /** The untouched form fails: the name and the password are too short, while the empty passwords agree. */
  lemma SignupDefaultsRejected(isEmail: string -> bool)
    ensures !SignupValid(SignupDefaults, isEmail)
    ensures HasIssue(SignupIssues(SignupDefaults, isEmail), Name)
    ensures HasIssue(SignupIssues(SignupDefaults, isEmail), Password)
    ensures !HasIssue(SignupIssues(SignupDefaults, isEmail), ConfirmPassword)
  {
    SignupIssuePaths(SignupDefaults, isEmail, Name);
    SignupIssuePaths(SignupDefaults, isEmail, Password);
    SignupIssuePaths(SignupDefaults, isEmail, ConfirmPassword);
  }

  /** How the sign-up call ends: an error result, a thrown exception, or success. */
  datatype SignupOutcome = Succeeded | Refused(message: string) | Threw

  /** The social providers offered. */
  datatype Provider = GitHub | Google

  class Signup {
    var isLoading: bool
    var isSocialLoading: Option<Provider>

    constructor()
      ensures !isLoading && isSocialLoading == None
    {
      isLoading := false;
      isSocialLoading := None;
    }

    /** The submit button is disabled while a submission runs. */
    predicate SubmitDisabled()
      reads this
    {
      isLoading
    }

    /** Both social buttons are disabled while a social sign-in is under way. */
    predicate SocialDisabled()
      reads this
    {
      isSocialLoading.Some?
    }

    /** A submission: only a valid form reaches `onSubmit`, which raises `isLoading`. */
    method BeginSubmit(v: SignupValues, isEmail: string -> bool) returns (started: bool)
      modifies this
      ensures started <==> !old(isLoading) && SignupValid(v, isEmail)
      ensures isLoading == (old(isLoading) || started)
      ensures isSocialLoading == old(isSocialLoading)
    {
      started := !isLoading && SignupIssues(v, isEmail) == [];
      if started {
        isLoading := true;
      }
    }

    /** The `finally` of `onSubmit`: loading ends whatever the outcome. */
    method FinishSubmit(outcome: SignupOutcome)
      modifies this
      ensures !isLoading
      ensures isSocialLoading == old(isSocialLoading)
    {
      isLoading := false;
    }

    /** A click on a social button; a disabled button ignores it. */
    method BeginSocial(provider: Provider)
      modifies this
      ensures isSocialLoading == if old(isSocialLoading).Some? then old(isSocialLoading) else Some(provider)
      ensures isLoading == old(isLoading)
    {
      if !SocialDisabled() {
        isSocialLoading := Some(provider);
      }
    }

    /** A social sign-in that throws clears the provider; on success the browser leaves the page. */
    method SocialFailed()
      modifies this
      ensures isSocialLoading == None
      ensures isLoading == old(isLoading)
    {
      isSocialLoading := None;
    }
  }

  /** Whatever the outcome, a submission started on an idle form leaves it idle again. */
  method SubmitOnce(s: Signup, v: SignupValues, isEmail: string -> bool, outcome: SignupOutcome) returns (wasLoading: bool)
    requires !s.isLoading
    modifies s
    ensures wasLoading <==> SignupValid(v, isEmail)
    ensures !s.isLoading && s.isSocialLoading == old(s.isSocialLoading)
  {
    var started := s.BeginSubmit(v, isEmail);
    wasLoading := s.isLoading;
    if started {
      s.FinishSubmit(outcome);
    }
  }
}
