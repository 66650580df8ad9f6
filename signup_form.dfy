/** The sign-up form: the checks run before the request, in order, the first failure
    deciding the message, and how a failed request is reported. Messages are the keys the
    form hands to its translation function. */
module SignupForm {
  import opened Js
  import UserService

  /** The form's fields; a missing property is `None`. */
  datatype SignupUser = SignupUser(username: Option<string>, email: Option<string>, password: Option<string>)

  /** The form's first state. */
  const EmptySignup := SignupUser(Some(""), Some(""), Some(""))

  datatype SignupError = UsernameRequired | UsernameInvalid | EmailRequired | PasswordRequired

  function ErrorKey(e: SignupError): string {
    match e
    case UsernameRequired => "signup.form.validation.usernameRequired"
    case UsernameInvalid => "signup.form.validation.usernameInvalid"
    case EmailRequired => "signup.form.validation.emailRequired"
    case PasswordRequired => "signup.form.validation.passwordRequired"
  }

  /** The class `[a-zA-Z0-9_-]`. */
  predicate UsernameChar(c: char) {
    'a' <= c <= 'z' || 'A' <= c <= 'Z' || '0' <= c <= '9' || c == '_' || c == '-'
  }

  /** `/[^a-zA-Z0-9_-]/.test(s)` is false. */
  predicate AllUsernameChars(s: string) {
    forall i :: 0 <= i < |s| ==> UsernameChar(s[i])
  }

  /** `!s || !s.trim()`. */
  predicate Missing(s: Option<string>) {
    !StringTruthy(s) || Trim(s.value) == ""
  }

  /** `validateForm`: the first failing check, if any. A form that passes has all three
      fields, and a non-empty username made of letters, digits, '_' and '-' only. */
  function ValidateSignup(u: SignupUser): (r: Option<SignupError>)
    ensures r.None? ==>
      && u.username.Some? && u.username.value != "" && AllUsernameChars(u.username.value)
      && u.email.Some? && u.password.Some?
  {
    if Missing(u.username) then Some(UsernameRequired)
    else if Includes(u.username.value, " ") || !AllUsernameChars(u.username.value) then Some(UsernameInvalid)
    else if Missing(u.email) then Some(EmailRequired)
    else if Missing(u.password) then Some(PasswordRequired)
    else None
  }

  /** The space test adds nothing: a space is already outside the character class. */
  lemma SpaceCheckRedundant(s: string)
    requires Includes(s, " ")
    ensures !AllUsernameChars(s)
  {
    IncludesIffOccurs(s, " ");
    var k :| OccursAt(s, " ", k);
    assert s[k] == s[k..k + 1][0];
  }

  /** Exactly the forms with a non-empty username of letters, digits, '_' and '-', and an
      email and a password that are not blank, pass. */
  lemma AcceptedIffWellFormed(u: SignupUser)
    ensures ValidateSignup(u).None? <==>
      && u.username.Some? && u.username.value != "" && AllUsernameChars(u.username.value)
      && u.email.Some? && !IsBlank(u.email.value)
      && u.password.Some? && !IsBlank(u.password.value)
  {
    if u.username.Some? {
      var name := u.username.value;
      TrimEmptyIffBlank(name);
      if name != "" && AllUsernameChars(name) {
        assert !IsWhitespace(name[0]);
        if Includes(name, " ") {
          SpaceCheckRedundant(name);
        }
      }
    }
    if u.email.Some? {
      TrimEmptyIffBlank(u.email.value);
    }
    if u.password.Some? {
      TrimEmptyIffBlank(u.password.value);
    }
  }

  /** The checks fail in a fixed order: an invalid username is reported before a missing
      email, and a missing email before a missing password. */
  lemma FirstFailureWins(u: SignupUser)
    ensures Missing(u.username) ==> ValidateSignup(u) == Some(UsernameRequired)
    ensures !Missing(u.username) && !AllUsernameChars(u.username.value) ==>
      ValidateSignup(u) == Some(UsernameInvalid)
    ensures ValidateSignup(u) == Some(PasswordRequired) ==> !Missing(u.email)
    ensures ValidateSignup(u) == Some(EmailRequired) ==> AllUsernameChars(u.username.value)
  {
  }

  /** The untouched form fails on the username. */
  lemma EmptySignupRejected()
    ensures ValidateSignup(EmptySignup) == Some(UsernameRequired)
  {
    assert Trim("") == "";
  }

  // ---------------------------------------------------------------------------------------
  // Server errors
  // ---------------------------------------------------------------------------------------

  datatype SignupFailure = UserExists | SignupFailed

  function FailureKey(f: SignupFailure): string {
    match f
    case UserExists => "signup.errorMessages.userExists"
    case SignupFailed => "signup.errorMessages.signupError"
  }

  /** A rejected request: a message mentioning "already exists" means the user exists;
      anything else is a general failure. The words may stand anywhere in the message. */
  function MapServerError(message: string): (r: SignupFailure)
    ensures r == UserExists <==> exists k :: OccursAt(message, "already exists", k)
  {
    IncludesIffOccurs(message, "already exists");
    if Includes(message, "already exists") then UserExists else SignupFailed
  }

  /** A refusal for a taken email or username is shown as "user exists": both clashes
      produce the "already exists" message, which the form recognises. */
  lemma RefusedSignupShownAsUserExists(accounts: seq<UserService.Account>, input: UserService.SignupInput,
                                       hash: string -> string)
    requires UserService.Registered(accounts, input, hash).Err?
    ensures MapServerError(UserService.Registered(accounts, input, hash).message) == UserExists
  {
    IncludesMiddle("User with username " + input.username + " ", "already exists", ".");
    assert UserService.AlreadyExists(input.username)
        == "User with username " + input.username + " " + "already exists" + ".";
  }
}
