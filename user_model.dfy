/** `new User(...)`: the guard chain over name, email and password. */
module UserModel {
  import opened Js
  import opened Entities

  /** The object passed to the `User` constructor; a missing property is `None`. */
  datatype UserInput = UserInput(
    id: Option<int>,
    name: Option<string>,
    email: Option<string>,
    password: Option<string>)

  /** `User.validate`, guard by guard. The email guard's second operand tests the name, not
      the email; by then the name has passed its own guard, so that operand is always false. */
  function Validate(input: UserInput): (r: Option<string>)
    ensures r.None? <==> StringTruthy(input.name) && StringTruthy(input.email) && StringTruthy(input.password)
  {
    if !StringTruthy(input.name) || input.name == Some("") then Some("Name is required.")
    else if !StringTruthy(input.email) || input.name == Some("") then Some("Email is required.")
    else if !StringTruthy(input.password) then Some("Password is required.")
    else None
  }

  /** The checked fields, in the order the guards run. */
  datatype UserField = Name | Email | Password

  const Fields: seq<UserField> := [Name, Email, Password]

  /** What each guard requires of its field once the earlier guards have passed. */
  predicate FieldPresent(input: UserInput, f: UserField) {
    match f
    case Name => StringTruthy(input.name)
    case Email => StringTruthy(input.email)
    case Password => StringTruthy(input.password)
  }

  function Message(f: UserField): string {
    match f
    case Name => "Name is required."
    case Email => "Email is required."
    case Password => "Password is required."
  }

  /** Validation reports the first field, in the order name, email, password, that is missing
      or empty, and nothing when all three are present. */
  lemma ValidateReportsFirstMissing(input: UserInput)
    ensures Validate(input) ==
      match FirstMatch(Fields, f => !FieldPresent(input, f))
      case None => None
      case Some(f) => Some(Message(f))
  {
    assert Fields[1..] == [Email, Password];
    assert Fields[2..] == [Password];
  }

  /** `new User(input)`, where `now` is the `Date` object created for `createdAt`. A new user
      keeps the given id and credentials, has no games and has never been updated. */
  function NewUser(input: UserInput, now: Stamp): (r: Result<User>)
    ensures r.Ok? <==> Validate(input).None?
    ensures r.Err? ==> Some(r.message) == Validate(input)
    ensures r.Ok? ==> (r.value.id == input.id && r.value.name == input.name.value
                       && r.value.email == input.email.value && r.value.password == input.password.value)
    ensures r.Ok? ==> r.value.games == [] && r.value.createdAt == now && r.value.updatedAt == Null
  {
    match Validate(input)
    case Some(message) => Err(message)
    case None => Ok(User(input.id, input.name.value, input.email.value, input.password.value, [], now, Null))
  }

  /** Two users constructed separately are never equal: each has its own `createdAt`. */
  lemma SeparateUsersNeverEqual(a: UserInput, b: UserInput, first: Stamp, second: Stamp)
    requires first != second
    requires NewUser(a, first).Ok? && NewUser(b, second).Ok?
    ensures UserEquals(NewUser(a, first).value, NewUser(b, second).value) == Ok(false)
  {
  }
}
