/** The user service: lookup by username, sign-up with its uniqueness rules, and login.

    The service works against a later revision of the user store than the repository in
    `UserRepository` (users with a username and a role, looked up by email and by username).
    That store is modelled here as a plain sequence of accounts with find-first lookups.
    Password hashing, password comparison and token signing are parameters. */
module UserService {
  import opened Js

  /** The closed set of roles a user can have. */
  datatype Role = Superadmin | Admin | Guest

  datatype Account = Account(
    id: Option<int>,
    username: string,
    email: string,
    password: string,
    role: Option<Role>)

  /** The sign-up request. */
  datatype SignupInput = SignupInput(username: string, email: string, password: string, role: Option<Role>)

  /** The answer to a successful login. */
  datatype AuthenticationResponse = AuthenticationResponse(token: string, email: string, role: Option<Role>)

  function HasEmail(email: string): Account -> bool {
    (a: Account) => a.email == email
  }

  function HasUsername(username: string): Account -> bool {
    (a: Account) => a.username == username
  }

  function NoSuchUsername(username: string): string {
    "User with username: " + username + " does not exist."
  }

  /** The message for a taken email and for a taken username alike. */
  function AlreadyExists(username: string): string {
    "User with username " + username + " already exists."
  }

  /** The message for an unknown email and for a wrong password alike. */
  const Incorrect: string := "Username or password is incorrect."

  /** No two accounts share an email or a username. */
  predicate Unique(accounts: seq<Account>) {
    forall i, j :: 0 <= i < j < |accounts| ==>
      accounts[i].email != accounts[j].email && accounts[i].username != accounts[j].username
  }

  /** What `createUser` answers on a store holding `accounts`: the email is checked first, then
      the username, and a new account stores the hash of the password. */
  function Registered(accounts: seq<Account>, input: SignupInput, hash: string -> string): (r: Result<Account>)
    ensures r.Err? <==> exists a :: a in accounts && (a.email == input.email || a.username == input.username)
    ensures r.Err? ==> r.message == AlreadyExists(input.username)
    ensures r.Ok? ==> r.value == Account(None, input.username, input.email, hash(input.password), input.role)
  {
    if FirstMatch(accounts, HasEmail(input.email)).Some? then Err(AlreadyExists(input.username))
    else if FirstMatch(accounts, HasUsername(input.username)).Some? then Err(AlreadyExists(input.username))
    else Ok(Account(None, input.username, input.email, hash(input.password), input.role))
  }

  /** The store after `createUser`: one account longer on success, unchanged otherwise. */
  function StoreAfter(accounts: seq<Account>, r: Result<Account>): seq<Account> {
    if r.Ok? then accounts + [r.value] else accounts
  }

  /** Sign-up keeps emails and usernames unique, when each sign-up is checked against the
      store that already holds every earlier one. */
  lemma RegisterKeepsUnique(accounts: seq<Account>, input: SignupInput, hash: string -> string)
    requires Unique(accounts)
    ensures Unique(StoreAfter(accounts, Registered(accounts, input, hash)))
  {
    var r := Registered(accounts, input, hash);
    if r.Ok? {
      var s := accounts + [r.value];
      forall i, j | 0 <= i < j < |s|
        ensures s[i].email != s[j].email && s[i].username != s[j].username
      {
        if j == |accounts| {
          assert s[i] in accounts;
        }
      }
    }
  }

  /** `createUser` awaits the password hash between its checks and the append. Two sign-ups
      for the same email or username whose checks both run before either account is stored
      both succeed, and the store ends up with the two clashing accounts. */
  lemma InterleavedSignupsBreakUniqueness(accounts: seq<Account>, first: SignupInput, second: SignupInput,
                                          hash: string -> string)
    requires Registered(accounts, first, hash).Ok? && Registered(accounts, second, hash).Ok?
    requires first.email == second.email || first.username == second.username
    ensures !Unique(StoreAfter(StoreAfter(accounts, Registered(accounts, first, hash)),
                               Registered(accounts, second, hash)))
  {
    var a := Registered(accounts, first, hash).value;
    var b := Registered(accounts, second, hash).value;
    var s := StoreAfter(StoreAfter(accounts, Registered(accounts, first, hash)), Registered(accounts, second, hash));
    assert s == accounts + [a] + [b];
    assert s[|accounts|] == a && s[|accounts| + 1] == b;
  }

  /** What `authenticate` answers: the account found by email must exist and the password
      must match its stored hash; both failures give the same message. */
  function Authentication(accounts: seq<Account>, email: string, password: string,
                          compare: (string, string) -> bool,
                          sign: (string, Option<Role>) -> string): (r: Result<AuthenticationResponse>)
    ensures r.Err? ==> r.message == Incorrect
    ensures r.Ok? <==> FirstMatch(accounts, HasEmail(email)).Some?
                       && compare(password, FirstMatch(accounts, HasEmail(email)).value.password)
    ensures r.Ok? ==> r.value.email == email
                      && r.value.role == FirstMatch(accounts, HasEmail(email)).value.role
                      && r.value.token == sign(email, r.value.role)
  {
    match FirstMatch(accounts, HasEmail(email))
    case None => Err(Incorrect)
    case Some(a) =>
      if !compare(password, a.password) then Err(Incorrect)
      else Ok(AuthenticationResponse(sign(email, a.role), email, a.role))
  }

  /** Whoever signs up can then log in with the same email and password, and gets the role
      they signed up with, provided the comparison accepts a password against its own hash. */
  lemma SignupThenLogin(accounts: seq<Account>, input: SignupInput, hash: string -> string,
                        compare: (string, string) -> bool, sign: (string, Option<Role>) -> string)
    requires Registered(accounts, input, hash).Ok?
    requires compare(input.password, hash(input.password))
    ensures Authentication(StoreAfter(accounts, Registered(accounts, input, hash)), input.email, input.password, compare, sign)
            == Ok(AuthenticationResponse(sign(input.email, input.role), input.email, input.role))
  {
    var a := Registered(accounts, input, hash).value;
    FirstMatchAppend(accounts, a, HasEmail(input.email));
  }

  /** A login attempt cannot tell an unknown email from a wrong password. */
  lemma FailuresLookAlike(accounts: seq<Account>, unknown: string, known: string, password: string,
                          compare: (string, string) -> bool, sign: (string, Option<Role>) -> string)
    requires forall a :: a in accounts ==> a.email != unknown
    requires Authentication(accounts, known, password, compare, sign).Err?
    ensures Authentication(accounts, unknown, password, compare, sign)
            == Authentication(accounts, known, password, compare, sign)
  {
  }

  class AccountStore {
    var accounts: seq<Account>

    constructor (initial: seq<Account>)
      ensures accounts == initial
    {
      accounts := initial;
    }

    /** `getUserByUsername`: the account with that username, or the error naming it. */
    method GetUserByUsername(username: string) returns (r: Result<Account>)
      ensures r.Ok? <==> exists a :: a in accounts && a.username == username
      ensures r.Ok? ==> r.value in accounts && r.value.username == username
      ensures r.Err? ==> r.message == NoSuchUsername(username)
    {
      var found := Find(accounts, HasUsername(username));
      if found.None? {
        return Err(NoSuchUsername(username));
      }
      return Ok(found.value);
    }

    /** `createUser`: rejects a taken email, then a taken username, and otherwise stores and
        returns an account holding the hash of the password. */
    method CreateUser(input: SignupInput, hash: string -> string) returns (r: Result<Account>)
      modifies this
      ensures r == Registered(old(accounts), input, hash)
      ensures accounts == StoreAfter(old(accounts), r)
    {
      var byEmail := Find(accounts, HasEmail(input.email));
      if byEmail.Some? {
        return Err(AlreadyExists(input.username));
      }
      var byUsername := Find(accounts, HasUsername(input.username));
      if byUsername.Some? {
        return Err(AlreadyExists(input.username));
      }
      var account := Account(None, input.username, input.email, hash(input.password), input.role);
      accounts := accounts + [account];
      return Ok(account);
    }

    /** `authenticate`: decides the login and writes nothing. */
    method Authenticate(email: string, password: string, compare: (string, string) -> bool,
                        sign: (string, Option<Role>) -> string) returns (r: Result<AuthenticationResponse>)
      ensures r == Authentication(accounts, email, password, compare, sign)
    {
      var user := Find(accounts, HasEmail(email));
      if user.None? {
        return Err(Incorrect);
      }
      var validPassword := compare(password, user.value.password);
      if !validPassword {
        return Err(Incorrect);
      }
      var role := user.value.role;
      return Ok(AuthenticationResponse(sign(email, role), email, role));
    }
  }
}
