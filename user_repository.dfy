/** The in-memory user repository: a module-level array seeded with one user, searched with
    `find` and grown with `push`. */
module UserRepository {
  import opened Js
  import opened Entities
  import UserModel

  /** `user => user.getId() === id`. */
  function HasId(id: int): User -> bool {
    (u: User) => u.id == Some(id)
  }

  /** The one user the store starts with, created with the `Date` object `now`. */
  function Seed(now: Stamp): (r: seq<User>)
    ensures |r| == 1
    ensures r[0].id == Some(1) && r[0].name == "John Doe" && r[0].email == "john@jeugdwerk.org"
    ensures r[0].password == "password123" && r[0].games == [] && r[0].createdAt == now
  {
    [UserModel.NewUser(UserModel.UserInput(Some(1), Some("John Doe"), Some("john@jeugdwerk.org"), Some("password123")), now).value]
  }

  class UserStore {
    var users: seq<User>

    /** The store as the module loads: the seeded user. */
    constructor (now: Stamp)
      ensures users == Seed(now)
    {
      users := Seed(now);
    }

    /** `getAllUsers`: the store itself, in insertion order. */
    method GetAllUsers() returns (r: seq<User>)
      ensures r == users
    {
      r := users;
    }

    /** `getUserById`: the first user with that id, or `null`. */
    method GetUserById(id: int) returns (r: Option<User>)
      ensures r == FirstMatch(users, HasId(id))
      ensures r.Some? ==> r.value in users && r.value.id == Some(id)
      ensures r.None? <==> forall u :: u in users ==> u.id != Some(id)
    {
      r := Find(users, HasId(id));
    }

    /** `createUser`: appends the user, with no uniqueness check, and returns it. */
    method CreateUser(u: User) returns (r: User)
      modifies this
      ensures users == old(users) + [u]
      ensures r == u
    {
      users := users + [u];
      r := u;
    }
  }

  /** The seeded user is found by id 1, and a user created later with id 1 is shadowed by it. */
  lemma SeedFoundById(now: Stamp, later: seq<User>)
    ensures FirstMatch(Seed(now) + later, HasId(1)) == Some(Seed(now)[0])
  {
  }
}
