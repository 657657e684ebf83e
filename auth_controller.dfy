/**
 * Registration and login decisions over the user collection. Token signing
 * and password comparison are passed in as functions: the model does not
 * interpret them.
 */
module AuthController {
  import opened Wrappers
  import opened Seqs
  import opened SongModel

  type UserId = nat

  /** A stored user; `password` is whatever the user model stores for it. */
  datatype User = User(id: UserId, username: string, email: string, password: string)

  /** The answers of `registerUser`. */
  datatype RegisterResponse =
    | Registered(id: UserId, username: string, email: string, token: string)
    | MissingFields
    | UserExists

  /** The HTTP status of each registration answer. */
  function RegisterStatus(r: RegisterResponse): (code: nat)
    ensures code == 201 <==> r.Registered?
    ensures code == 400 <==> !r.Registered?
  {
    if r.Registered? then 201 else 400
  }

  /** The answers of `loginUser`. */
  datatype LoginResponse =
    | LoggedIn(id: UserId, username: string, email: string, token: string)
    | InvalidCredentials

  /** The HTTP status of each login answer. */
  function LoginStatus(r: LoginResponse): (code: nat)
    ensures code == 200 <==> r.LoggedIn?
    ensures code == 401 <==> r.InvalidCredentials?
  {
    if r.LoggedIn? then 200 else 401
  }

  /** No two users share an email. */
  ghost predicate UniqueEmails(users: seq<User>)
  {
    forall i, j :: 0 <= i < j < |users| ==> users[i].email != users[j].email
  }

  /** No two users share an id. */
  ghost predicate UniqueUserIds(users: seq<User>)
  {
    forall i, j :: 0 <= i < j < |users| ==> users[i].id != users[j].id
  }

  /** The query condition `{ email }`. */
  function EmailIs(email: string): User -> bool
  {
    (u: User) => u.email == email
  }

  /** `User.findOne({ email })`. */
  function FindByEmail(users: seq<User>, email: string): (r: Option<User>)
    ensures r.Some? <==> exists u :: u in users && u.email == email
    ensures r.Some? ==> r.value in users && r.value.email == email
  {
    FindFirst(users, EmailIs(email))
  }

  /** The largest stored user id, 0 when there is none. */
  function MaxUserId(users: seq<User>): (m: UserId)
    ensures forall u :: u in users ==> u.id <= m
  {
    if users == [] then 0
    else
      var m := MaxUserId(users[1..]);
      if users[0].id > m then users[0].id else m
  }

  /** An id no stored user has, standing for a fresh `_id`. */
  function FreshUserId(users: seq<User>): (id: UserId)
    ensures forall u :: u in users ==> u.id < id
  {
    MaxUserId(users) + 1
  }

  /**
   * `loginUser`: the user with that email, when there is one and the
   * password matches it; invalid credentials otherwise. It only reads.
   */
  function Login(users: seq<User>, email: string, password: string,
                 matchPassword: (User, string) -> bool, sign: UserId -> string): (r: LoginResponse)
    ensures r.LoggedIn? <==> FindByEmail(users, email).Some? && matchPassword(FindByEmail(users, email).value, password)
    ensures r.LoggedIn? ==> exists u :: u in users && u.email == email && r.id == u.id && r.username == u.username
    ensures r.LoggedIn? ==> r.email == email && r.token == sign(r.id)
  {
    match FindByEmail(users, email)
    case Some(user) =>
      if matchPassword(user, password) then LoggedIn(user.id, user.username, user.email, sign(user.id))
      else InvalidCredentials
    case None => InvalidCredentials
  }

  /** With unique emails the user a login finds is the only one with that email. */
  lemma LoginFindsTheUser(users: seq<User>, email: string, password: string,
                          matchPassword: (User, string) -> bool, sign: UserId -> string, u: User)
    requires UniqueEmails(users) && u in users && u.email == email
    ensures Login(users, email, password, matchPassword, sign).LoggedIn? <==> matchPassword(u, password)
  {
    var found := FindByEmail(users, email).value;
    var i :| 0 <= i < |users| && users[i] == u;
    var j :| 0 <= j < |users| && users[j] == found;
    assert users[i].email == users[j].email;
  }

  class UserStore {
    /** The user collection, in insertion order. */
    var users: seq<User>

    ghost predicate Valid()
      reads this
    {
      UniqueEmails(users) && UniqueUserIds(users)
    }

    constructor (initial: seq<User>)
      requires UniqueEmails(initial) && UniqueUserIds(initial)
      ensures Valid() && users == initial
    {
      users := initial;
    }

    /**
     * `registerUser`: all three fields (400), an unused email (400), then
     * the new user, answered with its id, name, email and signed token.
     */
    method Register(username: Option<string>, email: Option<string>, password: Option<string>,
                    sign: UserId -> string) returns (r: RegisterResponse)
      requires Valid()
      modifies this
      ensures Valid()
      ensures r.MissingFields? <==> !(Given(username) && Given(email) && Given(password))
      ensures r.UserExists? <==>
        (&& Given(username) && Given(email) && Given(password)
         && exists u :: u in old(users) && u.email == email.value)
      ensures !r.Registered? ==> users == old(users)
      ensures r.Registered? ==>
        && users == old(users) + [User(r.id, username.value, email.value, password.value)]
        && r.username == username.value && r.email == email.value && r.token == sign(r.id)
        && forall u :: u in old(users) ==> u.id != r.id
    {
      if !Given(username) || !Given(email) || !Given(password) {
        return MissingFields;
      }
      var userExists := FindByEmail(users, email.value);
      if userExists.Some? {
        return UserExists;
      }
      var user := User(FreshUserId(users), username.value, email.value, password.value);
      users := users + [user];
      r := Registered(user.id, user.username, user.email, sign(user.id));
    }
  }
}
