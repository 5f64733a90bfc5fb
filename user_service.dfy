/** `UserServiceImpl`: a user table keyed by e-mail address. Registration stores the
    encoded password and a default role; login checks the password through the encoder.
    The encoder's `encode` and `matches` are parameters. */
module UserService {
  import opened Base

  /** A `Long` identity column: the n-th saved user gets id n, starting from 1. A caller may
      still ask for any `Long`, zero and negative ones included. */
  type UserId = int

  datatype User = User(id: UserId, email: string, password: string, role: string, enabled: bool)

  datatype UserRequest = UserRequest(email: string, password: string, role: Option<string>)

  /** What the service returns about a user: no password. */
  datatype UserResponse = UserResponse(id: UserId, email: string, role: string, enabled: bool)

  /** The service throws `IllegalArgumentException` with these messages. */
  datatype UserError = IllegalArgument(message: string)

  const DefaultRole := "SELLER"

  /** Ids follow the insertion order and e-mail addresses are unique. */
  predicate WellFormed(users: seq<User>) {
    && (forall i :: 0 <= i < |users| ==> users[i].id == i + 1)
    && (forall i, j :: 0 <= i < j < |users| ==> users[i].email != users[j].email)
  }

  /** `findByEmail`: the user with that address, if there is one. */
  function FindByEmail(users: seq<User>, email: string): (r: Option<User>)
    ensures r.Some? ==> r.value in users && r.value.email == email
    ensures r.None? <==> forall i :: 0 <= i < |users| ==> users[i].email != email
  {
    if users == [] then None
    else if users[0].email == email then Some(users[0])
    else FindByEmail(users[1..], email)
  }

  /** `findById`. */
  function FindById(users: seq<User>, id: UserId): (r: Option<User>)
    requires WellFormed(users)
    ensures r.Some? <==> exists i :: 0 <= i < |users| && users[i].id == id
    ensures r.Some? ==> r.value in users && r.value.id == id
  {
    if 1 <= id <= |users| then Some(users[id - 1]) else None
  }

  /** `toDto`. */
  function ToDto(u: User): (d: UserResponse)
    ensures d.id == u.id && d.email == u.email && d.role == u.role && d.enabled == u.enabled
  {
    UserResponse(u.id, u.email, u.role, u.enabled)
  }

  /** The response never depends on the stored password. */
  lemma ToDtoHidesPassword(u: User, otherPassword: string)
    ensures ToDto(u) == ToDto(u.(password := otherPassword))
  {
  }

  /** The user a registration stores. */
  function NewUser(id: UserId, request: UserRequest, encode: string -> string): User {
    User(id, request.email, encode(request.password), request.role.GetOr(DefaultRole), true)
  }

  /** `getUser`. */
  function GetUser(users: seq<User>, id: UserId): (r: Result<UserResponse, UserError>)
    requires WellFormed(users)
    ensures r.Success? <==> exists i :: 0 <= i < |users| && users[i].id == id
    ensures r.Success? ==> r.value == ToDto(users[id - 1])
    ensures r.Failure? ==> r.error == IllegalArgument("User not found")
    ensures id < 1 || id > |users| ==> r.Failure?
  {
    match FindById(users, id)
    case None => Failure(IllegalArgument("User not found"))
    case Some(u) => Success(ToDto(u))
  }

  /** `login`: an unknown address and a rejected password fail with the same message. */
  function Login(users: seq<User>, email: string, password: string, matches: (string, string) -> bool)
    : (r: Result<UserResponse, UserError>)
    ensures r.Success? <==> FindByEmail(users, email).Some? && matches(password, FindByEmail(users, email).value.password)
    ensures r.Success? ==> r.value == ToDto(FindByEmail(users, email).value)
    ensures r.Failure? ==> r.error == IllegalArgument("Invalid credentials")
  {
    match FindByEmail(users, email)
    case None => Failure(IllegalArgument("Invalid credentials"))
    case Some(u) =>
      if !matches(password, u.password) then Failure(IllegalArgument("Invalid credentials"))
      else Success(ToDto(u))
  }

  /** Adding a user whose address is new keeps the table well formed. */
  lemma AppendKeepsWellFormed(users: seq<User>, u: User)
    requires WellFormed(users) && u.id == |users| + 1
    requires FindByEmail(users, u.email).None?
    ensures WellFormed(users + [u])
  {
  }

  /** A freshly registered user can log in with the raw password whenever the encoder
      accepts what it encoded, and the lookup finds exactly that user. */
  lemma {:induction false} RegisteredUserCanLogIn(users: seq<User>, request: UserRequest,
                                                  encode: string -> string, matches: (string, string) -> bool)
    requires WellFormed(users) && FindByEmail(users, request.email).None?
    requires matches(request.password, encode(request.password))
    ensures var u := NewUser(|users| + 1, request, encode);
      Login(users + [u], request.email, request.password, matches) == Success(ToDto(u))
  {
    var u := NewUser(|users| + 1, request, encode);
    FindAfterAppend(users, u);
  }

  lemma {:induction false} FindAfterAppend(users: seq<User>, u: User)
    requires FindByEmail(users, u.email).None?
    ensures FindByEmail(users + [u], u.email) == Some(u)
  {
    if users != [] {
      assert (users + [u])[1..] == users[1..] + [u];
      FindAfterAppend(users[1..], u);
    }
  }

  /** The user table. */
  class UserStore {
    var users: seq<User>

    ghost predicate Valid()
      reads this
    {
      WellFormed(users)
    }

    constructor ()
      ensures Valid() && users == []
    {
      users := [];
    }

    /** `registerUser`: refuses an address already registered and then stores nothing;
        otherwise saves one user with the encoded password, the given role or "SELLER",
        enabled, under the next id. */
    method RegisterUser(request: UserRequest, encode: string -> string) returns (r: Result<UserResponse, UserError>)
      requires Valid()
      modifies this
      ensures Valid()
      ensures r.Failure? <==> FindByEmail(old(users), request.email).Some?
      ensures r.Failure? ==> users == old(users) && r.error == IllegalArgument("Email already registered")
      ensures r.Success? ==>
        var u := NewUser(|old(users)| + 1, request, encode);
        users == old(users) + [u] && r.value == ToDto(u)
    {
      if FindByEmail(users, request.email).Some? {
        return Failure(IllegalArgument("Email already registered"));
      }
      var role := if request.role.None? then DefaultRole else request.role.value;
      var user := User(|users| + 1, request.email, encode(request.password), role, true);
      AppendKeepsWellFormed(users, user);
      users := users + [user];
      r := Success(ToDto(user));
    }
  }
}
