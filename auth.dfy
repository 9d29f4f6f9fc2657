/** The authentication service: registration (a username-uniqueness check, then one new user with
    the encoded password and the USER role) and login (an ordered chain of checks: the user exists,
    the account is active, the password matches; then a token). The password encoder and the token
    generator are parameters: their algorithms are not part of this model. */
module Auth {
  import opened Common

  datatype Role = USER | ADMIN | SUPPORT {
    /** The Java enum constant's `name()`. */
    function Name(): string {
      match this
      case USER => "USER"
      case ADMIN => "ADMIN"
      case SUPPORT => "SUPPORT"
    }
  }

  datatype User = User(id: int, username: string, password: string, role: Role, active: bool)

  datatype RegisterRequest = RegisterRequest(username: string, password: string)

  datatype LoginRequest = LoginRequest(username: string, password: string)

  datatype AuthResponse = AuthResponse(token: string, username: string, role: string, expiresIn: int)

  /** The token lifetime every login reports, in milliseconds (one day). */
  const ExpiresIn: int := 86400000

  const UsernameTaken: string := "Username already exists"
  const InvalidCredentials: string := "Invalid credentials"
  const AccountInactive: string := "User account is inactive"

  /** The password encoder's two operations. */
  datatype PasswordEncoder = PasswordEncoder(encode: string -> string, matches: (string, string) -> bool)

  /** The user repository, keyed by user name: user names are unique. */
  type UserTable = map<string, User>

  /** The user `register` saves for a request, under the id the repository assigns. */
  function Registered(id: int, request: RegisterRequest, encoder: PasswordEncoder): User {
    User(id, request.username, encoder.encode(request.password), USER, true)
  }

  /** `login`: the first failing check decides the exception; a login that passes them all gets a
      fresh token, the stored user name, the role's name and the fixed lifetime. */
  function Login(users: UserTable, request: LoginRequest, encoder: PasswordEncoder, generateToken: User -> string)
    : (r: Result<AuthResponse>)
    ensures request.username !in users ==> r == Err(InvalidCredentials)
    ensures request.username in users && !users[request.username].active ==> r == Err(AccountInactive)
    ensures request.username in users && users[request.username].active
            && !encoder.matches(request.password, users[request.username].password)
            ==> r == Err(InvalidCredentials)
    ensures r.Ok? <==>
      request.username in users && users[request.username].active &&
      encoder.matches(request.password, users[request.username].password)
    ensures r.Ok? ==>
      var user := users[request.username];
      r.value == AuthResponse(generateToken(user), user.username, user.role.Name(), ExpiresIn)
  {
    if request.username !in users then Err(InvalidCredentials)
    else
      var user := users[request.username];
      if !user.active then Err(AccountInactive)
      else if !encoder.matches(request.password, user.password) then Err(InvalidCredentials)
      else Ok(AuthResponse(generateToken(user), user.username, user.role.Name(), ExpiresIn))
  }

  /** The inactive check comes first: an inactive account is reported as inactive whatever the
      password and whatever the encoder says about it. */
  lemma InactiveCheckedBeforePassword(users: UserTable, name: string, pw1: string, pw2: string,
                                      e1: PasswordEncoder, e2: PasswordEncoder, g: User -> string)
    requires name in users && !users[name].active
    ensures Login(users, LoginRequest(name, pw1), e1, g) == Login(users, LoginRequest(name, pw2), e2, g)
    ensures Login(users, LoginRequest(name, pw1), e1, g) == Err(AccountInactive)
  {
  }

  /** An unknown user and a wrong password for an active user get the same answer. */
  lemma UnknownUserLooksLikeWrongPassword(users: UserTable, unknown: LoginRequest, wrong: LoginRequest,
                                          encoder: PasswordEncoder, g: User -> string)
    requires unknown.username !in users
    requires wrong.username in users && users[wrong.username].active
    requires !encoder.matches(wrong.password, users[wrong.username].password)
    ensures Login(users, unknown, encoder, g) == Login(users, wrong, encoder, g)
  {
  }

  /** Right after registering, logging in with a password succeeds exactly when the encoder matches
      it against the stored encoding, and the response names the new user with role USER. */
  lemma LoginAfterRegister(users: UserTable, id: int, request: RegisterRequest, password: string,
                           encoder: PasswordEncoder, g: User -> string)
    requires request.username !in users
    ensures var after := users[request.username := Registered(id, request, encoder)];
      var r := Login(after, LoginRequest(request.username, password), encoder, g);
      && (r.Ok? <==> encoder.matches(password, encoder.encode(request.password)))
      && (r.Ok? ==> r.value.username == request.username && r.value.role == "USER" && r.value.expiresIn == ExpiresIn)
      && (r.Err? ==> r.message == InvalidCredentials)
  {
  }

  class AuthService {
    var users: UserTable
    /** The id the repository assigns to the next new user. */
    var nextId: int

    ghost predicate Valid()
      reads this
    {
      0 <= nextId && forall name :: name in users ==> users[name].username == name && 0 <= users[name].id < nextId
    }

    constructor ()
      ensures Valid() && users == map[] && nextId == 0
    {
      users, nextId := map[], 0;
    }

    /** `register`: a taken user name is an error that saves nothing; otherwise exactly one user is
        saved, with the encoded password and the USER role. */
    method Register(request: RegisterRequest, encoder: PasswordEncoder) returns (r: Result<()>)
      requires Valid()
      modifies this
      ensures Valid()
      ensures request.username in old(users) ==>
        r == Err(UsernameTaken) && users == old(users) && nextId == old(nextId)
      ensures request.username !in old(users) ==>
        && r == Ok(())
        && users == old(users)[request.username := Registered(old(nextId), request, encoder)]
        && |users| == |old(users)| + 1
        && nextId == old(nextId) + 1
    {
      if request.username in users {
        return Err(UsernameTaken);
      }
      var user := User(nextId, request.username, encoder.encode(request.password), USER, true);
      users := users[user.username := user];
      nextId := nextId + 1;
      r := Ok(());
    }
  }
}
