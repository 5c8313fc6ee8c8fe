/**
 * The authentication service: registration (a role name resolved to a
 * role id, the password hashed, the user inserted and read back), login
 * (the user found by name, checked active, the password compared, a token
 * signed) and the profile read. Password hashing, hash comparison and
 * token signing are library calls and enter as parameters; the users and
 * roles tables are values here.
 */
module AuthService {
  import opened Wrappers
  import opened Store
  import opened GoStrings

  // ---------------------------------------------------------------- data

  datatype Role = Role(id: int, name: string)

  /**
   * The user record the service hands out. `role` is filled by the
   * LEFT JOIN on roles; `passwordHash` is never read into it.
   */
  datatype User = User(
    id: int, username: string, passwordHash: string, email: Option<string>, fullName: Option<string>,
    roleId: Option<int>, isActive: bool, createdAt: Time, updatedAt: Time, role: Option<Role>)

  /** A row of the users table. */
  datatype UserRow = UserRow(
    id: int, username: string, passwordHash: string, email: Option<string>, fullName: Option<string>,
    roleId: Option<int>, isActive: bool, createdAt: Time, updatedAt: Time)

  /** The users in id order, the role names by id, and the next id of the users sequence. */
  datatype AuthTables = AuthTables(users: seq<UserRow>, roles: map<int, string>, nextUserId: int)

  datatype RegisterUserRequest = RegisterUserRequest(
    username: string, email: string, password: string, fullName: string, roleName: string)

  datatype LoginRequest = LoginRequest(username: string, password: string)

  /** The claims of an access token; `exp` and `iat` are Unix seconds. */
  datatype Claims = Claims(userId: int, username: string, role: string, exp: int, iat: int)

  datatype AuthResponse = AuthResponse(user: User, accessToken: string)

  datatype AuthError =
    | UserNotFound
    | InvalidCredentials
    | UsernameExists
    | EmailExists
    | RoleNotFound(roleName: string)
    | TokenGeneration(reason: string)
    | HashFailed(reason: string)
    | RegisterFailed(error: RepoError)
    | LoginFailed(error: RepoError)
    | ProfileFailed(error: RepoError)

  /** Why CreateUser failed: a unique constraint by name, or another database error. */
  datatype CreateUserError = UniqueViolation(constraint: string) | InsertFailed(reason: string)

  /**
   * What RegisterUser returns: the read-back user, or, when the read-back
   * fails after the insert, the user as built with its new id together
   * with the read error, or an error and no user.
   */
  datatype Registration =
    | Registered(user: User)
    | PartlyRegistered(user: User, fetchError: RepoError)
    | NotRegistered(error: AuthError)

  datatype Outcome = Outcome(tables: AuthTables, result: Registration)

  const AdminRoleId: int := 1
  const StaffRoleId: int := 2
  const ClientRoleId: int := 3

  /** The role names RegisterUser knows, lower-case. */
  const RoleIds: map<string, int> := map["admin" := AdminRoleId, "staff" := StaffRoleId, "client" := ClientRoleId]

  const UsernameKey: string := "users_username_key"
  const EmailKey: string := "users_email_key"

  /** The role claim of a user whose role has no name. */
  const DefaultRoleClaim: string := "default"

  /** The text of the foreign-key violation an unknown role id causes. */
  const RoleForeignKeyReason: string := "insert or update on table users violates foreign key constraint users_role_id_fkey"

  // ---------------------------------------------------------------- pure rules

  /**
   * The role id of a registration: an empty name is the client role;
   * otherwise the lower-cased name must be one of the three known ones.
   */
  function ResolveRole(roleName: string): (r: Result<int, AuthError>)
    ensures r.Ok? ==> r.value in {AdminRoleId, StaffRoleId, ClientRoleId}
    ensures r.Err? ==> r.error == RoleNotFound(roleName)
  {
    if roleName == "" then Ok(ClientRoleId)
    else
      var normalized := ToLower(roleName);
      if normalized in RoleIds then Ok(RoleIds[normalized]) else Err(RoleNotFound(roleName))
  }

  /** The role claim of generateJWT: the joined role's name when there is one, else "default". */
  function RoleClaim(user: User): (r: string)
    ensures r != ""
  {
    if user.role.Some? && user.role.value.name != "" then user.role.value.name else DefaultRoleClaim
  }

  /**
   * The error a unique violation becomes, from the repository's error
   * text: the username key first, then the e-mail key, and a username
   * error when the text names neither.
   */
  function DuplicateError(text: string): (e: AuthError)
    ensures e in {UsernameExists, EmailExists}
    ensures e == EmailExists <==> !Contains(text, UsernameKey) && Contains(text, EmailKey)
  {
    if Contains(text, UsernameKey) then UsernameExists
    else if Contains(text, EmailKey) then EmailExists
    else UsernameExists
  }

  // ---------------------------------------------------------------- the repository

  /** The WHERE test of the two user lookups: by username or by id. */
  datatype UserKey = Username(name: string) | UserId(id: int)

  predicate KeyMatches(key: UserKey, u: UserRow) {
    match key
    case Username(name) => u.username == name
    case UserId(id) => u.id == id
  }

  /** The first row the key selects, as QueryRow returns it; none exactly when no row matches. */
  function FindUser(users: seq<UserRow>, key: UserKey): (r: Option<UserRow>)
    ensures r.Some? ==> r.value in users && KeyMatches(key, r.value)
    ensures r.None? <==> forall i :: 0 <= i < |users| ==> !KeyMatches(key, users[i])
  {
    if |users| == 0 then None
    else if KeyMatches(key, users[0]) then Some(users[0])
    else FindUser(users[1..], key)
  }

  /** The row at `k` is found when it is the first the key selects. */
  lemma {:induction false} FindUserAt(users: seq<UserRow>, key: UserKey, k: int)
    requires 0 <= k < |users| && KeyMatches(key, users[k])
    requires forall i :: 0 <= i < k ==> !KeyMatches(key, users[i])
    ensures FindUser(users, key) == Some(users[k])
    decreases |users|
  {
    if k > 0 {
      assert !KeyMatches(key, users[0]);
      assert forall i :: 0 <= i < k - 1 ==> users[1..][i] == users[i + 1];
      FindUserAt(users[1..], key, k - 1);
    }
  }

  /** The row with the given username (the column is unique). */
  function FindByUsername(users: seq<UserRow>, username: string): (r: Option<UserRow>)
    ensures r.Some? ==> r.value in users && r.value.username == username
    ensures r.None? <==> forall i :: 0 <= i < |users| ==> users[i].username != username
  {
    FindUser(users, Username(username))
  }

  /** The row with the given id. */
  function FindById(users: seq<UserRow>, id: int): (r: Option<UserRow>)
    ensures r.Some? ==> r.value in users && r.value.id == id
    ensures r.None? <==> forall i :: 0 <= i < |users| ==> users[i].id != id
  {
    FindUser(users, UserId(id))
  }

  /**
   * A scanned user: the role comes from a LEFT JOIN with COALESCE, so a
   * role id whose roles row is missing still gives a role, with an empty
   * name; the hash column is read but not kept.
   */
  function ScanUser(t: AuthTables, row: UserRow): (u: User)
    ensures u.id == row.id && u.username == row.username && u.passwordHash == ""
    ensures u.roleId == row.roleId && u.isActive == row.isActive
    ensures u.role.Some? <==> row.roleId.Some?
    ensures u.role.Some? ==> u.role.value.id == row.roleId.value
    ensures u.role.Some? && u.role.value.name != "" ==> row.roleId.value in t.roles
  {
    var role :=
      if row.roleId.None? then None
      else Some(Role(row.roleId.value, if row.roleId.value in t.roles then t.roles[row.roleId.value] else ""));
    User(row.id, row.username, "", row.email, row.fullName, row.roleId, row.isActive, row.createdAt, row.updatedAt, role)
  }

  predicate UsernameTaken(t: AuthTables, username: string) {
    exists i :: 0 <= i < |t.users| && t.users[i].username == username
  }

  predicate EmailTaken(t: AuthTables, email: Option<string>) {
    email.Some? && exists i :: 0 <= i < |t.users| && t.users[i].email == email
  }

  /**
   * CreateUser: an insert that the unique keys on username and email and
   * the foreign key on role_id may refuse; new users are active and get
   * the next id. When both keys clash, the username key is reported.
   */
  function CreateUser(t: AuthTables, user: User, hashedPassword: string, now: Time)
    : (r: Result<(AuthTables, int), CreateUserError>)
    ensures r.Ok? ==> r.value.1 == t.nextUserId
  {
    if UsernameTaken(t, user.username) then Err(UniqueViolation(UsernameKey))
    else if EmailTaken(t, user.email) then Err(UniqueViolation(EmailKey))
    else if user.roleId.Some? && user.roleId.value !in t.roles then Err(InsertFailed(RoleForeignKeyReason))
    else
      var row := UserRow(
        t.nextUserId, user.username, hashedPassword, user.email, user.fullName, user.roleId, true, now, now);
      Ok((t.(users := t.users + [row], nextUserId := t.nextUserId + 1), row.id))
  }

  /**
   * The error text the service inspects for a unique violation: the
   * repository appends the constraint name to the driver's message, whose
   * fixed words name neither key.
   */
  function UniqueViolationText(constraint: string): string {
    "duplicate key value violates unique constraint (constraint: " + constraint + ")"
  }

  // ---------------------------------------------------------------- the service

  /**
   * RegisterUser: hash the password, resolve the role, insert, read back.
   * `hash` is bcrypt's GenerateFromPassword; `fetchFault` is the error the
   * read-back meets, if any (the insert stays, there is no transaction).
   */
  function RegisterUserSpec(
    t: AuthTables, req: RegisterUserRequest, hash: string -> Result<string, string>, now: Time,
    fetchFault: Option<string>): (o: Outcome)
    ensures o.result.NotRegistered? ==> o.tables == t
  {
    match hash(req.password)
    case Err(reason) => Outcome(t, NotRegistered(HashFailed(reason)))
    case Ok(hashed) =>
      match ResolveRole(req.roleName)
      case Err(e) => Outcome(t, NotRegistered(e))
      case Ok(roleId) =>
        var user := User(0, req.username, "", Some(req.email), Some(req.fullName), Some(roleId), false, ZeroTime, ZeroTime, None);
        match CreateUser(t, user, hashed, now)
        case Err(UniqueViolation(c)) => Outcome(t, NotRegistered(DuplicateError(UniqueViolationText(c))))
        case Err(InsertFailed(reason)) => Outcome(t, NotRegistered(RegisterFailed(DatabaseError(reason))))
        case Ok((written, id)) =>
          if fetchFault.Some? then
            Outcome(written, PartlyRegistered(user.(id := id, passwordHash := ""), DatabaseError(fetchFault.value)))
          else
            match FindById(written.users, id)
            case Some(row) => Outcome(written, Registered(ScanUser(written, row).(passwordHash := "")))
            case None => Outcome(written, PartlyRegistered(user.(id := id, passwordHash := ""), NotFound))
  }

  /**
   * The claims generateJWT signs: the user's id, name and role claim,
   * issued now and expiring `expiration` nanoseconds later, both in Unix
   * seconds.
   */
  function TokenClaims(user: User, now: Time, expiration: int): (c: Claims)
    ensures c.userId == user.id && c.username == user.username && c.role == RoleClaim(user)
    ensures c.iat * Second <= now < (c.iat + 1) * Second
  {
    Claims(user.id, user.username, RoleClaim(user), (now + expiration) / Second, now / Second)
  }

  /**
   * LoginUser: an unknown name, an inactive account and a wrong password
   * are all ErrInvalidCredentials. `matches` is bcrypt's hash comparison,
   * `sign` the HMAC-SHA256 signing of the claims, `lookupFault` a database
   * error on the lookup.
   */
  function LoginUserSpec(
    t: AuthTables, req: LoginRequest, matches: (string, string) -> bool, sign: Claims -> Result<string, string>,
    now: Time, expiration: int, lookupFault: Option<string>): (r: Result<AuthResponse, AuthError>)
  {
    if lookupFault.Some? then Err(LoginFailed(DatabaseError(lookupFault.value)))
    else
      match FindByUsername(t.users, req.username)
      case None => Err(InvalidCredentials)
      case Some(row) =>
        if !row.isActive then Err(InvalidCredentials)
        else if !matches(row.passwordHash, req.password) then Err(InvalidCredentials)
        else
          var user := ScanUser(t, row);
          match sign(TokenClaims(user, now, expiration))
          case Err(reason) => Err(TokenGeneration(reason))
          case Ok(token) => Ok(AuthResponse(user.(passwordHash := ""), token))
  }

  /** GetUserProfile: the user by id with the hash cleared, or ErrUserNotFound. */
  function GetUserProfileSpec(t: AuthTables, userId: int, lookupFault: Option<string>): (r: Result<User, AuthError>)
    ensures r.Ok? ==> r.value.id == userId && r.value.passwordHash == ""
    ensures r == Err(UserNotFound) <==> lookupFault.None? && FindById(t.users, userId).None?
  {
    if lookupFault.Some? then Err(ProfileFailed(DatabaseError(lookupFault.value)))
    else
      match FindById(t.users, userId)
      case None => Err(UserNotFound)
      case Some(row) => Ok(ScanUser(t, row).(passwordHash := ""))
  }

  // ---------------------------------------------------------------- the store

  class AuthStore {
    var users: seq<UserRow>
    var roles: map<int, string>
    var nextUserId: int

    function State(): AuthTables
      reads this
    {
      AuthTables(users, roles, nextUserId)
    }

    constructor (t: AuthTables)
      ensures State() == t
    {
      users, roles, nextUserId := t.users, t.roles, t.nextUserId;
    }
  }

  /** RegisterUser against the store: the user struct is built, then given its id and stripped of the hash. */
  method RegisterUser(
    db: AuthStore, req: RegisterUserRequest, hash: string -> Result<string, string>, now: Time,
    fetchFault: Option<string>) returns (r: Registration)
    modifies db
    ensures var o := RegisterUserSpec(old(db.State()), req, hash, now, fetchFault);
      db.State() == o.tables && r == o.result
  {
    var hashed := hash(req.password);
    if hashed.Err? {
      return NotRegistered(HashFailed(hashed.error));
    }
    var roleId := ResolveRole(req.roleName);
    if roleId.Err? {
      return NotRegistered(roleId.error);
    }
    var user := User(0, req.username, "", Some(req.email), Some(req.fullName), Some(roleId.value), false, ZeroTime, ZeroTime, None);
    var created := CreateUser(db.State(), user, hashed.value, now);
    if created.Err? {
      match created.error
      case UniqueViolation(c) =>
        return NotRegistered(DuplicateError(UniqueViolationText(c)));
      case InsertFailed(reason) =>
        return NotRegistered(RegisterFailed(DatabaseError(reason)));
    }
    var written := created.value.0;
    db.users, db.nextUserId := written.users, written.nextUserId;
    var id := created.value.1;
    if fetchFault.Some? {
      user := user.(id := id);
      user := user.(passwordHash := "");
      return PartlyRegistered(user, DatabaseError(fetchFault.value));
    }
    var row := FindById(db.users, id);
    if row.None? {
      user := user.(id := id);
      user := user.(passwordHash := "");
      return PartlyRegistered(user, NotFound);
    }
    var registered := ScanUser(db.State(), row.value);
    registered := registered.(passwordHash := "");
    r := Registered(registered);
  }

  /** LoginUser against the store; it reads and changes nothing. */
  method LoginUser(
    db: AuthStore, req: LoginRequest, matches: (string, string) -> bool, sign: Claims -> Result<string, string>,
    now: Time, expiration: int, lookupFault: Option<string>) returns (r: Result<AuthResponse, AuthError>)
    ensures r == LoginUserSpec(db.State(), req, matches, sign, now, expiration, lookupFault)
  {
    if lookupFault.Some? {
      return Err(LoginFailed(DatabaseError(lookupFault.value)));
    }
    var found := FindByUsername(db.users, req.username);
    if found.None? {
      return Err(InvalidCredentials);
    }
    var row := found.value;
    if !row.isActive {
      return Err(InvalidCredentials);
    }
    if !matches(row.passwordHash, req.password) {
      return Err(InvalidCredentials);
    }
    var user := ScanUser(db.State(), row);
    var token := sign(TokenClaims(user, now, expiration));
    if token.Err? {
      return Err(TokenGeneration(token.error));
    }
    user := user.(passwordHash := "");
    r := Ok(AuthResponse(user, token.value));
  }
}
