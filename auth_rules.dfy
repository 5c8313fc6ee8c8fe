/**
 * What the authentication service guarantees: how role names resolve,
 * which role a token claims, which duplicate-key errors registration
 * reports, when login refuses, that no returned user carries a password
 * hash, and that registration keeps the users table well formed.
 */
module AuthRules {
  import opened Wrappers
  import opened Store
  import opened GoStrings
  import opened AuthService

  // ---------------------------------------------------------------- invariant

  /**
   * Ids below the next id and ascending in table order; usernames and
   * non-null e-mail addresses unique; every role id names a role.
   */
  ghost predicate UsersWf(t: AuthTables) {
    && (forall i :: 0 <= i < |t.users| ==> t.users[i].id < t.nextUserId)
    && (forall i, j :: 0 <= i < j < |t.users| ==> t.users[i].id < t.users[j].id)
    && (forall i, j :: 0 <= i < j < |t.users| ==> t.users[i].username != t.users[j].username)
    && (forall i, j :: (0 <= i < j < |t.users| && t.users[i].email.Some?) ==> t.users[i].email != t.users[j].email)
    && (forall i :: 0 <= i < |t.users| && t.users[i].roleId.Some? ==> t.users[i].roleId.value in t.roles)
  }

  // ---------------------------------------------------------------- roles

  /**
   * RegisterUser's role names: "admin", "staff" and "client" in any case
   * give roles 1, 2 and 3, an empty name gives 3, and any other name is
   * ErrRoleNotFound.
   */
  lemma RoleResolution(roleName: string)
    ensures ResolveRole(roleName) == Ok(AdminRoleId) <==> ToLower(roleName) == "admin"
    ensures ResolveRole(roleName) == Ok(StaffRoleId) <==> ToLower(roleName) == "staff"
    ensures ResolveRole(roleName) == Ok(ClientRoleId) <==> roleName == "" || ToLower(roleName) == "client"
    ensures ResolveRole(roleName).Err? <==> roleName != "" && ToLower(roleName) !in {"admin", "staff", "client"}
  {
    assert RoleIds.Keys == {"admin", "staff", "client"};
    if ToLower(roleName) in {"admin", "staff", "client"} {
      assert |roleName| == |ToLower(roleName)| > 0;
    }
  }

  /** Names equal under case folding resolve to the same role, or are both refused. */
  lemma RoleResolutionIgnoresCase(a: string, b: string)
    requires EqualFold(a, b)
    ensures ResolveRole(a).Ok? <==> ResolveRole(b).Ok?
    ensures ResolveRole(a).Ok? ==> ResolveRole(a) == ResolveRole(b)
  {
    assert |a| == |ToLower(a)| == |ToLower(b)| == |b|;
  }

  /** Some names: "Admin" and "STAFF" are known roles, "" is a client, "manager" is refused. */
  lemma RoleNameExamples()
    ensures ResolveRole("Admin") == Ok(AdminRoleId)
    ensures ResolveRole("STAFF") == Ok(StaffRoleId)
    ensures ResolveRole("") == Ok(ClientRoleId)
    ensures ResolveRole("manager") == Err(RoleNotFound("manager"))
  {
    assert ToLower("Admin") == "admin";
    assert ToLower("STAFF") == "staff";
    assert ToLower("manager") == "manager";
  }

  /**
   * The role claim of a user read from the database: the name of the
   * role its role id joins to, or "default" when it has no role id, the
   * roles row is missing, or its name is empty.
   */
  lemma RoleClaimOfStoredUser(t: AuthTables, row: UserRow)
    ensures var claim := RoleClaim(ScanUser(t, row));
      if row.roleId.Some? && row.roleId.value in t.roles && t.roles[row.roleId.value] != ""
      then claim == t.roles[row.roleId.value]
      else claim == DefaultRoleClaim
  {
  }

  // ---------------------------------------------------------------- duplicate keys

  /** The fixed words of the unique-violation text have no underscore. */
  lemma NoUnderscoreInHead()
    ensures Lacks("duplicate key value violates unique constraint (constraint: ", '_')
  {
    assert Lacks("duplicate key value ", '_');
    assert Lacks("violates unique ", '_');
    assert Lacks("constraint (constraint: ", '_');
    LacksJoin("duplicate key value ", "violates unique ", '_');
    LacksJoin("duplicate key value violates unique ", "constraint (constraint: ", '_');
  }

  /** A key name occurs in the unique-violation text exactly when it occurs in the constraint name. */
  lemma KeyInText(c: string, key: string)
    requires key == UsernameKey || key == EmailKey
    ensures Contains(UniqueViolationText(c), key) <==> Contains(c, key)
  {
    var head := "duplicate key value violates unique constraint (constraint: ";
    assert UniqueViolationText(c) == head + c + ")";
    NoUnderscoreInHead();
    assert key[5] == '_';
    assert Lacks(key, ' ') && Lacks(key, ')');
    ContainsWithin(head, c, ")", key);
    ContainsOnlyInside(head, c, ")", key, 5);
  }

  /**
   * RegisterUser's reading of a unique violation: the username key gives
   * ErrUsernameExists, the e-mail key ErrEmailExists, and a constraint
   * naming neither falls back to ErrUsernameExists.
   */
  lemma DuplicateKeyMapping(c: string)
    ensures c == UsernameKey ==> DuplicateError(UniqueViolationText(c)) == UsernameExists
    ensures c == EmailKey ==> DuplicateError(UniqueViolationText(c)) == EmailExists
    ensures !Contains(c, UsernameKey) && !Contains(c, EmailKey) ==> DuplicateError(UniqueViolationText(c)) == UsernameExists
  {
    KeyInText(c, UsernameKey);
    KeyInText(c, EmailKey);
    ContainsPart("", c, "");
    assert "" + c + "" == c;
    if c == EmailKey {
      assert !OccursAt(c, UsernameKey, 0);
    }
  }

  // ---------------------------------------------------------------- lookups

  /** In a well-formed table the lookup by name finds the one row with that name. */
  lemma FindByUsernameUnique(users: seq<UserRow>, i: int)
    requires 0 <= i < |users|
    requires forall a, b :: 0 <= a < b < |users| ==> users[a].username != users[b].username
    ensures FindByUsername(users, users[i].username) == Some(users[i])
  {
    FindUserAt(users, Username(users[i].username), i);
  }

  /** A row appended with an id above every other id is the one found by that id. */
  lemma FindByIdAppended(users: seq<UserRow>, row: UserRow)
    requires forall i :: 0 <= i < |users| ==> users[i].id < row.id
    ensures FindById(users + [row], row.id) == Some(row)
  {
    FindUserAt(users + [row], UserId(row.id), |users|);
  }

  // ---------------------------------------------------------------- login

  /**
   * LoginUser refuses with ErrInvalidCredentials exactly when no user has
   * the name, the user is inactive, or the password does not match its
   * hash; a success returns that user without its hash, and a token
   * signed over its id, name and role claim.
   */
  lemma LoginOutcome(
    t: AuthTables, req: LoginRequest, matches: (string, string) -> bool, sign: Claims -> Result<string, string>,
    now: Time, expiration: int, lookupFault: Option<string>)
    ensures var r := LoginUserSpec(t, req, matches, sign, now, expiration, lookupFault);
      var found := FindByUsername(t.users, req.username);
      && (r == Err(InvalidCredentials) <==>
            lookupFault.None? && (found.None? || !found.value.isActive || !matches(found.value.passwordHash, req.password)))
      && (r.Ok? ==>
            && lookupFault.None? && found.Some? && found.value.isActive
            && matches(found.value.passwordHash, req.password)
            && r.value.user == ScanUser(t, found.value).(passwordHash := "")
            && sign(TokenClaims(ScanUser(t, found.value), now, expiration)) == Ok(r.value.accessToken))
  {
  }

  /** With unique usernames, a login with a row's name and a password its hash accepts signs in as that row. */
  lemma LoginAsStoredUser(
    t: AuthTables, i: int, password: string, matches: (string, string) -> bool,
    sign: Claims -> Result<string, string>, now: Time, expiration: int)
    requires UsersWf(t) && 0 <= i < |t.users|
    requires t.users[i].isActive && matches(t.users[i].passwordHash, password)
    requires sign(TokenClaims(ScanUser(t, t.users[i]), now, expiration)).Ok?
    ensures var r := LoginUserSpec(t, LoginRequest(t.users[i].username, password), matches, sign, now, expiration, None);
      r.Ok? && r.value.user.id == t.users[i].id && r.value.user.passwordHash == ""
  {
    FindByUsernameUnique(t.users, i);
  }

  /** No user the service returns carries a password hash. */
  lemma PasswordHashCleared(
    t: AuthTables, reg: RegisterUserRequest, hash: string -> Result<string, string>, login: LoginRequest,
    matches: (string, string) -> bool, sign: Claims -> Result<string, string>, now: Time, expiration: int,
    userId: int, fault: Option<string>)
    ensures var o := RegisterUserSpec(t, reg, hash, now, fault);
      !o.result.NotRegistered? ==> o.result.user.passwordHash == ""
    ensures var r := LoginUserSpec(t, login, matches, sign, now, expiration, fault);
      r.Ok? ==> r.value.user.passwordHash == ""
    ensures var p := GetUserProfileSpec(t, userId, fault);
      p.Ok? ==> p.value.passwordHash == ""
  {
  }

  // ---------------------------------------------------------------- registration

  /** The row RegisterUser inserts for a request whose role resolves. */
  function NewUserRow(t: AuthTables, req: RegisterUserRequest, hashed: string, roleId: int, now: Time): UserRow {
    UserRow(t.nextUserId, req.username, hashed, Some(req.email), Some(req.fullName), Some(roleId), true, now, now)
  }

  /**
   * RegisterUser in a well-formed table: the errors in the order the
   * service meets them, and on success one active row appended with the
   * hashed password and the resolved role, read back without its hash.
   */
  lemma RegisterOutcome(
    t: AuthTables, req: RegisterUserRequest, hash: string -> Result<string, string>, now: Time, fetchFault: Option<string>)
    requires UsersWf(t)
    ensures var o := RegisterUserSpec(t, req, hash, now, fetchFault);
      && (hash(req.password).Err? ==> o == Outcome(t, NotRegistered(HashFailed(hash(req.password).error))))
      && (hash(req.password).Ok? && ResolveRole(req.roleName).Err? ==>
            o == Outcome(t, NotRegistered(RoleNotFound(req.roleName))))
      && (hash(req.password).Ok? && ResolveRole(req.roleName).Ok? ==>
            var roleId := ResolveRole(req.roleName).value;
            var row := NewUserRow(t, req, hash(req.password).value, roleId, now);
            && (UsernameTaken(t, req.username) ==> o == Outcome(t, NotRegistered(UsernameExists)))
            && (!UsernameTaken(t, req.username) && EmailTaken(t, Some(req.email)) ==>
                  o == Outcome(t, NotRegistered(EmailExists)))
            && (!UsernameTaken(t, req.username) && !EmailTaken(t, Some(req.email)) && roleId !in t.roles ==>
                  o == Outcome(t, NotRegistered(RegisterFailed(DatabaseError(RoleForeignKeyReason)))))
            && (!UsernameTaken(t, req.username) && !EmailTaken(t, Some(req.email)) && roleId in t.roles ==>
                  var written := t.(users := t.users + [row], nextUserId := t.nextUserId + 1);
                  && o.tables == written
                  && (fetchFault.None? ==> o.result == Registered(ScanUser(written, row)))
                  && (fetchFault.Some? ==>
                        o.result.PartlyRegistered? && o.result.user.id == row.id
                        && o.result.user.roleId == Some(roleId) && o.result.user.passwordHash == "")))
  {
    if hash(req.password).Ok? && ResolveRole(req.roleName).Ok? {
      var roleId := ResolveRole(req.roleName).value;
      var row := NewUserRow(t, req, hash(req.password).value, roleId, now);
      DuplicateKeyMapping(UsernameKey);
      DuplicateKeyMapping(EmailKey);
      if !UsernameTaken(t, req.username) && !EmailTaken(t, Some(req.email)) && roleId in t.roles {
        FindByIdAppended(t.users, row);
      }
    }
  }

  /** RegisterUser keeps the users table well formed. */
  lemma RegisterKeeps(
    t: AuthTables, req: RegisterUserRequest, hash: string -> Result<string, string>, now: Time, fetchFault: Option<string>)
    requires UsersWf(t)
    ensures UsersWf(RegisterUserSpec(t, req, hash, now, fetchFault).tables)
  {
    RegisterOutcome(t, req, hash, now, fetchFault);
    if hash(req.password).Ok? && ResolveRole(req.roleName).Ok? {
      var roleId := ResolveRole(req.roleName).value;
      if !UsernameTaken(t, req.username) && !EmailTaken(t, Some(req.email)) && roleId in t.roles {
        AppendKeeps(t, NewUserRow(t, req, hash(req.password).value, roleId, now));
      }
    }
  }

  /** Appending a row with the next id and free keys keeps the table well formed. */
  lemma AppendKeeps(t: AuthTables, row: UserRow)
    requires UsersWf(t)
    requires row.id == t.nextUserId && !UsernameTaken(t, row.username) && !EmailTaken(t, row.email)
    requires row.roleId.Some? ==> row.roleId.value in t.roles
    ensures UsersWf(t.(users := t.users + [row], nextUserId := t.nextUserId + 1))
  {
  }
}
