/**
 * The two request filters in front of the protected routes. The first
 * reads an "Authorization: Bearer <token>" header (section 2.1 of RFC
 * 6750), validates the token and records the claims in the request
 * context; the second lets a request through only when the recorded role
 * equals, up to case, one of the roles the route allows.
 */
module AuthMiddleware {
  import opened Wrappers
  import opened GoStrings
  import AuthService

  const StatusUnauthorized: int := 401
  const StatusForbidden: int := 403
  const StatusInternalServerError: int := 500

  const HeaderRequired: string := "Authorization header required"
  const HeaderFormat: string := "Invalid authorization header format. Use Bearer <token>"
  const InvalidTokenPrefix: string := "Invalid or expired token: "
  const RoleMissing: string := "User role not found in token claims. Ensure AuthMiddleware runs first."
  const RoleNotText: string := "User role in token is not a string"
  const PermissionPrefix: string := "You do not have permission to access this resource. Required roles: "

  /** What the filters record for later handlers: userID, username and userRole. */
  datatype Identity = Identity(userId: int, username: string, userRole: string)

  /** A filter either passes the request on or aborts it with a status and an error message. */
  datatype Decision<T> = Next(value: T) | Abort(status: int, message: string)

  /** The context's "userRole" entry as RoleAuthMiddleware finds it. */
  datatype ContextValue = Text(s: string) | NotText

  // ---------------------------------------------------------------- AuthMiddleware

  /**
   * The token of a header: split on every space, there must be exactly
   * two pieces and the first must lower-case to "bearer".
   */
  function BearerToken(header: string): (r: Option<string>)
  {
    var parts := Split(header, ' ');
    if |parts| != 2 || ToLower(parts[0]) != "bearer" then None else Some(parts[1])
  }

  /**
   * AuthMiddleware. `validate` is utils.ValidateToken: the token's claims,
   * or the text of the reason it is refused.
   */
  function Authenticate(header: string, validate: string -> Result<AuthService.Claims, string>): (d: Decision<Identity>)
    ensures d.Abort? ==> d.status == StatusUnauthorized
  {
    if header == "" then Abort(StatusUnauthorized, HeaderRequired)
    else
      match BearerToken(header)
      case None => Abort(StatusUnauthorized, HeaderFormat)
      case Some(token) =>
        match validate(token)
        case Err(reason) => Abort(StatusUnauthorized, InvalidTokenPrefix + reason)
        case Ok(claims) => Next(Identity(claims.userId, claims.username, claims.role))
  }

  /**
   * BearerToken finds a token exactly in headers of the form
   * scheme + " " + token where neither part has a space and the scheme is
   * "bearer" in any case; the token is the text after the space.
   */
  lemma BearerTokenShape(header: string)
    ensures BearerToken(header).Some? <==>
      exists i :: 0 <= i < |header| && BearerSplit(header, i)
    ensures BearerToken(header).Some? ==>
      forall i :: 0 <= i < |header| && BearerSplit(header, i) ==> BearerToken(header).value == header[i + 1..]
  {
    var parts := Split(header, ' ');
    SplitThenJoin(header, ' ');
    SplitPartsFree(header, ' ');
    if |parts| == 2 && ToLower(parts[0]) == "bearer" {
      assert header == parts[0] + " " + parts[1];
      assert BearerSplit(header, |parts[0]|) by {
        assert header[..|parts[0]|] == parts[0];
        assert header[|parts[0]| + 1..] == parts[1];
      }
    }
    forall i | 0 <= i < |header| && BearerSplit(header, i)
      ensures BearerToken(header) == Some(header[i + 1..])
    {
      BearerSplitParts(header, i);
    }
  }

  /** The space at `i` splits the header into a "bearer" scheme and a token, neither with a space. */
  predicate BearerSplit(header: string, i: int)
    requires 0 <= i < |header|
  {
    header[i] == ' ' && ' ' !in header[..i] && ' ' !in header[i + 1..] && ToLower(header[..i]) == "bearer"
  }

  /** Splitting a header at its one space gives the scheme and the token. */
  lemma BearerSplitParts(header: string, i: int)
    requires 0 <= i < |header| && BearerSplit(header, i)
    ensures Split(header, ' ') == [header[..i], header[i + 1..]]
  {
    assert header == header[..i] + [' '] + header[i + 1..];
    SplitAt(header[..i], ' ', header[i + 1..]);
    SplitNoSep(header[i + 1..], ' ');
  }

  /**
   * A header with a space inside the token, or a second space after the
   * scheme, has more than two pieces and is refused as malformed.
   */
  lemma ExtraSpaceRefused(scheme: string, token: string, validate: string -> Result<AuthService.Claims, string>)
    requires ' ' !in scheme && ' ' in token
    ensures Authenticate(scheme + " " + token, validate) == Abort(StatusUnauthorized, HeaderFormat)
  {
    SplitAt(scheme, ' ', token);
    assert scheme + " " + token == scheme + [' '] + token;
    SplitHasSeparator(token, ' ');
  }

  /** A string holding the separator splits into at least two pieces. */
  lemma SplitHasSeparator(s: string, sep: char)
    requires sep in s
    ensures |Split(s, sep)| >= 2
  {
    if |Split(s, sep)| == 1 {
      SplitJoin(s, sep);
      SplitPartsFree(s, sep);
    }
  }

  /**
   * A well-formed header passes exactly the text after the space to the
   * validator, and the request goes on with the claims it returns.
   */
  lemma AuthenticateBearer(scheme: string, token: string, validate: string -> Result<AuthService.Claims, string>)
    requires ' ' !in scheme && ' ' !in token && ToLower(scheme) == "bearer"
    ensures var d := Authenticate(scheme + " " + token, validate);
      && (validate(token).Ok? ==>
            var c := validate(token).value;
            d == Next(Identity(c.userId, c.username, c.role)))
      && (validate(token).Err? ==> d == Abort(StatusUnauthorized, InvalidTokenPrefix + validate(token).error))
  {
    var header := scheme + " " + token;
    assert header == scheme + [' '] + token;
    SplitAt(scheme, ' ', token);
    SplitNoSep(token, ' ');
  }

  // ---------------------------------------------------------------- RoleAuthMiddleware

  /** The role is one of the allowed roles up to case. */
  predicate RoleAllowed(role: string, allowedRoles: seq<string>) {
    exists i :: 0 <= i < |allowedRoles| && EqualFold(role, allowedRoles[i])
  }

  /**
   * RoleAuthMiddleware: no role recorded is 403, a role that is not text
   * is 500, a role outside the allowed list is 403 with the list in the
   * message, and an allowed role passes.
   */
  function Authorize(userRole: Option<ContextValue>, allowedRoles: seq<string>): (d: Decision<string>)
  {
    match userRole
    case None => Abort(StatusForbidden, RoleMissing)
    case Some(NotText) => Abort(StatusInternalServerError, RoleNotText)
    case Some(Text(role)) =>
      if RoleAllowed(role, allowedRoles) then Next(role)
      else Abort(StatusForbidden, PermissionPrefix + Join(allowedRoles, ", "))
  }

  /** The membership loop of RoleAuthMiddleware, leaving at the first role that matches. */
  method RoleAuthorize(userRole: Option<ContextValue>, allowedRoles: seq<string>) returns (d: Decision<string>)
    ensures d == Authorize(userRole, allowedRoles)
  {
    if userRole.None? {
      return Abort(StatusForbidden, RoleMissing);
    }
    if userRole.value.NotText? {
      return Abort(StatusInternalServerError, RoleNotText);
    }
    var roleStr := userRole.value.s;
    var allowed := false;
    for i := 0 to |allowedRoles|
      invariant allowed ==> RoleAllowed(roleStr, allowedRoles)
      invariant !allowed ==> forall j :: 0 <= j < i ==> !EqualFold(roleStr, allowedRoles[j])
    {
      if EqualFold(roleStr, allowedRoles[i]) {
        allowed := true;
        break;
      }
    }
    if !allowed {
      return Abort(StatusForbidden, PermissionPrefix + Join(allowedRoles, ", "));
    }
    d := Next(roleStr);
  }

  /** An empty allowed list forbids every role. */
  lemma EmptyAllowListForbids(role: string)
    ensures Authorize(Some(Text(role)), []) == Abort(StatusForbidden, PermissionPrefix)
  {
  }

  /** Case does not matter on either side: "ADMIN" passes a route for "admin", and vice versa. */
  lemma AuthorizeIgnoresCase(role: string, other: string, allowedRoles: seq<string>)
    requires EqualFold(role, other)
    ensures Authorize(Some(Text(role)), allowedRoles).Next? <==> Authorize(Some(Text(other)), allowedRoles).Next?
  {
    if RoleAllowed(role, allowedRoles) {
      var i :| 0 <= i < |allowedRoles| && EqualFold(role, allowedRoles[i]);
      assert EqualFold(other, allowedRoles[i]);
    }
    if RoleAllowed(other, allowedRoles) {
      var i :| 0 <= i < |allowedRoles| && EqualFold(other, allowedRoles[i]);
      assert EqualFold(role, allowedRoles[i]);
    }
  }

  /**
   * Logging in and authenticating meet: a token carrying the claim
   * LoginUser puts in it passes a route exactly when that claim is one of
   * the route's roles, so a user without a named role ("default") passes
   * no route limited to admin, staff and client.
   */
  lemma DefaultClaimPassesNoNamedRole(user: AuthService.User)
    requires AuthService.RoleClaim(user) == AuthService.DefaultRoleClaim
    ensures Authorize(Some(Text(AuthService.RoleClaim(user))), ["admin", "staff", "client"]).Abort?
  {
    var roles := ["admin", "staff", "client"];
    assert ToLower(AuthService.DefaultRoleClaim) == "default";
    forall i | 0 <= i < 3 ensures !EqualFold(AuthService.DefaultRoleClaim, roles[i]) {
      assert ToLower(roles[i]) == roles[i];
    }
  }
}
