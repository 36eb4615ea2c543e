/**
 * The request guards: `authenticate` and `authorize(roles)`
 * (src/middlewares/auth.middleware.ts) and `authorizeAdmin` and
 * `authorizeOwnerOrAdmin` (src/middlewares/authorize.middleware.ts), as
 * decisions over the request's user, header and route parameter.
 */
module Guards {
  import opened Wrappers
  import opened Text
  import opened Errors
  import opened Store

  /** `req.user`. */
  datatype RequestUser = RequestUser(id: string, email: string, name: Option<string>, role: string)

  /** What a guard does with the request: call `next()`, call `next(error)`, or throw. */
  datatype GuardOutcome = Proceed | PassError(error: ApiError) | Throw(error: ApiError)

  const AuthenticationRequired := ApiError(401, "Authentication required", None)
  const AdminAccessRequired := ApiError(403, "Admin access required", None)
  const UnauthorizedAccess := ApiError(403, "Unauthorized access", None)
  const Unauthorized := ApiError(403, "Unauthorized", None)
  const InvalidToken := ApiError(401, "Invalid token", None)

  predicate IsAdmin(u: RequestUser) { u.role == "ADMIN" }

  /** `authorizeAdmin`. */
  function AuthorizeAdmin(user: Option<RequestUser>): (g: GuardOutcome)
    ensures !g.Throw?
    ensures g == Proceed <==> user.Some? && IsAdmin(user.value)
    ensures user.None? ==> g == PassError(AuthenticationRequired)
    ensures user.Some? && !IsAdmin(user.value) ==> g == PassError(AdminAccessRequired)
  {
    match user
    case None => PassError(AuthenticationRequired)
    case Some(u) => if u.role != "ADMIN" then PassError(AdminAccessRequired) else Proceed
  }

  /** `authorizeOwnerOrAdmin`; `requested` is `req.params.userId`, absent on routes without it. */
  function AuthorizeOwnerOrAdmin(user: Option<RequestUser>, requested: Option<string>): (g: GuardOutcome)
    ensures !g.Throw?
    ensures g == Proceed <==> user.Some? && (IsAdmin(user.value) || requested == Some(user.value.id))
    ensures user.None? ==> g == PassError(AuthenticationRequired)
    ensures g != Proceed && user.Some? ==> g == PassError(UnauthorizedAccess)
  {
    match user
    case None => PassError(AuthenticationRequired)
    case Some(u) =>
      if u.role != "ADMIN" && (requested.None? || u.id != requested.value) then PassError(UnauthorizedAccess)
      else Proceed
  }

  /** `authorize(roles)`: it throws rather than passing the error on. */
  function Authorize(roles: seq<string>, user: Option<RequestUser>): (g: GuardOutcome)
    ensures g == Proceed || g == Throw(Unauthorized)
    ensures g == Throw(Unauthorized) <==> user.None? || user.value.role !in roles
  {
    if user.None? || user.value.role !in roles then Throw(Unauthorized) else Proceed
  }

  /** Admin routes allow a user exactly when `authorize(["ADMIN"])` would. */
  lemma AdminGuardsAgree(user: Option<RequestUser>)
    ensures AuthorizeAdmin(user) == Proceed <==> Authorize(["ADMIN"], user) == Proceed
  {
  }

  /** An owner reaches their own resource; an admin reaches everyone's. */
  lemma OwnerOrAdminWidensAdmin(user: Option<RequestUser>, requested: Option<string>)
    ensures AuthorizeAdmin(user) == Proceed ==> AuthorizeOwnerOrAdmin(user, requested) == Proceed
  {
  }

  // ---------------------------------------------------------------- authenticate

  /** `req.headers.authorization?.split(" ")[1]`, kept only when truthy. */
  function BearerToken(header: Option<string>): (t: Option<string>)
    ensures t.Some? ==> t.value != "" && ' ' !in t.value
  {
    match header
    case None => None
    case Some(h) =>
      var fields := SplitOnSpace(h);
      if |fields| < 2 || fields[1] == "" then None else Some(fields[1])
  }

  /** A header of space-free fields yields its second field, whatever the first (the scheme) says. */
  lemma BearerTokenOfFields(fields: seq<string>)
    requires |fields| >= 1
    requires forall i :: 0 <= i < |fields| ==> ' ' !in fields[i]
    ensures BearerToken(Some(JoinOnSpace(fields))) == if |fields| >= 2 && fields[1] != "" then Some(fields[1]) else None
  {
    SplitJoin(fields);
  }

  lemma BearerTokenReadsSecondField(scheme: string, token: string)
    requires ' ' !in scheme && ' ' !in token && token != ""
    ensures BearerToken(Some(scheme + " " + token)) == Some(token)
  {
    assert JoinOnSpace([scheme, token]) == scheme + " " + token;
    BearerTokenOfFields([scheme, token]);
  }

  /** A header without a space carries no token. */
  lemma NoSpaceNoToken(h: string)
    requires ' ' !in h
    ensures BearerToken(Some(h)) == None
  {
    assert JoinOnSpace([h]) == h;
    BearerTokenOfFields([h]);
  }

  datatype Authentication = Admitted(user: RequestUser) | Rejected(error: ApiError)

  /** `req.user` as `authenticate` fills it in from the user row; the row has no `name`. */
  function FromRow(u: User): RequestUser
  {
    RequestUser(u.id, u.email, None, RoleName(u.role))
  }

  /**
   * `authenticate`. `verify` stands for `jwt.verify` and the `id` claim it
   * yields (`None` when it throws or yields no id); every failure is
   * collapsed into one 401.
   */
  function Authenticate(header: Option<string>, verify: string -> Option<string>, users: seq<User>): (a: Authentication)
    ensures a.Rejected? ==> a.error == InvalidToken
    ensures a.Admitted? <==>
      BearerToken(header).Some? && verify(BearerToken(header).value).Some?
      && (exists j :: 0 <= j < |users| && users[j].id == verify(BearerToken(header).value).value)
    ensures a.Admitted? ==>
      exists j :: 0 <= j < |users| && a.user == FromRow(users[j]) && users[j].id == verify(BearerToken(header).value).value
  {
    match BearerToken(header)
    case None => Rejected(InvalidToken)
    case Some(t) =>
      match verify(t)
      case None => Rejected(InvalidToken)
      case Some(id) =>
        match FindUserById(users, id)
        case None => Rejected(InvalidToken)
        case Some(i) => Admitted(FromRow(users[i]))
  }

  /** The role the guards see is the stored one: the token's own claims are never read. */
  lemma RoleComesFromStore(header: Option<string>, verify: string -> Option<string>, users: seq<User>, i: nat)
    requires UsersUnique(users) && i < |users|
    requires BearerToken(header).Some? && verify(BearerToken(header).value) == Some(users[i].id)
    ensures Authenticate(header, verify, users) == Admitted(FromRow(users[i]))
    ensures Authenticate(header, verify, users).user.name.None?
  {
    FindOwnId(users, i);
  }
}
