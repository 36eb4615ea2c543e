/**
 * The account store's data model: the User, Token, Session and UserActivity
 * tables as sequences in database row order, their first-match lookups, the
 * invariant the workflow keeps, and the projections it returns.
 */
module Store {
  import opened Wrappers
  import opened Text

  datatype Role = ADMIN | CUSTOMER

  function RoleName(r: Role): (s: string)
    ensures s in {"ADMIN", "CUSTOMER"}
  {
    match r
    case ADMIN => "ADMIN"
    case CUSTOMER => "CUSTOMER"
  }

  /** Reads a request's role string; anything but the two enum names is rejected. */
  function ParseRole(s: string): (r: Option<Role>)
    ensures r.Some? <==> s in {"ADMIN", "CUSTOMER"}
    ensures r.Some? ==> RoleName(r.value) == s
  {
    if s == "ADMIN" then Some(ADMIN) else if s == "CUSTOMER" then Some(CUSTOMER) else None
  }

  lemma RoleNameRoundTrip(r: Role)
    ensures ParseRole(RoleName(r)) == Some(r)
  {
  }

  datatype TokenType = EMAIL_VERIFICATION | PASSWORD_RESET | OTP

  const MaxLoginAttempts := 5
  const MinuteMs := 60 * 1000
  const HourMs := 60 * MinuteMs

  /** `TOKEN_EXPIRY`, in milliseconds. */
  function TokenLifetime(t: TokenType): nat
  {
    match t
    case EMAIL_VERIFICATION => 24 * HourMs
    case PASSWORD_RESET => 1 * HourMs
    case OTP => 5 * MinuteMs
  }

  /**
   * A stored password hash, kept symbolically as the password it was made
   * from: hashing is modelled as injective and `compare` as exact.
   */
  datatype Hash = Hash(secret: string)

  function HashOf(plain: string): Hash
  {
    Hash(plain)
  }

  /** `bcrypt.compare(plain, stored)`. */
  predicate Matches(plain: string, stored: Hash)
  {
    stored.secret == plain
  }

  lemma MatchesOnlyItsPassword(plain: string, original: string)
    ensures Matches(plain, HashOf(original)) <==> plain == original
  {
  }

  datatype User = User(
    id: string,
    email: string,
    password: Hash,
    firstName: string,
    lastName: string,
    phoneNumber: string,
    role: Role,
    isActive: bool,
    isEmailVerified: bool,
    isMfaEnabled: bool,
    loginAttempts: nat,
    lastLogin: Option<int>,
    createdAt: int,
    updatedAt: int)

  /** A token row; its position in the table stands for its row id. */
  datatype Token = Token(userId: string, value: string, kind: TokenType, expiresAt: int)

  datatype Session = Session(
    id: string, userId: string, device: string, location: string, ip: string,
    isActive: bool, lastUsed: int)

  datatype ActivityType = ROLE_CHANGE | ACCOUNT_DEACTIVATED | ACCOUNT_REACTIVATED

  datatype Activity = Activity(id: string, userId: string, kind: ActivityType, details: string, createdAt: int)

  datatype Db = Db(users: seq<User>, tokens: seq<Token>, sessions: seq<Session>, activities: seq<Activity>)

  /** `crypto.randomBytes(32).toString("hex")`: 64 lower-case hex digits. */
  predicate IsRandomTokenValue(v: string)
  {
    |v| == 64 && forall i :: 0 <= i < |v| ==> v[i] in "0123456789abcdef"
  }

  /** The lookup filter `{ token, type, userId?, expiresAt: { gt: now } }`. */
  predicate TokenMatches(t: Token, value: string, kind: TokenType, owner: Option<string>, now: int)
  {
    t.value == value && t.kind == kind && (owner.None? || t.userId == owner.value) && now < t.expiresAt
  }

  /** `prisma.user.findUnique({ where: { id } })`. */
  function FindUserById(users: seq<User>, id: string): (r: Option<nat>)
    ensures r.Some? ==> r.value < |users| && users[r.value].id == id
    ensures r.Some? ==> forall j :: 0 <= j < r.value ==> users[j].id != id
    ensures r.None? <==> forall j :: 0 <= j < |users| ==> users[j].id != id
  {
    if |users| == 0 then None
    else if users[0].id == id then Some(0)
    else match FindUserById(users[1..], id)
      case None => None
      case Some(k) => Some(k + 1)
  }

  /** `prisma.user.findUnique({ where: { email } })`. */
  function FindUserByEmail(users: seq<User>, email: string): (r: Option<nat>)
    ensures r.Some? ==> r.value < |users| && users[r.value].email == email
    ensures r.Some? ==> forall j :: 0 <= j < r.value ==> users[j].email != email
    ensures r.None? <==> forall j :: 0 <= j < |users| ==> users[j].email != email
  {
    if |users| == 0 then None
    else if users[0].email == email then Some(0)
    else match FindUserByEmail(users[1..], email)
      case None => None
      case Some(k) => Some(k + 1)
  }

  /** `findFirst({ where: { phoneNumber, NOT: { id: except } } })` found a row. */
  predicate PhoneTaken(users: seq<User>, phone: string, except: Option<string>)
  {
    exists j :: 0 <= j < |users| && users[j].phoneNumber == phone && (except.None? || users[j].id != except.value)
  }

  /** `prisma.token.findFirst` with the filter of `TokenMatches`: the first live match. */
  function FindToken(tokens: seq<Token>, value: string, kind: TokenType, owner: Option<string>, now: int): (r: Option<nat>)
    ensures r.Some? ==> r.value < |tokens| && TokenMatches(tokens[r.value], value, kind, owner, now)
    ensures r.None? <==> forall j :: 0 <= j < |tokens| ==> !TokenMatches(tokens[j], value, kind, owner, now)
  {
    if |tokens| == 0 then None
    else if TokenMatches(tokens[0], value, kind, owner, now) then Some(0)
    else match FindToken(tokens[1..], value, kind, owner, now)
      case None => None
      case Some(k) => Some(k + 1)
  }

  /** `prisma.session.findFirst({ where: { id, userId } })`. */
  function FindSession(sessions: seq<Session>, id: string, userId: string): (r: Option<nat>)
    ensures r.Some? ==> r.value < |sessions| && sessions[r.value].id == id && sessions[r.value].userId == userId
    ensures r.None? <==> forall j :: 0 <= j < |sessions| ==> !(sessions[j].id == id && sessions[j].userId == userId)
  {
    if |sessions| == 0 then None
    else if sessions[0].id == id && sessions[0].userId == userId then Some(0)
    else match FindSession(sessions[1..], id, userId)
      case None => None
      case Some(k) => Some(k + 1)
  }

  /** Deleting one row. */
  function RemoveAt<T>(s: seq<T>, k: nat): (r: seq<T>)
    requires k < |s|
    ensures |r| == |s| - 1
    ensures forall j :: 0 <= j < k ==> r[j] == s[j]
    ensures forall j :: k <= j < |r| ==> r[j] == s[j + 1]
  {
    s[..k] + s[k + 1..]
  }

  predicate UsersUnique(users: seq<User>)
  {
    forall i, j :: 0 <= i < j < |users| ==>
      users[i].id != users[j].id && users[i].email != users[j].email && users[i].phoneNumber != users[j].phoneNumber
  }

  /**
   * What the workflow keeps true of the store: ids, emails and phone numbers
   * are unique, every token belongs to an existing user and holds a value of
   * `crypto.randomBytes(32)`, and session ids are unique.
   */
  predicate ValidDb(db: Db)
  {
    && UsersUnique(db.users)
    && TokensOwned(db.users, db.tokens)
    && (forall k :: 0 <= k < |db.tokens| ==> IsRandomTokenValue(db.tokens[k].value))
    && (forall i, j :: 0 <= i < j < |db.sessions| ==> db.sessions[i].id != db.sessions[j].id)
  }

  /** Every token row belongs to an existing user (the `Token.userId` relation). */
  predicate TokensOwned(users: seq<User>, tokens: seq<Token>)
  {
    forall k :: 0 <= k < |tokens| ==> FindUserById(users, tokens[k].userId).Some?
  }

  /** Under unique ids, looking a row's id up finds that very row. */
  lemma FindOwnId(users: seq<User>, i: nat)
    requires UsersUnique(users) && i < |users|
    ensures FindUserById(users, users[i].id) == Some(i)
  {
  }

  /** Under unique emails, looking a row's email up finds that very row. */
  lemma FindOwnEmail(users: seq<User>, i: nat)
    requires UsersUnique(users) && i < |users|
    ensures FindUserByEmail(users, users[i].email) == Some(i)
  {
    assert FindUserByEmail(users, users[i].email).Some?;
  }

  /** A row update that keeps id, email and phone keeps the uniqueness of the users table. */
  lemma UpdateKeepsUnique(users: seq<User>, i: nat, u: User)
    requires UsersUnique(users) && i < |users|
    requires u.id == users[i].id && u.email == users[i].email && u.phoneNumber == users[i].phoneNumber
    ensures UsersUnique(users[i := u])
    ensures forall id :: FindUserById(users[i := u], id) == FindUserById(users, id)
  {
    forall id ensures FindUserById(users[i := u], id) == FindUserById(users, id) {
      UpdateKeepsLookup(users, i, u, id);
    }
  }

  lemma {:induction false} UpdateKeepsLookup(users: seq<User>, i: nat, u: User, id: string)
    requires i < |users| && u.id == users[i].id
    ensures FindUserById(users[i := u], id) == FindUserById(users, id)
  {
    if i > 0 {
      UpdateKeepsLookup(users[1..], i - 1, u, id);
      assert users[i := u][1..] == users[1..][i - 1 := u];
    }
  }

  /** The safe projection returned by `register`, `login` and `verifyMfa`. */
  datatype AuthUser = AuthUser(
    id: string, email: string, firstName: string, lastName: string, phoneNumber: string,
    role: Role, isEmailVerified: bool, isMfaEnabled: bool)

  function ToAuthUser(u: User): AuthUser
  {
    AuthUser(u.id, u.email, u.firstName, u.lastName, u.phoneNumber, u.role, u.isEmailVerified, u.isMfaEnabled)
  }

  /** The signed bearer token, kept as its claims `{ id, email, role }`. */
  datatype AuthToken = AuthToken(id: string, email: string, role: Role)

  /** `generateToken(user)`. */
  function SignToken(u: User): AuthToken
  {
    AuthToken(u.id, u.email, u.role)
  }

  datatype AuthResponse = AuthResponse(token: AuthToken, user: AuthUser)

  function Authenticated(u: User): (r: AuthResponse)
    ensures r.token.id == r.user.id == u.id && r.token.email == r.user.email == u.email
    ensures r.token.role == r.user.role == u.role
  {
    AuthResponse(SignToken(u), ToAuthUser(u))
  }

  /** The admin projection (`select` in `getAllUsers` and `getUserById`): no password, no phone. */
  datatype UserView = UserView(
    id: string, email: string, firstName: string, lastName: string, role: Role,
    isActive: bool, createdAt: int, updatedAt: int, lastLogin: Option<int>,
    isEmailVerified: bool, isMfaEnabled: bool)

  function ToView(u: User): UserView
  {
    UserView(u.id, u.email, u.firstName, u.lastName, u.role, u.isActive, u.createdAt, u.updatedAt,
             u.lastLogin, u.isEmailVerified, u.isMfaEnabled)
  }

  datatype ActivityView = ActivityView(id: string, kind: ActivityType, details: string, createdAt: int)

  function ToActivityView(a: Activity): ActivityView
  {
    ActivityView(a.id, a.kind, a.details, a.createdAt)
  }
}
