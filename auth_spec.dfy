/**
 * `AuthService` (src/services/auth.service.ts) as pure transitions of the
 * store: each operation maps the tables before the call, and the values the
 * source takes from the clock, the random source and the mail transport, to
 * the tables after the call and the value returned or the error thrown.
 */
module AuthSpec {
  import opened Wrappers
  import opened Text
  import opened Config
  import opened Errors
  import opened PasswordPolicy
  import opened Store
  import opened Ordering

  datatype ServiceOutcome<T> = Returned(value: T) | Raised(thrown: Thrown)

  /** The tables after a call, and what the call returned or threw. */
  datatype Step<T> = Step(db: Db, out: ServiceOutcome<T>)

  function Fails<T>(db: Db, e: ApiError): Step<T>
  {
    Step(db, Raised(ThrownApi(e)))
  }

  const PasswordsMismatch := ApiError(400, "Passwords do not match", None)
  const EmailExists := ApiError(400, "Email already exists", None)
  const PhoneExists := ApiError(400, "Phone number already exists", None)
  const VerificationMailFailed := ApiError(500, "Failed to send verification email. Please try again.", None)
  const RegistrationFailed := ApiError(500, "Registration failed. Please try again later.", None)
  const InvalidVerificationToken := ApiError(400, "Invalid or expired verification token", None)
  const InvalidCredentials := ApiError(401, "Invalid credentials", None)
  const EmailNotVerified := ApiError(401, "Please verify your email before logging in", None)
  const AccountLocked := ApiError(403, "Account locked due to too many failed attempts", None)
  const MfaPending := ApiError(202, "MFA code sent to your email", None)
  const InvalidOtp := ApiError(401, "Invalid or expired OTP", None)
  const UserNotFound := ApiError(404, "User not found", None)
  const CurrentPasswordIncorrect := ApiError(401, "Current password is incorrect", None)
  const SamePassword := ApiError(400, "New password must be different from current password", None)
  const InvalidResetToken := ApiError(400, "Invalid or expired reset token", None)
  const SessionNotFound := ApiError(404, "Session not found", None)
  const CannotChangeOwnRole := ApiError(400, "Cannot change your own role", None)
  const CannotDeactivateSelf := ApiError(400, "Cannot deactivate your own account", None)

  /** The error `validatePassword` throws: every violated rule, in rule order. */
  function PolicyError(p: string): ApiError
  {
    ApiError(400, "Password validation failed", Some(ServiceMessages(Violations(p))))
  }

  /** What the mail service throws when the transport fails: a plain `Error`, whose stack
      trace is modelled by its first line only. */
  const MailFailure := OtherError(NoCode, "Failed to send email", Some("Error: Failed to send email"))

  /** The database client's unique-constraint error. */
  const UniqueConstraintFailure := OtherError(StringCode(UniqueViolation), "Unique constraint failed on the fields: (`phoneNumber`)", None)

  /** Users are auto-verified only in development mode without forced verification. */
  predicate AutoVerified(env: Env)
  {
    IsDevelopment(env) && !VerificationForced(env)
  }

  /**
   * Whether `EmailService.sendEmail` returns normally: it skips sending in
   * auto-verify mode, and otherwise returns exactly when the transport
   * (`mailDelivered`) accepts the message.
   */
  predicate MailSent(env: Env, mailDelivered: bool)
  {
    AutoVerified(env) || mailDelivered
  }

  // ---------------------------------------------------------------- rows

  /** `createToken`: a token of `kind` for `userId`, live for the kind's lifetime from `now`. */
  function NewToken(userId: string, kind: TokenType, value: string, now: int): (t: Token)
    ensures t.userId == userId && t.kind == kind && t.value == value
    ensures forall later {:trigger TokenMatches(t, value, kind, Some(userId), later)} ::
      (TokenMatches(t, value, kind, Some(userId), later) <==> later < now + TokenLifetime(kind))
  {
    Token(userId, value, kind, now + TokenLifetime(kind))
  }

  /** `createSession` as `login` calls it: placeholder device data, active, used now. */
  function NewSession(id: string, userId: string, now: int): Session
  {
    Session(id, userId, "Unknown", "Unknown", "0.0.0.0", true, now)
  }

  datatype RegisterInput = RegisterInput(
    firstName: string, lastName: string, email: string, phoneNumber: string,
    password: string, confirmPassword: string, role: Role)

  /** The row `register` creates; the other columns take the schema's defaults. */
  function NewUser(input: RegisterInput, id: string, now: int, verified: bool): User
  {
    User(id, Lower(input.email), HashOf(input.password), Trim(input.firstName), Trim(input.lastName),
         input.phoneNumber, input.role, true, verified, false, 0, None, now, now)
  }

  /** `incrementLoginAttempts`. */
  function AfterFailedLogin(u: User): User
  {
    u.(loginAttempts := u.loginAttempts + 1)
  }

  /** `updateLoginSuccess`. */
  function AfterLogin(u: User, now: int): User
  {
    u.(loginAttempts := 0, lastLogin := Some(now))
  }

  /** The update `changePassword` and `resetPassword` make. */
  function WithPassword(u: User, p: string): User
  {
    u.(password := HashOf(p), loginAttempts := 0)
  }

  /** Deleting a user; its tokens go with it (the relation is taken to cascade). */
  function WithoutUser(db: Db, id: string): Db
  {
    db.(users := UsersExcept(db.users, id), tokens := TokensExcept(db.tokens, id))
  }

  function UsersExcept(users: seq<User>, id: string): (r: seq<User>)
    ensures forall u :: u in r <==> u in users && u.id != id
  {
    if |users| == 0 then []
    else (if users[0].id == id then [] else [users[0]]) + UsersExcept(users[1..], id)
  }

  function TokensExcept(tokens: seq<Token>, id: string): (r: seq<Token>)
    ensures forall t :: t in r <==> t in tokens && t.userId != id
  {
    if |tokens| == 0 then []
    else (if tokens[0].userId == id then [] else [tokens[0]]) + TokensExcept(tokens[1..], id)
  }

  // ---------------------------------------------------------------- register

  function RegisterNext(db: Db, env: Env, input: RegisterInput, now: int, userId: string,
                        tokenValue: string, mailDelivered: bool): Step<AuthResponse>
  {
    if input.password != input.confirmPassword then Fails(db, PasswordsMismatch)
    else if Violations(input.password) != [] then Fails(db, PolicyError(input.password))
    else if FindUserByEmail(db.users, Lower(input.email)).Some? then Fails(db, EmailExists)
    else if PhoneTaken(db.users, input.phoneNumber, None) then Fails(db, PhoneExists)
    else
      var verified := AutoVerified(env);
      var u := NewUser(input, userId, now, verified);
      var created := db.(users := db.users + [u]);
      if verified then Step(created, Returned(Authenticated(u)))
      else
        var withToken := created.(tokens := created.tokens + [NewToken(userId, EMAIL_VERIFICATION, tokenValue, now)]);
        if mailDelivered || IsDevelopment(env) then Step(withToken, Returned(Authenticated(u)))
        else Step(WithoutUser(withToken, userId), Raised(ThrownApi(VerificationMailFailed)))
  }

  /** `register`'s outer catch: ApiErrors pass through, anything else becomes a 500. */
  function RegisterFailure(t: Thrown): (e: ApiError)
    ensures t.ThrownApi? ==> e == t.api
    ensures t.ThrownOther? ==> e.statusCode == 500 && e == RegistrationFailed
  {
    match t
    case ThrownApi(a) => a
    case ThrownOther(_) => RegistrationFailed
  }

  // ---------------------------------------------------------------- email verification

  function VerifyEmailNext(db: Db, value: string, now: int): Step<()>
    requires TokensOwned(db.users, db.tokens)
  {
    match FindToken(db.tokens, value, EMAIL_VERIFICATION, None, now)
    case None => Fails(db, InvalidVerificationToken)
    case Some(k) =>
      match FindUserById(db.users, db.tokens[k].userId)
      case Some(i) =>
        Step(db.(users := db.users[i := db.users[i].(isEmailVerified := true)],
                 tokens := RemoveAt(db.tokens, k)), Returned(()))
  }

  // ---------------------------------------------------------------- login and MFA

  function LoginNext(db: Db, env: Env, email: string, password: string, now: int, sessionId: string,
                     otpValue: string, mailDelivered: bool): Step<AuthResponse>
  {
    match FindUserByEmail(db.users, Lower(email))
    case None => Fails(db, InvalidCredentials)
    case Some(i) =>
      var u := db.users[i];
      if !u.isEmailVerified then Fails(db, EmailNotVerified)
      else if u.loginAttempts >= MaxLoginAttempts then Fails(db, AccountLocked)
      else if !Matches(password, u.password) then
        Fails(db.(users := db.users[i := AfterFailedLogin(u)]), InvalidCredentials)
      else
        var loggedIn := db.(users := db.users[i := AfterLogin(u, now)],
                            sessions := db.sessions + [NewSession(sessionId, u.id, now)]);
        if u.isMfaEnabled then
          var withOtp := loggedIn.(tokens := loggedIn.tokens + [NewToken(u.id, OTP, otpValue, now)]);
          if MailSent(env, mailDelivered) then Fails(withOtp, MfaPending)
          else Step(withOtp, Raised(ThrownOther(MailFailure)))
        else Step(loggedIn, Returned(Authenticated(u)))
  }

  function VerifyMfaNext(db: Db, userId: string, otp: string, now: int): Step<AuthResponse>
    requires TokensOwned(db.users, db.tokens)
  {
    match FindToken(db.tokens, otp, OTP, Some(userId), now)
    case None => Fails(db, InvalidOtp)
    case Some(k) =>
      match FindUserById(db.users, db.tokens[k].userId)
      case Some(i) => Step(db.(tokens := RemoveAt(db.tokens, k)), Returned(Authenticated(db.users[i])))
  }

  // ---------------------------------------------------------------- profile and passwords

  /** `UpdateProfileDTO`: each field optional. */
  datatype ProfileUpdate = ProfileUpdate(firstName: Option<string>, lastName: Option<string>, phoneNumber: Option<string>)

  function ApplyProfile(u: User, d: ProfileUpdate, now: int): (r: User)
    ensures r.firstName == (if d.firstName.Some? then d.firstName.value else u.firstName)
    ensures r.lastName == (if d.lastName.Some? then d.lastName.value else u.lastName)
    ensures r.phoneNumber == (if d.phoneNumber.Some? then d.phoneNumber.value else u.phoneNumber)
    ensures r.(firstName := u.firstName, lastName := u.lastName, phoneNumber := u.phoneNumber) == u.(updatedAt := now)
  {
    u.(firstName := if d.firstName.Some? then d.firstName.value else u.firstName,
       lastName := if d.lastName.Some? then d.lastName.value else u.lastName,
       phoneNumber := if d.phoneNumber.Some? then d.phoneNumber.value else u.phoneNumber,
       updatedAt := now)
  }

  function UpdateProfileNext(db: Db, userId: string, d: ProfileUpdate, now: int): Step<()>
  {
    match FindUserById(db.users, userId)
    case None => Fails(db, UserNotFound)
    case Some(i) =>
      if d.phoneNumber.Some? && d.phoneNumber.value != "" && PhoneTaken(db.users, d.phoneNumber.value, Some(userId)) then
        Fails(db, PhoneExists)
      else if d.phoneNumber.Some? && PhoneTaken(db.users, d.phoneNumber.value, Some(userId)) then
        // only an empty phone number skips the check; the unique index then refuses the update
        Step(db, Raised(ThrownOther(UniqueConstraintFailure)))
      else Step(db.(users := db.users[i := ApplyProfile(db.users[i], d, now)]), Returned(()))
  }

  function ChangePasswordNext(db: Db, userId: string, current: string, newPassword: string): Step<()>
  {
    match FindUserById(db.users, userId)
    case None => Fails(db, UserNotFound)
    case Some(i) =>
      if !Matches(current, db.users[i].password) then Fails(db, CurrentPasswordIncorrect)
      else if current == newPassword then Fails(db, SamePassword)
      else if Violations(newPassword) != [] then Fails(db, PolicyError(newPassword))
      else Step(db.(users := db.users[i := WithPassword(db.users[i], newPassword)]), Returned(()))
  }

  function ForgotPasswordNext(db: Db, env: Env, email: string, now: int, tokenValue: string, mailDelivered: bool): Step<()>
  {
    match FindUserByEmail(db.users, Lower(email))
    case None => Step(db, Returned(()))
    case Some(i) =>
      var issued := db.(tokens := db.tokens + [NewToken(db.users[i].id, PASSWORD_RESET, tokenValue, now)]);
      if MailSent(env, mailDelivered) then Step(issued, Returned(())) else Step(issued, Raised(ThrownOther(MailFailure)))
  }

  function ResetPasswordNext(db: Db, value: string, newPassword: string, confirm: string, now: int): Step<()>
    requires TokensOwned(db.users, db.tokens)
  {
    match FindToken(db.tokens, value, PASSWORD_RESET, None, now)
    case None => Fails(db, InvalidResetToken)
    case Some(k) =>
      if newPassword != confirm then Fails(db, PasswordsMismatch)
      else if Violations(newPassword) != [] then Fails(db, PolicyError(newPassword))
      else
        match FindUserById(db.users, db.tokens[k].userId)
        case Some(i) =>
          Step(db.(users := db.users[i := WithPassword(db.users[i], newPassword)], tokens := RemoveAt(db.tokens, k)),
               Returned(()))
  }

  // ---------------------------------------------------------------- sessions

  function ActiveSessionsOf(sessions: seq<Session>, userId: string): (r: seq<Session>)
    ensures forall s :: s in r <==> s in sessions && s.userId == userId && s.isActive
    ensures multiset(r) <= multiset(sessions)
  {
    if |sessions| == 0 then []
    else
      assert sessions == [sessions[0]] + sessions[1..];
      (if sessions[0].userId == userId && sessions[0].isActive then [sessions[0]] else [])
      + ActiveSessionsOf(sessions[1..], userId)
  }

  function LastUsed(s: Session): int { s.lastUsed }

  /** `getSessions`: the user's active sessions, most recently used first. */
  function GetSessions(db: Db, userId: string): seq<Session>
  {
    SortDesc(ActiveSessionsOf(db.sessions, userId), LastUsed)
  }

  function LogoutSessionNext(db: Db, userId: string, sessionId: string): Step<()>
  {
    match FindSession(db.sessions, sessionId, userId)
    case None => Fails(db, SessionNotFound)
    case Some(k) => Step(db.(sessions := db.sessions[k := db.sessions[k].(isActive := false)]), Returned(()))
  }

  /** `updateMany({ where: { userId, isActive: true }, data: { isActive: false } })`. */
  function DeactivateSessionsOf(sessions: seq<Session>, userId: string): (r: seq<Session>)
    ensures |r| == |sessions|
    ensures forall k :: 0 <= k < |r| ==>
      r[k] == (if sessions[k].userId == userId && sessions[k].isActive then sessions[k].(isActive := false) else sessions[k])
  {
    seq(|sessions|, k requires 0 <= k < |sessions| =>
      if sessions[k].userId == userId && sessions[k].isActive then sessions[k].(isActive := false) else sessions[k])
  }

  function LogoutAllSessionsNext(db: Db, userId: string): Step<()>
  {
    Step(db.(sessions := DeactivateSessionsOf(db.sessions, userId)), Returned(()))
  }

  // ---------------------------------------------------------------- admin

  /** The query parameters `getAllUsers` reads. */
  datatype UserFilters = UserFilters(role: Option<Role>, isActive: Option<bool>, search: Option<string>)

  /** The `where` object `getAllUsers` builds; `search` stands for the three-way `OR`. */
  datatype Where = Where(role: Option<Role>, isActive: Option<bool>, search: Option<string>)

  /** Case-insensitive substring test (`contains` with `mode: "insensitive"`), ASCII case only. */
  predicate ContainsInsensitive(hay: string, needle: string)
  {
    IsSubstring(Lower(needle), Lower(hay))
  }

  predicate IsSubstring(needle: string, hay: string)
    decreases |hay|
  {
    needle <= hay || (|hay| > 0 && IsSubstring(needle, hay[1..]))
  }

  predicate SearchHit(u: User, term: string)
  {
    ContainsInsensitive(u.email, term) || ContainsInsensitive(u.firstName, term) || ContainsInsensitive(u.lastName, term)
  }

  /** What a user must satisfy to be listed under `w`. */
  predicate Selects(w: Where, u: User)
  {
    (w.role.None? || u.role == w.role.value)
    && (w.isActive.None? || u.isActive == w.isActive.value)
    && (w.search.None? || SearchHit(u, w.search.value))
  }

  /** The filters' meaning: a given role and flag must match; a non-empty search term must occur. */
  predicate FilterAdmits(f: UserFilters, u: User)
  {
    (f.role.Some? ==> u.role == f.role.value)
    && (f.isActive.Some? ==> u.isActive == f.isActive.value)
    && (f.search.Some? && f.search.value != "" ==> SearchHit(u, f.search.value))
  }

  /** The `where` construction of `getAllUsers` (`if (filters.search)` skips an empty term). */
  function BuildWhere(f: UserFilters): (w: Where)
    ensures forall u :: Selects(w, u) <==> FilterAdmits(f, u)
  {
    Where(f.role, f.isActive, if f.search.Some? && f.search.value != "" then f.search else None)
  }

  function ListUsers(users: seq<User>, w: Where): (r: seq<UserView>)
    ensures forall v :: v in r ==> exists u :: u in users && Selects(w, u) && v == ToView(u)
    ensures forall u :: u in users && Selects(w, u) ==> ToView(u) in r
    ensures |r| <= |users|
  {
    if |users| == 0 then []
    else
      assert users == [users[0]] + users[1..];
      (if Selects(w, users[0]) then [ToView(users[0])] else []) + ListUsers(users[1..], w)
  }

  /** `getAllUsers`. */
  function GetAllUsers(db: Db, f: UserFilters): seq<UserView>
  {
    ListUsers(db.users, BuildWhere(f))
  }

  /** `getUserById` (and `getProfile`). */
  function GetUserById(db: Db, userId: string): (r: ServiceOutcome<UserView>)
    ensures r.Raised? <==> forall j :: 0 <= j < |db.users| ==> db.users[j].id != userId
    ensures r.Raised? ==> r.thrown == ThrownApi(UserNotFound)
    ensures r.Returned? ==> exists j :: 0 <= j < |db.users| && db.users[j].id == userId && r.value == ToView(db.users[j])
  {
    match FindUserById(db.users, userId)
    case None => Raised(ThrownApi(UserNotFound))
    case Some(i) => Returned(ToView(db.users[i]))
  }

  function RoleChangeDetails(role: Role, adminId: string): string
  {
    "Role changed to " + RoleName(role) + " by admin " + adminId
  }

  function ChangeUserRoleNext(db: Db, userId: string, role: Role, adminId: string, now: int, activityId: string): Step<()>
  {
    match FindUserById(db.users, userId)
    case None => Fails(db, UserNotFound)
    case Some(i) =>
      if userId == adminId then Fails(db, CannotChangeOwnRole)
      else Step(db.(users := db.users[i := db.users[i].(role := role)],
                    activities := db.activities + [Activity(activityId, userId, ROLE_CHANGE, RoleChangeDetails(role, adminId), now)]),
                Returned(()))
  }

  function DeactivateUserNext(db: Db, userId: string, adminId: string, now: int, activityId: string): Step<()>
  {
    match FindUserById(db.users, userId)
    case None => Fails(db, UserNotFound)
    case Some(i) =>
      if userId == adminId then Fails(db, CannotDeactivateSelf)
      else Step(db.(users := db.users[i := db.users[i].(isActive := false)],
                    activities := db.activities + [Activity(activityId, userId, ACCOUNT_DEACTIVATED, "Account deactivated by admin " + adminId, now)]),
                Returned(()))
  }

  function ReactivateUserNext(db: Db, userId: string, adminId: string, now: int, activityId: string): Step<()>
  {
    match FindUserById(db.users, userId)
    case None => Fails(db, UserNotFound)
    case Some(i) =>
      Step(db.(users := db.users[i := db.users[i].(isActive := true)],
               activities := db.activities + [Activity(activityId, userId, ACCOUNT_REACTIVATED, "Account reactivated by admin " + adminId, now)]),
           Returned(()))
  }

  function ActivitiesOf(activities: seq<Activity>, userId: string): (r: seq<Activity>)
    ensures forall a :: a in r <==> a in activities && a.userId == userId
    ensures multiset(r) <= multiset(activities)
  {
    if |activities| == 0 then []
    else
      assert activities == [activities[0]] + activities[1..];
      (if activities[0].userId == userId then [activities[0]] else []) + ActivitiesOf(activities[1..], userId)
  }

  function CreatedAt(a: Activity): int { a.createdAt }

  function Views(s: seq<Activity>): (r: seq<ActivityView>)
    ensures |r| == |s| && forall k :: 0 <= k < |s| ==> r[k] == ToActivityView(s[k])
  {
    seq(|s|, k requires 0 <= k < |s| => ToActivityView(s[k]))
  }

  /** `getUserActivity`: the user's activity rows, newest first. */
  function GetUserActivity(db: Db, userId: string): ServiceOutcome<seq<ActivityView>>
  {
    match FindUserById(db.users, userId)
    case None => Raised(ThrownApi(UserNotFound))
    case Some(_) => Returned(Views(SortDesc(ActivitiesOf(db.activities, userId), CreatedAt)))
  }
}
