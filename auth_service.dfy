/**
 * The `AuthService` class: the four tables it changes through the database
 * client, and one method per operation. Each method is proved to leave the
 * tables, and to return or throw, exactly as the matching transition of
 * `AuthSpec` says, and to keep `ValidDb`.
 *
 * The clock (`now`), the random source (`userId`, `tokenValue`, `sessionId`,
 * `activityId`, `otpValue`) and the outcome of the mail transport
 * (`mailDelivered`) are parameters.
 */
module AuthService {
  import opened Wrappers
  import opened Text
  import opened Config
  import opened Errors
  import opened PasswordPolicy
  import opened Store
  import opened AuthSpec
  import opened AuthInvariants

  /** `validatePassword`: one message per broken rule, thrown together when any was pushed. */
  method ValidatePassword(password: string) returns (err: Option<ApiError>)
    ensures err.None? <==> MeetsPolicy(password)
    ensures err.Some? ==> err.value == PolicyError(password) && err.value.statusCode == 400
  {
    var errors: seq<string> := [];
    if JsLength(password) < MinPasswordLength {
      errors := errors + [ServiceMessage(MinLength)];
    }
    assert errors == MessageIf(JsLength(password) < MinPasswordLength, MinLength);
    if !HasUppercase(password) {
      errors := errors + [ServiceMessage(Uppercase)];
    }
    assert errors == MessageIf(JsLength(password) < MinPasswordLength, MinLength) + MessageIf(!HasUppercase(password), Uppercase);
    if !HasDigit(password) {
      errors := errors + [ServiceMessage(Digit)];
    }
    assert errors == MessageIf(JsLength(password) < MinPasswordLength, MinLength) + MessageIf(!HasUppercase(password), Uppercase)
                     + MessageIf(!HasDigit(password), Digit);
    if !HasSpecial(password) {
      errors := errors + [ServiceMessage(Special)];
    }
    assert errors == MessageIf(JsLength(password) < MinPasswordLength, MinLength) + MessageIf(!HasUppercase(password), Uppercase)
                     + MessageIf(!HasDigit(password), Digit) + MessageIf(!HasSpecial(password), Special);
    ServiceMessagesByRule(password);
    NoViolationsIffPolicy(password);
    if |errors| > 0 {
      err := Some(ApiError(400, "Password validation failed", Some(errors)));
    } else {
      err := None;
    }
  }

  class AuthStore {
    var users: seq<User>
    var tokens: seq<Token>
    var sessions: seq<Session>
    var activities: seq<Activity>

    function State(): Db
      reads this
    {
      Db(users, tokens, sessions, activities)
    }

    ghost predicate Valid()
      reads this
    {
      ValidDb(State())
    }

    constructor ()
      ensures Valid() && State() == Db([], [], [], [])
    {
      users, tokens, sessions, activities := [], [], [], [];
    }

    // ------------------------------------------------------------ helpers

    /** `createToken`: appends a token row live for the kind's lifetime. */
    method CreateToken(userId: string, kind: TokenType, value: string, now: int)
      modifies this
      ensures tokens == old(tokens) + [NewToken(userId, kind, value, now)]
      ensures users == old(users) && sessions == old(sessions) && activities == old(activities)
    {
      tokens := tokens + [Token(userId, value, kind, now + TokenLifetime(kind))];
    }

    /** `createSession` with login's placeholder device data. */
    method CreateSession(userId: string, sessionId: string, now: int)
      modifies this
      ensures sessions == old(sessions) + [NewSession(sessionId, userId, now)]
      ensures users == old(users) && tokens == old(tokens) && activities == old(activities)
    {
      sessions := sessions + [Session(sessionId, userId, "Unknown", "Unknown", "0.0.0.0", true, now)];
    }

    /** `incrementLoginAttempts`. */
    method IncrementLoginAttempts(userId: string)
      requires FindUserById(users, userId).Some?
      modifies this
      ensures var i := FindUserById(old(users), userId).value;
        users == old(users)[i := AfterFailedLogin(old(users)[i])]
      ensures tokens == old(tokens) && sessions == old(sessions) && activities == old(activities)
    {
      var i := FindUserById(users, userId).value;
      users := users[i := users[i].(loginAttempts := users[i].loginAttempts + 1)];
    }

    /** `updateLoginSuccess`. */
    method UpdateLoginSuccess(userId: string, now: int)
      requires FindUserById(users, userId).Some?
      modifies this
      ensures var i := FindUserById(old(users), userId).value;
        users == old(users)[i := AfterLogin(old(users)[i], now)]
      ensures tokens == old(tokens) && sessions == old(sessions) && activities == old(activities)
    {
      var i := FindUserById(users, userId).value;
      users := users[i := users[i].(loginAttempts := 0, lastLogin := Some(now))];
    }

    /**
     * `sendMfaCode`: stores a fresh `createToken` value as the OTP row and
     * mails `code`, a different string; `delivered` says whether the mail
     * service returned normally.
     */
    method SendMfaCode(env: Env, userId: string, code: string, otpValue: string, now: int, mailDelivered: bool)
      returns (delivered: bool)
      modifies this
      ensures tokens == old(tokens) + [NewToken(userId, OTP, otpValue, now)]
      ensures users == old(users) && sessions == old(sessions) && activities == old(activities)
      ensures delivered == MailSent(env, mailDelivered)
    {
      CreateToken(userId, OTP, otpValue, now);
      delivered := AutoVerified(env) || mailDelivered;
    }

    /** Deleting a user row; its tokens are deleted with it. */
    method DeleteUser(userId: string)
      modifies this
      ensures State() == WithoutUser(old(State()), userId)
    {
      users := UsersExcept(users, userId);
      tokens := TokensExcept(tokens, userId);
    }

    /** `user.update` of one row found by id. */
    method UpdateUserAt(i: nat, u: User)
      requires i < |users|
      modifies this
      ensures users == old(users)[i := u]
      ensures tokens == old(tokens) && sessions == old(sessions) && activities == old(activities)
    {
      users := users[i := u];
    }

    // ------------------------------------------------------------ registration

    method Register(env: Env, input: RegisterInput, now: int, userId: string, tokenValue: string, mailDelivered: bool)
      returns (r: ServiceOutcome<AuthResponse>)
      requires Valid() && UserIdFresh(users, userId) && IsRandomTokenValue(tokenValue)
      modifies this
      ensures Valid()
      ensures Step(State(), r) == RegisterNext(old(State()), env, input, now, userId, tokenValue, mailDelivered)
    {
      RegisterKeepsValid(State(), env, input, now, userId, tokenValue, mailDelivered);
      if input.password != input.confirmPassword {
        return Raised(ThrownApi(PasswordsMismatch));
      }
      var policy := ValidatePassword(input.password);
      NoViolationsIffPolicy(input.password);
      if policy.Some? {
        return Raised(ThrownApi(policy.value));
      }
      var email := Lower(input.email);
      if FindUserByEmail(users, email).Some? {
        return Raised(ThrownApi(EmailExists));
      }
      if PhoneTaken(users, input.phoneNumber, None) {
        return Raised(ThrownApi(PhoneExists));
      }
      var verified := IsDevelopment(env) && !VerificationForced(env);
      var user := User(userId, email, HashOf(input.password), Trim(input.firstName), Trim(input.lastName),
                       input.phoneNumber, input.role, true, verified, false, 0, None, now, now);
      users := users + [user];
      if !user.isEmailVerified {
        CreateToken(user.id, EMAIL_VERIFICATION, tokenValue, now);
        if !mailDelivered && !IsDevelopment(env) {
          DeleteUser(user.id);
          return Raised(ThrownApi(VerificationMailFailed));
        }
      }
      return Returned(Authenticated(user));
    }

    method VerifyEmail(value: string, now: int) returns (r: ServiceOutcome<()>)
      requires Valid()
      modifies this
      ensures Valid()
      ensures Step(State(), r) == VerifyEmailNext(old(State()), value, now)
    {
      VerifyEmailKeepsValid(State(), value, now);
      var k := FindToken(tokens, value, EMAIL_VERIFICATION, None, now);
      if k.None? {
        return Raised(ThrownApi(InvalidVerificationToken));
      }
      var token := tokens[k.value];
      var i := FindUserById(users, token.userId);
      assert i.Some?;
      UpdateUserAt(i.value, users[i.value].(isEmailVerified := true));
      tokens := RemoveAt(tokens, k.value);
      return Returned(());
    }

    // ------------------------------------------------------------ login and MFA

    method Login(env: Env, email: string, password: string, now: int, sessionId: string,
                 code: string, otpValue: string, mailDelivered: bool)
      returns (r: ServiceOutcome<AuthResponse>)
      requires Valid() && SessionIdFresh(sessions, sessionId) && IsRandomTokenValue(otpValue)
      modifies this
      ensures Valid()
      ensures Step(State(), r) == LoginNext(old(State()), env, email, password, now, sessionId, otpValue, mailDelivered)
    {
      LoginKeepsValid(State(), env, email, password, now, sessionId, otpValue, mailDelivered);
      var found := FindUserByEmail(users, Lower(email));
      if found.None? {
        return Raised(ThrownApi(InvalidCredentials));
      }
      var user := users[found.value];
      if !user.isEmailVerified {
        return Raised(ThrownApi(EmailNotVerified));
      }
      if user.loginAttempts >= MaxLoginAttempts {
        return Raised(ThrownApi(AccountLocked));
      }
      FindOwnId(users, found.value);
      if !Matches(password, user.password) {
        IncrementLoginAttempts(user.id);
        return Raised(ThrownApi(InvalidCredentials));
      }
      UpdateLoginSuccess(user.id, now);
      CreateSession(user.id, sessionId, now);
      if user.isMfaEnabled {
        var delivered := SendMfaCode(env, user.id, code, otpValue, now, mailDelivered);
        if !delivered {
          return Raised(ThrownOther(MailFailure));
        }
        return Raised(ThrownApi(MfaPending));
      }
      return Returned(Authenticated(user));
    }

    method VerifyMfa(userId: string, otp: string, now: int) returns (r: ServiceOutcome<AuthResponse>)
      requires Valid()
      modifies this
      ensures Valid()
      ensures Step(State(), r) == VerifyMfaNext(old(State()), userId, otp, now)
    {
      VerifyMfaKeepsValid(State(), userId, otp, now);
      var k := FindToken(tokens, otp, OTP, Some(userId), now);
      if k.None? {
        return Raised(ThrownApi(InvalidOtp));
      }
      var i := FindUserById(users, tokens[k.value].userId);
      assert i.Some?;
      var owner := users[i.value];
      tokens := RemoveAt(tokens, k.value);
      return Returned(Authenticated(owner));
    }

    // ------------------------------------------------------------ profile and passwords

    method UpdateProfile(userId: string, d: ProfileUpdate, now: int) returns (r: ServiceOutcome<()>)
      requires Valid()
      modifies this
      ensures Valid()
      ensures Step(State(), r) == UpdateProfileNext(old(State()), userId, d, now)
    {
      UpdateProfileKeepsValid(State(), userId, d, now);
      var found := FindUserById(users, userId);
      if found.None? {
        return Raised(ThrownApi(UserNotFound));
      }
      if d.phoneNumber.Some? && d.phoneNumber.value != "" {
        if PhoneTaken(users, d.phoneNumber.value, Some(userId)) {
          return Raised(ThrownApi(PhoneExists));
        }
      }
      if d.phoneNumber.Some? && PhoneTaken(users, d.phoneNumber.value, Some(userId)) {
        // the unique index on phoneNumber refuses the row
        return Raised(ThrownOther(UniqueConstraintFailure));
      }
      UpdateUserAt(found.value, ApplyProfile(users[found.value], d, now));
      return Returned(());
    }

    method ChangePassword(userId: string, current: string, newPassword: string) returns (r: ServiceOutcome<()>)
      requires Valid()
      modifies this
      ensures Valid()
      ensures Step(State(), r) == ChangePasswordNext(old(State()), userId, current, newPassword)
    {
      ChangePasswordKeepsValid(State(), userId, current, newPassword);
      var found := FindUserById(users, userId);
      if found.None? {
        return Raised(ThrownApi(UserNotFound));
      }
      var user := users[found.value];
      if !Matches(current, user.password) {
        return Raised(ThrownApi(CurrentPasswordIncorrect));
      }
      if current == newPassword {
        return Raised(ThrownApi(SamePassword));
      }
      var policy := ValidatePassword(newPassword);
      NoViolationsIffPolicy(newPassword);
      if policy.Some? {
        return Raised(ThrownApi(policy.value));
      }
      UpdateUserAt(found.value, user.(password := HashOf(newPassword), loginAttempts := 0));
      return Returned(());
    }

    method ForgotPassword(env: Env, email: string, now: int, tokenValue: string, mailDelivered: bool) returns (r: ServiceOutcome<()>)
      requires Valid() && IsRandomTokenValue(tokenValue)
      modifies this
      ensures Valid()
      ensures Step(State(), r) == ForgotPasswordNext(old(State()), env, email, now, tokenValue, mailDelivered)
    {
      ForgotPasswordKeepsValid(State(), env, email, now, tokenValue, mailDelivered);
      var found := FindUserByEmail(users, Lower(email));
      if found.None? {
        return Returned(());
      }
      CreateToken(users[found.value].id, PASSWORD_RESET, tokenValue, now);
      if !(AutoVerified(env) || mailDelivered) {
        return Raised(ThrownOther(MailFailure));
      }
      return Returned(());
    }

    method ResetPassword(value: string, newPassword: string, confirm: string, now: int) returns (r: ServiceOutcome<()>)
      requires Valid()
      modifies this
      ensures Valid()
      ensures Step(State(), r) == ResetPasswordNext(old(State()), value, newPassword, confirm, now)
    {
      ResetPasswordKeepsValid(State(), value, newPassword, confirm, now);
      var k := FindToken(tokens, value, PASSWORD_RESET, None, now);
      if k.None? {
        return Raised(ThrownApi(InvalidResetToken));
      }
      if newPassword != confirm {
        return Raised(ThrownApi(PasswordsMismatch));
      }
      var policy := ValidatePassword(newPassword);
      NoViolationsIffPolicy(newPassword);
      if policy.Some? {
        return Raised(ThrownApi(policy.value));
      }
      var i := FindUserById(users, tokens[k.value].userId);
      assert i.Some?;
      UpdateUserAt(i.value, users[i.value].(password := HashOf(newPassword), loginAttempts := 0));
      tokens := RemoveAt(tokens, k.value);
      return Returned(());
    }

    // ------------------------------------------------------------ sessions

    method LogoutSession(userId: string, sessionId: string) returns (r: ServiceOutcome<()>)
      requires Valid()
      modifies this
      ensures Valid()
      ensures Step(State(), r) == LogoutSessionNext(old(State()), userId, sessionId)
    {
      LogoutSessionKeepsValid(State(), userId, sessionId);
      var k := FindSession(sessions, sessionId, userId);
      if k.None? {
        return Raised(ThrownApi(SessionNotFound));
      }
      sessions := sessions[k.value := sessions[k.value].(isActive := false)];
      return Returned(());
    }

    method LogoutAllSessions(userId: string) returns (r: ServiceOutcome<()>)
      requires Valid()
      modifies this
      ensures Valid()
      ensures Step(State(), r) == LogoutAllSessionsNext(old(State()), userId)
    {
      LogoutAllSessionsKeepsValid(State(), userId);
      sessions := DeactivateSessionsOf(sessions, userId);
      return Returned(());
    }

    // ------------------------------------------------------------ admin

    /** `getAllUsers`: the `where` object is filled in field by field. */
    method GetAllUsers(f: UserFilters) returns (r: seq<UserView>)
      ensures r == AuthSpec.GetAllUsers(State(), f)
      ensures forall u :: u in users && FilterAdmits(f, u) ==> ToView(u) in r
      ensures forall v :: v in r ==> exists u :: u in users && FilterAdmits(f, u) && v == ToView(u)
    {
      var w := Where(None, None, None);
      if f.role.Some? {
        w := w.(role := f.role);
      }
      if f.isActive.Some? {
        w := w.(isActive := f.isActive);
      }
      if f.search.Some? && f.search.value != "" {
        w := w.(search := f.search);
      }
      r := ListUsers(users, w);
    }

    method ChangeUserRole(userId: string, role: Role, adminId: string, now: int, activityId: string)
      returns (r: ServiceOutcome<()>)
      requires Valid()
      modifies this
      ensures Valid()
      ensures Step(State(), r) == ChangeUserRoleNext(old(State()), userId, role, adminId, now, activityId)
    {
      AdminActionsKeepValid(State(), userId, role, adminId, now, activityId);
      var found := FindUserById(users, userId);
      if found.None? {
        return Raised(ThrownApi(UserNotFound));
      }
      if userId == adminId {
        return Raised(ThrownApi(CannotChangeOwnRole));
      }
      UpdateUserAt(found.value, users[found.value].(role := role));
      activities := activities + [Activity(activityId, userId, ROLE_CHANGE, RoleChangeDetails(role, adminId), now)];
      return Returned(());
    }

    method DeactivateUser(userId: string, adminId: string, now: int, activityId: string)
      returns (r: ServiceOutcome<()>)
      requires Valid()
      modifies this
      ensures Valid()
      ensures Step(State(), r) == DeactivateUserNext(old(State()), userId, adminId, now, activityId)
    {
      AdminActionsKeepValid(State(), userId, CUSTOMER, adminId, now, activityId);
      var found := FindUserById(users, userId);
      if found.None? {
        return Raised(ThrownApi(UserNotFound));
      }
      if userId == adminId {
        return Raised(ThrownApi(CannotDeactivateSelf));
      }
      UpdateUserAt(found.value, users[found.value].(isActive := false));
      activities := activities + [Activity(activityId, userId, ACCOUNT_DEACTIVATED, "Account deactivated by admin " + adminId, now)];
      return Returned(());
    }

    method ReactivateUser(userId: string, adminId: string, now: int, activityId: string)
      returns (r: ServiceOutcome<()>)
      requires Valid()
      modifies this
      ensures Valid()
      ensures Step(State(), r) == ReactivateUserNext(old(State()), userId, adminId, now, activityId)
    {
      AdminActionsKeepValid(State(), userId, CUSTOMER, adminId, now, activityId);
      var found := FindUserById(users, userId);
      if found.None? {
        return Raised(ThrownApi(UserNotFound));
      }
      UpdateUserAt(found.value, users[found.value].(isActive := true));
      activities := activities + [Activity(activityId, userId, ACCOUNT_REACTIVATED, "Account reactivated by admin " + adminId, now)];
      return Returned(());
    }
  }
}
