/**
 * What the account workflow promises, proved about the transitions of
 * `AuthSpec`: the login lockout, single-use tokens, the registration checks,
 * password changes, sessions and the admin audit trail.
 */
module AuthProperties {
  import opened Wrappers
  import opened Text
  import opened Config
  import opened Errors
  import opened PasswordPolicy
  import opened Store
  import opened Ordering
  import opened AuthSpec
  import opened AuthInvariants
  import opened AuthValidation

  // ---------------------------------------------------------------- lookups

  /** The lookup depends on the emails alone. */
  lemma SameEmailsSameLookup(a: seq<User>, b: seq<User>, email: string)
    requires |a| == |b| && forall j :: 0 <= j < |a| ==> a[j].email == b[j].email
    ensures FindUserByEmail(a, email) == FindUserByEmail(b, email)
  {
  }

  lemma UpdateKeepsEmailLookup(users: seq<User>, i: nat, u: User, email: string)
    requires i < |users| && u.email == users[i].email
    ensures FindUserByEmail(users[i := u], email) == FindUserByEmail(users, email)
  {
    SameEmailsSameLookup(users[i := u], users, email);
  }

  /** The account `login` looks at: verified and not yet locked. */
  predicate LoginReady(db: Db, email: string, i: nat)
  {
    FindUserByEmail(db.users, Lower(email)) == Some(i)
    && db.users[i].isEmailVerified && db.users[i].loginAttempts < MaxLoginAttempts
  }

  // ---------------------------------------------------------------- login

  /** An unknown email and a wrong password are refused with the same error. */
  lemma LoginFailuresLookAlike(db: Db, env: Env, email: string, password: string, now: int, sessionId: string,
                               otpValue: string, mailDelivered: bool)
    requires FindUserByEmail(db.users, Lower(email)).None?
      || (var i := FindUserByEmail(db.users, Lower(email)).value;
          LoginReady(db, email, i) && !Matches(password, db.users[i].password))
    ensures LoginNext(db, env, email, password, now, sessionId, otpValue, mailDelivered).out == Raised(ThrownApi(InvalidCredentials))
  {
  }

  /** A locked account is refused before the password is compared, and nothing is written. */
  lemma LockoutPrecedesPassword(db: Db, env: Env, email: string, password: string, now: int, sessionId: string,
                                otpValue: string, mailDelivered: bool)
    requires FindUserByEmail(db.users, Lower(email)).Some?
    requires var u := db.users[FindUserByEmail(db.users, Lower(email)).value];
      u.isEmailVerified && u.loginAttempts >= MaxLoginAttempts
    ensures LoginNext(db, env, email, password, now, sessionId, otpValue, mailDelivered) == Fails(db, AccountLocked)
  {
  }

  /** A wrong password adds exactly one to the account's counter and changes nothing else. */
  lemma WrongPasswordCountsOnce(db: Db, env: Env, email: string, password: string, now: int, sessionId: string,
                                otpValue: string, mailDelivered: bool, i: nat)
    requires LoginReady(db, email, i) && !Matches(password, db.users[i].password)
    ensures var after := LoginNext(db, env, email, password, now, sessionId, otpValue, mailDelivered).db;
      after == db.(users := db.users[i := db.users[i].(loginAttempts := db.users[i].loginAttempts + 1)])
  {
  }

  /** The store after the attempts of `attempts`, each applied by `attempt`. */
  function Series(db: Db, attempts: seq<string>, attempt: (Db, string) -> Db): Db
    decreases |attempts|
  {
    if |attempts| == 0 then db else Series(attempt(db, attempts[0]), attempts[1..], attempt)
  }

  /** Successive logins with the passwords of `attempts`. */
  function LoginSeries(db: Db, env: Env, email: string, attempts: seq<string>, now: int, sessionId: string,
                       otpValue: string, mailDelivered: bool): Db
  {
    Series(db, attempts, (d: Db, p: string) => LoginNext(d, env, email, p, now, sessionId, otpValue, mailDelivered).db)
  }

  /** The store with account `i`'s failure counter set to `n`. */
  function WithAttempts(db: Db, i: nat, n: nat): Db
    requires i < |db.users|
  {
    db.(users := db.users[i := db.users[i].(loginAttempts := n)])
  }

  lemma WithAttemptsTwice(db: Db, i: nat, m: nat, n: nat)
    requires i < |db.users|
    ensures WithAttempts(WithAttempts(db, i, m), i, n) == WithAttempts(db, i, n)
  {
    assert WithAttempts(WithAttempts(db, i, m), i, n).users == WithAttempts(db, i, n).users;
  }

  lemma WithAttemptsLookup(db: Db, email: string, i: nat, n: nat)
    requires FindUserByEmail(db.users, Lower(email)) == Some(i)
    ensures FindUserByEmail(WithAttempts(db, i, n).users, Lower(email)) == Some(i)
  {
    UpdateKeepsEmailLookup(db.users, i, db.users[i].(loginAttempts := n), Lower(email));
  }

  /** Attempts that each add one to account `i`'s counter, while it stays within `MaxLoginAttempts`, add up. */
  lemma {:induction false} CountingSeries(db: Db, k: nat, attempts: seq<string>, attempt: (Db, string) -> Db, i: nat)
    requires i < |db.users| && k + |attempts| <= MaxLoginAttempts
    requires forall c: nat, p :: p in attempts && c < MaxLoginAttempts ==>
      attempt(WithAttempts(db, i, c), p) == WithAttempts(db, i, c + 1)
    ensures Series(WithAttempts(db, i, k), attempts, attempt) == WithAttempts(db, i, k + |attempts|)
    decreases |attempts|
  {
    if |attempts| > 0 {
      assert attempts[0] in attempts;
      assert forall p :: p in attempts[1..] ==> p in attempts;
      CountingSeries(db, k + 1, attempts[1..], attempt, i);
    }
  }

  lemma WrongPasswordAt(db: Db, env: Env, email: string, password: string, now: int, sessionId: string,
                        otpValue: string, mailDelivered: bool, i: nat, c: nat)
    requires FindUserByEmail(db.users, Lower(email)) == Some(i) && db.users[i].isEmailVerified
    requires c < MaxLoginAttempts && !Matches(password, db.users[i].password)
    ensures LoginNext(WithAttempts(db, i, c), env, email, password, now, sessionId, otpValue, mailDelivered).db
         == WithAttempts(db, i, c + 1)
  {
    WithAttemptsLookup(db, email, i, c);
    WrongPasswordCountsOnce(WithAttempts(db, i, c), env, email, password, now, sessionId, otpValue, mailDelivered, i);
    WithAttemptsTwice(db, i, c, c + 1);
  }

  /** Wrong passwords on a verified, unlocked account each count once. */
  lemma WrongPasswordsAccumulate(db: Db, env: Env, email: string, attempts: seq<string>, now: int,
                                 sessionId: string, otpValue: string, mailDelivered: bool, i: nat)
    requires FindUserByEmail(db.users, Lower(email)) == Some(i) && db.users[i].isEmailVerified
    requires db.users[i].loginAttempts + |attempts| <= MaxLoginAttempts
    requires forall p :: p in attempts ==> !Matches(p, db.users[i].password)
    ensures LoginSeries(db, env, email, attempts, now, sessionId, otpValue, mailDelivered)
         == WithAttempts(db, i, db.users[i].loginAttempts + |attempts|)
  {
    var n := db.users[i].loginAttempts;
    var attempt := (d: Db, p: string) => LoginNext(d, env, email, p, now, sessionId, otpValue, mailDelivered).db;
    forall c: nat, p | p in attempts && c < MaxLoginAttempts
      ensures attempt(WithAttempts(db, i, c), p) == WithAttempts(db, i, c + 1)
    {
      WrongPasswordAt(db, env, email, p, now, sessionId, otpValue, mailDelivered, i, c);
    }
    assert db.users[i := db.users[i].(loginAttempts := n)] == db.users;
    assert WithAttempts(db, i, n) == db;
    CountingSeries(db, n, attempts, attempt, i);
  }

  /** Five wrong passwords from a fresh counter lock the account: the next login is refused even with the right password. */
  lemma FiveFailuresLock(db: Db, env: Env, email: string, attempts: seq<string>, password: string, now: int,
                         sessionId: string, otpValue: string, mailDelivered: bool, i: nat)
    requires FindUserByEmail(db.users, Lower(email)) == Some(i) && db.users[i].isEmailVerified
    requires db.users[i].loginAttempts == 0 && |attempts| == MaxLoginAttempts
    requires forall p :: p in attempts ==> !Matches(p, db.users[i].password)
    ensures var locked := LoginSeries(db, env, email, attempts, now, sessionId, otpValue, mailDelivered);
      LoginNext(locked, env, email, password, now, sessionId, otpValue, mailDelivered) == Fails(locked, AccountLocked)
  {
    WrongPasswordsAccumulate(db, env, email, attempts, now, sessionId, otpValue, mailDelivered, i);
    WithAttemptsLookup(db, email, i, MaxLoginAttempts);
  }

  /**
   * A correct password on a ready account resets the counter, records the
   * login and opens one session, before the MFA branch; with MFA an OTP row
   * live for five minutes is added and no auth token is returned.
   */
  lemma SuccessfulLogin(db: Db, env: Env, email: string, password: string, now: int, sessionId: string,
                        otpValue: string, mailDelivered: bool, i: nat)
    requires LoginReady(db, email, i) && Matches(password, db.users[i].password)
    ensures var u := db.users[i];
      var step := LoginNext(db, env, email, password, now, sessionId, otpValue, mailDelivered);
      && step.db.users == db.users[i := u.(loginAttempts := 0, lastLogin := Some(now))]
      && step.db.sessions == db.sessions + [Session(sessionId, u.id, "Unknown", "Unknown", "0.0.0.0", true, now)]
      && step.db.activities == db.activities
      && (!u.isMfaEnabled ==> step.db.tokens == db.tokens && step.out == Returned(Authenticated(u)))
      && (u.isMfaEnabled ==>
            && step.db.tokens == db.tokens + [Token(u.id, otpValue, OTP, now + 5 * MinuteMs)]
            && step.out.Raised?
            && step.out == Raised(if MailSent(env, mailDelivered) then ThrownApi(MfaPending) else ThrownOther(MailFailure)))
  {
  }

  /**
   * In auto-verify mode the mail service skips sending and returns normally,
   * so neither a login nor a reset request can fail on the mail.
   */
  lemma AutoVerifySkipsMail(db: Db, env: Env, email: string, password: string, now: int, sessionId: string,
                            otpValue: string, tokenValue: string, mailDelivered: bool)
    requires AutoVerified(env)
    ensures LoginNext(db, env, email, password, now, sessionId, otpValue, mailDelivered).out != Raised(ThrownOther(MailFailure))
    ensures ForgotPasswordNext(db, env, email, now, tokenValue, mailDelivered).out == Returned(())
  {
  }

  // ---------------------------------------------------------------- tokens

  /** At most one row holds `value` (the values come from 32 random bytes). */
  predicate ValueUnique(tokens: seq<Token>, value: string)
  {
    forall a, b :: 0 <= a < b < |tokens| && tokens[a].value == value ==> tokens[b].value != value
  }

  lemma RemovedValueGone(tokens: seq<Token>, value: string, k: nat)
    requires k < |tokens| && tokens[k].value == value && ValueUnique(tokens, value)
    ensures forall j :: 0 <= j < |RemoveAt(tokens, k)| ==> RemoveAt(tokens, k)[j].value != value
  {
    var r := RemoveAt(tokens, k);
    forall j | 0 <= j < |r| ensures r[j].value != value {
      if j < k {
        assert r[j] == tokens[j];
      } else {
        assert r[j] == tokens[j + 1];
      }
    }
  }

  lemma ConsumeKeepsOwners(db: Db, k: nat, i: nat, u: User)
    requires TokensOwned(db.users, db.tokens) && k < |db.tokens| && i < |db.users| && u.id == db.users[i].id
    ensures TokensOwned(db.users[i := u], RemoveAt(db.tokens, k))
  {
    forall id ensures FindUserById(db.users[i := u], id) == FindUserById(db.users, id) {
      UpdateKeepsLookup(db.users, i, u, id);
    }
  }

  /** `verifyEmail` succeeds exactly on a live verification token, and marks its owner verified. */
  lemma VerifyEmailAccepts(db: Db, value: string, now: int)
    requires TokensOwned(db.users, db.tokens)
    ensures var step := VerifyEmailNext(db, value, now);
      && (step.out.Returned? <==>
            exists j :: 0 <= j < |db.tokens| && TokenMatches(db.tokens[j], value, EMAIL_VERIFICATION, None, now))
      && (step.out.Raised? ==> step == Fails(db, InvalidVerificationToken))
      && (step.out.Returned? ==>
            && |step.db.tokens| == |db.tokens| - 1
            && exists j :: 0 <= j < |step.db.users| && step.db.users[j].isEmailVerified
                 && step.db.users[j].id == db.tokens[FindToken(db.tokens, value, EMAIL_VERIFICATION, None, now).value].userId)
  {
    var k := FindToken(db.tokens, value, EMAIL_VERIFICATION, None, now);
    if k.Some? {
      var i := FindUserById(db.users, db.tokens[k.value].userId).value;
      assert VerifyEmailNext(db, value, now).db.users[i].isEmailVerified;
    }
  }

  /**
   * `resetPassword` succeeds exactly on a live reset token whose new password
   * equals its confirmation and meets the policy. A refusal writes nothing,
   * and a token past its expiry is refused. A success sets the owner's
   * password, zeroes the counter and deletes the token, and nothing else.
   */
  lemma ResetPasswordAccepts(db: Db, value: string, newPassword: string, confirm: string, now: int)
    requires TokensOwned(db.users, db.tokens)
    ensures var step := ResetPasswordNext(db, value, newPassword, confirm, now);
      var k := FindToken(db.tokens, value, PASSWORD_RESET, None, now);
      && (step.out.Returned? <==>
            (exists j :: 0 <= j < |db.tokens| && TokenMatches(db.tokens[j], value, PASSWORD_RESET, None, now))
            && newPassword == confirm && MeetsPolicy(newPassword))
      && (step.out.Raised? ==> step.db == db)
      && ((forall j :: 0 <= j < |db.tokens| && db.tokens[j].value == value && db.tokens[j].kind == PASSWORD_RESET ==>
             db.tokens[j].expiresAt <= now) ==> step == Fails(db, InvalidResetToken))
      && (step.out.Returned? ==>
            var i := FindUserById(db.users, db.tokens[k.value].userId).value;
            && step.db == db.(users := db.users[i := WithPassword(db.users[i], newPassword)],
                              tokens := RemoveAt(db.tokens, k.value))
            && step.db.users[i].loginAttempts == 0 && Matches(newPassword, step.db.users[i].password))
  {
    NoViolationsIffPolicy(newPassword);
  }

  /**
   * `verifyMfa` succeeds exactly on a live OTP row of that user. A refusal is
   * the one 401 and writes nothing, and an expired OTP is refused. A success
   * deletes that row only and answers with the user's token and projection.
   */
  lemma VerifyMfaAccepts(db: Db, userId: string, otp: string, now: int)
    requires TokensOwned(db.users, db.tokens)
    ensures var step := VerifyMfaNext(db, userId, otp, now);
      var k := FindToken(db.tokens, otp, OTP, Some(userId), now);
      && (step.out.Returned? <==> exists j :: 0 <= j < |db.tokens| && TokenMatches(db.tokens[j], otp, OTP, Some(userId), now))
      && (step.out.Raised? ==> step == Fails(db, InvalidOtp))
      && ((forall j :: 0 <= j < |db.tokens| && db.tokens[j].value == otp && db.tokens[j].kind == OTP ==>
             db.tokens[j].expiresAt <= now) ==> step == Fails(db, InvalidOtp))
      && (step.out.Returned? ==>
            && FindUserById(db.users, userId).Some?
            && step.db == db.(tokens := RemoveAt(db.tokens, k.value))
            && step.out == Returned(Authenticated(db.users[FindUserById(db.users, userId).value])))
  {
  }

  /** A verification token cannot be used twice. */
  lemma VerifyEmailSingleUse(db: Db, value: string, now: int, later: int)
    requires TokensOwned(db.users, db.tokens) && ValueUnique(db.tokens, value)
    requires VerifyEmailNext(db, value, now).out.Returned?
    ensures var after := VerifyEmailNext(db, value, now).db;
      TokensOwned(after.users, after.tokens) && VerifyEmailNext(after, value, later).out == Raised(ThrownApi(InvalidVerificationToken))
  {
    var k := FindToken(db.tokens, value, EMAIL_VERIFICATION, None, now).value;
    var i := FindUserById(db.users, db.tokens[k].userId).value;
    ConsumeKeepsOwners(db, k, i, db.users[i].(isEmailVerified := true));
    RemovedValueGone(db.tokens, value, k);
  }

  /** A reset token cannot be used twice. */
  lemma ResetPasswordSingleUse(db: Db, value: string, p: string, now: int, later: int, p2: string, c2: string)
    requires TokensOwned(db.users, db.tokens) && ValueUnique(db.tokens, value)
    requires ResetPasswordNext(db, value, p, p, now).out.Returned?
    ensures var after := ResetPasswordNext(db, value, p, p, now).db;
      TokensOwned(after.users, after.tokens) && ResetPasswordNext(after, value, p2, c2, later).out == Raised(ThrownApi(InvalidResetToken))
  {
    var k := FindToken(db.tokens, value, PASSWORD_RESET, None, now).value;
    var i := FindUserById(db.users, db.tokens[k].userId).value;
    ConsumeKeepsOwners(db, k, i, WithPassword(db.users[i], p));
    RemovedValueGone(db.tokens, value, k);
  }

  /** An OTP cannot be used twice. */
  lemma VerifyMfaSingleUse(db: Db, userId: string, otp: string, now: int, later: int)
    requires TokensOwned(db.users, db.tokens) && ValueUnique(db.tokens, otp)
    requires VerifyMfaNext(db, userId, otp, now).out.Returned?
    ensures var after := VerifyMfaNext(db, userId, otp, now).db;
      TokensOwned(after.users, after.tokens) && VerifyMfaNext(after, userId, otp, later).out == Raised(ThrownApi(InvalidOtp))
  {
    var k := FindToken(db.tokens, otp, OTP, Some(userId), now).value;
    var i := FindUserById(db.users, db.tokens[k].userId).value;
    ConsumeKeepsOwners(db, k, i, db.users[i]);
    assert db.users[i := db.users[i]] == db.users;
    RemovedValueGone(db.tokens, otp, k);
  }

  // ---------------------------------------------------------------- registration

  /** The checks come in order and any failure leaves the store as it was, the rollback included. */
  lemma RegisterFailsCleanly(db: Db, env: Env, input: RegisterInput, now: int, userId: string,
                             tokenValue: string, mailDelivered: bool)
    requires ValidDb(db) && UserIdFresh(db.users, userId)
    ensures var step := RegisterNext(db, env, input, now, userId, tokenValue, mailDelivered);
      && (step.out.Raised? ==> step.db == db && step.out.thrown.ThrownApi?)
      && (input.password != input.confirmPassword ==> step.out == Raised(ThrownApi(PasswordsMismatch)))
      && (input.password == input.confirmPassword && !MeetsPolicy(input.password) ==>
            step.out == Raised(ThrownApi(PolicyError(input.password))))
      && (input.password == input.confirmPassword && MeetsPolicy(input.password)
          && FindUserByEmail(db.users, Lower(input.email)).Some? ==>
            step.out == Raised(ThrownApi(EmailExists)))
      && (input.password == input.confirmPassword && MeetsPolicy(input.password)
          && FindUserByEmail(db.users, Lower(input.email)).None? && PhoneTaken(db.users, input.phoneNumber, None) ==>
            step.out == Raised(ThrownApi(PhoneExists)))
  {
    NoViolationsIffPolicy(input.password);
    if input.password == input.confirmPassword && Violations(input.password) == []
       && FindUserByEmail(db.users, Lower(input.email)).None? && !PhoneTaken(db.users, input.phoneNumber, None)
       && !AutoVerified(env) && !mailDelivered && !IsDevelopment(env)
    {
      RollbackRestores(db, NewUser(input, userId, now, false), NewToken(userId, EMAIL_VERIFICATION, tokenValue, now));
    }
  }

  /**
   * When the verification mail cannot be sent, development mode keeps the
   * account and answers as usual; any other mode deletes it again and answers 500.
   */
  lemma RegisterMailFailure(db: Db, env: Env, input: RegisterInput, now: int, userId: string, tokenValue: string)
    requires ValidDb(db) && UserIdFresh(db.users, userId) && !AutoVerified(env)
    requires input.password == input.confirmPassword && MeetsPolicy(input.password)
    requires FindUserByEmail(db.users, Lower(input.email)).None? && !PhoneTaken(db.users, input.phoneNumber, None)
    ensures var step := RegisterNext(db, env, input, now, userId, tokenValue, false);
      && (IsDevelopment(env) ==>
            step.out == Returned(Authenticated(NewUser(input, userId, now, false)))
            && step.db.users == db.users + [NewUser(input, userId, now, false)])
      && (!IsDevelopment(env) ==> step == Fails(db, VerificationMailFailed))
  {
    NoViolationsIffPolicy(input.password);
    if !IsDevelopment(env) {
      RollbackRestores(db, NewUser(input, userId, now, false), NewToken(userId, EMAIL_VERIFICATION, tokenValue, now));
    }
  }

  /** A new account stores the lower-cased email and trimmed names, verified exactly in auto-verify mode. */
  lemma RegisterStoresNormalized(db: Db, env: Env, input: RegisterInput, now: int, userId: string,
                                 tokenValue: string, mailDelivered: bool)
    requires RegisterNext(db, env, input, now, userId, tokenValue, mailDelivered).out.Returned?
    ensures var step := RegisterNext(db, env, input, now, userId, tokenValue, mailDelivered);
      && |step.db.users| == |db.users| + 1 && step.db.users[..|db.users|] == db.users
      && var u := step.db.users[|db.users|];
      && u.id == userId && u.email == Lower(input.email) && Lower(u.email) == u.email
      && u.firstName == Trim(input.firstName) && u.lastName == Trim(input.lastName)
      && u.isEmailVerified == AutoVerified(env) && u.loginAttempts == 0 && u.role == input.role
      && Matches(input.password, u.password)
      && step.out == Returned(Authenticated(u))
      && step.db.tokens == (if AutoVerified(env) then db.tokens else db.tokens + [NewToken(userId, EMAIL_VERIFICATION, tokenValue, now)])
  {
    LowerIdempotent(input.email);
  }

  /** Once an email is registered, the same address in any letter case is refused. */
  lemma RegisteredEmailTakenInAnyCase(db: Db, env: Env, input: RegisterInput, now: int, userId: string,
                                      tokenValue: string, mailDelivered: bool,
                                      again: RegisterInput, now2: int, userId2: string, tokenValue2: string, mailDelivered2: bool)
    requires RegisterNext(db, env, input, now, userId, tokenValue, mailDelivered).out.Returned?
    requires Lower(again.email) == Lower(input.email)
    requires again.password == again.confirmPassword && MeetsPolicy(again.password)
    ensures var after := RegisterNext(db, env, input, now, userId, tokenValue, mailDelivered).db;
      RegisterNext(after, env, again, now2, userId2, tokenValue2, mailDelivered2).out == Raised(ThrownApi(EmailExists))
  {
    NoViolationsIffPolicy(again.password);
    var after := RegisterNext(db, env, input, now, userId, tokenValue, mailDelivered).db;
    assert after.users[|db.users|].email == Lower(again.email);
  }

  /** In auto-verify mode a new account can log in at once with its password, under any letter case of its email. */
  lemma RegisterThenLogin(db: Db, env: Env, input: RegisterInput, now: int, userId: string, tokenValue: string,
                          mailDelivered: bool, email: string, later: int, sessionId: string, otpValue: string)
    requires ValidDb(db) && UserIdFresh(db.users, userId) && IsRandomTokenValue(tokenValue) && AutoVerified(env)
    requires RegisterNext(db, env, input, now, userId, tokenValue, mailDelivered).out.Returned?
    requires Lower(email) == Lower(input.email)
    ensures var step := RegisterNext(db, env, input, now, userId, tokenValue, mailDelivered);
      LoginNext(step.db, env, email, input.password, later, sessionId, otpValue, mailDelivered).out == step.out
  {
    var step := RegisterNext(db, env, input, now, userId, tokenValue, mailDelivered);
    RegisterKeepsValid(db, env, input, now, userId, tokenValue, mailDelivered);
    RegisterStoresNormalized(db, env, input, now, userId, tokenValue, mailDelivered);
    FindOwnEmail(step.db.users, |db.users|);
  }

  // ---------------------------------------------------------------- passwords

  /** `changePassword` checks in order: the account, the current password, sameness, the policy. */
  lemma ChangePasswordOrder(db: Db, userId: string, current: string, newPassword: string)
    ensures var step := ChangePasswordNext(db, userId, current, newPassword);
      var i := FindUserById(db.users, userId);
      && (i.None? ==> step == Fails(db, UserNotFound))
      && (i.Some? && !Matches(current, db.users[i.value].password) ==> step == Fails(db, CurrentPasswordIncorrect))
      && (i.Some? && Matches(current, db.users[i.value].password) && current == newPassword ==> step == Fails(db, SamePassword))
      && (i.Some? && Matches(current, db.users[i.value].password) && current != newPassword && !MeetsPolicy(newPassword) ==>
            step == Fails(db, PolicyError(newPassword)))
      && (step.out.Returned? <==> i.Some? && Matches(current, db.users[i.value].password) && current != newPassword && MeetsPolicy(newPassword))
  {
    NoViolationsIffPolicy(newPassword);
  }

  /**
   * A password change writes nothing when refused. On success it replaces the
   * account's hash with the new password's and zeroes its counter, and
   * changes nothing else.
   */
  lemma ChangePasswordEffect(db: Db, userId: string, current: string, newPassword: string)
    ensures var step := ChangePasswordNext(db, userId, current, newPassword);
      && (step.out.Raised? ==> step.db == db)
      && (step.out.Returned? ==>
            var i := FindUserById(db.users, userId).value;
            && step.db == db.(users := db.users[i := WithPassword(db.users[i], newPassword)])
            && step.db.users[i].loginAttempts == 0
            && Matches(newPassword, step.db.users[i].password) && !Matches(current, step.db.users[i].password))
  {
  }

  /**
   * After a password change the old password is refused and the new one
   * logs in, even on an account that was locked.
   */
  lemma ChangePasswordRoundTrip(db: Db, env: Env, userId: string, current: string, newPassword: string, now: int,
                                sessionId: string, otpValue: string, mailDelivered: bool, i: nat)
    requires ValidDb(db) && FindUserById(db.users, userId) == Some(i)
    requires ChangePasswordNext(db, userId, current, newPassword).out.Returned?
    requires db.users[i].isEmailVerified && !db.users[i].isMfaEnabled && Lower(db.users[i].email) == db.users[i].email
    ensures var after := ChangePasswordNext(db, userId, current, newPassword).db;
      var email := db.users[i].email;
      && LoginNext(after, env, email, current, now, sessionId, otpValue, mailDelivered).out == Raised(ThrownApi(InvalidCredentials))
      && LoginNext(after, env, email, newPassword, now, sessionId, otpValue, mailDelivered).out == Returned(Authenticated(after.users[i]))
  {
    var u := WithPassword(db.users[i], newPassword);
    FindOwnEmail(db.users, i);
    UpdateKeepsEmailLookup(db.users, i, u, db.users[i].email);
  }

  /** Asking for a reset and using the mailed token within the hour sets the new password. */
  lemma ForgotThenReset(db: Db, env: Env, email: string, now: int, tokenValue: string, later: int, newPassword: string, i: nat)
    requires ValidDb(db) && IsRandomTokenValue(tokenValue) && FindUserByEmail(db.users, Lower(email)) == Some(i)
    requires forall j :: 0 <= j < |db.tokens| ==> db.tokens[j].value != tokenValue
    requires now <= later < now + HourMs && MeetsPolicy(newPassword)
    ensures var issued := ForgotPasswordNext(db, env, email, now, tokenValue, true).db;
      && TokensOwned(issued.users, issued.tokens)
      && var step := ResetPasswordNext(issued, tokenValue, newPassword, newPassword, later);
      && step.out == Returned(())
      && step.db.users == db.users[i := WithPassword(db.users[i], newPassword)]
      && step.db.tokens == db.tokens
  {
    var issued := ForgotPasswordNext(db, env, email, now, tokenValue, true).db;
    ForgotPasswordKeepsValid(db, env, email, now, tokenValue, true);
    NoViolationsIffPolicy(newPassword);
    var t := NewToken(db.users[i].id, PASSWORD_RESET, tokenValue, now);
    assert issued.tokens == db.tokens + [t];
    assert TokenMatches(issued.tokens[|db.tokens|], tokenValue, PASSWORD_RESET, None, later);
    assert FindToken(issued.tokens, tokenValue, PASSWORD_RESET, None, later) == Some(|db.tokens|);
    FindOwnId(db.users, i);
    assert RemoveAt(issued.tokens, |db.tokens|) == db.tokens;
  }

  // ---------------------------------------------------------------- sessions

  /** `getSessions`: the user's active sessions, each once, most recently used first. */
  lemma GetSessionsListsActive(db: Db, userId: string)
    ensures var r := GetSessions(db, userId);
      && SortedDesc(r, LastUsed)
      && (forall s :: s in r <==> s in db.sessions && s.userId == userId && s.isActive)
      && multiset(r) <= multiset(db.sessions)
  {
    var active := ActiveSessionsOf(db.sessions, userId);
    var r := SortDesc(active, LastUsed);
    forall s ensures s in r <==> s in active {
      assert s in r <==> s in multiset(r);
      assert s in active <==> s in multiset(active);
    }
  }

  /** `logoutSession` closes the caller's own session and nothing else; any other id is a 404. */
  lemma LogoutSessionEffect(db: Db, userId: string, sessionId: string)
    ensures var step := LogoutSessionNext(db, userId, sessionId);
      && (step.out.Returned? <==> exists j :: 0 <= j < |db.sessions| && db.sessions[j].id == sessionId && db.sessions[j].userId == userId)
      && (step.out.Raised? ==> step == Fails(db, SessionNotFound))
      && step.db.users == db.users && step.db.tokens == db.tokens && step.db.activities == db.activities
      && |step.db.sessions| == |db.sessions|
      && (forall j :: 0 <= j < |db.sessions| && db.sessions[j].id != sessionId ==> step.db.sessions[j] == db.sessions[j])
  {
  }

  /** A closed session is no longer listed. */
  lemma LoggedOutSessionNotListed(db: Db, userId: string, sessionId: string)
    requires ValidDb(db)
    ensures forall s :: s in GetSessions(LogoutSessionNext(db, userId, sessionId).db, userId) ==> s.id != sessionId
  {
    var step := LogoutSessionNext(db, userId, sessionId);
    GetSessionsListsActive(step.db, userId);
    var k := FindSession(db.sessions, sessionId, userId);
    if k.Some? {
      forall s | s in step.db.sessions && s.isActive ensures s.id != sessionId {
        var j :| 0 <= j < |step.db.sessions| && step.db.sessions[j] == s;
        if j != k.value {
          assert step.db.sessions[j] == db.sessions[j];
        }
      }
    }
  }

  lemma {:induction false} DeactivateLeavesOthers(sessions: seq<Session>, userId: string, other: string)
    requires other != userId
    ensures ActiveSessionsOf(DeactivateSessionsOf(sessions, userId), other) == ActiveSessionsOf(sessions, other)
  {
    if |sessions| > 0 {
      var d := DeactivateSessionsOf(sessions, userId);
      DeactivateLeavesOthers(sessions[1..], userId, other);
      assert d[1..] == DeactivateSessionsOf(sessions[1..], userId);
      assert (d[0].userId == other && d[0].isActive) <==> (sessions[0].userId == other && sessions[0].isActive);
      assert d[0].userId == other ==> d[0] == sessions[0];
    }
  }

  lemma {:induction false} DeactivateLeavesNone(sessions: seq<Session>, userId: string)
    ensures ActiveSessionsOf(DeactivateSessionsOf(sessions, userId), userId) == []
  {
    if |sessions| > 0 {
      DeactivateLeavesNone(sessions[1..], userId);
      assert DeactivateSessionsOf(sessions, userId)[1..] == DeactivateSessionsOf(sessions[1..], userId);
    }
  }

  /** `logoutAllSessions` closes every session of the user and leaves every other user's list as it was. */
  lemma LogoutAllSessionsEffect(db: Db, userId: string, other: string)
    requires other != userId
    ensures var after := LogoutAllSessionsNext(db, userId).db;
      && GetSessions(after, userId) == []
      && GetSessions(after, other) == GetSessions(db, other)
      && after.users == db.users && after.tokens == db.tokens && after.activities == db.activities
  {
    var after := LogoutAllSessionsNext(db, userId).db;
    DeactivateLeavesOthers(db.sessions, userId, other);
    DeactivateLeavesNone(db.sessions, userId);
  }

  // ---------------------------------------------------------------- admin

  /** An unknown target is a 404 before the self check; a known one is refused for oneself except by reactivation. */
  lemma AdminTargetChecks(db: Db, userId: string, role: Role, adminId: string, now: int, activityId: string)
    ensures FindUserById(db.users, userId).None? ==>
      && ChangeUserRoleNext(db, userId, role, adminId, now, activityId) == Fails(db, UserNotFound)
      && DeactivateUserNext(db, userId, adminId, now, activityId) == Fails(db, UserNotFound)
      && ReactivateUserNext(db, userId, adminId, now, activityId) == Fails(db, UserNotFound)
    ensures FindUserById(db.users, userId).Some? && userId == adminId ==>
      && ChangeUserRoleNext(db, userId, role, adminId, now, activityId) == Fails(db, CannotChangeOwnRole)
      && DeactivateUserNext(db, userId, adminId, now, activityId) == Fails(db, CannotDeactivateSelf)
      && ReactivateUserNext(db, userId, adminId, now, activityId).out == Returned(())
  {
  }

  /** Each successful admin action updates one flag of the target and appends exactly one audit row. */
  lemma AdminActionsAudited(db: Db, userId: string, role: Role, adminId: string, now: int, activityId: string, i: nat)
    requires FindUserById(db.users, userId) == Some(i) && userId != adminId
    ensures var s := ChangeUserRoleNext(db, userId, role, adminId, now, activityId);
      s.out == Returned(()) && s.db.users == db.users[i := db.users[i].(role := role)]
      && s.db.activities == db.activities + [Activity(activityId, userId, ROLE_CHANGE, "Role changed to " + RoleName(role) + " by admin " + adminId, now)]
      && s.db.tokens == db.tokens && s.db.sessions == db.sessions
    ensures var s := DeactivateUserNext(db, userId, adminId, now, activityId);
      s.out == Returned(()) && s.db.users == db.users[i := db.users[i].(isActive := false)]
      && |s.db.activities| == |db.activities| + 1 && s.db.activities[..|db.activities|] == db.activities
      && s.db.activities[|db.activities|].kind == ACCOUNT_DEACTIVATED && s.db.activities[|db.activities|].userId == userId
      && s.db.tokens == db.tokens && s.db.sessions == db.sessions
    ensures var s := ReactivateUserNext(db, userId, adminId, now, activityId);
      s.out == Returned(()) && s.db.users == db.users[i := db.users[i].(isActive := true)]
      && |s.db.activities| == |db.activities| + 1 && s.db.activities[..|db.activities|] == db.activities
      && s.db.activities[|db.activities|].kind == ACCOUNT_REACTIVATED && s.db.activities[|db.activities|].userId == userId
      && s.db.tokens == db.tokens && s.db.sessions == db.sessions
  {
  }

  /** `getUserActivity`: a 404 for an unknown user, otherwise exactly the user's rows, newest first. */
  lemma UserActivityNewestFirst(db: Db, userId: string)
    ensures var r := GetUserActivity(db, userId);
      && (r.Raised? <==> FindUserById(db.users, userId).None?)
      && (r.Raised? ==> r.thrown == ThrownApi(UserNotFound))
      && (r.Returned? ==>
            && (forall a, b :: 0 <= a < b < |r.value| ==> r.value[a].createdAt >= r.value[b].createdAt)
            && (forall v :: v in r.value <==> exists e :: e in db.activities && e.userId == userId && v == ToActivityView(e)))
  {
    if FindUserById(db.users, userId).Some? {
      var mine := ActivitiesOf(db.activities, userId);
      var sorted := SortDesc(mine, CreatedAt);
      var r := Views(sorted);
      forall v ensures v in r <==> exists e :: e in db.activities && e.userId == userId && v == ToActivityView(e) {
        if v in r {
          var k :| 0 <= k < |r| && r[k] == v;
          assert sorted[k] in multiset(mine);
        }
        if e :| e in db.activities && e.userId == userId && v == ToActivityView(e) {
          assert e in multiset(sorted);
          var k :| 0 <= k < |sorted| && sorted[k] == e;
          assert r[k] == v;
        }
      }
    }
  }

  /** Deactivation does not stop a login: neither `login` nor `authenticate` reads `isActive`. */
  lemma DeactivatedAccountStillLogsIn(db: Db, env: Env, userId: string, adminId: string, now: int, activityId: string,
                                      email: string, password: string, later: int, sessionId: string,
                                      otpValue: string, mailDelivered: bool, i: nat)
    requires LoginReady(db, email, i) && Matches(password, db.users[i].password) && !db.users[i].isMfaEnabled
    requires FindUserById(db.users, userId) == Some(i) && userId != adminId
    ensures var after := DeactivateUserNext(db, userId, adminId, now, activityId).db;
      !after.users[i].isActive
      && LoginNext(after, env, email, password, later, sessionId, otpValue, mailDelivered).out
         == Returned(Authenticated(after.users[i]))
  {
    UpdateKeepsEmailLookup(db.users, i, db.users[i].(isActive := false), Lower(email));
  }

  // ---------------------------------------------------------------- the mailed OTP

  /** As written: an OTP the schema accepts never matches a stored token, since every stored value is 64 hex digits. */
  lemma SchemaOtpNeverVerifies(db: Db, userId: string, otp: string, now: int)
    requires ValidDb(db) && IsOtpCode(otp)
    ensures VerifyMfaNext(db, userId, otp, now) == Fails(db, InvalidOtp)
  {
    assert forall j :: 0 <= j < |db.tokens| ==> |db.tokens[j].value| == 64;
  }

  /** As written: the code mailed at login is refused by `verifyMfa` at any time. */
  lemma MailedCodeRefused(db: Db, env: Env, email: string, password: string, now: int, sessionId: string,
                          otpValue: string, offset: nat, userId: string, later: int)
    requires ValidDb(db) && SessionIdFresh(db.sessions, sessionId) && IsRandomTokenValue(otpValue) && offset < 900000
    ensures var after := LoginNext(db, env, email, password, now, sessionId, otpValue, true).db;
      ValidDb(after) && VerifyMfaNext(after, userId, MailedOtp(offset), later).out == Raised(ThrownApi(InvalidOtp))
  {
    var after := LoginNext(db, env, email, password, now, sessionId, otpValue, true).db;
    LoginKeepsValid(db, env, email, password, now, sessionId, otpValue, true);
    MailedOtpIsOtpCode(offset);
    SchemaOtpNeverVerifies(after, userId, MailedOtp(offset), later);
  }

  /** Corrected: `login` whose OTP row holds the code it mails. */
  function LoginStoringMailedCode(db: Db, env: Env, email: string, password: string, now: int, sessionId: string,
                                  offset: nat, mailDelivered: bool): Step<AuthResponse>
    requires offset < 900000
  {
    LoginNext(db, env, email, password, now, sessionId, MailedOtp(offset), mailDelivered)
  }

  /** Corrected: the mailed code, sent back within five minutes, completes the login. */
  lemma MailedCodeVerifies(db: Db, env: Env, email: string, password: string, now: int, sessionId: string,
                           offset: nat, later: int, i: nat)
    requires ValidDb(db) && offset < 900000
    requires LoginReady(db, email, i) && Matches(password, db.users[i].password) && db.users[i].isMfaEnabled
    requires now <= later < now + 5 * MinuteMs
    ensures var step := LoginStoringMailedCode(db, env, email, password, now, sessionId, offset, true);
      && step.out == Raised(ThrownApi(MfaPending))
      && TokensOwned(step.db.users, step.db.tokens)
      && VerifyMfaNext(step.db, db.users[i].id, MailedOtp(offset), later).out == Returned(Authenticated(db.users[i]))
  {
    var u := db.users[i];
    var code := MailedOtp(offset);
    var step := LoginStoringMailedCode(db, env, email, password, now, sessionId, offset, true);
    var users1 := db.users[i := AfterLogin(u, now)];
    UpdateKeepsUnique(db.users, i, AfterLogin(u, now));
    FindOwnId(db.users, i);
    assert step.db.users == users1;
    assert step.db.tokens == db.tokens + [NewToken(u.id, OTP, code, now)];
    assert TokenMatches(step.db.tokens[|db.tokens|], code, OTP, Some(u.id), later);
    var k := FindToken(step.db.tokens, code, OTP, Some(u.id), later);
    assert k.Some?;
    assert step.db.tokens[k.value].userId == u.id;
  }
}
