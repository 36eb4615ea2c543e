/**
 * Every store-changing operation keeps `ValidDb`: unique ids, emails and
 * phone numbers, tokens that belong to existing users and carry random
 * values, and unique session ids.
 */
module AuthInvariants {
  import opened Wrappers
  import opened Text
  import opened Config
  import opened Errors
  import opened PasswordPolicy
  import opened Store
  import opened AuthSpec

  predicate SessionIdFresh(sessions: seq<Session>, id: string)
  {
    forall j :: 0 <= j < |sessions| ==> sessions[j].id != id
  }

  predicate UserIdFresh(users: seq<User>, id: string)
  {
    FindUserById(users, id).None?
  }

  lemma UpdateUserKeepsValid(db: Db, i: nat, u: User)
    requires ValidDb(db) && i < |db.users|
    requires u.id == db.users[i].id && u.email == db.users[i].email && u.phoneNumber == db.users[i].phoneNumber
    ensures ValidDb(db.(users := db.users[i := u]))
  {
    UpdateKeepsUnique(db.users, i, u);
  }

  lemma AddTokenKeepsValid(db: Db, t: Token)
    requires ValidDb(db) && FindUserById(db.users, t.userId).Some? && IsRandomTokenValue(t.value)
    ensures ValidDb(db.(tokens := db.tokens + [t]))
  {
  }

  lemma RemoveTokenKeepsValid(db: Db, k: nat)
    requires ValidDb(db) && k < |db.tokens|
    ensures ValidDb(db.(tokens := RemoveAt(db.tokens, k)))
  {
  }

  lemma {:induction false} UsersExceptFresh(users: seq<User>, u: User)
    requires FindUserById(users, u.id).None?
    ensures UsersExcept(users + [u], u.id) == users
  {
    if |users| > 0 {
      assert (users + [u])[1..] == users[1..] + [u];
      UsersExceptFresh(users[1..], u);
    }
  }

  lemma {:induction false} TokensExceptFresh(tokens: seq<Token>, t: Token)
    requires forall k :: 0 <= k < |tokens| ==> tokens[k].userId != t.userId
    ensures TokensExcept(tokens + [t], t.userId) == tokens
  {
    if |tokens| > 0 {
      assert (tokens + [t])[1..] == tokens[1..] + [t];
      TokensExceptFresh(tokens[1..], t);
    }
  }

  /** The rollback of a registration leaves exactly the tables found before it. */
  lemma RollbackRestores(db: Db, u: User, t: Token)
    requires ValidDb(db) && UserIdFresh(db.users, u.id) && t.userId == u.id
    ensures WithoutUser(db.(users := db.users + [u], tokens := db.tokens + [t]), u.id) == db
  {
    UsersExceptFresh(db.users, u);
    forall k | 0 <= k < |db.tokens| ensures db.tokens[k].userId != t.userId {
      var owner := FindUserById(db.users, db.tokens[k].userId);
      assert owner.Some?;
    }
    TokensExceptFresh(db.tokens, t);
  }

  lemma AddUserKeepsValid(db: Db, u: User)
    requires ValidDb(db) && UserIdFresh(db.users, u.id)
    requires FindUserByEmail(db.users, u.email).None? && !PhoneTaken(db.users, u.phoneNumber, None)
    ensures ValidDb(db.(users := db.users + [u]))
    ensures forall id :: FindUserById(db.users, id).Some? ==> FindUserById(db.users + [u], id) == FindUserById(db.users, id)
    ensures FindUserById(db.users + [u], u.id) == Some(|db.users|)
  {
    var us := db.users + [u];
    forall id | FindUserById(db.users, id).Some?
      ensures FindUserById(us, id) == FindUserById(db.users, id)
    {
      AppendKeepsLookup(db.users, u, id);
    }
    forall i, j | 0 <= i < j < |us|
      ensures us[i].id != us[j].id && us[i].email != us[j].email && us[i].phoneNumber != us[j].phoneNumber
    {
      if j == |db.users| {
        assert us[i] == db.users[i];
        assert us[j] == u;
      }
    }
    assert us[|db.users|] == u;
    assert FindUserById(us, u.id).Some?;
  }

  lemma {:induction false} AppendKeepsLookup(users: seq<User>, u: User, id: string)
    requires FindUserById(users, id).Some?
    ensures FindUserById(users + [u], id) == FindUserById(users, id)
  {
    if users[0].id != id {
      assert (users + [u])[1..] == users[1..] + [u];
      AppendKeepsLookup(users[1..], u, id);
    }
  }

  lemma RegisterKeepsValid(db: Db, env: Env, input: RegisterInput, now: int, userId: string,
                           tokenValue: string, mailDelivered: bool)
    requires ValidDb(db) && UserIdFresh(db.users, userId) && IsRandomTokenValue(tokenValue)
    ensures ValidDb(RegisterNext(db, env, input, now, userId, tokenValue, mailDelivered).db)
  {
    if input.password == input.confirmPassword && Violations(input.password) == []
       && FindUserByEmail(db.users, Lower(input.email)).None? && !PhoneTaken(db.users, input.phoneNumber, None)
    {
      var u := NewUser(input, userId, now, AutoVerified(env));
      AddUserKeepsValid(db, u);
      var created := db.(users := db.users + [u]);
      var t := NewToken(userId, EMAIL_VERIFICATION, tokenValue, now);
      AddTokenKeepsValid(created, t);
      if !AutoVerified(env) && !mailDelivered && !IsDevelopment(env) {
        RollbackRestores(db, u, t);
      }
    }
  }

  lemma VerifyEmailKeepsValid(db: Db, value: string, now: int)
    requires ValidDb(db)
    ensures ValidDb(VerifyEmailNext(db, value, now).db)
  {
    var k := FindToken(db.tokens, value, EMAIL_VERIFICATION, None, now);
    if k.Some? {
      var i := FindUserById(db.users, db.tokens[k.value].userId).value;
      var removed := db.(tokens := RemoveAt(db.tokens, k.value));
      RemoveTokenKeepsValid(db, k.value);
      UpdateUserKeepsValid(removed, i, db.users[i].(isEmailVerified := true));
    }
  }

  lemma LoginKeepsValid(db: Db, env: Env, email: string, password: string, now: int, sessionId: string,
                        otpValue: string, mailDelivered: bool)
    requires ValidDb(db) && SessionIdFresh(db.sessions, sessionId) && IsRandomTokenValue(otpValue)
    ensures ValidDb(LoginNext(db, env, email, password, now, sessionId, otpValue, mailDelivered).db)
  {
    var found := FindUserByEmail(db.users, Lower(email));
    if found.Some? {
      var i := found.value;
      var u := db.users[i];
      UpdateUserKeepsValid(db, i, AfterFailedLogin(u));
      UpdateUserKeepsValid(db, i, AfterLogin(u, now));
      var updated := db.(users := db.users[i := AfterLogin(u, now)]);
      UpdateKeepsUnique(db.users, i, AfterLogin(u, now));
      var loggedIn := updated.(sessions := updated.sessions + [NewSession(sessionId, u.id, now)]);
      assert ValidDb(loggedIn);
      FindOwnId(updated.users, i);
      AddTokenKeepsValid(loggedIn, NewToken(u.id, OTP, otpValue, now));
    }
  }

  lemma VerifyMfaKeepsValid(db: Db, userId: string, otp: string, now: int)
    requires ValidDb(db)
    ensures ValidDb(VerifyMfaNext(db, userId, otp, now).db)
  {
    var k := FindToken(db.tokens, otp, OTP, Some(userId), now);
    if k.Some? {
      RemoveTokenKeepsValid(db, k.value);
    }
  }

  lemma UpdateProfileKeepsValid(db: Db, userId: string, d: ProfileUpdate, now: int)
    requires ValidDb(db)
    ensures ValidDb(UpdateProfileNext(db, userId, d, now).db)
  {
    var found := FindUserById(db.users, userId);
    if found.Some? && !(d.phoneNumber.Some? && PhoneTaken(db.users, d.phoneNumber.value, Some(userId))) {
      var i := found.value;
      var u := ApplyProfile(db.users[i], d, now);
      var us := db.users[i := u];
      if d.phoneNumber.Some? {
        forall j | 0 <= j < |db.users| && j != i
          ensures db.users[j].phoneNumber != d.phoneNumber.value
        {
          assert db.users[j].id != userId;
        }
      }
      assert UsersUnique(us);
      forall id ensures FindUserById(us, id) == FindUserById(db.users, id) {
        UpdateKeepsLookup(db.users, i, u, id);
      }
    }
  }

  lemma ChangePasswordKeepsValid(db: Db, userId: string, current: string, newPassword: string)
    requires ValidDb(db)
    ensures ValidDb(ChangePasswordNext(db, userId, current, newPassword).db)
  {
    var found := FindUserById(db.users, userId);
    if found.Some? {
      UpdateUserKeepsValid(db, found.value, WithPassword(db.users[found.value], newPassword));
    }
  }

  lemma ForgotPasswordKeepsValid(db: Db, env: Env, email: string, now: int, tokenValue: string, mailDelivered: bool)
    requires ValidDb(db) && IsRandomTokenValue(tokenValue)
    ensures ValidDb(ForgotPasswordNext(db, env, email, now, tokenValue, mailDelivered).db)
  {
    var found := FindUserByEmail(db.users, Lower(email));
    if found.Some? {
      FindOwnId(db.users, found.value);
      AddTokenKeepsValid(db, NewToken(db.users[found.value].id, PASSWORD_RESET, tokenValue, now));
    }
  }

  lemma ResetPasswordKeepsValid(db: Db, value: string, newPassword: string, confirm: string, now: int)
    requires ValidDb(db)
    ensures ValidDb(ResetPasswordNext(db, value, newPassword, confirm, now).db)
  {
    var k := FindToken(db.tokens, value, PASSWORD_RESET, None, now);
    if k.Some? && newPassword == confirm && Violations(newPassword) == [] {
      var i := FindUserById(db.users, db.tokens[k.value].userId).value;
      var removed := db.(tokens := RemoveAt(db.tokens, k.value));
      RemoveTokenKeepsValid(db, k.value);
      UpdateUserKeepsValid(removed, i, WithPassword(db.users[i], newPassword));
    }
  }

  lemma LogoutSessionKeepsValid(db: Db, userId: string, sessionId: string)
    requires ValidDb(db)
    ensures ValidDb(LogoutSessionNext(db, userId, sessionId).db)
  {
  }

  lemma LogoutAllSessionsKeepsValid(db: Db, userId: string)
    requires ValidDb(db)
    ensures ValidDb(LogoutAllSessionsNext(db, userId).db)
  {
  }

  lemma AdminActionsKeepValid(db: Db, userId: string, role: Role, adminId: string, now: int, activityId: string)
    requires ValidDb(db)
    ensures ValidDb(ChangeUserRoleNext(db, userId, role, adminId, now, activityId).db)
    ensures ValidDb(DeactivateUserNext(db, userId, adminId, now, activityId).db)
    ensures ValidDb(ReactivateUserNext(db, userId, adminId, now, activityId).db)
  {
    var found := FindUserById(db.users, userId);
    if found.Some? {
      var u := db.users[found.value];
      UpdateUserKeepsValid(db, found.value, u.(role := role));
      UpdateUserKeepsValid(db, found.value, u.(isActive := false));
      UpdateUserKeepsValid(db, found.value, u.(isActive := true));
    }
  }
}
