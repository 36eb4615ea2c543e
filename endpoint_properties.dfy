/**
 * What a client sees: the handlers of `AuthController` composed with the
 * service transitions and, where a handler re-throws, with `errorHandler`.
 */
module EndpointProperties {
  import opened Wrappers
  import opened Text
  import opened Config
  import opened Errors
  import opened Store
  import opened AuthSpec
  import opened AuthProperties
  import opened PasswordPolicy
  import opened AuthInvariants
  import Controller

  /**
   * What `POST /register` answers. Every outcome is written, none re-thrown.
   * A 201 comes exactly from a registration that stored the account, and its
   * body spreads the token and the stored row's projection. A password outside
   * the policy is a 400 that lists every broken rule under `errors`. Every
   * other refusal carries no `errors`.
   */
  lemma RegisterAnswers(db: Db, env: Env, input: RegisterInput, now: int, userId: string,
                        tokenValue: string, mailDelivered: bool)
    requires ValidDb(db) && UserIdFresh(db.users, userId)
    ensures var step := RegisterNext(db, env, input, now, userId, tokenValue, mailDelivered);
      var r := Controller.Register(step.out);
      && r.Reply?
      && (r.response.statusCode == 201 <==> step.out.Returned?)
      && (step.out.Returned? ==>
            && r.response.body.status == Success
            && r.response.body.message == Some(Controller.RegisteredMessage)
            && r.response.body.extra == Merged(Authenticated(step.db.users[|db.users|])))
      && (input.password == input.confirmPassword && !MeetsPolicy(input.password) ==>
            r == Controller.Reply(Response(400, Body(Failed, Some("Password validation failed"),
                                                     Some(ServiceMessages(Violations(input.password))), None, None, NoExtra))))
      && (step.out.Raised? && !(input.password == input.confirmPassword && !MeetsPolicy(input.password)) ==>
            r.response.body.errors == None)
      && (step.out.Raised? ==> step.out.thrown == ThrownApi(RegisterFailure(step.out.thrown)))
  {
    RegisterFailsCleanly(db, env, input, now, userId, tokenValue, mailDelivered);
    if RegisterNext(db, env, input, now, userId, tokenValue, mailDelivered).out.Returned? {
      RegisterStoresNormalized(db, env, input, now, userId, tokenValue, mailDelivered);
    }
  }

  /**
   * `register`'s outer catch seen from the client: whatever the try block
   * throws, the handler writes a reply and hands nothing to `errorHandler`.
   * An ApiError keeps its status, message and `errors`; anything else is
   * answered 500 "Registration failed. Please try again later."
   */
  lemma RegisterCatchAnswers(t: Thrown)
    ensures var r := Controller.Register(Raised(ThrownApi(RegisterFailure(t))));
      && r.Reply?
      && r.response.body.status == Failed
      && (t.ThrownApi? ==>
            r == Controller.Reply(Response(t.api.statusCode, Body(Failed, Some(t.api.message), t.api.errors, None, None, NoExtra))))
      && (t.ThrownOther? ==>
            r == Controller.Reply(Response(500, Message(Failed, "Registration failed. Please try again later."))))
  {
  }

  /** A correct password on an MFA account is answered 202 "pending", and the body carries no token. */
  lemma MfaLoginAnswersPending(db: Db, env: Env, email: string, password: string, now: int, sessionId: string,
                               otpValue: string, i: nat)
    requires LoginReady(db, email, i) && Matches(password, db.users[i].password)
    requires db.users[i].isMfaEnabled
    ensures var r := Controller.Login(LoginNext(db, env, email, password, now, sessionId, otpValue, true).out);
      && r == Controller.Reply(Response(202, Message(Pending, "MFA code sent to your email")))
      && r.response.body.extra == NoExtra
  {
    SuccessfulLogin(db, env, email, password, now, sessionId, otpValue, true, i);
  }

  /** An unknown email and a wrong password get the same 401 answer. */
  lemma RefusedLoginsAnswerAlike(db: Db, env: Env, email: string, password: string, now: int, sessionId: string,
                                 otpValue: string, mailDelivered: bool)
    requires FindUserByEmail(db.users, Lower(email)).None?
      || (var i := FindUserByEmail(db.users, Lower(email)).value;
          LoginReady(db, email, i) && !Matches(password, db.users[i].password))
    ensures Controller.Login(LoginNext(db, env, email, password, now, sessionId, otpValue, mailDelivered).out)
      == Controller.Reply(Response(401, Message(Failed, "Invalid credentials")))
  {
    LoginFailuresLookAlike(db, env, email, password, now, sessionId, otpValue, mailDelivered);
  }

  /** `verify-mfa` sits behind `authenticate`: without a user id it is a 401 whatever the code. */
  lemma VerifyMfaNeedsBearer(db: Db, otp: string, now: int)
    requires TokensOwned(db.users, db.tokens)
    ensures Controller.VerifyMfa(None, otp, (id: string, code: string) => VerifyMfaNext(db, id, code, now).out)
      == Controller.Reply(Response(401, Message(Failed, "Authentication required")))
  {
  }

  /** `logout` answers 200 exactly when the session is the caller's, and 404 otherwise. */
  lemma LogoutAnswers(db: Db, userId: string, sessionId: string)
    requires userId != ""
    ensures var r := Controller.Logout(Some(userId), sessionId, (u: string, s: string) => LogoutSessionNext(db, u, s).out);
      && (FindSession(db.sessions, sessionId, userId).Some? ==>
            r == Controller.Reply(Response(200, Message(Success, "Logged out successfully."))))
      && (FindSession(db.sessions, sessionId, userId).None? ==>
            r == Controller.Reply(Response(404, Message(Failed, "Session not found"))))
  {
    var out := LogoutSessionNext(db, userId, sessionId).out;
    assert Controller.Logout(Some(userId), sessionId, (u: string, s: string) => LogoutSessionNext(db, u, s).out)
      == Controller.Acknowledge(out, Controller.LoggedOutMessage);
  }

  /** An empty phone number skips the service's own check, so a clash with another account
      surfaces as the unique-index error, which `errorHandler` answers with 400. */
  lemma EmptyPhoneClashIsDuplicate(db: Db, userId: string, d: ProfileUpdate, now: int, env: Env)
    requires userId != "" && FindUserById(db.users, userId).Some?
    requires d.phoneNumber == Some("") && PhoneTaken(db.users, "", Some(userId))
    ensures var r := Controller.UpdateProfile(Some(userId), d, (u: string, e: ProfileUpdate) => UpdateProfileNext(db, u, e, now).out);
      && r.Rethrow?
      && ErrorHandler<()>(r.err, false, env) == Respond(Response(400, Message(Failed, "A record with this value already exists")))
  {
    var out := UpdateProfileNext(db, userId, d, now).out;
    assert out == Raised(ThrownOther(UniqueConstraintFailure));
    assert Controller.UpdateProfile(Some(userId), d, (u: string, e: ProfileUpdate) => UpdateProfileNext(db, u, e, now).out)
      == Controller.Acknowledge(out, Controller.ProfileUpdatedMessage);
  }

  /** `forgot-password` answers the same whether the email is registered, unknown, or the mail failed. */
  lemma ForgotPasswordAnswersAlike(db: Db, env: Env, email: string, now: int, tokenValue: string, mailDelivered: bool,
                                   db2: Db, env2: Env, email2: string, now2: int, tokenValue2: string, mailDelivered2: bool)
    ensures Controller.ForgotPassword(ForgotPasswordNext(db, env, email, now, tokenValue, mailDelivered).out)
      == Controller.ForgotPassword(ForgotPasswordNext(db2, env2, email2, now2, tokenValue2, mailDelivered2).out)
  {
  }
}
