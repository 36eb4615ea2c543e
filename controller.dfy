/**
 * `AuthController` (src/controllers/auth.controller.ts): how each handler
 * turns the service's outcome into a response, or re-throws it to the error
 * handler. A service call is a function from its arguments to its outcome.
 */
module Controller {
  import opened Wrappers
  import opened Errors
  import opened Store
  import opened AuthSpec

  /** A handler writes a response, or re-throws what the service threw. */
  datatype Reply<D> = Reply(response: Response<D>) | Rethrow(err: Thrown)

  const RegisteredMessage := "Registration successful! Please check your email to verify your account."
  const EmailVerifiedMessage := "Email verified successfully. You can now log in."
  const LoginMessage := "Login successful! Welcome back."
  const MfaVerifiedMessage := "MFA verification successful."
  const ProfileUpdatedMessage := "Profile updated successfully."
  const PasswordChangedMessage := "Password changed successfully."
  const ResetRequestedMessage := "If your email is registered, you will receive password reset instructions."
  const PasswordResetMessage := "Password reset successful. You can now log in with your new password."
  const LoggedOutMessage := "Logged out successfully."
  const LoggedOutAllMessage := "Logged out from all devices successfully."

  const AuthenticationRequired := ApiError(401, "Authentication required", None)

  /** The `catch` shared by the handlers: an ApiError is written with status "error"; anything else goes on. */
  function Catch<D>(t: Thrown, withErrors: bool): (r: Reply<D>)
    ensures r.Rethrow? <==> t.ThrownOther?
    ensures r.Rethrow? ==> r.err == t
    ensures r.Reply? ==>
      && r.response.statusCode == t.api.statusCode && r.response.body.status == Failed
      && r.response.body.message == Some(t.api.message) && r.response.body.extra == NoExtra
      && r.response.body.errors == (if withErrors then t.api.errors else None)
  {
    match t
    case ThrownApi(e) =>
      Reply(Response(e.statusCode, Body(Failed, Some(e.message), if withErrors then e.errors else None, None, None, NoExtra)))
    case ThrownOther(_) => Rethrow(t)
  }

  /** A 200 success with a fixed message, for the handlers whose service returns nothing. */
  function Acknowledge(out: ServiceOutcome<()>, message: string): (r: Reply<()>)
    ensures out.Returned? ==> r == Reply(Response(200, Message(Success, message)))
    ensures out.Raised? ==> r == Catch(out.thrown, false)
  {
    match out
    case Returned(_) => Reply(Response(200, Message(Success, message)))
    case Raised(t) => Catch(t, false)
  }

  /** `req.user?.id`, when truthy. */
  predicate HasUserId(userId: Option<string>)
  {
    userId.Some? && userId.value != ""
  }

  // ---------------------------------------------------------------- handlers

  function Register(out: ServiceOutcome<AuthResponse>): (r: Reply<AuthResponse>)
    ensures out.Returned? ==> r == Reply(Response(201, Body(Success, Some(RegisteredMessage), None, None, None, Merged(out.value))))
    ensures out.Raised? ==> r == Catch(out.thrown, true)
  {
    match out
    case Returned(a) => Reply(Response(201, Body(Success, Some(RegisteredMessage), None, None, None, Merged(a))))
    case Raised(t) => Catch(t, true)
  }

  function VerifyEmail(out: ServiceOutcome<()>): Reply<()>
  {
    Acknowledge(out, EmailVerifiedMessage)
  }

  /** `login`: an ApiError with status 202 is the MFA "pending" answer. */
  function Login(out: ServiceOutcome<AuthResponse>): (r: Reply<AuthResponse>)
    ensures out.Returned? ==> r == Reply(Response(200, Body(Success, Some(LoginMessage), None, None, None, Merged(out.value))))
    ensures out.Raised? && out.thrown.ThrownApi? && out.thrown.api.statusCode == 202 ==>
      r == Reply(Response(202, Message(Pending, out.thrown.api.message)))
    ensures out.Raised? && out.thrown.ThrownApi? && out.thrown.api.statusCode != 202 ==>
      r == Reply(Response(out.thrown.api.statusCode, Message(Failed, out.thrown.api.message)))
    ensures out.Raised? && out.thrown.ThrownOther? ==> r == Rethrow(out.thrown)
  {
    match out
    case Returned(a) => Reply(Response(200, Body(Success, Some(LoginMessage), None, None, None, Merged(a))))
    case Raised(t) =>
      if t.ThrownApi? && t.api.statusCode == 202 then Reply(Response(202, Message(Pending, t.api.message)))
      else Catch(t, false)
  }

  /** The handlers behind `authenticate`: no user id is a 401 before the service is called. */
  function WithUser<D>(userId: Option<string>, run: string -> Reply<D>): (r: Reply<D>)
    ensures !HasUserId(userId) ==> r == Reply(Response(401, Message(Failed, "Authentication required")))
    ensures HasUserId(userId) ==> r == run(userId.value)
  {
    if !HasUserId(userId) then Catch(ThrownApi(AuthenticationRequired), false) else run(userId.value)
  }

  function VerifyMfa(userId: Option<string>, otp: string, verifyMfa: (string, string) -> ServiceOutcome<AuthResponse>): Reply<AuthResponse>
  {
    WithUser(userId, (id: string) =>
      match verifyMfa(id, otp)
      case Returned(a) => Reply(Response(200, Body(Success, Some(MfaVerifiedMessage), None, None, None, Merged(a))))
      case Raised(t) => Catch(t, false))
  }

  function GetProfile(userId: Option<string>, getProfile: string -> ServiceOutcome<UserView>): Reply<UserView>
  {
    WithUser(userId, (id: string) =>
      match getProfile(id)
      case Returned(v) => Reply(Response(200, Body(Success, None, None, None, None, DataField(v))))
      case Raised(t) => Catch(t, false))
  }

  function UpdateProfile(userId: Option<string>, d: ProfileUpdate, update: (string, ProfileUpdate) -> ServiceOutcome<()>): Reply<()>
  {
    WithUser(userId, (id: string) => Acknowledge(update(id, d), ProfileUpdatedMessage))
  }

  function ChangePassword(userId: Option<string>, current: string, newPassword: string,
                          change: (string, string, string) -> ServiceOutcome<()>): Reply<()>
  {
    WithUser(userId, (id: string) => Acknowledge(change(id, current, newPassword), PasswordChangedMessage))
  }

  /** `forgotPassword`: the same 200 whatever the service did. */
  function ForgotPassword(out: ServiceOutcome<()>): (r: Reply<()>)
    ensures r == Reply(Response(200, Message(Success, ResetRequestedMessage)))
  {
    Reply(Response(200, Message(Success, ResetRequestedMessage)))
  }

  function ResetPassword(out: ServiceOutcome<()>): Reply<()>
  {
    Acknowledge(out, PasswordResetMessage)
  }

  function GetSessions(userId: Option<string>, sessions: string -> seq<Session>): Reply<seq<Session>>
  {
    WithUser(userId, (id: string) => Reply(Response(200, Body(Success, None, None, None, None, DataField(sessions(id))))))
  }

  /** `logout`: `sessionId` is handed to the service as it came in the body. */
  function Logout(userId: Option<string>, sessionId: string, logout: (string, string) -> ServiceOutcome<()>): Reply<()>
  {
    WithUser(userId, (id: string) => Acknowledge(logout(id, sessionId), LoggedOutMessage))
  }

  function LogoutAll(userId: Option<string>, logoutAll: string -> ServiceOutcome<()>): Reply<()>
  {
    WithUser(userId, (id: string) => Acknowledge(logoutAll(id), LoggedOutAllMessage))
  }
}
