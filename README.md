# Account and authentication core of an e-commerce backend, in Dafny

This project models the authentication core of the Ecommerce-Platform-Backend
service (TypeScript, Express, Prisma, zod). It covers six parts:

- **The account store.** These are the four tables `AuthService` changes:
  users, tokens, sessions and user activity. Each one is a sequence in row
  order.
- **A transition per service operation.** Module `AuthSpec` maps the tables
  before a call, and the values read from the clock, the random source and the
  mail transport, to the tables after the call and the value returned or the
  error thrown.
- **An imperative class.** `AuthService.AuthStore` holds the four tables as
  fields. Each method is proved to move them, and to return or throw, exactly
  as its transition says. Each method also keeps the store invariant
  `Store.ValidDb`. That invariant says:
  - user ids, emails and phone numbers are unique;
  - every token belongs to an existing user and holds 64 hex digits;
  - session ids are unique.
- **The request guards, the error handler and the controller.** `authenticate`
  and `authorize(roles)`, `authorizeAdmin`, `authorizeOwnerOrAdmin`,
  `errorHandler`, and each handler of `AuthController` become decisions from
  their inputs to a response.
- **The zod request schemas.** Each schema becomes a function listing the
  issues it reports, with a lemma that says exactly when that list is empty.
- **Properties.** Module `AuthProperties` holds the service-level properties:
  - the login lockout;
  - single-use, expiring tokens;
  - the order of the registration checks and the rollback;
  - password change and reset round trips;
  - session listing and logout;
  - the admin audit trail.

  Module `EndpointProperties` composes handlers with the transitions.

Symbolic stand-ins:

- A password hash is `Hash(secret)`, and `bcrypt.compare` is `Matches`.
- A signed JWT is its claims, `AuthToken(id, email, role)`, and `jwt.verify`
  is a function parameter.
- `now`, the random values (`userId`, `tokenValue`, `sessionId`, `activityId`,
  `otpValue`, the OTP offset) and the mail transport's outcome `mailDelivered` are
  parameters.
- The Prisma unique-constraint error is the value `UniqueConstraintFailure`.

Files:

- `wrappers.dfy`: `Option`.
- `text.dfy`: JavaScript whitespace, UTF-16 length, `trim`, ASCII
  `toLowerCase`, and `split(" ")` with its inverse.
- `config.dfy`: the environment variables.
- `errors.dfy`: `ApiError` and `errorHandler`.
- `password_policy.dfy`: the four password rules.
- `ordering.dfy`: the newest-first ordering of query results.
- `store.dfy`: the data model, lookups and the invariant.
- `auth_spec.dfy`: the transitions.
- `auth_invariants.dfy`: every transition keeps `ValidDb`.
- `auth_service.dfy`: the class.
- `auth_properties.dfy`, `endpoint_properties.dfy`: the properties.
- `guards.dfy`: the request guards.
- `controller.dfy`: the handlers.
- `auth_validation.dfy`, `admin_validation.dfy`: the schemas.

Notes on the code as modelled:
- The pattern at src/validations/auth.validation.ts:76 refuses the dashed
  international form "+1-555-123-4567", because three digits must follow the
  optional `+`. `AuthValidation.DashedInternationalNumberRefused` states it.
- The schema and the service word the password rules differently
  (`SchemaMessage` and `ServiceMessage`). Both wordings are kept as the code
  has them.
- Every length the code checks (`password.length`, zod's `min`, `max` and
  `length`) counts UTF-16 code units, as JavaScript does. `Text.JsLength`
  models that: a character above U+FFFF counts two.
- `EmailService.sendEmail` skips sending and returns normally in auto-verify
  mode (src/services/email.service.ts:47-56). `AuthSpec.MailSent` models
  this, and the transport's outcome only matters outside that mode.
- The route `GET /verify-email/:token` runs `validate(emailVerificationSchema)`
  (src/routes/auth.routes.ts:90-92), and `validate` parses `req.body`
  (src/middlewares/validate.middleware.ts:25), not the path parameter. A
  verification request without a JSON body carrying `token` is therefore
  refused with 400 before `verifyEmail` runs. Routes are not part of this
  model, so this is recorded and not proved.

## Model

| member | source | states |
|---|---|---|
| Store.RoleName | src/types/auth.types.ts:37 | the name of a role is one of the two enum strings "ADMIN", "CUSTOMER" |
| Store.ParseRole | src/validations/admin.validation.ts:15-17 | `changeRoleSchema`: a role string is accepted exactly when it is one of the two enum names, and then names that role |
| Store.RoleNameRoundTrip | src/validations/admin.validation.ts:15-17 | parsing the name of a role gives back that role |
| Store.MatchesOnlyItsPassword | src/services/auth.service.ts:505 | a stored hash accepts exactly the password it was made from |
| Store.FindUserById | src/services/auth.service.ts:584-590 | `findUnique` by id: the index found holds that id and is the first such row; none is found exactly when no row has the id |
| Store.FindUserByEmail | src/services/auth.service.ts:489-495 | `findUnique` by email: the first row with that email, or none exactly when no row has it |
| Store.FindToken | src/services/auth.service.ts:462-469 | the token lookup: the row found matches value, type, owner (when given) and `expiresAt > now`; none exactly when no row matches |
| Store.FindSession | src/services/auth.service.ts:726-735 | the session lookup by id and owner: the row found has both; none exactly when no row has both |
| Store.RemoveAt | src/services/auth.service.ts:480-482 | deleting one row leaves the other rows in order |
| Store.FindOwnId | src/services/auth.service.ts:584-586 | under unique ids, looking up a row's id finds that row |
| Store.FindOwnEmail | src/services/auth.service.ts:489-491 | under unique emails, looking up a row's email finds that row |
| Store.UpdateKeepsUnique | src/services/auth.service.ts:605-611 | an update that keeps id, email and phone keeps the users table unique and every id lookup unchanged |
| Store.UpdateKeepsLookup | src/services/auth.service.ts:605-611 | an update that keeps a row's id does not change the id lookup |
| Store.Authenticated | src/services/auth.service.ts:527-542 | the login answer: the token claims and the returned user carry the account's id, email and role |
| Text.ToLowerChar | src/services/auth.service.ts:359 | an ASCII capital is shifted by 32; every other character is kept; the result is never an ASCII capital |
| Text.Lower | src/services/auth.service.ts:359 | `toLowerCase` on ASCII letters: each ASCII capital becomes its small letter and every other character is kept, so the length is kept |
| Text.LowerIdempotent | src/services/auth.service.ts:380 | lower-casing a stored (already lower-cased) email changes nothing |
| Text.Trim | src/services/auth.service.ts:382-383 | `trim()`: the result is the slice of the input after its leading whitespace, with whitespace at neither end, and only whitespace follows it |
| Text.TrimKeepsClean | src/services/auth.service.ts:382-383 | a string with no whitespace at either end is its own trim |
| Text.JsLength | src/services/auth.service.ts:836 | `.length` counts UTF-16 units: at least one and at most two per character, and exactly one per character when none lies above U+FFFF |
| Text.JsLengthConcat | src/services/auth.service.ts:836 | the UTF-16 length of a concatenation is the sum of the lengths |
| Text.SplitOnSpace | src/middlewares/auth.middleware.ts:17 | `split(" ")` gives at least one field and no field holds a space |
| Text.JoinSplit | src/middlewares/auth.middleware.ts:17 | joining the fields of `split(" ")` with spaces gives back the header |
| Text.SplitJoin | src/middlewares/auth.middleware.ts:17 | splitting space-free fields joined with spaces gives back those fields |
| PasswordPolicy.ViolationsMeaning | src/services/auth.service.ts:834-853 | a rule is reported exactly when the password breaks it (the length rule on UTF-16 units); reports come in the fixed order length, uppercase, digit, special, each once |
| PasswordPolicy.AstralPasswordMeetsPolicy | src/services/auth.service.ts:836 | "Ab1!" followed by two emoji is six characters but eight UTF-16 units, and meets the policy |
| PasswordPolicy.NoViolationsIffPolicy | src/services/auth.service.ts:834-853 | nothing is reported exactly when the password meets all four rules |
| PasswordPolicy.ServiceMessagesByRule | src/services/auth.service.ts:834-853 | the service's message list is, rule by rule, the message of each broken rule |
| AuthService.ValidatePassword | src/services/auth.service.ts:834-853 | the method pushing one message per broken rule throws exactly when the password breaks a rule, and then throws 400 "Password validation failed" with every broken rule's message in rule order |
| AuthValidation.PasswordSchemaMatchesService | src/validations/auth.validation.ts:69-74 | `passwordValidation` reports on the same rules as the service, in the same order, so it accepts exactly the passwords that meet the policy |
| AuthValidation.PasswordIssuesOnPath | src/validations/auth.validation.ts:69-74 | every password issue is reported on the field being checked |
| AuthValidation.RenderedPhoneMatches | src/validations/auth.validation.ts:76 | every number made of `+`?, `(`?, 3 digits, `)`?, a separator?, 3 digits, a separator?, 4-6 digits matches `phoneRegex` |
| AuthValidation.ParsePhone | src/validations/auth.validation.ts:76 | every string `phoneRegex` matches is such a number: the parts found render back to the string |
| AuthValidation.DashedInternationalNumberRefused | src/validations/auth.validation.ts:76 | "+1-555-123-4567" does not match the pattern |
| AuthValidation.NameIssuesMeaning | src/validations/auth.validation.ts:80-89 | a name passes exactly when its UTF-16 length is 2 to 50, and issues are reported on the name's field |
| AuthValidation.AstralNamePasses | src/validations/auth.validation.ts:80-84 | a single emoji, two UTF-16 units, meets `min(2)` |
| AuthValidation.BlankNamePasses | src/validations/auth.validation.ts:80-84 | the bounds run before `trim()`: two spaces pass and trim to the empty name |
| AuthValidation.RegisterSchemaMeaning | src/validations/auth.validation.ts:78-99 | `registerSchema` accepts exactly when both names are 2 to 50 UTF-16 units long, the email is well formed, the phone matches, the password meets the policy, the role is ADMIN or CUSTOMER and the confirmation equals the password |
| AuthValidation.RegisterMismatchReported | src/validations/auth.validation.ts:94-99 | the "Passwords do not match" issue on `confirmPassword` is reported exactly when the role parsed and the two passwords differ: a role outside `z.enum` makes the object invalid and the refinement is skipped |
| AuthValidation.LoginIssues | src/validations/auth.validation.ts:101-104 | `loginSchema` accepts exactly a well-formed email with a non-empty password |
| AuthValidation.ChangePasswordSchemaMeaning | src/validations/auth.validation.ts:106-115 | `changePasswordSchema` accepts exactly a non-empty current password with a new password that meets the policy and equals its confirmation; the mismatch is reported exactly when they differ |
| AuthValidation.ResetPasswordSchemaMeaning | src/validations/auth.validation.ts:140-149 | `resetPasswordSchema` accepts exactly a non-empty token with a new password that meets the policy and equals its confirmation; the mismatch is reported exactly when they differ |
| AuthValidation.ProfileSchemaMeaning | src/validations/auth.validation.ts:117-134 | `updateProfileSchema` accepts exactly when each field that is present meets its bound or pattern |
| AuthValidation.ForgotPasswordIssues | src/validations/auth.validation.ts:136-138 | `forgotPasswordSchema` accepts exactly a well-formed email |
| AuthValidation.MfaIssues | src/validations/auth.validation.ts:151-156 | `mfaVerificationSchema` accepts exactly six UTF-16 units that are all decimal digits, that is six ASCII digits |
| AuthValidation.EmailVerificationIssues | src/validations/auth.validation.ts:158-160 | `emailVerificationSchema` accepts exactly a non-empty token |
| AuthValidation.Decimal | src/services/auth.service.ts:807 | `toString()` of a number gives at least one character, all decimal digits |
| AuthValidation.DecimalLength | src/services/auth.service.ts:807 | a number between 10^(k-1) and 10^k is written with k digits |
| AuthValidation.MailedOtpIsOtpCode | src/services/auth.service.ts:807 | every code `sendMfaCode` mails is one the MFA schema accepts |
| AdminValidation.FilterFaults | src/validations/admin.validation.ts:4-13 | `userFilterSchema` refuses exactly when a present role is not an enum name, a present page is below 1, a present limit is outside [1, 100], or a present sort order is not "asc"/"desc", each reported |
| AdminValidation.EmptyFilterAccepted | src/validations/admin.validation.ts:4-13 | every filter field is optional |
| AdminValidation.AdminActionAccepts | src/validations/admin.validation.ts:19-21 | `adminActionSchema` accepts exactly a non-empty reason |
| Ordering.Insert | src/services/auth.service.ts:715-723 | inserting into a newest-first list keeps it newest first and adds exactly the element |
| Ordering.SortDesc | src/services/auth.service.ts:715-723 | `orderBy: desc` gives a permutation of the rows whose keys never increase |
| AuthSpec.NewToken | src/services/auth.service.ts:758-768 | `createToken`: the row is the owner's, of the kind, with the value, and matches at a time exactly while it is before `now` plus the kind's lifetime (24 h, 1 h, 5 min) |
| AuthSpec.MailSent | src/services/email.service.ts:45-78 | `sendEmail` returns normally exactly in auto-verify mode, where it skips sending, or when the transport accepts the message |
| AuthSpec.RegisterNext | src/services/auth.service.ts:347-459 | `register`: the four checks in order, the new row, the verification token outside auto-verify mode, and the rollback when the mail fails outside development |
| AuthSpec.VerifyEmailNext | src/services/auth.service.ts:461-485 | `verifyEmail`: a live verification token marks its owner verified and is deleted; otherwise 400 |
| AuthSpec.LoginNext | src/services/auth.service.ts:488-543 | `login`: unknown email, unverified, locked and wrong-password refusals in that order; then the counter reset, a session, and either the token or the OTP row and 202 |
| AuthSpec.VerifyMfaNext | src/services/auth.service.ts:545-580 | `verifyMfa`: a live OTP row of the user is deleted and the user gets a token; otherwise 401 |
| AuthSpec.UpdateProfileNext | src/services/auth.service.ts:583-614 | `updateProfile`: 404 for an unknown id, 400 for a non-empty phone held by another user, the unique-index error for an empty one, else the three fields applied |
| AuthSpec.ChangePasswordNext | src/services/auth.service.ts:617-657 | `changePassword`: 404, wrong current password, unchanged password, the policy, then the new hash with the counter zeroed |
| AuthSpec.ForgotPasswordNext | src/services/auth.service.ts:659-673 | `forgotPassword`: nothing for an unknown email; otherwise a one-hour reset token and the mail |
| AuthSpec.ResetPasswordNext | src/services/auth.service.ts:675-712 | `resetPassword`: a live reset token, matching passwords and the policy, then the new hash, the counter zeroed and the token deleted |
| AuthSpec.GetSessions | src/services/auth.service.ts:715-723 | `getSessions`: the user's active sessions, most recently used first |
| AuthSpec.LogoutSessionNext | src/services/auth.service.ts:725-743 | `logoutSession`: the caller's session becomes inactive; otherwise 404 |
| AuthSpec.LogoutAllSessionsNext | src/services/auth.service.ts:745-755 | `logoutAllSessions`: every active session of the user becomes inactive |
| AuthSpec.GetAllUsers | src/services/auth.service.ts:877-914 | `getAllUsers`: the projections of the users the built `where` selects |
| AuthSpec.ChangeUserRoleNext | src/services/auth.service.ts:941-967 | `changeUserRole`: 404, then 400 on self, then the new role and one ROLE_CHANGE activity row |
| AuthSpec.DeactivateUserNext | src/services/auth.service.ts:969-993 | `deactivateUser`: 404, then 400 on self, then `isActive` false and one ACCOUNT_DEACTIVATED row |
| AuthSpec.ReactivateUserNext | src/services/auth.service.ts:995-1014 | `reactivateUser`: 404, then `isActive` true and one ACCOUNT_REACTIVATED row |
| AuthSpec.GetUserActivity | src/services/auth.service.ts:1016-1032 | `getUserActivity`: 404 for an unknown user, else the user's activity rows newest first |
| AuthSpec.RegisterFailure | src/services/auth.service.ts:445-458 | `register`'s outer catch re-throws an ApiError unchanged and turns anything else into 500 "Registration failed. Please try again later."; `EndpointProperties.RegisterCatchAnswers` gives the client's view of it, and `RegisterAnswers` shows every error `RegisterNext` raises passes it unchanged |
| AuthSpec.ApplyProfile | src/services/auth.service.ts:605-611 | the profile update sets each field given and keeps each field not given, changing no other column but `updatedAt` |
| AuthSpec.ActiveSessionsOf | src/services/auth.service.ts:716-721 | the rows listed are exactly the user's active sessions, each no more often than stored |
| AuthSpec.DeactivateSessionsOf | src/services/auth.service.ts:745-755 | `updateMany`: exactly the user's active sessions become inactive; every other row is kept |
| AuthSpec.BuildWhere | src/services/auth.service.ts:877-894 | the `where` object selects a user exactly when the filters admit it: a given role and flag must match, and a non-empty search term must occur in email, first or last name |
| AuthSpec.ListUsers | src/services/auth.service.ts:896-913 | every listed view is the projection of a stored user the `where` selects, and every such user is listed |
| AuthSpec.GetUserById | src/services/auth.service.ts:916-939 | a 404 "User not found" exactly when no row has the id; otherwise the projection of that row |
| AuthSpec.ActivitiesOf | src/services/auth.service.ts:1020-1023 | the activity rows listed are exactly the user's |
| AuthSpec.Views | src/services/auth.service.ts:1020-1029 | the activity projection keeps order and length |
| AuthInvariants.UpdateUserKeepsValid | src/services/auth.service.ts:605-611 | an update that keeps id, email and phone keeps the store invariant |
| AuthInvariants.AddTokenKeepsValid | src/services/auth.service.ts:758-768 | a new random-valued token of an existing user keeps the invariant |
| AuthInvariants.RemoveTokenKeepsValid | src/services/auth.service.ts:480-482 | deleting a token keeps the invariant |
| AuthInvariants.UsersExceptFresh | src/services/auth.service.ts:412-414 | deleting a just-added user leaves the users found before |
| AuthInvariants.TokensExceptFresh | src/services/auth.service.ts:412-414 | deleting the tokens of a just-added user leaves the tokens found before |
| AuthInvariants.RollbackRestores | src/services/auth.service.ts:410-419 | the rollback after a failed verification mail leaves exactly the tables found before the registration |
| AuthInvariants.AddUserKeepsValid | src/services/auth.service.ts:378-391 | a user with a fresh id, email and phone keeps the invariant and every earlier id lookup |
| AuthInvariants.AppendKeepsLookup | src/services/auth.service.ts:378-391 | appending a row keeps every id lookup that already succeeded |
| AuthInvariants.RegisterKeepsValid | src/services/auth.service.ts:347-459 | `register` keeps the store invariant |
| AuthInvariants.VerifyEmailKeepsValid | src/services/auth.service.ts:461-485 | `verifyEmail` keeps the store invariant |
| AuthInvariants.LoginKeepsValid | src/services/auth.service.ts:488-543 | `login` keeps the store invariant |
| AuthInvariants.VerifyMfaKeepsValid | src/services/auth.service.ts:545-580 | `verifyMfa` keeps the store invariant |
| AuthInvariants.UpdateProfileKeepsValid | src/services/auth.service.ts:583-614 | `updateProfile` keeps the store invariant, phone uniqueness included |
| AuthInvariants.ChangePasswordKeepsValid | src/services/auth.service.ts:617-657 | `changePassword` keeps the store invariant |
| AuthInvariants.ForgotPasswordKeepsValid | src/services/auth.service.ts:659-673 | `forgotPassword` keeps the store invariant |
| AuthInvariants.ResetPasswordKeepsValid | src/services/auth.service.ts:675-712 | `resetPassword` keeps the store invariant |
| AuthInvariants.LogoutSessionKeepsValid | src/services/auth.service.ts:725-743 | `logoutSession` keeps the store invariant |
| AuthInvariants.LogoutAllSessionsKeepsValid | src/services/auth.service.ts:745-755 | `logoutAllSessions` keeps the store invariant |
| AuthInvariants.AdminActionsKeepValid | src/services/auth.service.ts:941-1014 | the three admin actions keep the store invariant |
| AuthService.AuthStore.CreateToken | src/services/auth.service.ts:758-768 | appends the new token row and changes no other table |
| AuthService.AuthStore.CreateSession | src/services/auth.service.ts:770-779 | appends one active session with login's placeholder device data and changes no other table |
| AuthService.AuthStore.IncrementLoginAttempts | src/services/auth.service.ts:855-862 | adds one to the user's `loginAttempts` and changes nothing else |
| AuthService.AuthStore.UpdateLoginSuccess | src/services/auth.service.ts:864-872 | sets the user's `loginAttempts` to 0 and `lastLogin` to now, and changes nothing else |
| AuthService.AuthStore.SendMfaCode | src/services/auth.service.ts:806-817 | stores a `createToken` row of kind OTP with the random value, not with the code mailed, and reports whether the mail service returned normally |
| AuthService.AuthStore.DeleteUser | src/services/auth.service.ts:412-414 | removes the user and the user's tokens |
| AuthService.AuthStore.UpdateUserAt | src/services/auth.service.ts:605-611 | replaces one user row and nothing else |
| AuthService.AuthStore.Register | src/services/auth.service.ts:347-459 | the new tables and the answer are `RegisterNext`'s, and the invariant is kept |
| AuthService.AuthStore.VerifyEmail | src/services/auth.service.ts:461-485 | the new tables and the answer are `VerifyEmailNext`'s, and the invariant is kept |
| AuthService.AuthStore.Login | src/services/auth.service.ts:488-543 | the new tables and the answer are `LoginNext`'s, and the invariant is kept |
| AuthService.AuthStore.VerifyMfa | src/services/auth.service.ts:545-580 | the new tables and the answer are `VerifyMfaNext`'s, and the invariant is kept |
| AuthService.AuthStore.UpdateProfile | src/services/auth.service.ts:583-614 | the new tables and the answer are `UpdateProfileNext`'s, and the invariant is kept |
| AuthService.AuthStore.ChangePassword | src/services/auth.service.ts:617-657 | the new tables and the answer are `ChangePasswordNext`'s, and the invariant is kept |
| AuthService.AuthStore.ForgotPassword | src/services/auth.service.ts:659-673 | the new tables and the answer are `ForgotPasswordNext`'s, and the invariant is kept |
| AuthService.AuthStore.ResetPassword | src/services/auth.service.ts:675-712 | the new tables and the answer are `ResetPasswordNext`'s, and the invariant is kept |
| AuthService.AuthStore.LogoutSession | src/services/auth.service.ts:725-743 | the new tables and the answer are `LogoutSessionNext`'s, and the invariant is kept |
| AuthService.AuthStore.LogoutAllSessions | src/services/auth.service.ts:745-755 | the new tables and the answer are `LogoutAllSessionsNext`'s, and the invariant is kept |
| AuthService.AuthStore.GetAllUsers | src/services/auth.service.ts:877-914 | the `where` object built field by field lists exactly the projections of the users the filters admit |
| AuthService.AuthStore.ChangeUserRole | src/services/auth.service.ts:941-967 | the new tables and the answer are `ChangeUserRoleNext`'s, and the invariant is kept |
| AuthService.AuthStore.DeactivateUser | src/services/auth.service.ts:969-993 | the new tables and the answer are `DeactivateUserNext`'s, and the invariant is kept |
| AuthService.AuthStore.ReactivateUser | src/services/auth.service.ts:995-1014 | the new tables and the answer are `ReactivateUserNext`'s, and the invariant is kept |
| AuthProperties.SameEmailsSameLookup | src/services/auth.service.ts:489-491 | the email lookup depends on the emails alone |
| AuthProperties.UpdateKeepsEmailLookup | src/services/auth.service.ts:489-491 | an update that keeps a row's email does not change any email lookup |
| AuthProperties.LoginFailuresLookAlike | src/services/auth.service.ts:493-509 | an unknown email and a wrong password on a ready account both give 401 "Invalid credentials" |
| AuthProperties.LockoutPrecedesPassword | src/services/auth.service.ts:501-505 | a verified account with 5 or more failures gives 403 whatever the password, and nothing is written |
| AuthProperties.WrongPasswordCountsOnce | src/services/auth.service.ts:505-509 | a wrong password adds exactly one to the counter and changes nothing else |
| AuthProperties.WithAttemptsTwice | src/services/auth.service.ts:855-862 | setting the counter twice is setting it once |
| AuthProperties.WithAttemptsLookup | src/services/auth.service.ts:855-862 | changing the counter does not change the email lookup |
| AuthProperties.CountingSeries | src/services/auth.service.ts:855-862 | attempts that each add one to the counter add up to their number |
| AuthProperties.WrongPasswordAt | src/services/auth.service.ts:497-509 | one wrong password below the limit moves the counter from c to c + 1 |
| AuthProperties.WrongPasswordsAccumulate | src/services/auth.service.ts:497-509 | a series of wrong passwords within the limit raises the counter by their number and changes nothing else |
| AuthProperties.FiveFailuresLock | src/services/auth.service.ts:497-509 | five wrong passwords from a zero counter lock the account: the next login gives 403 even with the right password |
| AuthProperties.SuccessfulLogin | src/services/auth.service.ts:511-525 | a right password on a ready account sets the counter to 0 and `lastLogin` to now and adds one session; without MFA it returns the token; with MFA it adds one five-minute OTP row and throws 202 with no token (or the mail error) |
| AuthProperties.AutoVerifySkipsMail | src/services/email.service.ts:47-56 | in auto-verify mode neither `login` nor `forgotPassword` can fail on the mail |
| AuthProperties.RemovedValueGone | src/services/auth.service.ts:480-482 | once the only row with a value is deleted, no row holds that value |
| AuthProperties.ConsumeKeepsOwners | src/services/auth.service.ts:475-482 | consuming a token and updating its owner keeps every token owned |
| AuthProperties.VerifyEmailAccepts | src/services/auth.service.ts:461-485 | `verifyEmail` succeeds exactly when a live verification token has the value; a failure is a 400 that writes nothing; a success marks the owner verified and deletes one token |
| AuthProperties.ResetPasswordAccepts | src/services/auth.service.ts:675-712 | `resetPassword` succeeds exactly on a live reset token with matching passwords that meet the policy; a refusal writes nothing and an expired token is refused; a success sets the owner's hash, zeroes the counter and deletes the token, and nothing else |
| AuthProperties.VerifyMfaAccepts | src/services/auth.service.ts:545-580 | `verifyMfa` succeeds exactly on a live OTP row of that user; a refusal is the 401 and writes nothing, and an expired OTP is refused; a success deletes that row only and answers with the user's token |
| AuthProperties.VerifyEmailSingleUse | src/services/auth.service.ts:461-485 | a verification token cannot be used a second time |
| AuthProperties.ResetPasswordSingleUse | src/services/auth.service.ts:675-712 | a reset token cannot be used a second time |
| AuthProperties.VerifyMfaSingleUse | src/services/auth.service.ts:545-580 | an OTP cannot be used a second time |
| AuthProperties.RegisterFailsCleanly | src/services/auth.service.ts:350-373 | mismatch, then policy, then the lower-cased email, then the phone decide the error in that order, and any failure leaves the tables as they were |
| AuthProperties.RegisterMailFailure | src/services/auth.service.ts:408-420 | a failed verification mail keeps the account in development mode and otherwise deletes it again with 500 |
| AuthProperties.RegisterStoresNormalized | src/services/auth.service.ts:378-391 | a new account stores the lower-cased email, trimmed names, a zero counter, the role given and the password's hash, is verified exactly in auto-verify mode, and gets a verification token otherwise |
| AuthProperties.RegisteredEmailTakenInAnyCase | src/services/auth.service.ts:357-364 | after a registration the same email in any letter case is refused with "Email already exists" |
| AuthProperties.RegisterThenLogin | src/services/auth.service.ts:347-543 | in auto-verify mode a new account logs in at once with its password, under any letter case of its email, and gets the answer registration gave |
| AuthProperties.ChangePasswordOrder | src/services/auth.service.ts:617-657 | 404, then 401 for a wrong current password, then 400 for an unchanged password, then the policy; success exactly when all pass |
| AuthProperties.ChangePasswordEffect | src/services/auth.service.ts:643-654 | a refused change writes nothing; a change replaces the hash with the new password's, zeroes the counter and changes nothing else, so only the new password matches |
| AuthProperties.ChangePasswordRoundTrip | src/services/auth.service.ts:617-657 | after a change the old password gets "Invalid credentials" and the new one logs in, even on a locked account |
| AuthProperties.ForgotThenReset | src/services/auth.service.ts:659-712 | the reset token issued by `forgotPassword`, used within the hour, sets the new password, resets the counter and is deleted |
| AuthProperties.GetSessionsListsActive | src/services/auth.service.ts:715-723 | `getSessions` lists exactly the user's active sessions, each no more often than stored, most recently used first |
| AuthProperties.LogoutSessionEffect | src/services/auth.service.ts:725-743 | success exactly when the session is the user's; otherwise a 404 that writes nothing; on success only that session can change |
| AuthProperties.LoggedOutSessionNotListed | src/services/auth.service.ts:725-743 | after `logoutSession` the session is no longer listed |
| AuthProperties.DeactivateLeavesOthers | src/services/auth.service.ts:745-755 | `updateMany` on one user leaves every other user's active sessions as they were |
| AuthProperties.DeactivateLeavesNone | src/services/auth.service.ts:745-755 | after `updateMany` the user has no active session |
| AuthProperties.LogoutAllSessionsEffect | src/services/auth.service.ts:745-755 | the user's session list becomes empty, every other user's list is unchanged, and no other table changes |
| AuthProperties.AdminTargetChecks | src/services/auth.service.ts:941-1014 | an unknown target is a 404 before the self check; self-targeting gives 400 for role change and deactivation, and reactivation has no self check |
| AuthProperties.AdminActionsAudited | src/services/auth.service.ts:941-1014 | each successful admin action changes one field of the target and appends exactly one activity row of its type, and touches neither tokens nor sessions |
| AuthProperties.UserActivityNewestFirst | src/services/auth.service.ts:1016-1032 | a 404 exactly for an unknown user; otherwise exactly the projections of the user's activity rows, newest first |
| AuthProperties.DeactivatedAccountStillLogsIn | src/services/auth.service.ts:488-543 | a deactivated account still logs in: `login` never reads `isActive` |
| AuthProperties.SchemaOtpNeverVerifies | src/services/auth.service.ts:545-558 | as written, an OTP the schema accepts never matches a stored token, because stored values are 64 hex digits |
| AuthProperties.MailedCodeRefused | src/services/auth.service.ts:806-817 | as written, the code mailed at login is refused by `verifyMfa` at any later time |
| AuthProperties.MailedCodeVerifies | src/services/auth.service.ts:806-817 | corrected (the OTP row stores the mailed code): login answers 202, and the mailed code sent back within five minutes completes the login |
| Guards.AuthorizeAdmin | src/middlewares/authorize.middleware.ts:6-27 | `authorizeAdmin` never throws; with no user it passes on 401, with a non-ADMIN role 403 "Admin access required", and proceeds exactly for ADMIN |
| Guards.AuthorizeOwnerOrAdmin | src/middlewares/authorize.middleware.ts:29-51 | proceeds exactly for an ADMIN or the owner of the requested id; otherwise it passes on 401 with no user and 403 with one, never throwing |
| Guards.Authorize | src/middlewares/auth.middleware.ts:41-48 | `authorize(roles)` throws 403 exactly when there is no user or the role is not listed |
| Guards.AdminGuardsAgree | src/middlewares/authorize.middleware.ts:6-27 | `authorizeAdmin` admits exactly whom `authorize(["ADMIN"])` admits |
| Guards.OwnerOrAdminWidensAdmin | src/middlewares/authorize.middleware.ts:29-51 | whoever passes `authorizeAdmin` passes `authorizeOwnerOrAdmin` |
| Guards.BearerToken | src/middlewares/auth.middleware.ts:17-20 | a token found is non-empty and holds no space |
| Guards.BearerTokenOfFields | src/middlewares/auth.middleware.ts:17-20 | the token is the header's second space-separated field when it is non-empty, and nothing otherwise |
| Guards.BearerTokenReadsSecondField | src/middlewares/auth.middleware.ts:17 | "scheme token" yields the token, whatever the scheme |
| Guards.NoSpaceNoToken | src/middlewares/auth.middleware.ts:17-20 | a header without a space carries no token |
| Guards.Authenticate | src/middlewares/auth.middleware.ts:11-39 | admitted exactly when there is a token, it verifies to an id and a stored user has it; the user is then filled in from that row; every failure is the one 401 "Invalid token" |
| Guards.RoleComesFromStore | src/middlewares/auth.middleware.ts:22-34 | the user admitted is the stored row's, with its stored role and no name |
| Errors.ErrorHandler | src/middlewares/error.middleware.ts:17-66 | headers sent: passed on, nothing written; an ApiError: its status, message and errors; a string code: 400 "A record with this value already exists" for P2002, else 500 "Database operation failed"; anything else: 500 "Internal server error", details and stack only in development |
| Errors.NoInternalsOutsideDevelopment | src/middlewares/error.middleware.ts:57-65 | outside development no details or stack reach the client, and a non-ApiError gets one of three fixed messages |
| Errors.StatusOfNonApiErrors | src/middlewares/error.middleware.ts:39-65 | a non-ApiError is answered 400 or 500, and 400 exactly for code P2002 |
| Controller.Catch | src/controllers/auth.controller.ts:160-175 | an ApiError is written with its status, its message and status "error"; anything else is re-thrown unchanged |
| Controller.Acknowledge | src/controllers/auth.controller.ts:178-197 | success answers 200 with the handler's message; a failure goes through the shared catch |
| Controller.Register | src/controllers/auth.controller.ts:146-176 | the reply depends on the service outcome alone: 201 "success" with the result spread into the body, or the catch with `errors` passed on; `EndpointProperties.RegisterAnswers` composes it with `register` |
| Controller.Login | src/controllers/auth.controller.ts:199-231 | success answers 200 with the result merged in; an ApiError of status 202 answers 202 "pending"; any other ApiError keeps its status with "error"; anything else is re-thrown |
| Controller.WithUser | src/controllers/auth.controller.ts:235-238 | without a user id the handler answers 401 "Authentication required" before calling the service |
| Controller.ForgotPassword | src/controllers/auth.controller.ts:336-353 | the same 200 whatever the service returned or threw |
| EndpointProperties.RegisterAnswers | src/controllers/auth.controller.ts:146-176 | `register` is never re-thrown; 201 exactly when the account was stored, with the token and the stored row's projection; a policy failure answers 400 with every broken rule under `errors`; every other refusal has no `errors`; every error raised is an ApiError the outer catch passes on unchanged |
| EndpointProperties.RegisterCatchAnswers | src/services/auth.service.ts:445-458 | whatever register's try block throws, the handler writes a reply and re-throws nothing: an ApiError with its own status, message and `errors`, anything else as 500 "Registration failed. Please try again later." |
| EndpointProperties.MfaLoginAnswersPending | src/controllers/auth.controller.ts:213-220 | a right password on an MFA account answers 202 "pending" with no token in the body |
| EndpointProperties.RefusedLoginsAnswerAlike | src/controllers/auth.controller.ts:223-227 | an unknown email and a wrong password get the same 401 answer |
| EndpointProperties.VerifyMfaNeedsBearer | src/controllers/auth.controller.ts:233-238 | `verify-mfa` without a user answers 401 whatever the code |
| EndpointProperties.LogoutAnswers | src/controllers/auth.controller.ts:401-426 | `logout` answers 200 exactly when the session is the caller's, and 404 "Session not found" otherwise |
| EndpointProperties.EmptyPhoneClashIsDuplicate | src/services/auth.service.ts:592-611 | at service level, an empty phone skips the service's check, so a clash is re-thrown by the handler and answered 400 by the error handler; through the route this path is not reached, because `updateProfileSchema` refuses an empty phone first (src/routes/auth.routes.ts:141-144, `AuthValidation.ProfileSchemaMeaning`) |
| EndpointProperties.ForgotPasswordAnswersAlike | src/controllers/auth.controller.ts:336-353 | `forgot-password` gives the same answer for a registered email, an unknown one, and a failed mail |

## Left out

- Password hashing: bcrypt is kept symbolic, so the hash is injective. The
  salt, the cost factor and bcrypt's 72-byte input limit are not modelled.
- JWT: signing and verification (RFC 7519, HS256 per section 3.2 of RFC 7518)
  are left out. A token is its claims, and `jwt.verify` is a function
  parameter that yields the `id` claim or nothing.
- Non-deterministic inputs are parameters: `crypto.randomBytes`,
  `Math.random`, `new Date()` and the mail transport's success. Mail content
  and the templates are left out.
- AuthSpec.MailFailure: the stack of the `Error` the mail service throws is
  modelled by its first line only; the frames depend on the runtime.
- Text.Lower: lower-cases ASCII capitals only. JavaScript `toLowerCase`
  also lower-cases every other Unicode capital, and can lengthen the string
  (U+0130 becomes two code units). So two emails that differ only in
  non-ASCII case are distinct here, while the source's lookups see them
  as one.
- AuthSpec.ContainsInsensitive: the case-insensitive search of the user list
  folds ASCII letters only, where the database's `mode: "insensitive"`
  folds all of Unicode.
- Prisma errors: a failing database call other than the phone unique-index
  refusal on profile update is not modelled. Races between requests are not
  modelled either.
- The zod `.email()` grammar belongs to the library. It is the parameter
  `isEmail`. The library's wording for an enum refusal is taken as
  `RoleIssue`.
- `validate` discards the parsed body (src/middlewares/validate.middleware.ts:25).
  So the schemas are recognisers only, and their `toLowerCase`/`trim`
  transforms are not chained into the service. The service does its own
  lower-casing and trimming, which the model keeps.
- The sessionId passed to the service: `logout` passes `req.body.sessionId` on
  as it came. The model takes it as a string. A missing `sessionId`, which
  would make the Prisma filter ignore the id, is not modelled.
- Mass assignment: `updateProfile` spreads the whole request body into the
  update. The model applies only the three schema fields, first name, last
  name and phone number. Any other column a client could send is not modelled.
- AuthSpec.WithoutUser: the rollback deletes the tokens of the deleted user
  with it, because the relation is taken to cascade. The database schema is
  not part of this model.
- AuthService.AuthStore.Login: keeps the behaviour as written, storing the
  random value and mailing a different code. The corrected behaviour is
  `AuthProperties.LoginStoringMailedCode`, and `AuthProperties.MailedCodeVerifies`
  proves it. The class stays as written so that it describes the code, and
  because the store invariant `ValidDb` says every token value is 64 hex
  digits.
- AuthProperties.VerifyEmailSingleUse, AuthProperties.ResetPasswordSingleUse,
  AuthProperties.VerifyMfaSingleUse: these assume that no other token row holds
  the same value (`ValueUnique`). The source relies on 32 random bytes for
  this rather than on a unique index.
- Role and activation checks: `login` and `authenticate` never read
  `isActive`, and `register` accepts the role ADMIN from the request. The model
  keeps both as written; see `AuthProperties.DeactivatedAccountStillLogsIn`.
- `authenticate` fills `req.user.name` from a column the user row does not
  have, so it is always absent (`Guards.FromRow`).
- MFA routing: `verify-mfa` sits behind `authenticate`, while the MFA login
  answer carries no token. So a client that just logged in has no bearer
  token to call it with (`EndpointProperties.MfaLoginAnswersPending`,
  `EndpointProperties.VerifyMfaNeedsBearer`). This is recorded, not corrected.
- `userFilterSchema` is bound to the request body, while `getAllUsers` reads
  the query string. The filters the service receives and the schema are
  modelled separately, and the route wiring is not modelled. The admin
  controller passes `req.query` as the filters (src/controllers/admin.controller.ts:12),
  so the wired service receives `isActive` as the string "true" or "false" and
  never as the boolean `AuthSpec.UserFilters.isActive` holds.
- The admin controller, the routes, the server, swagger, logging and the
  compiled copies under `dist/` are left out. The copies are of an older
  revision, and the model follows `src/`.
- The handlers `VerifyEmail`, `VerifyMfa`, `GetProfile`, `UpdateProfile`,
  `ChangePassword`, `ResetPassword`, `GetSessions`, `Logout` and `LogoutAll` in
  `Controller` are compositions of `WithUser`, `Acknowledge` and `Catch`. Their
  contracts are those helpers'.

## Findings

| source | as written | input that shows it | evidently intended | confidence | as-written member | corrected member |
|---|---|---|---|---|---|---|
| src/services/auth.service.ts:806-817 | `sendMfaCode` mails a 6-digit code but stores the 64-hex-digit value of `createToken` as the OTP row; `verifyMfa` compares the submitted code with that value, and the MFA schema accepts only 6 digits | any MFA login, then `verify-mfa` with the mailed code, e.g. "123456": no stored OTP value equals it, so the answer is 401 "Invalid or expired OTP" | the OTP row stores the code that is mailed, so that sending it back within five minutes completes the login | not executed | AuthProperties.MailedCodeRefused | AuthProperties.MailedCodeVerifies |
