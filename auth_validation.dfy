/**
 * The request schemas of src/validations/auth.validation.ts as recognisers.
 * Each schema yields the issues it reports, field by field in declaration
 * order, and a body is accepted exactly when there are none. The email format
 * check belongs to the schema library and is a parameter `isEmail`.
 */
module AuthValidation {
  import opened Wrappers
  import opened Text
  import opened PasswordPolicy
  import opened Store

  datatype Issue = Issue(path: string, message: string)

  predicate AllDigits(s: string)
  {
    forall i :: 0 <= i < |s| ==> IsDigit(s[i])
  }

  // ---------------------------------------------------------------- passwords

  /** The schema's wording of each rule. */
  function SchemaMessage(r: Rule): string
  {
    match r
    case MinLength => "Password must be at least 8 characters"
    case Uppercase => "Password must contain at least one uppercase letter"
    case Digit => "Password must contain at least one number"
    case Special => "Password must contain at least one special character"
  }

  /** `passwordValidation`: its four checks, each reporting on `path`. */
  function PasswordIssues(path: string, p: string): seq<Issue>
  {
    (if JsLength(p) < 8 then [Issue(path, "Password must be at least 8 characters")] else [])
    + (if !HasUppercase(p) then [Issue(path, "Password must contain at least one uppercase letter")] else [])
    + (if !HasDigit(p) then [Issue(path, "Password must contain at least one number")] else [])
    + (if !HasSpecial(p) then [Issue(path, "Password must contain at least one special character")] else [])
  }

  lemma PasswordIssuesOnPath(path: string, p: string)
    ensures forall k :: 0 <= k < |PasswordIssues(path, p)| ==> PasswordIssues(path, p)[k].path == path
  {
  }

  /** The schema and `validatePassword` break on the same rules, in the same order. */
  lemma PasswordSchemaMatchesService(path: string, p: string)
    ensures |PasswordIssues(path, p)| == |Violations(p)|
    ensures forall k :: 0 <= k < |Violations(p)| ==> PasswordIssues(path, p)[k] == Issue(path, SchemaMessage(Violations(p)[k]))
    ensures PasswordIssues(path, p) == [] <==> MeetsPolicy(p)
  {
    NoViolationsIffPolicy(p);
  }

  // ---------------------------------------------------------------- phone numbers

  predicate IsPhoneSeparator(c: char)
  {
    c == '-' || c == '.' || IsJsWhitespace(c)
  }

  /** Drops a leading `c`, if there is one (an optional literal in the pattern). */
  function SkipChar(t: string, c: char): string
  {
    if 0 < |t| && t[0] == c then t[1..] else t
  }

  /** Drops a leading separator, if there is one (`[-\s.]?`). */
  function SkipSep(t: string): string
  {
    if 0 < |t| && IsPhoneSeparator(t[0]) then t[1..] else t
  }

  /**
   * `phoneRegex` on the whole string. Every optional part is a character
   * that cannot start the part after it, so taking it whenever it is there
   * decides the pattern.
   */
  predicate IsPhone(s: string)
  {
    AreaCode(SkipChar(SkipChar(s, '+'), '('))
  }

  predicate AreaCode(t: string)
  {
    3 <= |t| && AllDigits(t[..3]) && ExchangeCode(SkipSep(SkipChar(t[3..], ')')))
  }

  predicate ExchangeCode(t: string)
  {
    3 <= |t| && AllDigits(t[..3]) && LineNumber(SkipSep(t[3..]))
  }

  predicate LineNumber(t: string)
  {
    4 <= |t| <= 6 && AllDigits(t)
  }

  /** The parts of a number the pattern describes. */
  datatype PhoneForm = PhoneForm(
    plus: bool, open: bool, area: string, close: bool, sep1: Option<char>,
    exchange: string, sep2: Option<char>, line: string)

  predicate WellFormedPhone(f: PhoneForm)
  {
    |f.area| == 3 && AllDigits(f.area)
    && (f.sep1.Some? ==> IsPhoneSeparator(f.sep1.value))
    && WellFormedExchange(f)
  }

  /** The conditions on the parts from the exchange code on. */
  predicate WellFormedExchange(f: PhoneForm)
  {
    |f.exchange| == 3 && AllDigits(f.exchange)
    && 4 <= |f.line| <= 6 && AllDigits(f.line)
    && (f.sep2.Some? ==> IsPhoneSeparator(f.sep2.value))
  }

  function Flag(b: bool, c: char): string { if b then [c] else [] }

  function OptChar(c: Option<char>): string { if c.Some? then [c.value] else [] }

  /** The separator `SkipSep` drops, if any. */
  function SepOf(t: string): Option<char>
  {
    if 0 < |t| && IsPhoneSeparator(t[0]) then Some(t[0]) else None
  }

  /** The number from the exchange code on. */
  function RenderExchange(f: PhoneForm): string
  {
    f.exchange + (OptChar(f.sep2) + f.line)
  }

  /** The number from the area code on. */
  function RenderArea(f: PhoneForm): string
  {
    f.area + (Flag(f.close, ')') + (OptChar(f.sep1) + RenderExchange(f)))
  }

  function RenderPhone(f: PhoneForm): string
  {
    Flag(f.plus, '+') + (Flag(f.open, '(') + RenderArea(f))
  }

  lemma DigitIsNoPunctuation(c: char)
    requires IsDigit(c)
    ensures !IsPhoneSeparator(c) && c != '+' && c != '(' && c != ')'
  {
  }

  lemma ExchangeRendered(f: PhoneForm)
    requires WellFormedExchange(f)
    ensures ExchangeCode(RenderExchange(f))
  {
    var t2 := OptChar(f.sep2) + f.line;
    var ex := RenderExchange(f);
    DigitIsNoPunctuation(f.line[0]);
    assert SkipSep(t2) == f.line;
    assert ex[..3] == f.exchange && ex[3..] == t2;
  }

  lemma AreaRendered(f: PhoneForm)
    requires WellFormedPhone(f)
    ensures AreaCode(RenderArea(f))
  {
    var ex := RenderExchange(f);
    var t1 := OptChar(f.sep1) + ex;
    var cl := Flag(f.close, ')') + t1;
    var ar := RenderArea(f);
    ExchangeRendered(f);
    DigitIsNoPunctuation(f.exchange[0]);
    assert ex[0] == f.exchange[0];
    assert SkipSep(t1) == ex;
    assert t1[0] != ')' by {
      if f.sep1.Some? { assert t1[0] == f.sep1.value; } else { assert t1[0] == ex[0]; }
    }
    assert SkipChar(cl, ')') == t1;
    assert ar[..3] == f.area && ar[3..] == cl;
  }

  /** Every number written in the described form matches the pattern. */
  lemma RenderedPhoneMatches(f: PhoneForm)
    requires WellFormedPhone(f)
    ensures IsPhone(RenderPhone(f))
  {
    var ar := RenderArea(f);
    var op := Flag(f.open, '(') + ar;
    AreaRendered(f);
    DigitIsNoPunctuation(f.area[0]);
    assert ar[0] == f.area[0];
    assert SkipChar(ar, '(') == ar;
    assert SkipChar(op, '(') == ar;
    assert op[0] != '+' by {
      if f.open { assert op[0] == '('; } else { assert op[0] == ar[0]; }
    }
    assert SkipChar(Flag(f.plus, '+') + op, '+') == op;
  }

  lemma SkipCharSplits(t: string, c: char)
    ensures t == Flag(0 < |t| && t[0] == c, c) + SkipChar(t, c)
  {
  }

  lemma SkipSepSplits(t: string)
    ensures t == OptChar(SepOf(t)) + SkipSep(t)
  {
  }

  /** The exchange code and line number of a string `ExchangeCode` accepts. */
  function ParseExchange(t: string): (f: PhoneForm)
    requires ExchangeCode(t)
    ensures WellFormedExchange(f) && RenderExchange(f) == t
  {
    SkipSepSplits(t[3..]);
    assert t == t[..3] + t[3..];
    PhoneForm(false, false, "", false, None, t[..3], SepOf(t[3..]), SkipSep(t[3..]))
  }

  /** The parts from the area code on of a string `AreaCode` accepts. */
  function ParseArea(t: string): (f: PhoneForm)
    requires AreaCode(t)
    ensures WellFormedPhone(f) && RenderArea(f) == t && !f.plus && !f.open
  {
    var c := t[3..];
    var t4 := SkipChar(c, ')');
    var e := ParseExchange(SkipSep(t4));
    SkipCharSplits(c, ')');
    SkipSepSplits(t4);
    assert t == t[..3] + c;
    e.(area := t[..3], close := 0 < |c| && c[0] == ')', sep1 := SepOf(t4))
  }

  /** Every number the pattern matches has the described form. */
  function ParsePhone(s: string): (f: PhoneForm)
    requires IsPhone(s)
    ensures WellFormedPhone(f) && RenderPhone(f) == s
  {
    var s1 := SkipChar(s, '+');
    var a := ParseArea(SkipChar(s1, '('));
    SkipCharSplits(s, '+');
    SkipCharSplits(s1, '(');
    a.(plus := 0 < |s| && s[0] == '+', open := 0 < |s1| && s1[0] == '(')
  }

  /** A number with a one-digit country code and separators is refused: three digits must follow the `+`. */
  lemma DashedInternationalNumberRefused()
    ensures !IsPhone("+1-555-123-4567")
  {
    var s := "+1-555-123-4567";
    assert s[0] == '+' && s[1] == '1' && s[2] == '-';
    assert !IsDigit(s[1..4][1]);
  }

  // ---------------------------------------------------------------- names

  /** `min(2)` and `max(50)`, which run on the string before `trim()`. */
  function NameIssues(path: string, field: string, s: string): seq<Issue>
  {
    (if JsLength(s) < 2 then [Issue(path, field + " must be at least 2 characters")] else [])
    + (if JsLength(s) > 50 then [Issue(path, field + " must not exceed 50 characters")] else [])
  }

  lemma NameIssuesMeaning(path: string, field: string, s: string)
    ensures NameIssues(path, field, s) == [] <==> 2 <= JsLength(s) <= 50
    ensures forall i :: 0 <= i < |NameIssues(path, field, s)| ==> NameIssues(path, field, s)[i].path == path
  {
  }

  /** A name of padding only passes the bounds and is then trimmed to nothing. */
  lemma BlankNamePasses()
    ensures NameIssues("firstName", "First name", "  ") == [] && Trim("  ") == ""
  {
    assert LeadingSpace("  ") == 2 by {
      assert LeadingSpace("  "[1..]) == 1 by {
        assert "  "[1..][1..] == "";
      }
    }
  }

  /** The bounds count UTF-16 units: one character outside the Basic Multilingual Plane meets `min(2)`. */
  lemma AstralNamePasses()
    ensures NameIssues("firstName", "First name", "\U{1F600}") == [] && |"\U{1F600}"| == 1
  {
    assert JsLength("\U{1F600}") == 2 by {
      assert "\U{1F600}"[1..] == "";
    }
  }

  // ---------------------------------------------------------------- schemas

  const MismatchIssue := Issue("confirmPassword", "Passwords do not match")

  /** The schema library's report for a value outside `z.enum`; its wording is the library's. */
  const RoleIssue := Issue("role", "Invalid enum value. Expected 'ADMIN' | 'CUSTOMER'")

  datatype RegisterBody = RegisterBody(
    firstName: string, lastName: string, email: string, phoneNumber: string,
    password: string, confirmPassword: string, role: string)

  function Mismatch(p: string, confirm: string): seq<Issue>
  {
    if p != confirm then [MismatchIssue] else []
  }

  /**
   * `registerSchema`. The refinement runs only on an object whose fields all
   * parsed: a failed string check merely marks the result dirty, but a value
   * outside `z.enum` makes the field invalid and the refinement is skipped.
   */
  function RegisterIssues(b: RegisterBody, isEmail: string -> bool): seq<Issue>
  {
    RegisterFieldIssues(b, isEmail)
    + (if ParseRole(b.role).Some? then Mismatch(b.password, b.confirmPassword) else [])
  }

  /** The issues `registerSchema` reports field by field, before the cross-field refinement. */
  function RegisterFieldIssues(b: RegisterBody, isEmail: string -> bool): seq<Issue>
  {
    NameIssues("firstName", "First name", b.firstName)
    + NameIssues("lastName", "Last name", b.lastName)
    + (if !isEmail(b.email) then [Issue("email", "Invalid email format")] else [])
    + (if !IsPhone(b.phoneNumber) then [Issue("phoneNumber", "Invalid phone number format")] else [])
    + PasswordIssues("password", b.password)
    + (if ParseRole(b.role).None? then [RoleIssue] else [])
  }

  lemma RegisterSchemaMeaning(b: RegisterBody, isEmail: string -> bool)
    ensures RegisterIssues(b, isEmail) == [] <==>
      2 <= JsLength(b.firstName) <= 50 && 2 <= JsLength(b.lastName) <= 50 && isEmail(b.email) && IsPhone(b.phoneNumber)
      && MeetsPolicy(b.password) && b.role in {"ADMIN", "CUSTOMER"} && b.password == b.confirmPassword
  {
    PasswordSchemaMatchesService("password", b.password);
    NameIssuesMeaning("firstName", "First name", b.firstName);
    NameIssuesMeaning("lastName", "Last name", b.lastName);
  }

  /** Only the refinement on `confirmPassword` reports a mismatch, and only when the role parsed. */
  lemma RegisterMismatchReported(b: RegisterBody, isEmail: string -> bool)
    ensures MismatchIssue in RegisterIssues(b, isEmail) <==> b.role in {"ADMIN", "CUSTOMER"} && b.password != b.confirmPassword
  {
    var fields := RegisterFieldIssues(b, isEmail);
    NameIssuesMeaning("firstName", "First name", b.firstName);
    NameIssuesMeaning("lastName", "Last name", b.lastName);
    PasswordIssuesOnPath("password", b.password);
    forall k | 0 <= k < |fields| ensures fields[k].path != "confirmPassword" {
    }
    assert MismatchIssue !in fields;
  }

  datatype LoginBody = LoginBody(email: string, password: string)

  /** `loginSchema`. */
  function LoginIssues(b: LoginBody, isEmail: string -> bool): (r: seq<Issue>)
    ensures r == [] <==> isEmail(b.email) && b.password != ""
  {
    (if !isEmail(b.email) then [Issue("email", "Invalid email format")] else [])
    + (if JsLength(b.password) < 1 then [Issue("password", "Password is required")] else [])
  }

  datatype ChangePasswordBody = ChangePasswordBody(currentPassword: string, newPassword: string, confirmPassword: string)

  /** `changePasswordSchema`. */
  function ChangePasswordIssues(b: ChangePasswordBody): seq<Issue>
  {
    (if JsLength(b.currentPassword) < 1 then [Issue("currentPassword", "Current password is required")] else [])
    + PasswordIssues("newPassword", b.newPassword)
    + Mismatch(b.newPassword, b.confirmPassword)
  }

  lemma ChangePasswordSchemaMeaning(b: ChangePasswordBody)
    ensures ChangePasswordIssues(b) == [] <==>
      b.currentPassword != "" && MeetsPolicy(b.newPassword) && b.newPassword == b.confirmPassword
    ensures MismatchIssue in ChangePasswordIssues(b) <==> b.newPassword != b.confirmPassword
  {
    PasswordSchemaMatchesService("newPassword", b.newPassword);
    PasswordIssuesOnPath("newPassword", b.newPassword);
  }

  datatype ResetPasswordBody = ResetPasswordBody(token: string, newPassword: string, confirmPassword: string)

  /** `resetPasswordSchema`. */
  function ResetPasswordIssues(b: ResetPasswordBody): seq<Issue>
  {
    (if JsLength(b.token) < 1 then [Issue("token", "Reset token is required")] else [])
    + PasswordIssues("newPassword", b.newPassword)
    + Mismatch(b.newPassword, b.confirmPassword)
  }

  lemma ResetPasswordSchemaMeaning(b: ResetPasswordBody)
    ensures ResetPasswordIssues(b) == [] <==>
      b.token != "" && MeetsPolicy(b.newPassword) && b.newPassword == b.confirmPassword
    ensures MismatchIssue in ResetPasswordIssues(b) <==> b.newPassword != b.confirmPassword
  {
    PasswordSchemaMatchesService("newPassword", b.newPassword);
    PasswordIssuesOnPath("newPassword", b.newPassword);
  }

  datatype ProfileBody = ProfileBody(firstName: Option<string>, lastName: Option<string>, phoneNumber: Option<string>)

  function OptionalName(path: string, field: string, s: Option<string>): seq<Issue>
  {
    if s.Some? then NameIssues(path, field, s.value) else []
  }

  /** `updateProfileSchema`: an absent field passes; a present one must meet its bound or pattern. */
  function ProfileIssues(b: ProfileBody): seq<Issue>
  {
    OptionalName("firstName", "First name", b.firstName)
    + OptionalName("lastName", "Last name", b.lastName)
    + (if b.phoneNumber.Some? && !IsPhone(b.phoneNumber.value) then [Issue("phoneNumber", "Invalid phone number format")] else [])
  }

  lemma ProfileSchemaMeaning(b: ProfileBody)
    ensures ProfileIssues(b) == [] <==>
      (b.firstName.Some? ==> 2 <= JsLength(b.firstName.value) <= 50)
      && (b.lastName.Some? ==> 2 <= JsLength(b.lastName.value) <= 50)
      && (b.phoneNumber.Some? ==> IsPhone(b.phoneNumber.value))
  {
    if b.firstName.Some? { NameIssuesMeaning("firstName", "First name", b.firstName.value); }
    if b.lastName.Some? { NameIssuesMeaning("lastName", "Last name", b.lastName.value); }
  }

  /** `forgotPasswordSchema`. */
  function ForgotPasswordIssues(email: string, isEmail: string -> bool): (r: seq<Issue>)
    ensures r == [] <==> isEmail(email)
  {
    if !isEmail(email) then [Issue("email", "Invalid email format")] else []
  }

  /** `mfaVerificationSchema`: exactly six characters, all decimal digits. */
  function MfaIssues(otp: string): (r: seq<Issue>)
    ensures r == [] <==> IsOtpCode(otp)
  {
    (if JsLength(otp) != 6 then [Issue("otp", "OTP must be 6 digits")] else [])
    + (if otp == [] || !AllDigits(otp) then [Issue("otp", "OTP must contain only numbers")] else [])
  }

  predicate IsOtpCode(otp: string)
  {
    |otp| == 6 && AllDigits(otp)
  }

  /** `emailVerificationSchema`. */
  function EmailVerificationIssues(token: string): (r: seq<Issue>)
    ensures r == [] <==> token != ""
  {
    if JsLength(token) < 1 then [Issue("token", "Verification token is required")] else []
  }

  // ---------------------------------------------------------------- the code sendMfaCode mails

  /** Decimal digits of `n`, most significant first (`Number.prototype.toString`). */
  function Decimal(n: nat): (s: string)
    ensures |s| >= 1 && AllDigits(s)
    decreases n
  {
    if n < 10 then [('0' as int + n) as char] else Decimal(n / 10) + [('0' as int + n % 10) as char]
  }

  lemma {:induction false} DecimalLength(n: nat, k: nat)
    requires k >= 1
    ensures Pow10(k - 1) <= n < Pow10(k) ==> |Decimal(n)| == k
    decreases k
  {
    if Pow10(k - 1) <= n < Pow10(k) && n >= 10 {
      assert Pow10(1) == 10;
      DecimalLength(n / 10, k - 1);
    }
  }

  function Pow10(k: nat): (p: nat)
    ensures p >= 1
  {
    if k == 0 then 1 else 10 * Pow10(k - 1)
  }

  /** `Math.floor(100000 + Math.random() * 900000).toString()`, with `r` the floored offset. */
  function MailedOtp(r: nat): string
    requires r < 900000
  {
    Decimal(100000 + r)
  }

  /** Every mailed code is one the MFA schema accepts. */
  lemma MailedOtpIsOtpCode(r: nat)
    requires r < 900000
    ensures IsOtpCode(MailedOtp(r))
  {
    assert Pow10(6) == 1000000 && Pow10(5) == 100000;
    DecimalLength(100000 + r, 6);
  }
}
