/**
 * The four password rules shared by `AuthService.validatePassword`
 * (src/services/auth.service.ts) and `passwordValidation`
 * (src/validations/auth.validation.ts).
 */
module PasswordPolicy {
  import opened Text

  datatype Rule = MinLength | Uppercase | Digit | Special

  const MinPasswordLength := 8
  const SpecialChars := "!@#$%^&*"

  /** The rules in the order both checkers apply them. */
  function RuleIndex(r: Rule): nat
  {
    match r
    case MinLength => 0
    case Uppercase => 1
    case Digit => 2
    case Special => 3
  }

  predicate HasUppercase(p: string) { exists i :: 0 <= i < |p| && IsUpperAscii(p[i]) }
  predicate HasDigit(p: string) { exists i :: 0 <= i < |p| && IsDigit(p[i]) }
  predicate HasSpecial(p: string) { exists i :: 0 <= i < |p| && p[i] in SpecialChars }

  predicate Satisfies(p: string, r: Rule)
  {
    match r
    case MinLength => JsLength(p) >= MinPasswordLength
    case Uppercase => HasUppercase(p)
    case Digit => HasDigit(p)
    case Special => HasSpecial(p)
  }

  /** The rules `p` breaks, checked in rule order. */
  function Violations(p: string): seq<Rule>
  {
    (if JsLength(p) < MinPasswordLength then [MinLength] else [])
    + (if !HasUppercase(p) then [Uppercase] else [])
    + (if !HasDigit(p) then [Digit] else [])
    + (if !HasSpecial(p) then [Special] else [])
  }

  predicate MeetsPolicy(p: string)
  {
    JsLength(p) >= MinPasswordLength && HasUppercase(p) && HasDigit(p) && HasSpecial(p)
  }

  /** Every rule `p` breaks is reported, each once, in rule order. */
  lemma ViolationsMeaning(p: string)
    ensures forall r :: r in Violations(p) <==> !Satisfies(p, r)
    ensures forall i, j :: 0 <= i < j < |Violations(p)| ==> RuleIndex(Violations(p)[i]) < RuleIndex(Violations(p)[j])
  {
  }

  lemma NoViolationsIffPolicy(p: string)
    ensures Violations(p) == [] <==> MeetsPolicy(p)
  {
    ViolationsMeaning(p);
    if !MeetsPolicy(p) {
      if JsLength(p) < MinPasswordLength { assert MinLength in Violations(p); }
      else if !HasUppercase(p) { assert Uppercase in Violations(p); }
      else if !HasDigit(p) { assert Digit in Violations(p); }
      else { assert Special in Violations(p); }
    }
  }

  /** `password.length` counts UTF-16 units: four characters and two emoji make eight. */
  lemma AstralPasswordMeetsPolicy()
    ensures var p := "Ab1!\U{1F600}\U{1F600}"; |p| == 6 && MeetsPolicy(p)
  {
    var p := "Ab1!\U{1F600}\U{1F600}";
    assert JsLength(p[5..]) == 2 by { assert p[5..][1..] == ""; }
    assert JsLength(p[4..]) == 4 by { assert p[4..][1..] == p[5..]; }
    assert JsLength(p[3..]) == 5 by { assert p[3..][1..] == p[4..]; }
    assert JsLength(p[2..]) == 6 by { assert p[2..][1..] == p[3..]; }
    assert JsLength(p[1..]) == 7 by { assert p[1..][1..] == p[2..]; }
    assert IsUpperAscii(p[0]) && IsDigit(p[2]) && p[3] in SpecialChars;
  }

  /** The service's wording of each rule. */
  function ServiceMessage(r: Rule): string
  {
    match r
    case MinLength => "Password must be at least 8 characters long"
    case Uppercase => "Password must contain at least one uppercase letter"
    case Digit => "Password must contain at least one number"
    case Special => "Password must contain at least one special character (!@#$%^&*)"
  }

  function ServiceMessages(v: seq<Rule>): (m: seq<string>)
    ensures |m| == |v| && forall i :: 0 <= i < |v| ==> m[i] == ServiceMessage(v[i])
  {
    seq(|v|, i requires 0 <= i < |v| => ServiceMessage(v[i]))
  }

  /** The message for `r` when `broken` holds, and nothing otherwise. */
  function MessageIf(broken: bool, r: Rule): seq<string>
  {
    if broken then [ServiceMessage(r)] else []
  }

  /** The service's messages for `p`, rule by rule. */
  lemma ServiceMessagesByRule(p: string)
    ensures ServiceMessages(Violations(p))
         == MessageIf(JsLength(p) < MinPasswordLength, MinLength) + MessageIf(!HasUppercase(p), Uppercase)
            + MessageIf(!HasDigit(p), Digit) + MessageIf(!HasSpecial(p), Special)
  {
    var a := if JsLength(p) < MinPasswordLength then [MinLength] else [];
    var b := if !HasUppercase(p) then [Uppercase] else [];
    var c := if !HasDigit(p) then [Digit] else [];
    var d := if !HasSpecial(p) then [Special] else [];
    ServiceMessagesConcat(a + b + c, d);
    ServiceMessagesConcat(a + b, c);
    ServiceMessagesConcat(a, b);
    ServiceMessagesOfRule(JsLength(p) < MinPasswordLength, MinLength);
    ServiceMessagesOfRule(!HasUppercase(p), Uppercase);
    ServiceMessagesOfRule(!HasDigit(p), Digit);
    ServiceMessagesOfRule(!HasSpecial(p), Special);
  }

  lemma ServiceMessagesOfRule(broken: bool, r: Rule)
    ensures ServiceMessages(if broken then [r] else []) == MessageIf(broken, r)
  {
  }

  lemma ServiceMessagesConcat(a: seq<Rule>, b: seq<Rule>)
    ensures ServiceMessages(a + b) == ServiceMessages(a) + ServiceMessages(b)
  {
  }
}
