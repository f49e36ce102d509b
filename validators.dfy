/** app/utils/validators.py: the password-strength rule and the session-token syntax check. */
module Validators {
  import opened Wrappers
  import opened Uuids
  import opened Payloads

  /** The four reasons `validate_password_strength` raises, in the order it checks them. */
  datatype PasswordError = TooShort | NoUppercase | NoDigit | NoSpecial

  /** The ValueError text for each reason. */
  function PasswordMessage(e: PasswordError): string {
    match e
    case TooShort => "A senha deve ter no mínimo 8 caracteres"
    case NoUppercase => "A senha deve conter pelo menos uma letra maiúscula"
    case NoDigit => "A senha deve conter pelo menos um número"
    case NoSpecial => "A senha deve conter pelo menos um caractere especial"
  }

  const MinPasswordLength: nat := 8

  /** The regex class `[A-Z]`. */
  predicate IsUpper(c: char) { 'A' <= c <= 'Z' }

  predicate IsLower(c: char) { 'a' <= c <= 'z' }

  /** The regex class `\d`, over ASCII. */
  predicate IsDigit(c: char) { '0' <= c <= '9' }

  /** The regex class `\s`, over ASCII: tab to carriage return, the four separators and space. */
  predicate IsSpace(c: char) { 9 <= c as int <= 13 || 28 <= c as int <= 32 }

  /** The regex class `[^a-zA-Z0-9\s]`. */
  predicate IsSpecial(c: char) { !(IsUpper(c) || IsLower(c) || IsDigit(c) || IsSpace(c)) }

  datatype CharClass = Upper | Digit | Special

  predicate InClass(cls: CharClass, c: char) {
    match cls
    case Upper => IsUpper(c)
    case Digit => IsDigit(c)
    case Special => IsSpecial(c)
  }

  ghost predicate HasClass(s: string, cls: CharClass) {
    exists i :: 0 <= i < |s| && InClass(cls, s[i])
  }

  /** `re.search(cls, s)`: the position of the leftmost character in the class, if any. */
  function Search(s: string, cls: CharClass): (r: Option<nat>)
    ensures r.Some? ==> r.value < |s| && InClass(cls, s[r.value])
    ensures r.Some? ==> forall j :: 0 <= j < r.value ==> !InClass(cls, s[j])
    ensures r.None? <==> !HasClass(s, cls)
  {
    if |s| == 0 then None
    else if InClass(cls, s[0]) then Some(0)
    else match Search(s[1..], cls)
      case Some(k) => assert s[1..][k] == s[k + 1]; Some(k + 1)
      case None => assert forall i :: 1 <= i < |s| ==> s[i] == s[1..][i - 1]; None
  }

  /** All four rules of the policy. */
  ghost predicate Strong(password: string) {
    |password| >= MinPasswordLength && HasClass(password, Upper)
    && HasClass(password, Digit) && HasClass(password, Special)
  }

  /** `validate_password_strength`: the password itself when every rule holds, otherwise the
      first failing rule in the order length, upper case, digit, special character. */
  function ValidatePasswordStrength(password: string): (r: Result<string, PasswordError>)
    ensures r.Ok? <==> Strong(password)
    ensures r.Ok? ==> r.value == password
    ensures r == Err(TooShort) <==> |password| < MinPasswordLength
    ensures r == Err(NoUppercase) <==> |password| >= MinPasswordLength && !HasClass(password, Upper)
    ensures r == Err(NoDigit) <==>
      |password| >= MinPasswordLength && HasClass(password, Upper) && !HasClass(password, Digit)
    ensures r == Err(NoSpecial) <==>
      |password| >= MinPasswordLength && HasClass(password, Upper) && HasClass(password, Digit)
      && !HasClass(password, Special)
  {
    if |password| < MinPasswordLength then Err(TooShort)
    else if Search(password, Upper).None? then Err(NoUppercase)
    else if Search(password, Digit).None? then Err(NoDigit)
    else if Search(password, Special).None? then Err(NoSpecial)
    else Ok(password)
  }

  /** Passwords of the GraphQL mutation tests without an upper-case letter are rejected for it. */
  lemma NoUppercaseExamples()
    ensures ValidatePasswordStrength("invalidpassword") == Err(NoUppercase)
    ensures ValidatePasswordStrength("1nv4l1dp4ssw0rd") == Err(NoUppercase)
  {
    var a, b := "invalidpassword", "1nv4l1dp4ssw0rd";
    assert forall i :: 0 <= i < |a| ==> !IsUpper(a[i]);
    assert forall i :: 0 <= i < |b| ==> !IsUpper(b[i]);
  }

  /** Passwords of the GraphQL mutation tests without a digit are rejected for it. */
  lemma NoDigitExamples()
    ensures ValidatePasswordStrength("invalidPassword") == Err(NoDigit)
    ensures ValidatePasswordStrength("InvalidP@ssword") == Err(NoDigit)
  {
    var a, b := "invalidPassword", "InvalidP@ssword";
    assert InClass(Upper, a[7]) && InClass(Upper, b[0]);
    assert forall i :: 0 <= i < |a| ==> !IsDigit(a[i]);
    assert forall i :: 0 <= i < |b| ==> !IsDigit(b[i]);
  }

  /** The password of the account-creation scenario is accepted unchanged. */
  lemma AcceptedExample()
    ensures ValidatePasswordStrength("Abcdef1!") == Ok("Abcdef1!")
  {
    var p := "Abcdef1!";
    assert InClass(Upper, p[0]) && InClass(Digit, p[6]) && InClass(Special, p[7]);
  }

  /** `is_uuid4(value)`: `UUID(value, version=4)` forces the version field to 4 before the
      `val.version == 4` test, so the answer is whether `value` is a string that parses.
      Non-strings (AttributeError, TypeError) and malformed strings (ValueError) give false. */
  function IsUuid4(value: Value): (r: bool)
    ensures r <==> value.VStr? && ParseUuid(value.s).Some?
  {
    match value
    case VStr(s) =>
      (match ParseUuid(s)
       case Some(u) => VersionOf(ForceVersion(u, 4)) == Some(4)
       case None => false)
    case _ => false
  }

  /** The malformed cookie of the query tests is rejected. */
  lemma IsUuid4RejectsText()
    ensures !IsUuid4(VStr("faker.uuid4()"))
  {
  }
}
