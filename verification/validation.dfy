/**
 * The four express-validator chains declared on the register and update
 * routes, evaluated as the register handler reads them through
 * `validationResult`.
 */
module Validation {
  /** One entry of `validationResult(req).array()`; every field of these chains is read from the body. */
  datatype FieldError = FieldError(location: string, param: string, msg: string, value: string)

  const MIN_USER_NAME_LENGTH := 5
  const USER_NAME_REQUIRED := "Username is required"
  const USER_NAME_NOT_ALPHANUMERIC := "Username contains non alphanumeric characters - not allowed."
  const PASSWORD_REQUIRED := "Password is required"
  const EMAIL_INVALID := "Email does not appear to be valid"

  predicate IsAlphanumericChar(c: char) {
    '0' <= c <= '9' || 'A' <= c <= 'Z' || 'a' <= c <= 'z'
  }

  /** `isAlphanumeric()` in its default locale: one or more ASCII letters or digits. */
  predicate IsAlphanumeric(s: string) {
    |s| > 0 && forall i :: 0 <= i < |s| ==> IsAlphanumericChar(s[i])
  }

  /** The variation selectors U+FE0E and U+FE0F, which `isLength()` does not count. */
  predicate IsPresentationSelector(c: char) {
    c == '\U{FE0E}' || c == '\U{FE0F}'
  }

  /** The length `isLength()` measures: code points, less the presentation selectors. */
  function VisibleLength(s: string): (n: nat)
    ensures n <= |s|
    ensures n == |s| <==> forall i :: 0 <= i < |s| ==> !IsPresentationSelector(s[i])
  {
    if s == [] then 0
    else (if IsPresentationSelector(s[0]) then 0 else 1) + VisibleLength(s[1..])
  }

  /**
   * A single character measures 0 when it is a presentation selector and 1
   * otherwise, and the measure adds up over concatenation; together these fix
   * it for every string.
   */
  lemma {:induction false} VisibleLengthAppend(a: string, b: string)
    ensures |a| == 1 ==> VisibleLength(a) == if IsPresentationSelector(a[0]) then 0 else 1
    ensures VisibleLength(a + b) == VisibleLength(a) + VisibleLength(b)
  {
    if a == [] {
      assert a + b == b;
    } else {
      assert (a + b)[0] == a[0] && (a + b)[1..] == a[1..] + b;
      VisibleLengthAppend(a[1..], b);
    }
  }

  /** For an alphanumeric name the measured length is its plain length. */
  lemma AlphanumericLength(s: string)
    requires IsAlphanumeric(s)
    ensures VisibleLength(s) == |s|
  {
  }

  /** A user name both `userName` chains accept. */
  predicate ValidUserName(name: string) {
    VisibleLength(name) >= MIN_USER_NAME_LENGTH && IsAlphanumeric(name)
  }

  /** The position, among the four chains as declared, of the chain that reports `e`. */
  function ChainPosition(e: FieldError): nat {
    if e.msg == USER_NAME_REQUIRED then 0
    else if e.msg == USER_NAME_NOT_ALPHANUMERIC then 1
    else if e.msg == PASSWORD_REQUIRED then 2
    else 3
  }

  /** The error one chain contributes: none when its test passes. */
  function Check(passes: bool, param: string, msg: string, value: string): seq<FieldError> {
    if passes then [] else [FieldError("body", param, msg, value)]
  }

  /**
   * The errors of the four chains, in the order they are declared; `isEmail`
   * is express-validator's e-mail syntax test, which is not part of this model.
   */
  function RegistrationErrors(userName: string, password: string, email: string,
                              isEmail: string -> bool): (errors: seq<FieldError>)
    ensures errors == [] <==> ValidUserName(userName) && password != "" && isEmail(email)
    ensures FieldError("body", "userName", USER_NAME_REQUIRED, userName) in errors
            <==> VisibleLength(userName) < MIN_USER_NAME_LENGTH
    ensures FieldError("body", "userName", USER_NAME_NOT_ALPHANUMERIC, userName) in errors
            <==> !IsAlphanumeric(userName)
    ensures FieldError("body", "password", PASSWORD_REQUIRED, password) in errors <==> password == ""
    ensures FieldError("body", "email", EMAIL_INVALID, email) in errors <==> !isEmail(email)
    ensures |errors| <= 4
  {
    Check(VisibleLength(userName) >= MIN_USER_NAME_LENGTH, "userName", USER_NAME_REQUIRED, userName)
    + Check(IsAlphanumeric(userName), "userName", USER_NAME_NOT_ALPHANUMERIC, userName)
    + Check(password != "", "password", PASSWORD_REQUIRED, password)
    + Check(isEmail(email), "email", EMAIL_INVALID, email)
  }

  /**
   * The error list holds nothing but the failing chains' errors, one each, in
   * the order the chains are declared; with the membership clauses of
   * `RegistrationErrors` this fixes the list.
   */
  lemma RegistrationErrorsExact(userName: string, password: string, email: string, isEmail: string -> bool)
    ensures var errors := RegistrationErrors(userName, password, email, isEmail);
      && |errors| == (if VisibleLength(userName) < MIN_USER_NAME_LENGTH then 1 else 0)
                     + (if !IsAlphanumeric(userName) then 1 else 0)
                     + (if password == "" then 1 else 0)
                     + (if !isEmail(email) then 1 else 0)
      && forall i, j :: 0 <= i < j < |errors| ==> ChainPosition(errors[i]) < ChainPosition(errors[j])
  {
  }
}
