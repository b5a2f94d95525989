/** src/middleware/validateRegisterPayload.ts: the registration payload. */
module RegisterPayload {
  import opened Wrappers
  import opened JsString
  import opened Types

  const MinPasswordLength := 8

  const MsgEmailRequired := "Email is required"
  const MsgEmailInvalid := "Email format is invalid"
  const MsgPasswordRequired := "Password is required"
  const MsgPasswordTooShort := "Password must be at least 8 characters long"

  /** The normalised registration: e-mail trimmed and lower-cased, password as sent, name trimmed if present. */
  datatype Registration = Registration(email: string, password: string, name: Option<string>)

  /** `email.includes("@") && email.includes(".")` */
  predicate HasEmailShape(email: string) {
    '@' in email && '.' in email
  }

  /** `parsed.email?.trim().toLowerCase()` */
  function NormaliseEmail(raw: Option<string>): (r: Option<string>)
    ensures r.Some? <==> raw.Some?
    ensures r.Some? ==> r.value == ToLowerCase(Trim(raw.value)) && IsLowerCase(r.value)
    ensures r.Some? ==> (r.value == "" <==> AllWhitespace(raw.value))
    ensures r.Some? ==> (HasEmailShape(r.value) <==> HasEmailShape(Trim(raw.value)))
  {
    match raw
    case None => None
    case Some(e) =>
      var t := Trim(e);
      TrimEmptyIff(e);
      ToLowerCaseIsLower(t);
      ToLowerCaseKeepsNonLetters(t, '@');
      ToLowerCaseKeepsNonLetters(t, '.');
      Some(ToLowerCase(t))
  }

  /** `validateRegisterPayload(body)`: body, JSON, e-mail present, e-mail shape, password present, password length. */
  function ValidateRegisterPayload(body: Body): (r: Validation<Registration>)
    ensures ParseBody(body).Invalid? ==> r == Invalid(ParseBody(body).message)
    ensures r.Valid? <==>
              && ParseBody(body).Valid?
              && var p := ParseBody(body).value;
                 p.email.Some? && HasEmailShape(Trim(p.email.value))
                 && p.password.Some? && JsLength(p.password.value) >= MinPasswordLength
    ensures r.Valid? ==>
              var p := ParseBody(body).value;
              && r.value.email == ToLowerCase(Trim(p.email.value))
              && IsLowerCase(r.value.email) && HasEmailShape(r.value.email)
              && r.value.password == p.password.value && JsLength(r.value.password) >= MinPasswordLength
              && r.value.name == TrimOptional(p.name)
    ensures r == Invalid(MsgEmailRequired) <==>
              ParseBody(body).Valid? && (ParseBody(body).value.email.None? || AllWhitespace(ParseBody(body).value.email.value))
    ensures r == Invalid(MsgEmailInvalid) <==>
              && ParseBody(body).Valid?
              && var e := ParseBody(body).value.email;
                 e.Some? && !AllWhitespace(e.value) && !HasEmailShape(Trim(e.value))
    ensures r == Invalid(MsgPasswordRequired) <==>
              && ParseBody(body).Valid?
              && var p := ParseBody(body).value;
                 p.email.Some? && HasEmailShape(Trim(p.email.value)) && !IsTruthy(p.password)
    ensures r == Invalid(MsgPasswordTooShort) <==>
              && ParseBody(body).Valid?
              && var p := ParseBody(body).value;
                 p.email.Some? && HasEmailShape(Trim(p.email.value))
                 && IsTruthy(p.password) && JsLength(p.password.value) < MinPasswordLength
  {
    match ParseBody(body)
    case Invalid(m) => Invalid(m)
    case Valid(parsed) =>
      var email := NormaliseEmail(parsed.email);
      var password := parsed.password;
      var name := TrimOptional(parsed.name);
      if !IsTruthy(email) then Invalid(MsgEmailRequired)
      else if !HasEmailShape(email.value) then Invalid(MsgEmailInvalid)
      else if !IsTruthy(password) then Invalid(MsgPasswordRequired)
      else if JsLength(password.value) < MinPasswordLength then Invalid(MsgPasswordTooShort)
      else Valid(Registration(email.value, password.value, name))
  }

  /** The e-mail is checked before the password: a malformed e-mail is reported even with a short password. */
  lemma EmailShapeCheckedBeforePassword(body: Body)
    requires ParseBody(body).Valid?
    requires var e := ParseBody(body).value.email; e.Some? && !AllWhitespace(e.value) && !HasEmailShape(Trim(e.value))
    ensures ValidateRegisterPayload(body) == Invalid(MsgEmailInvalid)
  {
  }

  /** With a well-formed e-mail, a present password shorter than 8 UTF-16 code units gets the length message. */
  lemma ShortPasswordRejected(body: Body)
    requires ParseBody(body).Valid?
    requires var e := ParseBody(body).value.email; e.Some? && HasEmailShape(Trim(e.value))
    requires var pw := ParseBody(body).value.password; pw.Some? && 0 < JsLength(pw.value) < MinPasswordLength
    ensures ValidateRegisterPayload(body) == Invalid(MsgPasswordTooShort)
  {
    var email := NormaliseEmail(ParseBody(body).value.email);
    assert HasEmailShape(email.value);
    assert IsTruthy(email);
  }

  /** The password is not trimmed: eight spaces are an acceptable password. */
  lemma PasswordNotTrimmed(body: Body)
    requires ParseBody(body).Valid?
    requires var e := ParseBody(body).value.email; e.Some? && HasEmailShape(Trim(e.value))
    requires ParseBody(body).value.password == Some("        ")
    ensures ValidateRegisterPayload(body).Valid?
    ensures ValidateRegisterPayload(body).value.password == "        "
  {
  }

  /** Four emoji are eight UTF-16 code units: long enough for a password. */
  lemma AstralPasswordLongEnough(body: Body)
    requires ParseBody(body).Valid?
    requires var e := ParseBody(body).value.email; e.Some? && HasEmailShape(Trim(e.value))
    requires ParseBody(body).value.password == Some("\U{1F600}\U{1F600}\U{1F600}\U{1F600}")
    ensures ValidateRegisterPayload(body).Valid?
  {
    assert JsLength("\U{1F600}\U{1F600}\U{1F600}\U{1F600}") == 8;
  }
}
