/** src/middleware/validateLoginPayload.ts: the login payload. */
module LoginPayload {
  import opened Wrappers
  import opened JsString
  import opened Types
  import RegisterPayload

  /** `LoginResult`: on success the e-mail and password sit at the top level, not under `value`. */
  datatype LoginResult = LoginValid(email: string, password: string) | LoginInvalid(message: string)

  /** `validateLoginPayload(body)`: body, JSON, e-mail present, password present; nothing about format or length. */
  function ValidateLoginPayload(body: Body): (r: LoginResult)
    ensures ParseBody(body).Invalid? ==> r == LoginInvalid(ParseBody(body).message)
    ensures r.LoginValid? <==>
              && ParseBody(body).Valid?
              && var p := ParseBody(body).value;
                 p.email.Some? && !AllWhitespace(p.email.value) && IsTruthy(p.password)
    ensures r.LoginValid? ==>
              && r.email == ToLowerCase(Trim(ParseBody(body).value.email.value))
              && IsLowerCase(r.email)
              && r.password == ParseBody(body).value.password.value
    ensures r == LoginInvalid(RegisterPayload.MsgEmailRequired) <==>
              ParseBody(body).Valid? && (ParseBody(body).value.email.None? || AllWhitespace(ParseBody(body).value.email.value))
    ensures r == LoginInvalid(RegisterPayload.MsgPasswordRequired) <==>
              && ParseBody(body).Valid?
              && var p := ParseBody(body).value;
                 p.email.Some? && !AllWhitespace(p.email.value) && !IsTruthy(p.password)
  {
    match ParseBody(body)
    case Invalid(m) => LoginInvalid(m)
    case Valid(parsed) =>
      var email := RegisterPayload.NormaliseEmail(parsed.email);
      var password := parsed.password;
      if !IsTruthy(email) then LoginInvalid(RegisterPayload.MsgEmailRequired)
      else if !IsTruthy(password) then LoginInvalid(RegisterPayload.MsgPasswordRequired)
      else LoginValid(email.value, password.value)
  }

  /** Login is laxer than registration: every payload registration accepts, login accepts with the same e-mail and password. */
  lemma RegistrationPayloadLogsIn(body: Body)
    requires RegisterPayload.ValidateRegisterPayload(body).Valid?
    ensures var reg := RegisterPayload.ValidateRegisterPayload(body).value;
            ValidateLoginPayload(body) == LoginValid(reg.email, reg.password)
  {
    var e := ParseBody(body).value.email.value;
    if AllWhitespace(e) {
      TrimEmptyIff(e);
    }
  }

  /** A one-character password passes login validation: there is no length rule here. */
  lemma AnyPasswordAccepted(body: Body)
    requires ParseBody(body).Valid?
    requires var e := ParseBody(body).value.email; e.Some? && !AllWhitespace(e.value)
    requires ParseBody(body).value.password == Some("x")
    ensures ValidateLoginPayload(body).LoginValid?
  {
  }
}
