/** Request schemas of the authentication endpoints (registration, login,
    OTP, token refresh, password reset). */
module AuthValidation {
  import opened Common
  import opened Text
  import opened Schema

  /** The password rule shared by registration and password reset: at least
      8 code units, an upper-case letter A-Z and a digit 0-9. */
  predicate StrongPassword(s: string)
  {
    Utf16Length(s) >= 8 && HasCharIn(s, 'A', 'Z') && HasCharIn(s, '0', '9')
  }

  /** `z.string().min(8).regex(/[A-Z]/).regex(/[0-9]/)`: every failing check
      is reported, not only the first. */
  function ParsePassword(path: seq<string>, v: Option<Json>): (r: Parsed<string>)
    ensures r.Valid? <==> v.Some? && v.value.JString? && StrongPassword(v.value.s)
    ensures r.Valid? ==> v == Some(JString(r.value))
    ensures r.Invalid? ==> r.issues != []
    ensures v.Some? && v.value.JString? && !HasCharIn(v.value.s, '0', '9') ==>
              r.Invalid? && Issue(path, InvalidFormat("regex")) in r.issues
  {
    match v
    case Some(JString(s)) =>
      var issues :=
        (if Utf16Length(s) >= 8 then [] else [Issue(path, TooSmall(8, true))])
        + (if HasCharIn(s, 'A', 'Z') then [] else [Issue(path, InvalidFormat("regex"))])
        + (if HasCharIn(s, '0', '9') then [] else [Issue(path, InvalidFormat("regex"))]);
      if issues == [] then Valid(s) else Invalid(issues)
    case _ => Invalid([Issue(path, InvalidType)])
  }

  predicate StrongPasswordAt(j: Json, key: string)
  {
    StrAt(j, key).Some? && StrongPassword(StrAt(j, key).value)
  }

  /** The body of any request must be a JSON object. */
  const NotAnObject: seq<Issue> := [Issue([], InvalidType)]

  datatype RegisterCompanyInput = RegisterCompanyInput(businessName: string, email: string, password: string)

  /** `registerCompanySchema`. */
  function ParseRegisterCompany(isEmail: string -> bool, j: Json): (r: Parsed<RegisterCompanyInput>)
    ensures r.Valid? <==> StrMinAt(j, "businessName", 2) && EmailAt(isEmail, j, "email") && StrongPasswordAt(j, "password")
    ensures r.Valid? ==>
      && StrAt(j, "businessName") == Some(r.value.businessName)
      && StrAt(j, "email") == Some(r.value.email)
      && StrAt(j, "password") == Some(r.value.password)
    ensures r.Invalid? ==> r.issues != []
  {
    if !j.JObject? then Invalid(NotAnObject)
    else
      var name := ParseString(["businessName"], Field(j, "businessName"), 2);
      var email := ParseEmail(isEmail, ["email"], Field(j, "email"));
      var password := ParsePassword(["password"], Field(j, "password"));
      if name.Valid? && email.Valid? && password.Valid? then
        Valid(RegisterCompanyInput(name.value, email.value, password.value))
      else Invalid(IssuesOf(name) + IssuesOf(email) + IssuesOf(password))
  }

  datatype LoginInput = LoginInput(email: string, password: string)

  /** `loginCompanySchema`. */
  function ParseLogin(isEmail: string -> bool, j: Json): (r: Parsed<LoginInput>)
    ensures r.Valid? <==> EmailAt(isEmail, j, "email") && StrMinAt(j, "password", 1)
    ensures r.Valid? ==> StrAt(j, "email") == Some(r.value.email) && StrAt(j, "password") == Some(r.value.password)
    ensures r.Valid? ==> r.value.password != ""
    ensures r.Invalid? ==> r.issues != []
  {
    if !j.JObject? then Invalid(NotAnObject)
    else
      var email := ParseEmail(isEmail, ["email"], Field(j, "email"));
      var password := ParseString(["password"], Field(j, "password"), 1);
      if email.Valid? && password.Valid? then Valid(LoginInput(email.value, password.value))
      else Invalid(IssuesOf(email) + IssuesOf(password))
  }

  datatype VerifyOtpInput = VerifyOtpInput(email: string, otp: string)

  /** `verifyOtpSchema`: exactly six code units; whether they are digits is
      not checked. */
  function ParseVerifyOtp(isEmail: string -> bool, j: Json): (r: Parsed<VerifyOtpInput>)
    ensures r.Valid? <==> EmailAt(isEmail, j, "email") && StrAt(j, "otp").Some? && Utf16Length(StrAt(j, "otp").value) == 6
    ensures r.Valid? ==> StrAt(j, "email") == Some(r.value.email) && StrAt(j, "otp") == Some(r.value.otp)
    ensures r.Invalid? ==> r.issues != []
  {
    if !j.JObject? then Invalid(NotAnObject)
    else
      var email := ParseEmail(isEmail, ["email"], Field(j, "email"));
      var otp := ParseExactString(["otp"], Field(j, "otp"), 6);
      if email.Valid? && otp.Valid? then Valid(VerifyOtpInput(email.value, otp.value))
      else Invalid(IssuesOf(email) + IssuesOf(otp))
  }

  /** `refreshTokenSchema`: a non-empty token string. */
  function ParseRefreshToken(j: Json): (r: Parsed<string>)
    ensures r.Valid? <==> StrMinAt(j, "refreshToken", 1)
    ensures r.Valid? ==> StrAt(j, "refreshToken") == Some(r.value) && r.value != ""
    ensures r.Invalid? ==> r.issues != []
  {
    if !j.JObject? then Invalid(NotAnObject)
    else ParseString(["refreshToken"], Field(j, "refreshToken"), 1)
  }

  /** `resendOtpSchema` and `forgotPasswordSchema`, which are the same schema:
      an object holding one email address. */
  function ParseEmailRequest(isEmail: string -> bool, j: Json): (r: Parsed<string>)
    ensures r.Valid? <==> EmailAt(isEmail, j, "email")
    ensures r.Valid? ==> StrAt(j, "email") == Some(r.value)
    ensures r.Invalid? ==> r.issues != []
  {
    if !j.JObject? then Invalid(NotAnObject)
    else ParseEmail(isEmail, ["email"], Field(j, "email"))
  }

  /** `resetPasswordSchema`: the same password rule as registration. */
  function ParseResetPassword(j: Json): (r: Parsed<string>)
    ensures r.Valid? <==> StrongPasswordAt(j, "password")
    ensures r.Valid? ==> StrAt(j, "password") == Some(r.value)
    ensures r.Invalid? ==> r.issues != []
  {
    if !j.JObject? then Invalid(NotAnObject)
    else ParsePassword(["password"], Field(j, "password"))
  }
}
