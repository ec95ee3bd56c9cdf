/** Company accounts: registration, login, token refresh and the OTP state
    machine. Email verification and password reset share one OTP slot
    (`otpHash`, `otpExpiresAt`) on the company row. Hashing (bcrypt) is not
    modelled: fresh hashes are parameters and comparison is the predicate
    `matches(candidate, hash)`. Time is `now`, in milliseconds. */
module AuthService {
  import opened Common
  import opened Seqs
  import opened Tenants
  import opened Tokens
  import opened AuthValidation

  /** `bcrypt.compare(candidate, hash)`. */
  type Matcher = (string, string) -> bool

  /** When an OTP issued at `now` (in milliseconds) stops being accepted:
      exactly `expiryMinutes` minutes later. */
  function OtpExpiry(now: int, expiryMinutes: nat): (t: int)
    ensures t - now == 60000 * expiryMinutes
    ensures t >= now && (expiryMinutes > 0 ==> t > now)
  {
    now + 1000 * 60 * expiryMinutes
  }

  /** The company record registration returns: everything but the password
      hash, the OTP slot and the webhook secret. */
  datatype PublicCompany = PublicCompany(
    id: string, businessName: string, email: string, isEmailVerified: bool, emailVerifiedAt: Option<int>)

  function PublicView(c: Company): (p: PublicCompany)
    ensures p.id == c.id && p.businessName == c.businessName && p.email == c.email
    ensures p.isEmailVerified == c.isEmailVerified && p.emailVerifiedAt == c.emailVerifiedAt
  {
    PublicCompany(c.id, c.businessName, c.email, c.isEmailVerified, c.emailVerifiedAt)
  }

  /** The public record reveals nothing of the secrets: companies that differ
      only in password hash, OTP slot and webhook secret look the same. */
  lemma PublicViewHidesSecrets(c: Company, passwordHash: string, otpHash: Option<string>,
                               otpExpiresAt: Option<int>, webhookSecret: Option<string>)
    ensures PublicView(c.(passwordHash := passwordHash, otpHash := otpHash,
                          otpExpiresAt := otpExpiresAt, webhookSecret := webhookSecret))
         == PublicView(c)
  {
  }

  const EmailTaken: Error := HttpError(400, "Company with this email already exists")
  const UnknownCredentials: Error := HttpError(400, "Credentials does not match our records")
  const WrongPassword: Error := HttpError(400, "Invalid password")
  const CompanyNotFound: Error := HttpError(404, "Company not found")
  const AlreadyVerified: Error := HttpError(400, "Email is already verified")
  const OtpNotFound: Error := HttpError(400, "OTP not found. Please request a new one.")
  const OtpExpired: Error := HttpError(400, "OTP has expired. Please request a new one.")
  const InvalidOtp: Error := HttpError(400, "Invalid OTP")

  /** The slot holds an OTP: a non-empty hash and an expiry. */
  predicate HasOtp(c: Company)
  {
    c.otpHash.Some? && c.otpHash.value != "" && c.otpExpiresAt.Some?
  }

  /** The checks `verifyOtp` and `verifyResetOtp` both make on the slot, in
      this order: present, not expired, matching. Expiry is strict: an OTP
      whose expiry equals `now` is still accepted. */
  function CheckOtp(c: Company, otp: string, matches: Matcher, now: int): (e: Option<Error>)
    ensures e == Some(OtpNotFound) <==> !HasOtp(c)
    ensures e == Some(OtpExpired) <==> HasOtp(c) && c.otpExpiresAt.value < now
    ensures e == Some(InvalidOtp) <==> HasOtp(c) && now <= c.otpExpiresAt.value && !matches(otp, c.otpHash.value)
    ensures e.None? <==> HasOtp(c) && now <= c.otpExpiresAt.value && matches(otp, c.otpHash.value)
  {
    if !HasOtp(c) then Some(OtpNotFound)
    else if c.otpExpiresAt.value < now then Some(OtpExpired)
    else if !matches(otp, c.otpHash.value) then Some(InvalidOtp)
    else None
  }

  /** `registerCompany`. `freshId` is the id the store assigns; the two hashes
      are those of the password and of the generated OTP. */
  function RegisterCompany(t: Tables, input: RegisterCompanyInput, freshId: string,
                           passwordHash: string, otpHash: string, now: int, expiryMinutes: nat): (r: Step<Reply<PublicCompany>>)
    requires !HasCompany(t.companies, freshId)
    ensures r.result.Err? <==> exists i :: 0 <= i < |t.companies| && t.companies[i].email == input.email
    ensures r.result.Err? ==> r == Step(t, Err(EmailTaken))
    ensures r.result.Ok? ==>
      && |r.tables.companies| == |t.companies| + 1
      && r.tables.companies[..|t.companies|] == t.companies
      && r.tables.kycDocuments == t.kycDocuments && r.tables.admins == t.admins
      && var c := r.tables.companies[|t.companies|];
         && c.id == freshId && c.businessName == input.businessName && c.email == input.email
         && c.passwordHash == passwordHash
         && !c.isEmailVerified && c.emailVerifiedAt.None?
         && c.otpHash == Some(otpHash) && c.otpExpiresAt == Some(now + 60000 * expiryMinutes)
         && c.webhookSecret.None?
         && r.result.value == Reply("Company registered successfully", PublicView(c))
    ensures Consistent(t) ==> Consistent(r.tables)
    ensures SecretsBackedByApproval(t) ==> SecretsBackedByApproval(r.tables)
  {
    if CompanyWithEmail(t.companies, input.email).Some? then Step(t, Err(EmailTaken))
    else
      var c := Company(freshId, input.businessName, input.email, passwordHash, false, None,
                       Some(otpHash), Some(OtpExpiry(now, expiryMinutes)), None);
      assert Consistent(t) ==> Consistent(t.(companies := t.companies + [c])) by {
        if Consistent(t) { CompanyAppendConsistent(t, c); }
      }
      assert SecretsBackedByApproval(t) ==> SecretsBackedByApproval(t.(companies := t.companies + [c])) by {
        if SecretsBackedByApproval(t) { CompanyAppendKeepsBacking(t, c); }
      }
      Step(t.(companies := t.companies + [c]), Ok(Reply("Company registered successfully", PublicView(c))))
  }

  /** `login`: reads only. Email verification is not required. */
  function Login(companies: seq<Company>, input: LoginInput, matches: Matcher, sign: Signer): (r: Result<Reply<TokenPair>>)
    ensures r == Err(UnknownCredentials) <==> forall i :: 0 <= i < |companies| ==> companies[i].email != input.email
    ensures r.Ok? <==>
      CompanyWithEmail(companies, input.email).Some?
      && matches(input.password, companies[CompanyWithEmail(companies, input.email).value].passwordHash)
    ensures r.Err? ==> r == Err(UnknownCredentials) || r == Err(WrongPassword)
    ensures r.Ok? ==>
      var c := companies[CompanyWithEmail(companies, input.email).value];
      c.email == input.email && r.value == Reply("Company logged in successfully", CompanyTokens(sign, c.id))
  {
    match CompanyWithEmail(companies, input.email)
    case None => Err(UnknownCredentials)
    case Some(k) =>
      if !matches(input.password, companies[k].passwordHash) then Err(WrongPassword)
      else Ok(Reply("Company logged in successfully", CompanyTokens(sign, companies[k].id)))
  }

  /** `refreshToken`: any token that verifies and names an existing company
      yields a new company token pair. The token's type is not checked. */
  function RefreshToken(companies: seq<Company>, refreshToken: string, verify: Verifier, sign: Signer): (r: Result<Reply<TokenPair>>)
    ensures verify(refreshToken).TokenError? ==> r == Err(Thrown(verify(refreshToken).name))
    ensures r.Ok? <==> verify(refreshToken).Decoded? && HasCompany(companies, verify(refreshToken).payload.userId)
    ensures verify(refreshToken).Decoded? && !HasCompany(companies, verify(refreshToken).payload.userId) ==>
      r == Err(CompanyNotFound)
    ensures r.Ok? ==>
      r.value == Reply("Token refreshed successfully", CompanyTokens(sign, verify(refreshToken).payload.userId))
  {
    match verify(refreshToken)
    case TokenError(name) => Err(Thrown(name))
    case Decoded(claims) =>
      if CompanyWithId(companies, claims.userId).None? then Err(CompanyNotFound)
      else Ok(Reply("Token refreshed successfully", CompanyTokens(sign, claims.userId)))
  }

  /** `verifyOtp`: marks the email verified and empties the OTP slot. A
      failure writes nothing. */
  function VerifyOtp(t: Tables, input: VerifyOtpInput, matches: Matcher, now: int): (r: Step<string>)
    ensures r.result.Err? ==> r.tables == t
    ensures CompanyWithEmail(t.companies, input.email).None? ==> r.result == Err(CompanyNotFound)
    ensures var f := CompanyWithEmail(t.companies, input.email);
      f.Some? ==>
        var c := t.companies[f.value];
        && (c.isEmailVerified ==> r.result == Err(AlreadyVerified))
        && (!c.isEmailVerified && CheckOtp(c, input.otp, matches, now).Some? ==>
              r.result == Err(CheckOtp(c, input.otp, matches, now).value))
        && (r.result.Ok? <==> !c.isEmailVerified && CheckOtp(c, input.otp, matches, now).None?)
        && (r.result.Ok? ==>
              && r.result.value == "Email verified successfully"
              && CompanyRowUpdated(t, r.tables, f.value,
                   c.(isEmailVerified := true, emailVerifiedAt := Some(now), otpHash := None, otpExpiresAt := None)))
    ensures Consistent(t) ==> Consistent(r.tables)
    ensures SecretsBackedByApproval(t) ==> SecretsBackedByApproval(r.tables)
  {
    match CompanyWithEmail(t.companies, input.email)
    case None => Step(t, Err(CompanyNotFound))
    case Some(k) =>
      var c := t.companies[k];
      if c.isEmailVerified then Step(t, Err(AlreadyVerified))
      else match CheckOtp(c, input.otp, matches, now)
        case Some(e) => Step(t, Err(e))
        case None =>
          var c' := c.(isEmailVerified := true, emailVerifiedAt := Some(now), otpHash := None, otpExpiresAt := None);
          var after := t.(companies := t.companies[k := c']);
          assert Consistent(t) ==> Consistent(after) by {
            if Consistent(t) { CompanyUpdateConsistent(t, after, k, c'); }
          }
          assert SecretsBackedByApproval(t) ==> SecretsBackedByApproval(after) by {
            if SecretsBackedByApproval(t) { CompanyUpdateKeepsBacking(t, after, k, c'); }
          }
          Step(after, Ok("Email verified successfully"))
  }

  /** Writes a new OTP into the slot of company `k`, touching nothing else. */
  function RefillSlot(t: Tables, k: nat, otpHash: string, now: int, expiryMinutes: nat): (after: Tables)
    requires k < |t.companies|
    ensures CompanyRowUpdated(t, after, k,
      t.companies[k].(otpHash := Some(otpHash), otpExpiresAt := Some(now + 60000 * expiryMinutes)))
    ensures Consistent(t) ==> Consistent(after)
    ensures SecretsBackedByApproval(t) ==> SecretsBackedByApproval(after)
  {
    var c := t.companies[k].(otpHash := Some(otpHash), otpExpiresAt := Some(OtpExpiry(now, expiryMinutes)));
    var after := t.(companies := t.companies[k := c]);
    assert Consistent(t) ==> Consistent(after) by {
      if Consistent(t) { CompanyUpdateConsistent(t, after, k, c); }
    }
    assert SecretsBackedByApproval(t) ==> SecretsBackedByApproval(after) by {
      if SecretsBackedByApproval(t) { CompanyUpdateKeepsBacking(t, after, k, c); }
    }
    after
  }

  /** `resendOtp`: refused for a verified company; otherwise replaces the OTP
      hash and expiry and nothing else. */
  function ResendOtp(t: Tables, email: string, otpHash: string, now: int, expiryMinutes: nat): (r: Step<string>)
    ensures r.result.Err? ==> r.tables == t
    ensures var f := CompanyWithEmail(t.companies, email);
      && (f.None? ==> r.result == Err(CompanyNotFound))
      && (f.Some? && t.companies[f.value].isEmailVerified ==> r.result == Err(AlreadyVerified))
      && (r.result.Ok? <==> f.Some? && !t.companies[f.value].isEmailVerified)
      && (r.result.Ok? ==>
            && r.result.value == "OTP resent successfully"
            && CompanyRowUpdated(t, r.tables, f.value,
                 t.companies[f.value].(otpHash := Some(otpHash), otpExpiresAt := Some(now + 60000 * expiryMinutes))))
    ensures Consistent(t) ==> Consistent(r.tables)
    ensures SecretsBackedByApproval(t) ==> SecretsBackedByApproval(r.tables)
  {
    match CompanyWithEmail(t.companies, email)
    case None => Step(t, Err(CompanyNotFound))
    case Some(k) =>
      if t.companies[k].isEmailVerified then Step(t, Err(AlreadyVerified))
      else Step(RefillSlot(t, k, otpHash, now, expiryMinutes), Ok("OTP resent successfully"))
  }

  /** `forgotPassword`: writes a new OTP into the same slot, verified or not. */
  function ForgotPassword(t: Tables, email: string, otpHash: string, now: int, expiryMinutes: nat): (r: Step<string>)
    ensures r.result.Err? ==> r.tables == t
    ensures var f := CompanyWithEmail(t.companies, email);
      && (f.None? <==> r.result == Err(CompanyNotFound))
      && (r.result.Ok? <==> f.Some?)
      && (r.result.Ok? ==>
            && r.result.value == "Password reset OTP has been sent to your email"
            && CompanyRowUpdated(t, r.tables, f.value,
                 t.companies[f.value].(otpHash := Some(otpHash), otpExpiresAt := Some(now + 60000 * expiryMinutes))))
    ensures Consistent(t) ==> Consistent(r.tables)
    ensures SecretsBackedByApproval(t) ==> SecretsBackedByApproval(r.tables)
  {
    match CompanyWithEmail(t.companies, email)
    case None => Step(t, Err(CompanyNotFound))
    case Some(k) => Step(RefillSlot(t, k, otpHash, now, expiryMinutes), Ok("Password reset OTP has been sent to your email"))
  }

  /** `verifyResetOtp`: the same slot checks as `verifyOtp` (but no verified
      check); success empties the slot and issues a `password_reset` access
      token. */
  function VerifyResetOtp(t: Tables, input: VerifyOtpInput, matches: Matcher, now: int, sign: Signer): (r: Step<Reply<string>>)
    ensures r.result.Err? ==> r.tables == t
    ensures CompanyWithEmail(t.companies, input.email).None? ==> r.result == Err(CompanyNotFound)
    ensures var f := CompanyWithEmail(t.companies, input.email);
      f.Some? ==>
        var c := t.companies[f.value];
        && (CheckOtp(c, input.otp, matches, now).Some? ==> r.result == Err(CheckOtp(c, input.otp, matches, now).value))
        && (r.result.Ok? <==> CheckOtp(c, input.otp, matches, now).None?)
        && (r.result.Ok? ==>
              && r.result.value == Reply("OTP verified successfully",
                                         sign(AccessLifetime, AuthPayload(c.id, PasswordResetType, None)))
              && CompanyRowUpdated(t, r.tables, f.value, c.(otpHash := None, otpExpiresAt := None)))
    ensures Consistent(t) ==> Consistent(r.tables)
    ensures SecretsBackedByApproval(t) ==> SecretsBackedByApproval(r.tables)
  {
    match CompanyWithEmail(t.companies, input.email)
    case None => Step(t, Err(CompanyNotFound))
    case Some(k) =>
      var c := t.companies[k];
      match CheckOtp(c, input.otp, matches, now)
      case Some(e) => Step(t, Err(e))
      case None =>
        var c' := c.(otpHash := None, otpExpiresAt := None);
        var after := t.(companies := t.companies[k := c']);
        assert Consistent(t) ==> Consistent(after) by {
          if Consistent(t) { CompanyUpdateConsistent(t, after, k, c'); }
        }
        assert SecretsBackedByApproval(t) ==> SecretsBackedByApproval(after) by {
          if SecretsBackedByApproval(t) { CompanyUpdateKeepsBacking(t, after, k, c'); }
        }
        Step(after, Ok(Reply("OTP verified successfully", sign(AccessLifetime, AuthPayload(c.id, PasswordResetType, None)))))
  }

  /** `resetPassword` for the user id of a verified reset token: replaces the
      password hash and nothing else. An unknown id makes the store's update
      throw. */
  function ResetPassword(t: Tables, userId: string, passwordHash: string): (r: Step<string>)
    ensures r.result.Err? <==> !HasCompany(t.companies, userId)
    ensures r.result.Err? ==> r == Step(t, Err(StoreRequestError))
    ensures r.result.Ok? ==>
      var k := CompanyWithId(t.companies, userId).value;
      && r.result.value == "Password has been reset successfully"
      && CompanyRowUpdated(t, r.tables, k, t.companies[k].(passwordHash := passwordHash))
    ensures Consistent(t) ==> Consistent(r.tables)
    ensures SecretsBackedByApproval(t) ==> SecretsBackedByApproval(r.tables)
  {
    match CompanyWithId(t.companies, userId)
    case None => Step(t, Err(StoreRequestError))
    case Some(k) =>
      var c' := t.companies[k].(passwordHash := passwordHash);
      var after := t.(companies := t.companies[k := c']);
      assert Consistent(t) ==> Consistent(after) by {
        if Consistent(t) { CompanyUpdateConsistent(t, after, k, c'); }
      }
      assert SecretsBackedByApproval(t) ==> SecretsBackedByApproval(after) by {
        if SecretsBackedByApproval(t) { CompanyUpdateKeepsBacking(t, after, k, c'); }
      }
      Step(after, Ok("Password has been reset successfully"))
  }

  /** The OTP sent at registration verifies the email while it lasts. */
  lemma RegisteredOtpVerifies(t: Tables, input: RegisterCompanyInput, freshId: string, passwordHash: string,
                              otpHash: string, now: int, expiryMinutes: nat,
                              otp: string, matches: Matcher, later: int)
    requires !HasCompany(t.companies, freshId)
    requires RegisterCompany(t, input, freshId, passwordHash, otpHash, now, expiryMinutes).result.Ok?
    requires otpHash != "" && matches(otp, otpHash) && later <= now + 60000 * expiryMinutes
    ensures VerifyOtp(RegisterCompany(t, input, freshId, passwordHash, otpHash, now, expiryMinutes).tables,
                      VerifyOtpInput(input.email, otp), matches, later).result == Ok("Email verified successfully")
  {
    var cs := RegisterCompany(t, input, freshId, passwordHash, otpHash, now, expiryMinutes).tables.companies;
    var c := cs[|t.companies|];
    assert cs == t.companies + [c];
    FindFirstAfterAppend(t.companies, (x: Company) => x.email == input.email, c);
  }

  /** Verification succeeds once: a second attempt, with any code at any
      time, is refused as already verified. */
  lemma VerifyOtpOnlyOnce(t: Tables, input: VerifyOtpInput, matches: Matcher, now: int,
                          otp: string, matches': Matcher, later: int)
    requires VerifyOtp(t, input, matches, now).result.Ok?
    ensures VerifyOtp(VerifyOtp(t, input, matches, now).tables, VerifyOtpInput(input.email, otp), matches', later).result
            == Err(AlreadyVerified)
  {
    var k := CompanyWithEmail(t.companies, input.email).value;
    var after := VerifyOtp(t, input, matches, now).tables;
    FindFirstAfterUpdate(t.companies, (x: Company) => x.email == input.email, k, after.companies[k]);
  }

  /** A reset code works once: success empties the slot, so the same code
      presented again finds no OTP. */
  lemma ResetOtpSingleUse(t: Tables, input: VerifyOtpInput, matches: Matcher, now: int, sign: Signer, later: int)
    requires VerifyResetOtp(t, input, matches, now, sign).result.Ok?
    ensures VerifyResetOtp(VerifyResetOtp(t, input, matches, now, sign).tables, input, matches, later, sign).result
            == Err(OtpNotFound)
  {
    var k := CompanyWithEmail(t.companies, input.email).value;
    var after := VerifyResetOtp(t, input, matches, now, sign).tables;
    FindFirstAfterUpdate(t.companies, (x: Company) => x.email == input.email, k, after.companies[k]);
  }

  /** The slot is shared: once a password reset has been requested, email
      verification checks the code against the reset OTP, and the code sent
      at registration no longer counts. */
  lemma ForgotPasswordSharesSlot(t: Tables, email: string, otpHash: string, now: int, expiryMinutes: nat,
                                 otp: string, matches: Matcher, later: int)
    requires ForgotPassword(t, email, otpHash, now, expiryMinutes).result.Ok?
    requires !t.companies[CompanyWithEmail(t.companies, email).value].isEmailVerified
    requires otpHash != "" && later <= now + 60000 * expiryMinutes
    ensures VerifyOtp(ForgotPassword(t, email, otpHash, now, expiryMinutes).tables, VerifyOtpInput(email, otp), matches, later).result
            == if matches(otp, otpHash) then Ok("Email verified successfully") else Err(InvalidOtp)
  {
    var k := CompanyWithEmail(t.companies, email).value;
    var after := ForgotPassword(t, email, otpHash, now, expiryMinutes).tables;
    FindFirstAfterUpdate(t.companies, (x: Company) => x.email == email, k, after.companies[k]);
  }
}
