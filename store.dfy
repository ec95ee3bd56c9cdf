/** The tenant side of the store as one object whose tables the service
    operations update in place. Each method is one atomic step and does what
    the transition function of the same name in `AuthService`,
    `CompanyService` or `AdminService` describes. */
module Store {
  import opened Common
  import opened Seqs
  import opened Tenants
  import opened Tokens
  import opened AuthValidation
  import opened CompanyValidation
  import AuthService
  import CompanyService
  import AdminService
  import Schema

  class TenantStore {
    var companies: seq<Company>
    var kycDocuments: seq<KycDocument>
    var admins: seq<Admin>

    function Tables(): Tenants.Tables
      reads this
    {
      Tenants.Tables(companies, kycDocuments, admins)
    }

    /** The database constraints, and: only approved companies hold a
        webhook secret. */
    ghost predicate Valid()
      reads this
    {
      Consistent(Tables()) && SecretsBackedByApproval(Tables())
    }

    /** A store holding only the seeded administrators. */
    constructor (seeded: seq<Admin>)
      requires forall i, j :: 0 <= i < j < |seeded| ==> seeded[i].email != seeded[j].email
      ensures Valid()
      ensures companies == [] && kycDocuments == [] && admins == seeded
    {
      companies, kycDocuments, admins := [], [], seeded;
    }

    method RegisterCompany(input: RegisterCompanyInput, freshId: string, passwordHash: string,
                           otpHash: string, now: int, expiryMinutes: nat)
      returns (r: Result<Reply<AuthService.PublicCompany>>)
      requires Valid() && !HasCompany(companies, freshId)
      modifies this
      ensures Valid()
      ensures var s := AuthService.RegisterCompany(old(Tables()), input, freshId, passwordHash, otpHash, now, expiryMinutes);
        Tables() == s.tables && r == s.result
    {
      // Brings the step's contract into scope for the invariant proof.
      ghost var expected := AuthService.RegisterCompany(Tables(), input, freshId, passwordHash, otpHash, now, expiryMinutes);
      if CompanyWithEmail(companies, input.email).Some? {
        return Err(AuthService.EmailTaken);
      }
      var c := Company(freshId, input.businessName, input.email, passwordHash, false, None,
                       Some(otpHash), Some(AuthService.OtpExpiry(now, expiryMinutes)), None);
      companies := companies + [c];
      r := Ok(Reply("Company registered successfully", AuthService.PublicView(c)));
    }

    method VerifyOtp(input: VerifyOtpInput, matches: AuthService.Matcher, now: int) returns (r: Result<string>)
      requires Valid()
      modifies this
      ensures Valid()
      ensures var s := AuthService.VerifyOtp(old(Tables()), input, matches, now);
        Tables() == s.tables && r == s.result
    {
      // Brings the step's contract into scope for the invariant proof.
      ghost var expected := AuthService.VerifyOtp(Tables(), input, matches, now);
      var found := CompanyWithEmail(companies, input.email);
      if found.None? {
        return Err(AuthService.CompanyNotFound);
      }
      var k := found.value;
      var c := companies[k];
      if c.isEmailVerified {
        return Err(AuthService.AlreadyVerified);
      }
      var failure := AuthService.CheckOtp(c, input.otp, matches, now);
      if failure.Some? {
        return Err(failure.value);
      }
      companies := companies[k := c.(isEmailVerified := true, emailVerifiedAt := Some(now), otpHash := None, otpExpiresAt := None)];
      r := Ok("Email verified successfully");
    }

    method ResendOtp(email: string, otpHash: string, now: int, expiryMinutes: nat) returns (r: Result<string>)
      requires Valid()
      modifies this
      ensures Valid()
      ensures var s := AuthService.ResendOtp(old(Tables()), email, otpHash, now, expiryMinutes);
        Tables() == s.tables && r == s.result
    {
      // Brings the step's contract into scope for the invariant proof.
      ghost var expected := AuthService.ResendOtp(Tables(), email, otpHash, now, expiryMinutes);
      var found := CompanyWithEmail(companies, email);
      if found.None? {
        return Err(AuthService.CompanyNotFound);
      }
      var k := found.value;
      if companies[k].isEmailVerified {
        return Err(AuthService.AlreadyVerified);
      }
      companies := companies[k := companies[k].(otpHash := Some(otpHash), otpExpiresAt := Some(AuthService.OtpExpiry(now, expiryMinutes)))];
      r := Ok("OTP resent successfully");
    }

    method ForgotPassword(email: string, otpHash: string, now: int, expiryMinutes: nat) returns (r: Result<string>)
      requires Valid()
      modifies this
      ensures Valid()
      ensures var s := AuthService.ForgotPassword(old(Tables()), email, otpHash, now, expiryMinutes);
        Tables() == s.tables && r == s.result
    {
      // Brings the step's contract into scope for the invariant proof.
      ghost var expected := AuthService.ForgotPassword(Tables(), email, otpHash, now, expiryMinutes);
      var found := CompanyWithEmail(companies, email);
      if found.None? {
        return Err(AuthService.CompanyNotFound);
      }
      var k := found.value;
      companies := companies[k := companies[k].(otpHash := Some(otpHash), otpExpiresAt := Some(AuthService.OtpExpiry(now, expiryMinutes)))];
      r := Ok("Password reset OTP has been sent to your email");
    }

    method VerifyResetOtp(input: VerifyOtpInput, matches: AuthService.Matcher, now: int, sign: Signer)
      returns (r: Result<Reply<string>>)
      requires Valid()
      modifies this
      ensures Valid()
      ensures var s := AuthService.VerifyResetOtp(old(Tables()), input, matches, now, sign);
        Tables() == s.tables && r == s.result
    {
      // Brings the step's contract into scope for the invariant proof.
      ghost var expected := AuthService.VerifyResetOtp(Tables(), input, matches, now, sign);
      var found := CompanyWithEmail(companies, input.email);
      if found.None? {
        return Err(AuthService.CompanyNotFound);
      }
      var k := found.value;
      var c := companies[k];
      var failure := AuthService.CheckOtp(c, input.otp, matches, now);
      if failure.Some? {
        return Err(failure.value);
      }
      companies := companies[k := c.(otpHash := None, otpExpiresAt := None)];
      var resetToken := sign(AccessLifetime, AuthPayload(c.id, PasswordResetType, None));
      r := Ok(Reply("OTP verified successfully", resetToken));
    }

    method ResetPassword(userId: string, passwordHash: string) returns (r: Result<string>)
      requires Valid()
      modifies this
      ensures Valid()
      ensures var s := AuthService.ResetPassword(old(Tables()), userId, passwordHash);
        Tables() == s.tables && r == s.result
    {
      // Brings the step's contract into scope for the invariant proof.
      ghost var expected := AuthService.ResetPassword(Tables(), userId, passwordHash);
      var found := CompanyWithId(companies, userId);
      if found.None? {
        return Err(StoreRequestError);
      }
      var k := found.value;
      companies := companies[k := companies[k].(passwordHash := passwordHash)];
      r := Ok("Password has been reset successfully");
    }

    method SubmitKyc(companyId: string, input: SubmitKycInput, freshId: string) returns (r: Result<Reply<KycDocument>>)
      requires Valid() && DocumentWithId(kycDocuments, freshId).None?
      modifies this
      ensures Valid()
      ensures var s := CompanyService.SubmitKyc(old(Tables()), companyId, input, freshId);
        Tables() == s.tables && r == s.result
    {
      // Brings the step's contract into scope for the invariant proof.
      ghost var expected := CompanyService.SubmitKyc(Tables(), companyId, input, freshId);
      var existing := CompanyService.FirstDocumentOf(kycDocuments, companyId);
      if existing.Some? {
        if kycDocuments[existing.value].status == KycPending {
          return Err(CompanyService.UnderReview);
        }
        if kycDocuments[existing.value].status == KycApproved {
          return Err(CompanyService.AlreadyApproved);
        }
      }
      if CompanyWithId(companies, companyId).None? {
        return Err(StoreRequestError);
      }
      var d := KycDocument(freshId, companyId, input.registrationNumber, input.businessAddress,
                           input.contactDetails, KycPending, None, None, None);
      kycDocuments := kycDocuments + [d];
      r := Ok(Reply("KYC submitted successfully", d));
    }

    method ApproveKyc(kycDocumentId: string, adminId: string, random: Bytes32, now: int) returns (r: Result<Reply<string>>)
      requires Valid()
      modifies this
      ensures Valid()
      ensures var s := AdminService.ApproveKyc(old(Tables()), kycDocumentId, adminId, random, now);
        Tables() == s.tables && r == s.result
    {
      // Brings the step's contract into scope for the invariant proof.
      ghost var expected := AdminService.ApproveKyc(Tables(), kycDocumentId, adminId, random, now);
      var found := DocumentWithId(kycDocuments, kycDocumentId);
      if found.None? {
        return Err(AdminService.DocumentNotFound);
      }
      var k := found.value;
      var d := kycDocuments[k];
      if d.status == KycApproved {
        return Err(AdminService.AlreadyApproved);
      }
      var webhookSecret := Text.HexEncode(random);
      var owner := CompanyWithId(companies, d.companyId);
      if owner.None? {
        return Err(StoreRequestError);
      }
      kycDocuments := kycDocuments[k := d.(status := KycApproved, reviewedAt := Some(now), reviewedBy := Some(adminId))];
      companies := companies[owner.value := companies[owner.value].(webhookSecret := Some(webhookSecret))];
      r := Ok(Reply("KYC approved successfully", webhookSecret));
    }

    method RejectKyc(kycDocumentId: string, adminId: string, reason: Option<Schema.Json>, now: int) returns (r: Result<string>)
      requires Valid()
      modifies this
      ensures Valid()
      ensures var s := AdminService.RejectKyc(old(Tables()), kycDocumentId, adminId, reason, now);
        Tables() == s.tables && r == s.result
    {
      // Brings the step's contract into scope for the invariant proof.
      ghost var expected := AdminService.RejectKyc(Tables(), kycDocumentId, adminId, reason, now);
      var found := DocumentWithId(kycDocuments, kycDocumentId);
      if found.None? {
        return Err(AdminService.DocumentNotFound);
      }
      var k := found.value;
      var d := kycDocuments[k];
      if d.status == KycApproved {
        return Err(AdminService.CannotRejectApproved);
      }
      if !AdminService.ReasonAccepted(reason) {
        return Err(AdminService.InvalidReason);
      }
      var rejectionReason := AdminService.StoredReason(reason, d.rejectionReason);
      kycDocuments := kycDocuments[k := d.(status := KycRejected, rejectionReason := rejectionReason,
                                           reviewedAt := Some(now), reviewedBy := Some(adminId))];
      r := Ok("KYC rejected successfully");
    }
  }
}
