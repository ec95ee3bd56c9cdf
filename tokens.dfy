/** Signed session tokens. Signing and verification (JSON Web Tokens under
    the server secret) are not modelled: the signer is a function parameter
    and verification an oracle answering with the payload or the name of the
    error it throws. */
module Tokens {
  import opened Common

  /** The claims a token carries: the subject, what kind of principal or
      purpose it is for (`company`, `admin`, `password_reset`) and, for
      administrators, their role. */
  datatype AuthPayload = AuthPayload(userId: string, tokenType: string, role: Option<string>)

  /** Access tokens use the short lifetime, refresh tokens the long one. */
  datatype Lifetime = AccessLifetime | RefreshLifetime

  type Signer = (Lifetime, AuthPayload) -> string

  /** `jwt.verify`: the decoded payload, or the class name of the error. */
  datatype TokenCheck = Decoded(payload: AuthPayload) | TokenError(name: string)

  type Verifier = string -> TokenCheck

  datatype TokenPair = TokenPair(access: string, refresh: string)

  const CompanyType: string := "company"
  const AdminType: string := "admin"
  const PasswordResetType: string := "password_reset"

  /** A fresh access and refresh token for a company. */
  function CompanyTokens(sign: Signer, companyId: string): (p: TokenPair)
    ensures p.access == sign(AccessLifetime, AuthPayload(companyId, CompanyType, None))
    ensures p.refresh == sign(RefreshLifetime, AuthPayload(companyId, CompanyType, None))
  {
    var claims := AuthPayload(companyId, CompanyType, None);
    TokenPair(sign(AccessLifetime, claims), sign(RefreshLifetime, claims))
  }
}
