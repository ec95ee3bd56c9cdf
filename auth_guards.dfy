/** The request gates in front of the authenticated routes: `authenticate`
    (a Bearer access token of the required principal type naming an existing
    account), `passwordResetToken` (a Bearer token of type `password_reset`)
    and `emailVerified`. Each decision is a function of the header, the store
    and the token verifier; the methods on `Request` attach what a passing
    gate found, as the middlewares do on the Express request. */
module AuthGuards {
  import opened Common
  import opened Seqs
  import opened Text
  import opened Tokens
  import opened Tenants
  import AuthService

  /** The principal a route demands. */
  datatype AuthType = CompanyAuth | AdminAuth

  /** The token type a principal's access token carries. */
  function TypeName(a: AuthType): (name: string)
    ensures name == CompanyType || name == AdminType
    ensures name == CompanyType <==> a == CompanyAuth
  {
    match a
    case CompanyAuth => CompanyType
    case AdminAuth => AdminType
  }

  /** What a passing `authenticate` attaches: the company (without its
      secrets) or the administrator row. */
  datatype Principal = CompanyPrincipal(company: AuthService.PublicCompany) | AdminPrincipal(admin: Admin)

  const AuthRequired: Error := HttpError(401, "Authentication required. Please login.")
  const SessionExpired: Error := HttpError(401, "Session expired. Please login again.")
  const InvalidToken: Error := HttpError(401, "Invalid token.")
  const WrongTokenType: Error := HttpError(403, "Invalid token type for this resource")
  const CompanyAccountNotFound: Error := HttpError(401, "Company account not found")
  const AdminAccountNotFound: Error := HttpError(401, "Admin account not found")
  const InvalidResetToken: Error := HttpError(401, "Invalid or expired reset token.")
  const EmailVerificationRequired: Error := HttpError(403, "Email verification required.")

  const BearerPrefix: string := "Bearer "

  /** The header carries a token in the Bearer scheme; the prefix is
      case-sensitive and includes the space. */
  predicate IsBearer(header: Option<string>)
  {
    header.Some? && StartsWith(header.value, BearerPrefix)
  }

  /** `header.split(' ')[1]` for a Bearer header: the characters after
      `"Bearer "` up to the next space. The header's first space is the one
      ending the prefix, so the second segment always exists. */
  function BearerToken(header: string): (token: string)
    requires StartsWith(header, BearerPrefix)
    ensures 7 + |token| <= |header| && header[7..7 + |token|] == token
    ensures forall i :: 0 <= i < |token| ==> token[i] != ' '
    ensures 7 + |token| < |header| ==> header[7 + |token|] == ' '
  {
    assert header[..7] == BearerPrefix;
    assert header[6] == ' ';
    assert forall i :: 0 <= i < 6 ==> header[i] == BearerPrefix[i];
    assert IndexOf(header, ' ') == 6;
    var rest := header[7..];
    var parts := Split(header, ' ');
    assert parts == [header[..6]] + Split(rest, ' ');
    var k := IndexOf(rest, ' ');
    assert Split(rest, ' ')[0] == rest[..k];
    parts[1]
  }

  /** A header built as `"Bearer " + token` gives back the token, as long as
      the token holds no space (a signed token never does). */
  lemma BearerRoundTrip(token: string)
    requires forall i :: 0 <= i < |token| ==> token[i] != ' '
    ensures StartsWith(BearerPrefix + token, BearerPrefix)
    ensures BearerToken(BearerPrefix + token) == token
  {
    var header := BearerPrefix + token;
    assert header[..7] == BearerPrefix;
    var t := BearerToken(header);
    assert header[7..] == token;
  }

  /** The account an access token of type `authType` names, looked up by id. */
  function PrincipalFor(t: Tables, authType: AuthType, userId: string): (p: Option<Principal>)
    ensures authType == CompanyAuth ==>
      (p.Some? <==> HasCompany(t.companies, userId))
      && (p.Some? ==> p.value.CompanyPrincipal?)
    ensures authType == AdminAuth ==>
      (p.Some? <==> exists i :: 0 <= i < |t.admins| && t.admins[i].id == userId)
      && (p.Some? ==> p.value.AdminPrincipal? && p.value.admin in t.admins && p.value.admin.id == userId)
    ensures p.Some? && p.value.CompanyPrincipal? ==>
      exists i :: 0 <= i < |t.companies| && t.companies[i].id == userId
                  && p.value.company == AuthService.PublicView(t.companies[i])
  {
    match authType
    case CompanyAuth =>
      (match CompanyWithId(t.companies, userId)
       case None => None
       case Some(k) => Some(CompanyPrincipal(AuthService.PublicView(t.companies[k]))))
    case AdminAuth =>
      (match FindFirst(t.admins, (a: Admin) => a.id == userId)
       case None => None
       case Some(k) => Some(AdminPrincipal(t.admins[k])))
  }

  /** What the catch block makes of a failure: the two JWT error classes get
      their own 401 messages, anything else is passed on as it was raised. */
  function MapTokenError(name: string): (e: Error)
    ensures e == SessionExpired <==> name == "TokenExpiredError"
    ensures e == InvalidToken <==> name == "JsonWebTokenError"
    ensures name != "TokenExpiredError" && name != "JsonWebTokenError" ==> e == Thrown(name)
  {
    if name == "TokenExpiredError" then SessionExpired
    else if name == "JsonWebTokenError" then InvalidToken
    else Thrown(name)
  }

  /** `authenticate(authType)`: the checks in order are the Bearer header, the
      token's verification, its type, and the account it names. */
  function Authenticate(t: Tables, header: Option<string>, authType: AuthType, verify: Verifier): (r: Result<Principal>)
    ensures r == Err(AuthRequired) <==> !IsBearer(header)
    ensures IsBearer(header) ==>
      var check := verify(BearerToken(header.value));
      && (check.TokenError? ==> r == Err(MapTokenError(check.name)))
      && (r == Err(WrongTokenType) <==> check.Decoded? && check.payload.tokenType != TypeName(authType))
      && (r == Err(CompanyAccountNotFound) <==>
            authType == CompanyAuth && check.Decoded? && check.payload.tokenType == CompanyType
            && !HasCompany(t.companies, check.payload.userId))
      && (r == Err(AdminAccountNotFound) <==>
            authType == AdminAuth && check.Decoded? && check.payload.tokenType == AdminType
            && !(exists i :: 0 <= i < |t.admins| && t.admins[i].id == check.payload.userId))
      && (r.Ok? <==>
            check.Decoded? && check.payload.tokenType == TypeName(authType)
            && PrincipalFor(t, authType, check.payload.userId).Some?)
      && (r.Ok? ==> r.value == PrincipalFor(t, authType, check.payload.userId).value)
    ensures r.Ok? ==> (r.value.CompanyPrincipal? <==> authType == CompanyAuth)
  {
    if !IsBearer(header) then Err(AuthRequired)
    else match verify(BearerToken(header.value))
      case TokenError(name) => Err(MapTokenError(name))
      case Decoded(claims) =>
        if claims.tokenType != TypeName(authType) then Err(WrongTokenType)
        else match PrincipalFor(t, authType, claims.userId)
          case None => if authType == CompanyAuth then Err(CompanyAccountNotFound) else Err(AdminAccountNotFound)
          case Some(p) => Ok(p)
  }

  /** `passwordResetToken`: a verified `password_reset` token yields its
      claims. Every failure, the missing header and the wrong token type
      included, becomes the same 401, because the catch block rewrites it. */
  function PasswordResetToken(header: Option<string>, verify: Verifier): (r: Result<AuthPayload>)
    ensures r.Err? ==> r.error == InvalidResetToken
    ensures r.Ok? <==>
      IsBearer(header) && verify(BearerToken(header.value)).Decoded?
      && verify(BearerToken(header.value)).payload.tokenType == PasswordResetType
    ensures r.Ok? ==> Decoded(r.value) == verify(BearerToken(header.value))
  {
    if !IsBearer(header) then Err(InvalidResetToken)
    else match verify(BearerToken(header.value))
      case TokenError(_) => Err(InvalidResetToken)
      case Decoded(claims) =>
        if claims.tokenType != PasswordResetType then Err(InvalidResetToken) else Ok(claims)
  }

  /** `emailVerified`: blocks only a request carrying an unverified company;
      a request with no company attached (an administrator's) passes. */
  function EmailVerified(company: Option<AuthService.PublicCompany>): (e: Option<Error>)
    ensures e.Some? ==> e.value == EmailVerificationRequired
    ensures e.Some? <==> company.Some? && !company.value.isEmailVerified
  {
    if company.Some? && !company.value.isEmailVerified then Some(EmailVerificationRequired) else None
  }

  /** The Express request as the gates see it: the Authorization header, and
      the fields a passing gate fills in. */
  class Request {
    const authorization: Option<string>
    var company: Option<AuthService.PublicCompany>
    var admin: Option<Admin>
    var authPayload: Option<AuthPayload>

    constructor (authorization: Option<string>)
      ensures this.authorization == authorization
      ensures company.None? && admin.None? && authPayload.None?
    {
      this.authorization := authorization;
      company := None;
      admin := None;
      authPayload := None;
    }

    /** Runs `authenticate(authType)`: on success attaches the principal it
        found and returns `None`; on failure returns the error passed to
        `next` and attaches nothing. */
    method RunAuthenticate(t: Tables, authType: AuthType, verify: Verifier) returns (e: Option<Error>)
      modifies this
      ensures var r := Authenticate(t, authorization, authType, verify);
        && (r.Err? ==> e == Some(r.error) && company == old(company) && admin == old(admin))
        && (r.Ok? && r.value.CompanyPrincipal? ==> e.None? && company == Some(r.value.company) && admin == old(admin))
        && (r.Ok? && r.value.AdminPrincipal? ==> e.None? && admin == Some(r.value.admin) && company == old(company))
      ensures authPayload == old(authPayload)
    {
      if !IsBearer(authorization) {
        return Some(AuthRequired);
      }
      var token := BearerToken(authorization.value);
      var check := verify(token);
      if check.TokenError? {
        return Some(MapTokenError(check.name));
      }
      if check.payload.tokenType != TypeName(authType) {
        return Some(WrongTokenType);
      }
      var found := PrincipalFor(t, authType, check.payload.userId);
      if found.None? {
        e := if authType == CompanyAuth then Some(CompanyAccountNotFound) else Some(AdminAccountNotFound);
        return;
      }
      e := None;
      match found.value
      case CompanyPrincipal(c) =>
        company := Some(c);
      case AdminPrincipal(a) =>
        admin := Some(a);
    }

    /** Runs `passwordResetToken`: on success attaches the token's claims. */
    method RunPasswordResetToken(verify: Verifier) returns (e: Option<Error>)
      modifies this
      ensures var r := PasswordResetToken(authorization, verify);
        && (r.Err? ==> e == Some(InvalidResetToken) && authPayload == old(authPayload))
        && (r.Ok? ==> e.None? && authPayload == Some(r.value))
      ensures company == old(company) && admin == old(admin)
    {
      if !IsBearer(authorization) {
        return Some(InvalidResetToken);
      }
      var check := verify(BearerToken(authorization.value));
      if check.TokenError? || check.payload.tokenType != PasswordResetType {
        return Some(InvalidResetToken);
      }
      authPayload := Some(check.payload);
      e := None;
    }
  }

  /** An honest verifier gives back the claims a token was signed with. */
  predicate VerifiesAs(verify: Verifier, token: string, claims: AuthPayload)
  {
    verify(token) == Decoded(claims)
  }

  predicate NoSpace(token: string)
  {
    forall i :: 0 <= i < |token| ==> token[i] != ' '
  }

  /** The access token a company gets at login opens the company routes for
      that company, and is refused on the administrator routes. */
  lemma CompanyLoginTokenAuthenticates(t: Tables, sign: Signer, verify: Verifier, companyId: string)
    requires HasCompany(t.companies, companyId)
    requires var access := CompanyTokens(sign, companyId).access;
      NoSpace(access) && VerifiesAs(verify, access, AuthPayload(companyId, CompanyType, None))
    ensures var header := Some(BearerPrefix + CompanyTokens(sign, companyId).access);
      && Authenticate(t, header, CompanyAuth, verify).Ok?
      && Authenticate(t, header, CompanyAuth, verify).value.company.id == companyId
      && Authenticate(t, header, AdminAuth, verify) == Err(WrongTokenType)
      && PasswordResetToken(header, verify) == Err(InvalidResetToken)
  {
    var access := CompanyTokens(sign, companyId).access;
    BearerRoundTrip(access);
  }

  /** The token `verifyResetOtp` issues passes `passwordResetToken` with the
      company's id, and no `authenticate` gate accepts it. */
  lemma ResetTokenOnlyResets(t: Tables, verify: Verifier, token: string, companyId: string)
    requires NoSpace(token) && VerifiesAs(verify, token, AuthPayload(companyId, PasswordResetType, None))
    ensures PasswordResetToken(Some(BearerPrefix + token), verify) == Ok(AuthPayload(companyId, PasswordResetType, None))
    ensures Authenticate(t, Some(BearerPrefix + token), CompanyAuth, verify) == Err(WrongTokenType)
    ensures Authenticate(t, Some(BearerPrefix + token), AdminAuth, verify) == Err(WrongTokenType)
  {
    BearerRoundTrip(token);
  }

  /** Behind `authenticate('company')`, `emailVerified` passes exactly when
      the stored company row is verified. */
  lemma VerifiedGateAfterAuthenticate(t: Tables, header: Option<string>, verify: Verifier)
    requires Consistent(t)
    requires Authenticate(t, header, CompanyAuth, verify).Ok?
    ensures var p := Authenticate(t, header, CompanyAuth, verify).value;
      var userId := verify(BearerToken(header.value)).payload.userId;
      EmailVerified(Some(p.company)).None? <==>
        exists i :: 0 <= i < |t.companies| && t.companies[i].id == userId && t.companies[i].isEmailVerified
  {
    var p := Authenticate(t, header, CompanyAuth, verify).value;
    var userId := verify(BearerToken(header.value)).payload.userId;
    var i :| 0 <= i < |t.companies| && t.companies[i].id == userId
             && p.company == AuthService.PublicView(t.companies[i]);
    assert forall j :: 0 <= j < |t.companies| && t.companies[j].id == userId ==> j == i;
  }
}
