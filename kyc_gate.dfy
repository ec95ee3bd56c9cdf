/** The compliance gate in front of order endpoints (`checkKycApproved`),
    whose rule the webhook applies too. */
module KycGate {
  import opened Common
  import opened Tenants

  /** The compliance rule: some KYC document of the company is APPROVED and
      its email is verified. Other documents, whatever their status, do not
      matter. */
  predicate Compliant(docs: seq<KycDocument>, c: Company)
    ensures Compliant(docs, c) <==>
      c.isEmailVerified && exists k :: 0 <= k < |docs| && docs[k].companyId == c.id && docs[k].status == KycApproved
  {
    HasApprovedKyc(docs, c.id) && c.isEmailVerified
  }

  const AuthenticationFailed: Error := HttpError(401, "Authentication failed")
  const CompanyNotFound: Error := HttpError(404, "Company not found")
  const NotCompliant: Error := HttpError(403, "Company KYC not approved or email not verified")

  /** `checkKycApproved` for the authenticated company's id: `None` lets the
      request through, `Some(e)` ends it with `e`. */
  function CheckKycApproved(t: Tables, companyId: string): (r: Option<Error>)
    ensures r == Some(AuthenticationFailed) <==> companyId == ""
    ensures r == Some(CompanyNotFound) <==> companyId != "" && !HasCompany(t.companies, companyId)
    ensures r.None? || r == Some(AuthenticationFailed) || r == Some(CompanyNotFound) || r == Some(NotCompliant)
    ensures r.None? <==>
      companyId != "" && CompanyWithId(t.companies, companyId).Some?
      && Compliant(t.kycDocuments, t.companies[CompanyWithId(t.companies, companyId).value])
    ensures Consistent(t) ==>
      (r.None? <==> companyId != "" && exists i :: 0 <= i < |t.companies| && t.companies[i].id == companyId
                                           && Compliant(t.kycDocuments, t.companies[i]))
  {
    if companyId == "" then Some(AuthenticationFailed)
    else match CompanyWithId(t.companies, companyId)
      case None => Some(CompanyNotFound)
      case Some(k) =>
        if Compliant(t.kycDocuments, t.companies[k]) then None else Some(NotCompliant)
  }

  /** A new document of any status filed beside an approved one does not
      block a company that passes the gate. */
  lemma OtherDocumentsDoNotBlock(t: Tables, companyId: string, doc: KycDocument)
    requires CheckKycApproved(t, companyId).None?
    ensures CheckKycApproved(t.(kycDocuments := t.kycDocuments + [doc]), companyId).None?
  {
    var k := CompanyWithId(t.companies, companyId).value;
    var j :| 0 <= j < |t.kycDocuments| && t.kycDocuments[j].companyId == t.companies[k].id
             && t.kycDocuments[j].status == KycApproved;
    assert (t.kycDocuments + [doc])[j] == t.kycDocuments[j];
  }
}
