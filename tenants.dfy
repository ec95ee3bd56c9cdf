/** The tenant tables of the store: companies, their KYC documents and the
    administrators. A table is a sequence of rows in creation order. */
module Tenants {
  import opened Common
  import opened Seqs
  import opened CompanyValidation

  datatype Company = Company(
    id: string,
    businessName: string,
    email: string,
    passwordHash: string,
    isEmailVerified: bool,
    emailVerifiedAt: Option<int>,
    otpHash: Option<string>,        // the one OTP slot, shared by email
    otpExpiresAt: Option<int>,      // verification and password reset
    webhookSecret: Option<string>)

  datatype KycDocument = KycDocument(
    id: string,
    companyId: string,
    registrationNumber: string,
    businessAddress: string,
    contactDetails: ContactPerson,
    status: KycStatus,
    rejectionReason: Option<string>,
    reviewedAt: Option<int>,
    reviewedBy: Option<string>)

  datatype Admin = Admin(id: string, email: string, passwordHash: string, role: string)

  datatype Tables = Tables(companies: seq<Company>, kycDocuments: seq<KycDocument>, admins: seq<Admin>)

  /** What an operation leaves in the store, and what it returns or throws. */
  datatype Step<+T> = Step(tables: Tables, result: Result<T>)

  /** Lookups by unique key (`findUnique`). */
  function CompanyWithId(companies: seq<Company>, id: string): Option<nat>
  {
    FindFirst(companies, (c: Company) => c.id == id)
  }

  function CompanyWithEmail(companies: seq<Company>, email: string): Option<nat>
  {
    FindFirst(companies, (c: Company) => c.email == email)
  }

  function DocumentWithId(docs: seq<KycDocument>, id: string): Option<nat>
  {
    FindFirst(docs, (d: KycDocument) => d.id == id)
  }

  function AdminWithEmail(admins: seq<Admin>, email: string): Option<nat>
  {
    FindFirst(admins, (a: Admin) => a.email == email)
  }

  predicate HasCompany(companies: seq<Company>, id: string)
  {
    exists i :: 0 <= i < |companies| && companies[i].id == id
  }

  /** The constraints the database enforces: unique company ids and emails,
      unique document ids, every document owned by an existing company, and
      unique administrator emails. */
  predicate Consistent(t: Tables)
  {
    && (forall i, j :: 0 <= i < j < |t.companies| ==>
          t.companies[i].id != t.companies[j].id && t.companies[i].email != t.companies[j].email)
    && (forall i, j :: 0 <= i < j < |t.kycDocuments| ==> t.kycDocuments[i].id != t.kycDocuments[j].id)
    && (forall k :: 0 <= k < |t.kycDocuments| ==> HasCompany(t.companies, t.kycDocuments[k].companyId))
    && (forall i, j :: 0 <= i < j < |t.admins| ==> t.admins[i].email != t.admins[j].email)
  }

  /** Exactly one company row changed, to `c`, keeping its id and email. */
  predicate CompanyRowUpdated(before: Tables, after: Tables, k: nat, c: Company)
  {
    && k < |before.companies|
    && c.id == before.companies[k].id && c.email == before.companies[k].email
    && after == before.(companies := before.companies[k := c])
  }

  /** Updating a company row in place, keeping its id and email, keeps the
      tables consistent. */
  lemma CompanyUpdateConsistent(before: Tables, after: Tables, k: nat, c: Company)
    requires Consistent(before) && CompanyRowUpdated(before, after, k, c)
    ensures Consistent(after)
  {
    forall d | 0 <= d < |after.kycDocuments|
      ensures HasCompany(after.companies, after.kycDocuments[d].companyId)
    {
      var i :| 0 <= i < |before.companies| && before.companies[i].id == before.kycDocuments[d].companyId;
      assert after.companies[i].id == before.companies[i].id;
    }
  }

  /** Registering a company whose id and email are both new keeps the tables
      consistent. */
  lemma CompanyAppendConsistent(t: Tables, c: Company)
    requires Consistent(t) && !HasCompany(t.companies, c.id)
    requires forall i :: 0 <= i < |t.companies| ==> t.companies[i].email != c.email
    ensures Consistent(t.(companies := t.companies + [c]))
  {
    var after := t.(companies := t.companies + [c]);
    forall d | 0 <= d < |after.kycDocuments|
      ensures HasCompany(after.companies, after.kycDocuments[d].companyId)
    {
      var i :| 0 <= i < |t.companies| && t.companies[i].id == t.kycDocuments[d].companyId;
      assert after.companies[i] == t.companies[i];
    }
  }

  /** Does `companyId` hold an APPROVED document? */
  predicate HasApprovedKyc(docs: seq<KycDocument>, companyId: string)
  {
    exists k :: 0 <= k < |docs| && docs[k].companyId == companyId && docs[k].status == KycApproved
  }

  /** Approval is final: the documents of `before` that were APPROVED are
      still there, at the same place, unchanged. */
  predicate ApprovalsKept(before: seq<KycDocument>, after: seq<KycDocument>)
  {
    |before| <= |after| && forall k :: 0 <= k < |before| && before[k].status == KycApproved ==> after[k] == before[k]
  }

  /** Only companies with an approved KYC document hold a webhook secret. */
  predicate SecretsBackedByApproval(t: Tables)
  {
    forall i :: 0 <= i < |t.companies| && t.companies[i].webhookSecret.Some? ==>
      HasApprovedKyc(t.kycDocuments, t.companies[i].id)
  }

  /** An update of one company row that keeps its secret keeps every secret
      backed by an approval. */
  lemma CompanyUpdateKeepsBacking(before: Tables, after: Tables, k: nat, c: Company)
    requires SecretsBackedByApproval(before) && CompanyRowUpdated(before, after, k, c)
    requires c.webhookSecret == before.companies[k].webhookSecret
    ensures SecretsBackedByApproval(after)
  {
    forall i | 0 <= i < |after.companies| && after.companies[i].webhookSecret.Some?
      ensures HasApprovedKyc(after.kycDocuments, after.companies[i].id)
    {
      assert before.companies[i].webhookSecret.Some? && before.companies[i].id == after.companies[i].id;
    }
  }

  /** A newly registered company, which has no secret, keeps every secret
      backed by an approval. */
  lemma CompanyAppendKeepsBacking(t: Tables, c: Company)
    requires SecretsBackedByApproval(t) && c.webhookSecret.None?
    ensures SecretsBackedByApproval(t.(companies := t.companies + [c]))
  {
    var after := t.(companies := t.companies + [c]);
    forall i | 0 <= i < |after.companies| && after.companies[i].webhookSecret.Some?
      ensures HasApprovedKyc(after.kycDocuments, after.companies[i].id)
    {
      assert i < |t.companies| && after.companies[i] == t.companies[i];
    }
  }

  /** A company approved before stays approved. */
  lemma ApprovedStaysApproved(before: seq<KycDocument>, after: seq<KycDocument>, companyId: string)
    requires ApprovalsKept(before, after) && HasApprovedKyc(before, companyId)
    ensures HasApprovedKyc(after, companyId)
  {
    var k :| 0 <= k < |before| && before[k].companyId == companyId && before[k].status == KycApproved;
    assert after[k] == before[k];
  }
}
