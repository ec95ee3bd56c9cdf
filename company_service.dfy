/** A company's own view of its account, and KYC submission. */
module CompanyService {
  import opened Common
  import opened Seqs
  import opened Tenants
  import opened CompanyValidation

  /** A KYC document as the profile shows it (no owner, no reviewer). */
  datatype KycSummary = KycSummary(
    id: string,
    registrationNumber: string,
    businessAddress: string,
    contactDetails: ContactPerson,
    status: KycStatus,
    reviewedAt: Option<int>,
    rejectionReason: Option<string>)

  /** The profile: no password hash, OTP slot or webhook secret. */
  datatype Profile = Profile(
    id: string,
    businessName: string,
    email: string,
    isEmailVerified: bool,
    emailVerifiedAt: Option<int>,
    kycDocuments: seq<KycSummary>)

  function SummaryOf(d: KycDocument): KycSummary
  {
    KycSummary(d.id, d.registrationNumber, d.businessAddress, d.contactDetails, d.status, d.reviewedAt, d.rejectionReason)
  }

  /** `x` is the summary of one of the company's own documents. */
  ghost predicate OwnSummary(docs: seq<KycDocument>, companyId: string, x: KycSummary)
  {
    exists j :: 0 <= j < |docs| && docs[j].companyId == companyId && x == SummaryOf(docs[j])
  }

  /** Whether a document belongs to the company. */
  function OwnedBy(companyId: string): KycDocument -> bool
  {
    (d: KycDocument) => d.companyId == companyId
  }

  /** The company's documents (`where: { companyId }`): each of its own
      documents as often as the table holds it, and nothing else. */
  function DocumentsOf(docs: seq<KycDocument>, companyId: string): (r: seq<KycDocument>)
    ensures forall d :: multiset(r)[d] == if d.companyId == companyId then multiset(docs)[d] else 0
  {
    FilterMultiset(docs, OwnedBy(companyId));
    Filter(docs, OwnedBy(companyId))
  }

  const CompanyNotFound: Error := HttpError(404, "Company not found")
  const UnderReview: Error := HttpError(409, "Your KYC submission is already under review")
  const AlreadyApproved: Error := HttpError(409, "KYC has already been approved")

  /** `getProfile`: the company and the summaries of exactly its own
      documents. */
  function GetProfile(t: Tables, companyId: string): (r: Result<Profile>)
    ensures r.Err? <==> !HasCompany(t.companies, companyId)
    ensures r.Err? ==> r.error == CompanyNotFound
    ensures r.Ok? ==>
      var c := t.companies[CompanyWithId(t.companies, companyId).value];
      && c.id == companyId
      && r.value.id == c.id && r.value.businessName == c.businessName && r.value.email == c.email
      && r.value.isEmailVerified == c.isEmailVerified && r.value.emailVerifiedAt == c.emailVerifiedAt
      && (forall k :: 0 <= k < |r.value.kycDocuments| ==> OwnSummary(t.kycDocuments, companyId, r.value.kycDocuments[k]))
      && (forall j :: 0 <= j < |t.kycDocuments| && t.kycDocuments[j].companyId == companyId ==>
            SummaryOf(t.kycDocuments[j]) in r.value.kycDocuments)
      && multiset(r.value.kycDocuments) == multiset(Map(DocumentsOf(t.kycDocuments, companyId), SummaryOf))
  {
    match CompanyWithId(t.companies, companyId)
    case None => Err(CompanyNotFound)
    case Some(k) =>
      var c := t.companies[k];
      var owned := OwnedBy(companyId);
      var docs := Map(DocumentsOf(t.kycDocuments, companyId), SummaryOf);
      MappedFilterSound(t.kycDocuments, owned, SummaryOf);
      MappedFilterComplete(t.kycDocuments, owned, SummaryOf);
      forall k | 0 <= k < |docs|
        ensures OwnSummary(t.kycDocuments, companyId, docs[k])
      {
        assert IsImage(t.kycDocuments, owned, SummaryOf, docs[k]);
      }
      Ok(Profile(c.id, c.businessName, c.email, c.isEmailVerified, c.emailVerifiedAt, docs))
  }

  /** The document `submitKyc` looks at: the company's first in table
      order. The lookup has no ordering, so which one the store returns is
      not fixed; this model takes the oldest. */
  function FirstDocumentOf(docs: seq<KycDocument>, companyId: string): (r: Option<nat>)
    ensures r.Some? ==> r.value < |docs| && docs[r.value].companyId == companyId
    ensures r.Some? ==> forall j :: 0 <= j < r.value ==> docs[j].companyId != companyId
    ensures r.None? <==> forall j :: 0 <= j < |docs| ==> docs[j].companyId != companyId
  {
    FindFirst(docs, (d: KycDocument) => d.companyId == companyId)
  }

  /** `submitKyc`: refused when the document found is PENDING or APPROVED;
      otherwise (none found, or REJECTED) one PENDING document is appended
      and returned. `freshId` is the id the store assigns. */
  function SubmitKyc(t: Tables, companyId: string, input: SubmitKycInput, freshId: string): (r: Step<Reply<KycDocument>>)
    requires DocumentWithId(t.kycDocuments, freshId).None?
    ensures r.result.Err? ==> r.tables == t
    ensures var f := FirstDocumentOf(t.kycDocuments, companyId);
      && (f.Some? && t.kycDocuments[f.value].status == KycPending ==> r.result == Err(UnderReview))
      && (f.Some? && t.kycDocuments[f.value].status == KycApproved ==> r.result == Err(AlreadyApproved))
      && (r.result.Ok? <==>
            (f.None? || t.kycDocuments[f.value].status == KycRejected) && HasCompany(t.companies, companyId))
    ensures r.result.Ok? ==>
      && |r.tables.kycDocuments| == |t.kycDocuments| + 1
      && r.tables.kycDocuments[..|t.kycDocuments|] == t.kycDocuments
      && r.tables.companies == t.companies && r.tables.admins == t.admins
      && var d := r.tables.kycDocuments[|t.kycDocuments|];
         && d == KycDocument(freshId, companyId, input.registrationNumber, input.businessAddress,
                             input.contactDetails, KycPending, None, None, None)
         && r.result.value == Reply("KYC submitted successfully", d)
    ensures Consistent(t) ==> Consistent(r.tables)
    ensures ApprovalsKept(t.kycDocuments, r.tables.kycDocuments)
    ensures SecretsBackedByApproval(t) ==> SecretsBackedByApproval(r.tables)
  {
    var f := FirstDocumentOf(t.kycDocuments, companyId);
    if f.Some? && t.kycDocuments[f.value].status == KycPending then Step(t, Err(UnderReview))
    else if f.Some? && t.kycDocuments[f.value].status == KycApproved then Step(t, Err(AlreadyApproved))
    else if CompanyWithId(t.companies, companyId).None? then Step(t, Err(StoreRequestError))
    else
      var d := KycDocument(freshId, companyId, input.registrationNumber, input.businessAddress,
                           input.contactDetails, KycPending, None, None, None);
      var after := t.(kycDocuments := t.kycDocuments + [d]);
      SubmissionKeepsInvariants(t, d);
      Step(after, Ok(Reply("KYC submitted successfully", d)))
  }

  /** Appending a PENDING document with a new id for an existing company
      keeps the tables consistent and every secret backed by an approval. */
  lemma SubmissionKeepsInvariants(t: Tables, d: KycDocument)
    requires DocumentWithId(t.kycDocuments, d.id).None? && HasCompany(t.companies, d.companyId)
    ensures var after := t.(kycDocuments := t.kycDocuments + [d]);
      && (Consistent(t) ==> Consistent(after))
      && (SecretsBackedByApproval(t) ==> SecretsBackedByApproval(after))
  {
    var after := t.(kycDocuments := t.kycDocuments + [d]);
    if Consistent(t) {
      forall k | 0 <= k < |after.kycDocuments|
        ensures HasCompany(after.companies, after.kycDocuments[k].companyId)
      {
        if k < |t.kycDocuments| { assert after.kycDocuments[k] == t.kycDocuments[k]; }
      }
      forall i, j | 0 <= i < j < |after.kycDocuments|
        ensures after.kycDocuments[i].id != after.kycDocuments[j].id
      {
        if j == |t.kycDocuments| { assert after.kycDocuments[i] == t.kycDocuments[i]; }
      }
    }
    if SecretsBackedByApproval(t) {
      assert ApprovalsKept(t.kycDocuments, after.kycDocuments);
      forall i | 0 <= i < |after.companies| && after.companies[i].webhookSecret.Some?
        ensures HasApprovedKyc(after.kycDocuments, after.companies[i].id)
      {
        ApprovedStaysApproved(t.kycDocuments, after.kycDocuments, t.companies[i].id);
      }
    }
  }

  /** Only one document is consulted: a company whose oldest document was
      REJECTED may file again while a later submission is still PENDING,
      and then has two PENDING documents under review. */
  lemma ResubmissionDespitePendingDocument(t: Tables, companyId: string, input: SubmitKycInput, freshId: string, j: nat)
    requires DocumentWithId(t.kycDocuments, freshId).None? && HasCompany(t.companies, companyId)
    requires FirstDocumentOf(t.kycDocuments, companyId).Some?
    requires t.kycDocuments[FirstDocumentOf(t.kycDocuments, companyId).value].status == KycRejected
    requires j < |t.kycDocuments| && t.kycDocuments[j].companyId == companyId && t.kycDocuments[j].status == KycPending
    ensures SubmitKyc(t, companyId, input, freshId).result.Ok?
    ensures var docs := SubmitKyc(t, companyId, input, freshId).tables.kycDocuments;
      j < |t.kycDocuments| < |docs|
      && docs[j].companyId == companyId && docs[j].status == KycPending
      && docs[|t.kycDocuments|].companyId == companyId && docs[|t.kycDocuments|].status == KycPending
  {
    var docs := SubmitKyc(t, companyId, input, freshId).tables.kycDocuments;
    assert docs[..|t.kycDocuments|][j] == docs[j];
  }
}
