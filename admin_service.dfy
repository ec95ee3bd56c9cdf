/** Administrator login and the review side of the KYC lifecycle. A document
    goes from PENDING to APPROVED or REJECTED; a REJECTED one may be
    rejected again or approved; an APPROVED one never changes again.
    Approval issues the company's webhook secret. */
module AdminService {
  import opened Common
  import opened Seqs
  import opened Text
  import opened Tenants
  import opened Tokens
  import opened AuthValidation
  import Schema

  datatype AdminView = AdminView(id: string, email: string, role: string)

  /** The successful login response (its constant `success: true` aside). */
  datatype AdminSession = AdminSession(message: string, accessToken: string, admin: AdminView)

  datatype CompanySummary = CompanySummary(id: string, businessName: string, email: string)

  /** A pending document with the owner fields the review screen needs. */
  datatype PendingKyc = PendingKyc(document: KycDocument, company: CompanySummary)

  const InvalidAdminCredentials: Error := HttpError(401, "Invalid admin credetials")
  const DocumentNotFound: Error := HttpError(404, "KYC document not found")
  const AlreadyApproved: Error := HttpError(400, "KYC is already approved")
  const CannotRejectApproved: Error := HttpError(400, "Cannot reject an already approved KYC")
  /** Prisma's refusal of a write whose `rejectionReason` is neither a string
      nor null. */
  const InvalidReason: Error := Thrown("PrismaClientValidationError")

  /** A `reason` Prisma accepts for the nullable string column: absent
      (`undefined`), null, or a string. */
  predicate ReasonAccepted(reason: Option<Schema.Json>)
  {
    reason.None? || reason.value.JNull? || reason.value.JString?
  }

  /** The stored rejection reason after the update: an absent reason leaves
      the column as it was, null clears it, a string replaces it. */
  function StoredReason(reason: Option<Schema.Json>, previous: Option<string>): (s: Option<string>)
    requires ReasonAccepted(reason)
    ensures reason.None? ==> s == previous
    ensures reason == Some(Schema.JNull) ==> s.None?
    ensures reason.Some? && reason.value.JString? ==> s == Some(reason.value.s)
  {
    if reason.None? then previous
    else if reason.value.JString? then Some(reason.value.s)
    else None
  }

  /** `loginAdmin`: an unknown email and a wrong password give the same
      answer; success signs an `admin` token carrying the role. */
  function LoginAdmin(admins: seq<Admin>, input: LoginInput, matches: (string, string) -> bool, sign: Signer): (r: Result<AdminSession>)
    ensures r.Err? ==> r.error == InvalidAdminCredentials
    ensures r.Ok? <==>
      AdminWithEmail(admins, input.email).Some?
      && matches(input.password, admins[AdminWithEmail(admins, input.email).value].passwordHash)
    ensures r.Ok? ==>
      var a := admins[AdminWithEmail(admins, input.email).value];
      && a.email == input.email
      && r.value == AdminSession("Admin logged in successfully",
                                 sign(AccessLifetime, AuthPayload(a.id, AdminType, Some(a.role))),
                                 AdminView(a.id, a.email, a.role))
  {
    match AdminWithEmail(admins, input.email)
    case None => Err(InvalidAdminCredentials)
    case Some(k) =>
      var a := admins[k];
      if !matches(input.password, a.passwordHash) then Err(InvalidAdminCredentials)
      else Ok(AdminSession("Admin logged in successfully",
                           sign(AccessLifetime, AuthPayload(a.id, AdminType, Some(a.role))),
                           AdminView(a.id, a.email, a.role)))
  }

  predicate IsPending(d: KycDocument)
  {
    d.status == KycPending
  }

  /** `s` carries the id, name and email of the company with id `companyId`. */
  ghost predicate Summarises(companies: seq<Company>, companyId: string, s: CompanySummary)
  {
    exists i :: 0 <= i < |companies| && companies[i].id == companyId == s.id
                && s.businessName == companies[i].businessName && s.email == companies[i].email
  }

  /** The summary of the company owning `companyId`'s documents. */
  function OwnerSummary(companies: seq<Company>, companyId: string): (s: CompanySummary)
    requires HasCompany(companies, companyId)
    ensures Summarises(companies, companyId, s)
  {
    var k := CompanyWithId(companies, companyId).value;
    CompanySummary(companies[k].id, companies[k].businessName, companies[k].email)
  }

  /** Some entry of `r` is for document `d`. */
  ghost predicate Lists(r: seq<PendingKyc>, d: KycDocument)
  {
    exists k :: 0 <= k < |r| && r[k].document == d
  }

  /** `getPendingKyc`: exactly the PENDING documents, oldest first, each with
      its owner. */
  function GetPendingKyc(t: Tables): (r: seq<PendingKyc>)
    requires Consistent(t)
    ensures forall k :: 0 <= k < |r| ==> r[k].document in t.kycDocuments && r[k].document.status == KycPending
    ensures forall j :: 0 <= j < |t.kycDocuments| && t.kycDocuments[j].status == KycPending ==> Lists(r, t.kycDocuments[j])
    ensures forall a, b :: 0 <= a < b < |r| ==> Precedes(t.kycDocuments, r[a].document, r[b].document)
    ensures forall k :: 0 <= k < |r| ==> Summarises(t.companies, r[k].document.companyId, r[k].company)
  {
    var pending := Filter(t.kycDocuments, IsPending);
    PendingOwned(t, pending);
    var r := WithOwners(t.companies, pending);
    PendingListed(t.kycDocuments, r);
    r
  }

  /** A list whose documents are the PENDING ones in table order lists
      exactly those, oldest first. */
  lemma PendingListed(docs: seq<KycDocument>, r: seq<PendingKyc>)
    requires |r| == |Filter(docs, IsPending)|
    requires forall k :: 0 <= k < |r| ==> r[k].document == Filter(docs, IsPending)[k]
    ensures forall k :: 0 <= k < |r| ==> r[k].document in docs && r[k].document.status == KycPending
    ensures forall j :: 0 <= j < |docs| && docs[j].status == KycPending ==> Lists(r, docs[j])
    ensures forall a, b :: 0 <= a < b < |r| ==> Precedes(docs, r[a].document, r[b].document)
  {
    var pending := Filter(docs, IsPending);
    FilterKeepsOrder(docs, IsPending);
    forall j | 0 <= j < |docs| && docs[j].status == KycPending
      ensures Lists(r, docs[j])
    {
      assert IsPending(docs[j]);
      var k :| 0 <= k < |pending| && pending[k] == docs[j];
      assert r[k].document == pending[k];
    }
  }

  /** Each document paired with its owner's summary, in the same order. */
  function WithOwners(companies: seq<Company>, docs: seq<KycDocument>): (r: seq<PendingKyc>)
    requires forall k :: 0 <= k < |docs| ==> HasCompany(companies, docs[k].companyId)
    ensures |r| == |docs|
    ensures forall k :: 0 <= k < |r| ==> r[k].document == docs[k] && Summarises(companies, docs[k].companyId, r[k].company)
  {
    seq(|docs|, k requires 0 <= k < |docs| => PendingKyc(docs[k], OwnerSummary(companies, docs[k].companyId)))
  }

  /** Every document drawn from a consistent table has an owner. */
  lemma PendingOwned(t: Tables, pending: seq<KycDocument>)
    requires Consistent(t)
    requires forall k :: 0 <= k < |pending| ==> pending[k] in t.kycDocuments
    ensures forall k :: 0 <= k < |pending| ==> HasCompany(t.companies, pending[k].companyId)
  {
    forall k | 0 <= k < |pending|
      ensures HasCompany(t.companies, pending[k].companyId)
    {
      var j :| 0 <= j < |t.kycDocuments| && t.kycDocuments[j] == pending[k];
    }
  }

  /** `approveKyc`: in one step the document becomes APPROVED with its
      reviewer and review time, and its owner's webhook secret is replaced by
      the hex rendering of 32 fresh random bytes, which is also returned. */
  function ApproveKyc(t: Tables, kycDocumentId: string, adminId: string, random: Bytes32, now: int): (r: Step<Reply<string>>)
    ensures r.result.Err? ==> r.tables == t
    ensures var f := DocumentWithId(t.kycDocuments, kycDocumentId);
      && (f.None? <==> r.result == Err(DocumentNotFound))
      && (f.Some? && t.kycDocuments[f.value].status == KycApproved ==> r.result == Err(AlreadyApproved))
      && (r.result.Ok? <==>
            f.Some? && t.kycDocuments[f.value].status != KycApproved
            && HasCompany(t.companies, t.kycDocuments[f.value].companyId))
      && (r.result.Ok? ==>
            var d := t.kycDocuments[f.value];
            var c := CompanyWithId(t.companies, d.companyId).value;
            var secret := r.result.value.data;
            && r.result.value.message == "KYC approved successfully"
            && |secret| == 64 && IsLowerHex(secret) && secret == HexEncode(random)
            && r.tables.kycDocuments == t.kycDocuments[f.value := d.(status := KycApproved, reviewedAt := Some(now), reviewedBy := Some(adminId))]
            && t.companies[c].id == d.companyId
            && r.tables.companies == t.companies[c := t.companies[c].(webhookSecret := Some(secret))]
            && r.tables.admins == t.admins)
    ensures Consistent(t) ==> Consistent(r.tables)
    ensures ApprovalsKept(t.kycDocuments, r.tables.kycDocuments)
    ensures SecretsBackedByApproval(t) ==> SecretsBackedByApproval(r.tables)
  {
    match DocumentWithId(t.kycDocuments, kycDocumentId)
    case None => Step(t, Err(DocumentNotFound))
    case Some(k) =>
      var d := t.kycDocuments[k];
      if d.status == KycApproved then Step(t, Err(AlreadyApproved))
      else
        var secret := HexEncode(random);
        match CompanyWithId(t.companies, d.companyId)
        case None => Step(t, Err(StoreRequestError))
        case Some(c) =>
          var d' := d.(status := KycApproved, reviewedAt := Some(now), reviewedBy := Some(adminId));
          var company := t.companies[c].(webhookSecret := Some(secret));
          var after := t.(kycDocuments := t.kycDocuments[k := d'], companies := t.companies[c := company]);
          ApprovalKeepsInvariants(t, k, d', c, company);
          Step(after, Ok(Reply("KYC approved successfully", secret)))
  }

  /** Approving document `k` and giving its owner `c` a secret keeps the
      tables consistent and every secret backed by an approval. */
  lemma ApprovalKeepsInvariants(t: Tables, k: nat, d: KycDocument, c: nat, company: Company)
    requires k < |t.kycDocuments| && c < |t.companies|
    requires t.kycDocuments[k].status != KycApproved
    requires t.companies[c].id == t.kycDocuments[k].companyId
    requires d.id == t.kycDocuments[k].id && d.companyId == t.kycDocuments[k].companyId
    requires d.status == KycApproved
    requires company.id == t.companies[c].id && company.email == t.companies[c].email
    ensures var after := t.(kycDocuments := t.kycDocuments[k := d], companies := t.companies[c := company]);
      && (Consistent(t) ==> Consistent(after))
      && (SecretsBackedByApproval(t) ==> SecretsBackedByApproval(after))
  {
    var after := t.(kycDocuments := t.kycDocuments[k := d], companies := t.companies[c := company]);
    if Consistent(t) {
      forall j | 0 <= j < |after.kycDocuments|
        ensures HasCompany(after.companies, after.kycDocuments[j].companyId)
      {
        var i :| 0 <= i < |t.companies| && t.companies[i].id == t.kycDocuments[j].companyId;
        assert after.companies[i].id == t.companies[i].id;
      }
    }
    if SecretsBackedByApproval(t) {
      forall i | 0 <= i < |after.companies| && after.companies[i].webhookSecret.Some?
        ensures HasApprovedKyc(after.kycDocuments, after.companies[i].id)
      {
        if i == c {
          assert after.kycDocuments[k].companyId == after.companies[i].id;
        } else {
          assert ApprovalsKept(t.kycDocuments, after.kycDocuments);
          ApprovedStaysApproved(t.kycDocuments, after.kycDocuments, t.companies[i].id);
        }
      }
    }
  }

  /** `rejectKyc`: any document that is not APPROVED (a REJECTED one
      included) becomes REJECTED with its reviewer and review time. The
      reason is the request body's `reason` field, unchecked: absent, it
      leaves the stored reason as it was; null clears it; a string sets it;
      any other value makes the update throw, after the two checks, with no
      write. */
  function RejectKyc(t: Tables, kycDocumentId: string, adminId: string, reason: Option<Schema.Json>, now: int): (r: Step<string>)
    ensures r.result.Err? ==> r.tables == t
    ensures var f := DocumentWithId(t.kycDocuments, kycDocumentId);
      && (f.None? <==> r.result == Err(DocumentNotFound))
      && (f.Some? && t.kycDocuments[f.value].status == KycApproved <==> r.result == Err(CannotRejectApproved))
      && (r.result == Err(InvalidReason) <==>
            f.Some? && t.kycDocuments[f.value].status != KycApproved && !ReasonAccepted(reason))
      && (r.result.Ok? <==> f.Some? && t.kycDocuments[f.value].status != KycApproved && ReasonAccepted(reason))
      && (r.result.Ok? ==>
            var d := t.kycDocuments[f.value];
            && r.result.value == "KYC rejected successfully"
            && r.tables == t.(kycDocuments := t.kycDocuments[f.value := d.(
                 status := KycRejected,
                 rejectionReason := StoredReason(reason, d.rejectionReason),
                 reviewedAt := Some(now), reviewedBy := Some(adminId))]))
    ensures Consistent(t) ==> Consistent(r.tables)
    ensures ApprovalsKept(t.kycDocuments, r.tables.kycDocuments)
    ensures SecretsBackedByApproval(t) ==> SecretsBackedByApproval(r.tables)
  {
    match DocumentWithId(t.kycDocuments, kycDocumentId)
    case None => Step(t, Err(DocumentNotFound))
    case Some(k) =>
      var d := t.kycDocuments[k];
      if d.status == KycApproved then Step(t, Err(CannotRejectApproved))
      else if !ReasonAccepted(reason) then Step(t, Err(InvalidReason))
      else
        var d' := d.(status := KycRejected,
                     rejectionReason := StoredReason(reason, d.rejectionReason),
                     reviewedAt := Some(now), reviewedBy := Some(adminId));
        var after := t.(kycDocuments := t.kycDocuments[k := d']);
        RejectionKeepsInvariants(t, k, d');
        Step(after, Ok("KYC rejected successfully"))
  }

  /** Rejecting a document that is not APPROVED keeps the tables
      consistent, every approval in place, and every secret backed. */
  lemma RejectionKeepsInvariants(t: Tables, k: nat, d: KycDocument)
    requires k < |t.kycDocuments| && t.kycDocuments[k].status != KycApproved
    requires d.id == t.kycDocuments[k].id && d.companyId == t.kycDocuments[k].companyId
    requires d.status == KycRejected
    ensures var after := t.(kycDocuments := t.kycDocuments[k := d]);
      && (Consistent(t) ==> Consistent(after))
      && ApprovalsKept(t.kycDocuments, after.kycDocuments)
      && (SecretsBackedByApproval(t) ==> SecretsBackedByApproval(after))
  {
    var after := t.(kycDocuments := t.kycDocuments[k := d]);
    if SecretsBackedByApproval(t) {
      forall i | 0 <= i < |after.companies| && after.companies[i].webhookSecret.Some?
        ensures HasApprovedKyc(after.kycDocuments, after.companies[i].id)
      {
        ApprovedStaysApproved(t.kycDocuments, after.kycDocuments, t.companies[i].id);
      }
    }
  }

  /** Approval is final: once a document is approved, approving it again
      and rejecting it are both refused. */
  lemma ApprovalIsFinal(t: Tables, kycDocumentId: string, adminId: string, random: Bytes32, now: int,
                        otherAdmin: string, random': Bytes32, reason: Option<Schema.Json>, later: int)
    requires ApproveKyc(t, kycDocumentId, adminId, random, now).result.Ok?
    ensures var after := ApproveKyc(t, kycDocumentId, adminId, random, now).tables;
      && ApproveKyc(after, kycDocumentId, otherAdmin, random', later).result == Err(AlreadyApproved)
      && RejectKyc(after, kycDocumentId, otherAdmin, reason, later).result == Err(CannotRejectApproved)
  {
    var k := DocumentWithId(t.kycDocuments, kycDocumentId).value;
    var after := ApproveKyc(t, kycDocumentId, adminId, random, now).tables;
    FindFirstAfterUpdate(t.kycDocuments, (d: KycDocument) => d.id == kycDocumentId, k, after.kycDocuments[k]);
  }
}
