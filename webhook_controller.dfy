/** Inbound webhooks (`handleIncomingWebhook`): a chain of gates, each ending
    the request with its own response, then the event applied to the order
    store. The gates in order: both headers present, a company with a webhook
    secret, KYC compliance, the signature over the raw body, the payload
    schema. Any exception after the gates becomes a 500. The company tables
    are only read here. */
module WebhookController {
  import opened Common
  import opened Schema
  import opened Tenants
  import opened WebhookSignature
  import opened WebhookValidation
  import opened OrderValidation
  import KycGate
  import Orders

  /** What the handler reads from the request: the two headers, the raw body
      captured by the JSON parser (absent when the parser did not run), and
      the parsed body. */
  datatype WebhookRequest = WebhookRequest(
    companyId: Option<string>,
    signature: Option<string>,
    rawBody: Option<seq<byte>>,
    body: Json)

  /** The status and JSON body sent back; `errors` only for a schema failure. */
  datatype Response = Response(status: int, message: string, errors: seq<Issue>)

  const MissingHeaders: Response := Response(401, "Missing required headers", [])
  const UnknownCompany: Response := Response(401, "Invalid credentials or KYC pending", [])
  const NotCompliant: Response := Response(403, "Company KYC not approved or email not verified", [])
  const BadSignature: Response := Response(403, "Invalid signature", [])
  const Processed: Response := Response(200, "Webhook processed successfully", [])
  const InternalError: Response := Response(500, "Internal server error", [])

  function InvalidPayload(issues: seq<Issue>): Response
  {
    Response(400, "Invalid payload structure", issues)
  }

  /** A header counts only when it is there and non-empty. */
  predicate HeadersPresent(req: WebhookRequest)
    ensures HeadersPresent(req) <==>
      req.companyId !in {None, Some("")} && req.signature !in {None, Some("")}
  {
    req.companyId.Some? && req.companyId.value != "" && req.signature.Some? && req.signature.value != ""
  }

  /** The webhook secret of the company with this id, when the company
      exists and its secret is neither null nor empty. */
  function SecretOf(t: Tables, companyId: string): (s: Option<string>)
    ensures s.Some? ==>
      s.value != "" &&
      exists i :: 0 <= i < |t.companies| && t.companies[i].id == companyId && t.companies[i].webhookSecret == s
    ensures Consistent(t) ==>
      (s.None? <==> forall i :: 0 <= i < |t.companies| && t.companies[i].id == companyId ==>
                      t.companies[i].webhookSecret in {None, Some("")})
  {
    match CompanyWithId(t.companies, companyId)
    case None => None
    case Some(k) =>
      var secret := t.companies[k].webhookSecret;
      if secret.Some? && secret.value != "" then secret else None
  }

  /** The compliance rule, applied to the company with this id. */
  predicate KycPasses(t: Tables, companyId: string)
  {
    CompanyWithId(t.companies, companyId).Some?
    && KycGate.Compliant(t.kycDocuments, t.companies[CompanyWithId(t.companies, companyId).value])
  }

  /** Where the gates leave a request: refused with a response, or let
      through for this company with this typed event. */
  datatype Admission = Rejected(response: Response) | Admitted(companyId: string, event: WebhookEvent)

  /** The gate chain. The first gate that fails decides the response, so a
      later gate never runs for a request an earlier one refused. */
  function Admit(t: Tables, req: WebhookRequest, hmac: Hmac, isEmail: string -> bool, isDateTime: string -> bool): (a: Admission)
    ensures a == Rejected(MissingHeaders) <==> !HeadersPresent(req)
    ensures HeadersPresent(req) ==>
      var companyId := req.companyId.value;
      var secret := SecretOf(t, companyId);
      && (a == Rejected(UnknownCompany) <==> secret.None?)
      && (a == Rejected(NotCompliant) <==> secret.Some? && !KycPasses(t, companyId))
      && (secret.Some? && KycPasses(t, companyId) ==>
            var v := VerifyWebhookSignature(hmac, req.rawBody, req.signature.value, secret.value);
            && (a == Rejected(InternalError) <==> v == Throws)
            && (a == Rejected(BadSignature) <==> v == Returns(false))
            && (v == Returns(true) ==>
                  var p := ParseWebhook(isEmail, isDateTime, req.body);
                  && (p.Invalid? ==> a == Rejected(InvalidPayload(p.issues)))
                  && (p.Valid? ==> a == Admitted(companyId, p.value))))
    ensures a.Admitted? ==>
      && HeadersPresent(req) && a.companyId == req.companyId.value
      && SecretOf(t, a.companyId).Some? && KycPasses(t, a.companyId)
      && VerifyWebhookSignature(hmac, req.rawBody, req.signature.value, SecretOf(t, a.companyId).value) == Returns(true)
      && ParseWebhook(isEmail, isDateTime, req.body) == Valid(a.event)
  {
    if !HeadersPresent(req) then Rejected(MissingHeaders)
    else
      var companyId := req.companyId.value;
      match SecretOf(t, companyId)
      case None => Rejected(UnknownCompany)
      case Some(secret) =>
        if !KycPasses(t, companyId) then Rejected(NotCompliant)
        else match VerifyWebhookSignature(hmac, req.rawBody, req.signature.value, secret)
          case Throws => Rejected(InternalError)
          case Returns(false) => Rejected(BadSignature)
          case Returns(true) =>
            match ParseWebhook(isEmail, isDateTime, req.body)
            case Invalid(issues) => Rejected(InvalidPayload(issues))
            case Valid(event) => Admitted(companyId, event)
  }

  /** The `createOrder` input an `order.created` event becomes: the event's
      fields, subscription forced on, and `initial_status` dropped. */
  function CreatedInput(d: OrderCreatedData): (input: CreateOrderInput)
    ensures input.isSubscriptionActive
    ensures input.externalOrderId == d.externalOrderId && input.customerEmail == d.customerEmail
    ensures input.customerPhone == d.customerPhone && input.deliveryAddress == d.deliveryAddress
    ensures input.itemSummary == d.itemSummary
  {
    CreateOrderInput(d.externalOrderId, d.customerEmail, d.customerPhone, d.deliveryAddress, d.itemSummary, true)
  }

  /** The response and the order tables after one webhook. */
  datatype WebhookOutcome = WebhookOutcome(response: Response, tables: Orders.OrderTables)

  /** One webhook against the order tables `ot`. A refused request writes
      nothing; a created event is a `createOrder`, whose refusal is a 500; an
      updated event is an `updateStatus` of the company's order with that
      external id, and a 200 with nothing written when there is none. */
  function WebhookStep(t: Tables, req: WebhookRequest, hmac: Hmac, isEmail: string -> bool, isDateTime: string -> bool,
                       ot: Orders.OrderTables, freshId: string): (w: WebhookOutcome)
    requires !Orders.HasOrder(ot.orders, freshId)
    ensures Admit(t, req, hmac, isEmail, isDateTime).Rejected? ==>
      w == WebhookOutcome(Admit(t, req, hmac, isEmail, isDateTime).response, ot)
    ensures Admit(t, req, hmac, isEmail, isDateTime).Admitted? ==>
      (w.response == Processed || w.response == InternalError)
      && (w.response == InternalError ==> w.tables == ot)
    ensures Orders.Consistent(ot) ==> Orders.Consistent(w.tables)
  {
    match Admit(t, req, hmac, isEmail, isDateTime)
    case Rejected(response) => WebhookOutcome(response, ot)
    case Admitted(companyId, OrderCreated(d)) =>
      var s := Orders.CreateOrderStep(ot, companyId, CreatedInput(d), freshId);
      WebhookOutcome(if s.result.Ok? then Processed else InternalError, s.tables)
    case Admitted(companyId, OrderUpdated(d)) =>
      match Orders.OrderWithExternalId(ot.orders, companyId, d.externalOrderId)
      case None => WebhookOutcome(Processed, ot)
      case Some(k) =>
        var s := Orders.UpdateStatusStep(ot, ot.orders[k].id, companyId, UpdateStatusInput(d.newStatus, d.additionalNote));
        WebhookOutcome(if s.result.Ok? then Processed else InternalError, s.tables)
  }

  /** `handleIncomingWebhook` against the order store `service`: the gates,
      then the event's write through the order service. */
  method HandleIncomingWebhook(t: Tables, req: WebhookRequest, service: Orders.OrderService, hmac: Hmac,
                               isEmail: string -> bool, isDateTime: string -> bool, freshId: string)
    returns (response: Response)
    requires service.Valid() && !Orders.HasOrder(service.orders, freshId)
    modifies service
    ensures service.Valid()
    ensures var w := WebhookStep(t, req, hmac, isEmail, isDateTime, old(service.Tables()), freshId);
      response == w.response && service.Tables() == w.tables
  {
    ghost var before := service.Tables();
    ghost var expected := WebhookStep(t, req, hmac, isEmail, isDateTime, before, freshId);
    var admission := Admit(t, req, hmac, isEmail, isDateTime);
    if admission.Rejected? {
      return admission.response;
    }
    var companyId := admission.companyId;
    match admission.event
    case OrderCreated(d) =>
      ghost var step := Orders.CreateOrderStep(before, companyId, CreatedInput(d), freshId);
      assert expected == WebhookOutcome(if step.result.Ok? then Processed else InternalError, step.tables);
      var created := service.CreateOrder(companyId, CreatedInput(d), freshId);
      assert service.Tables() == step.tables && created == step.result;
      if created.Err? {
        return InternalError;
      }
      return Processed;
    case OrderUpdated(d) =>
      var found := Orders.OrderWithExternalId(service.orders, companyId, d.externalOrderId);
      if found.Some? {
        var input := UpdateStatusInput(d.newStatus, d.additionalNote);
        ghost var step := Orders.UpdateStatusStep(before, service.orders[found.value].id, companyId, input);
        assert expected == WebhookOutcome(if step.result.Ok? then Processed else InternalError, step.tables);
        var updated := service.UpdateStatus(service.orders[found.value].id, companyId, input);
        assert service.Tables() == step.tables && updated == step.result;
        if updated.Err? {
          return InternalError;
        }
      } else {
        assert expected == WebhookOutcome(Processed, before);
      }
      return Processed;
  }

  /** The webhook's compliance gate is the order endpoints' `checkKycApproved`:
      for a company id that is present, one passes exactly when the other does. */
  lemma SameComplianceRule(t: Tables, companyId: string)
    requires companyId != ""
    ensures KycPasses(t, companyId) <==> KycGate.CheckKycApproved(t, companyId).None?
  {
  }

  /** An `order.created` event whose external id the company already used is
      answered 500 and creates nothing. */
  lemma ReplayedCreateIsServerError(t: Tables, req: WebhookRequest, hmac: Hmac, isEmail: string -> bool,
                                    isDateTime: string -> bool, ot: Orders.OrderTables, freshId: string)
    requires !Orders.HasOrder(ot.orders, freshId)
    requires Admit(t, req, hmac, isEmail, isDateTime).Admitted?
    requires var a := Admit(t, req, hmac, isEmail, isDateTime);
      a.event.OrderCreated?
      && Orders.OrderWithExternalId(ot.orders, a.companyId, a.event.created.externalOrderId).Some?
    ensures WebhookStep(t, req, hmac, isEmail, isDateTime, ot, freshId) == WebhookOutcome(InternalError, ot)
  {
    var a := Admit(t, req, hmac, isEmail, isDateTime);
    var k := Orders.OrderWithExternalId(ot.orders, a.companyId, a.event.created.externalOrderId).value;
    assert ot.orders[k].companyId == a.companyId;
  }

  /** An admitted `order.created` event for a new external id is answered 200
      and creates one order, PENDING whatever `initial_status` said, with the
      subscription on. */
  lemma CreatedOrderStartsPending(t: Tables, req: WebhookRequest, hmac: Hmac, isEmail: string -> bool,
                                  isDateTime: string -> bool, ot: Orders.OrderTables, freshId: string)
    requires !Orders.HasOrder(ot.orders, freshId)
    requires Admit(t, req, hmac, isEmail, isDateTime).Admitted?
    requires var a := Admit(t, req, hmac, isEmail, isDateTime);
      a.event.OrderCreated?
      && Orders.OrderWithExternalId(ot.orders, a.companyId, a.event.created.externalOrderId).None?
    ensures var w := WebhookStep(t, req, hmac, isEmail, isDateTime, ot, freshId);
      && w.response == Processed
      && |w.tables.orders| == |ot.orders| + 1
      && w.tables.orders[|ot.orders|].id == freshId
      && w.tables.orders[|ot.orders|].currentStatus == Pending
      && w.tables.orders[|ot.orders|].isSubscriptionActive
  {
    var a := Admit(t, req, hmac, isEmail, isDateTime);
    var ext := a.event.created.externalOrderId;
    assert forall i :: 0 <= i < |ot.orders| ==> !(ot.orders[i].companyId == a.companyId && ot.orders[i].externalOrderId == ext);
  }

  /** An admitted `order.updated` event naming an external id the company
      does not have is answered 200 and writes nothing. */
  lemma UnknownOrderUpdateIgnored(t: Tables, req: WebhookRequest, hmac: Hmac, isEmail: string -> bool,
                                  isDateTime: string -> bool, ot: Orders.OrderTables, freshId: string)
    requires !Orders.HasOrder(ot.orders, freshId)
    requires Admit(t, req, hmac, isEmail, isDateTime).Admitted?
    requires var a := Admit(t, req, hmac, isEmail, isDateTime);
      a.event.OrderUpdated?
      && forall i :: 0 <= i < |ot.orders| ==>
           ot.orders[i].companyId != a.companyId || ot.orders[i].externalOrderId != a.event.updated.externalOrderId
    ensures WebhookStep(t, req, hmac, isEmail, isDateTime, ot, freshId) == WebhookOutcome(Processed, ot)
  {
  }

  /** In a consistent store an admitted `order.updated` event for one of the
      company's orders always succeeds: the order takes the new status (or
      already has it, and nothing is written). */
  lemma KnownOrderUpdateApplies(t: Tables, req: WebhookRequest, hmac: Hmac, isEmail: string -> bool,
                                isDateTime: string -> bool, ot: Orders.OrderTables, freshId: string, k: nat)
    requires Orders.Consistent(ot) && !Orders.HasOrder(ot.orders, freshId)
    requires Admit(t, req, hmac, isEmail, isDateTime).Admitted?
    requires var a := Admit(t, req, hmac, isEmail, isDateTime);
      a.event.OrderUpdated? && k < |ot.orders|
      && ot.orders[k].companyId == a.companyId && ot.orders[k].externalOrderId == a.event.updated.externalOrderId
    ensures var w := WebhookStep(t, req, hmac, isEmail, isDateTime, ot, freshId);
      var status := Admit(t, req, hmac, isEmail, isDateTime).event.updated.newStatus;
      && w.response == Processed
      && |w.tables.orders| == |ot.orders|
      && w.tables.orders[k].currentStatus == status
      && (ot.orders[k].currentStatus == status ==> w.tables == ot)
  {
    var a := Admit(t, req, hmac, isEmail, isDateTime);
    var d := a.event.updated;
    Orders.KeysFindTheirRow(ot.orders, k);
    var s := Orders.UpdateStatusStep(ot, ot.orders[k].id, a.companyId, UpdateStatusInput(d.newStatus, d.additionalNote));
    assert WebhookStep(t, req, hmac, isEmail, isDateTime, ot, freshId) == WebhookOutcome(Processed, s.tables);
  }

  /** A webhook writes only the orders of the company in its header: every
      other company's orders keep their place and contents, at most one
      order is added, and the history only grows, by at most one entry. A
      request without the header writes nothing. */
  lemma WebhookStaysInTenant(t: Tables, req: WebhookRequest, hmac: Hmac, isEmail: string -> bool,
                             isDateTime: string -> bool, ot: Orders.OrderTables, freshId: string)
    requires !Orders.HasOrder(ot.orders, freshId)
    ensures var w := WebhookStep(t, req, hmac, isEmail, isDateTime, ot, freshId);
      && (req.companyId.None? ==> w.tables == ot)
      && (req.companyId.Some? ==> Orders.WritesWithin(ot, w.tables, req.companyId.value))
  {
    var w := WebhookStep(t, req, hmac, isEmail, isDateTime, ot, freshId);
    var a := Admit(t, req, hmac, isEmail, isDateTime);
    if a.Rejected? {
      assert ot.history[..|ot.history|] == ot.history;
    } else if a.event.OrderCreated? {
      Orders.CreateWritesWithin(ot, a.companyId, CreatedInput(a.event.created), freshId);
    } else {
      var d := a.event.updated;
      match Orders.OrderWithExternalId(ot.orders, a.companyId, d.externalOrderId)
      case None =>
        assert ot.history[..|ot.history|] == ot.history;
      case Some(k) =>
        Orders.UpdateWritesWithin(ot, ot.orders[k].id, a.companyId, UpdateStatusInput(d.newStatus, d.additionalNote));
    }
  }
}
