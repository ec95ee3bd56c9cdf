/** Schema of an inbound webhook body: a union of two event shapes told apart
    by `event_type`. */
module WebhookValidation {
  import opened Common
  import opened Schema

  const CreatedEvent: string := "order.created"
  const UpdatedEvent: string := "order.updated"

  datatype OrderCreatedData = OrderCreatedData(
    externalOrderId: string,
    customerEmail: string,
    customerPhone: Option<string>,
    deliveryAddress: string,
    itemSummary: Option<Json>,
    initialStatus: OrderStatus)

  datatype OrderUpdatedData = OrderUpdatedData(
    externalOrderId: string,
    newStatus: OrderStatus,
    additionalNote: Option<string>,
    timestamp: Option<string>)

  /** The typed event: downstream code matches on the variant and never looks
      at the discriminator string again. */
  datatype WebhookEvent = OrderCreated(created: OrderCreatedData) | OrderUpdated(updated: OrderUpdatedData)

  /** `data` of `orderCreatedPayload`: string id (the empty string included),
      an email, an optional string phone, a string address, an item summary
      of any shape, and an optional status of the enumeration. */
  predicate ValidCreatedData(isEmail: string -> bool, d: Option<Json>)
  {
    && d.Some?
    && StrAt(d.value, "external_order_id").Some?
    && EmailAt(isEmail, d.value, "customer_email")
    && (Field(d.value, "customer_phone").None? || StrAt(d.value, "customer_phone").Some?)
    && StrAt(d.value, "delivery_address").Some?
    && (Field(d.value, "initial_status").None?
        || (StrAt(d.value, "initial_status").Some? && StatusNamed(StrAt(d.value, "initial_status").value).Some?))
  }

  /** `data` of `orderUpdatedPayload`: string id, a status of the
      enumeration, an optional string note and an optional ISO 8601 date-time
      (the syntax is left to the predicate `isDateTime`). */
  predicate ValidUpdatedData(isDateTime: string -> bool, d: Option<Json>)
  {
    && d.Some?
    && StrAt(d.value, "external_order_id").Some?
    && StrAt(d.value, "new_status").Some? && StatusNamed(StrAt(d.value, "new_status").value).Some?
    && (Field(d.value, "additional_note").None? || StrAt(d.value, "additional_note").Some?)
    && (Field(d.value, "timestamp").None?
        || (StrAt(d.value, "timestamp").Some? && isDateTime(StrAt(d.value, "timestamp").value)))
  }

  /** `data` of an `order.created` event. */
  function ParseCreatedData(isEmail: string -> bool, d: Option<Json>): (r: Parsed<OrderCreatedData>)
    ensures r.Valid? <==> ValidCreatedData(isEmail, d)
    ensures r.Valid? ==>
      && StrAt(d.value, "external_order_id") == Some(r.value.externalOrderId)
      && StrAt(d.value, "customer_email") == Some(r.value.customerEmail)
      && (r.value.customerPhone.None? <==> Field(d.value, "customer_phone").None?)
      && (r.value.customerPhone.Some? ==> StrAt(d.value, "customer_phone") == r.value.customerPhone)
      && StrAt(d.value, "delivery_address") == Some(r.value.deliveryAddress)
      && r.value.itemSummary == Field(d.value, "item_summary")
      && (Field(d.value, "initial_status").None? ==> r.value.initialStatus == Pending)
      && (Field(d.value, "initial_status").Some? ==> StrAt(d.value, "initial_status") == Some(StatusName(r.value.initialStatus)))
    ensures r.Invalid? ==> r.issues != []
  {
    match d
    case Some(JObject(_)) =>
      var j := d.value;
      var id := ParseString(["data", "external_order_id"], Field(j, "external_order_id"), 0);
      var email := ParseEmail(isEmail, ["data", "customer_email"], Field(j, "customer_email"));
      var phone := ParseOptional(Field(j, "customer_phone"), ParseString(["data", "customer_phone"], Field(j, "customer_phone"), 0));
      var address := ParseString(["data", "delivery_address"], Field(j, "delivery_address"), 0);
      var status := if Field(j, "initial_status").None? then Valid(Pending)
                    else ParseStatus(["data", "initial_status"], Field(j, "initial_status"));
      if id.Valid? && email.Valid? && phone.Valid? && address.Valid? && status.Valid? then
        Valid(OrderCreatedData(id.value, email.value, phone.value, address.value, Field(j, "item_summary"), status.value))
      else
        Invalid(IssuesOf(id) + IssuesOf(email) + IssuesOf(phone) + IssuesOf(address) + IssuesOf(status))
    case _ => Invalid([Issue(["data"], InvalidType)])
  }

  /** `data` of an `order.updated` event. */
  function ParseUpdatedData(isDateTime: string -> bool, d: Option<Json>): (r: Parsed<OrderUpdatedData>)
    ensures r.Valid? <==> ValidUpdatedData(isDateTime, d)
    ensures r.Valid? ==>
      && StrAt(d.value, "external_order_id") == Some(r.value.externalOrderId)
      && StrAt(d.value, "new_status") == Some(StatusName(r.value.newStatus))
      && (r.value.additionalNote.None? <==> Field(d.value, "additional_note").None?)
      && (r.value.additionalNote.Some? ==> StrAt(d.value, "additional_note") == r.value.additionalNote)
      && (r.value.timestamp.None? <==> Field(d.value, "timestamp").None?)
    ensures r.Invalid? ==> r.issues != []
  {
    match d
    case Some(JObject(_)) =>
      var j := d.value;
      var id := ParseString(["data", "external_order_id"], Field(j, "external_order_id"), 0);
      var status := ParseStatus(["data", "new_status"], Field(j, "new_status"));
      var note := ParseOptional(Field(j, "additional_note"), ParseString(["data", "additional_note"], Field(j, "additional_note"), 0));
      var time := ParseOptional(Field(j, "timestamp"), ParseFormat(isDateTime, "datetime", ["data", "timestamp"], Field(j, "timestamp")));
      if id.Valid? && status.Valid? && note.Valid? && time.Valid? then
        Valid(OrderUpdatedData(id.value, status.value, note.value, time.value))
      else Invalid(IssuesOf(id) + IssuesOf(status) + IssuesOf(note) + IssuesOf(time))
    case _ => Invalid([Issue(["data"], InvalidType)])
  }

  /** `webhookSchema`, the discriminated union. Only the two exact
      discriminator strings are accepted, and a successful parse is the one
      variant the discriminator names, with that variant's data shape. */
  function ParseWebhook(isEmail: string -> bool, isDateTime: string -> bool, j: Json): (r: Parsed<WebhookEvent>)
    ensures r.Valid? <==>
      || (StrAt(j, "event_type") == Some(CreatedEvent) && ValidCreatedData(isEmail, Field(j, "data")))
      || (StrAt(j, "event_type") == Some(UpdatedEvent) && ValidUpdatedData(isDateTime, Field(j, "data")))
    ensures r.Valid? && r.value.OrderCreated? ==>
      StrAt(j, "event_type") == Some(CreatedEvent) && ParseCreatedData(isEmail, Field(j, "data")) == Valid(r.value.created)
    ensures r.Valid? && r.value.OrderUpdated? ==>
      StrAt(j, "event_type") == Some(UpdatedEvent) && ParseUpdatedData(isDateTime, Field(j, "data")) == Valid(r.value.updated)
    ensures StrAt(j, "event_type") != Some(CreatedEvent) && StrAt(j, "event_type") != Some(UpdatedEvent) ==>
      r.Invalid? && (j.JObject? ==> r.issues == [Issue(["event_type"], NoMatchingDiscriminator)])
    ensures r.Invalid? ==> r.issues != []
  {
    if !j.JObject? then Invalid([Issue([], InvalidType)])
    else if StrAt(j, "event_type") == Some(CreatedEvent) then
      match ParseCreatedData(isEmail, Field(j, "data"))
      case Valid(d) => Valid(OrderCreated(d))
      case Invalid(issues) => Invalid(issues)
    else if StrAt(j, "event_type") == Some(UpdatedEvent) then
      match ParseUpdatedData(isDateTime, Field(j, "data"))
      case Valid(d) => Valid(OrderUpdated(d))
      case Invalid(issues) => Invalid(issues)
    else Invalid([Issue(["event_type"], NoMatchingDiscriminator)])
  }
}
