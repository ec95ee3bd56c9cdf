/** Request schemas of the order endpoints. */
module OrderValidation {
  import opened Common
  import opened Text
  import opened Schema

  /** A number at `key`. */
  function NumAt(j: Json, key: string): Option<real>
  {
    match Field(j, key)
    case Some(JNumber(n)) => Some(n)
    case _ => None
  }

  /** `itemSchema`: a string name, a safe-integer quantity of at least 1 and
      a price of at least 0. */
  predicate ValidItem(j: Json)
  {
    && j.JObject?
    && StrAt(j, "name").Some?
    && NumAt(j, "quantity").Some? && IsSafeInteger(NumAt(j, "quantity").value) && NumAt(j, "quantity").value >= 1.0
    && NumAt(j, "price").Some? && NumAt(j, "price").value >= 0.0
  }

  /** `z.int().positive().min(1)`: both bounds are checked and reported. */
  function QuantityIssues(path: seq<string>, v: Option<Json>): (issues: seq<Issue>)
    ensures issues == [] <==> v.Some? && v.value.JNumber? && IsSafeInteger(v.value.n) && v.value.n >= 1.0
  {
    match v
    case Some(JNumber(n)) =>
      if !IsSafeInteger(n) then [Issue(path, InvalidType)]
      else (if n > 0.0 then [] else [Issue(path, TooSmall(0, false))])
           + (if n >= 1.0 then [] else [Issue(path, TooSmall(1, true))])
    case _ => [Issue(path, InvalidType)]
  }

  /** `z.number().min(0)`. */
  function PriceIssues(path: seq<string>, v: Option<Json>): (issues: seq<Issue>)
    ensures issues == [] <==> v.Some? && v.value.JNumber? && v.value.n >= 0.0
  {
    match v
    case Some(JNumber(n)) => if n >= 0.0 then [] else [Issue(path, TooSmall(0, true))]
    case _ => [Issue(path, InvalidType)]
  }

  /** Every issue of one array element, at that element's path. */
  function ItemIssues(path: seq<string>, j: Json): (issues: seq<Issue>)
    ensures issues == [] <==> ValidItem(j)
  {
    if !j.JObject? then [Issue(path, InvalidType)]
    else IssuesOf(ParseString(path + ["name"], Field(j, "name"), 0))
         + QuantityIssues(path + ["quantity"], Field(j, "quantity"))
         + PriceIssues(path + ["price"], Field(j, "price"))
  }

  /** The issues of the elements `items[from..]`, element by element. */
  function ItemsIssues(path: seq<string>, items: seq<Json>, from: nat): (issues: seq<Issue>)
    requires from <= |items|
    ensures issues == [] <==> forall i :: from <= i < |items| ==> ValidItem(items[i])
    decreases |items| - from
  {
    if from == |items| then []
    else
      var head, rest := ItemIssues(path + [DecimalString(from)], items[from]), ItemsIssues(path, items, from + 1);
      assert (forall i :: from <= i < |items| ==> ValidItem(items[i]))
        <==> ValidItem(items[from]) && forall i :: from + 1 <= i < |items| ==> ValidItem(items[i]);
      assert head + rest == [] <==> head == [] && rest == [];
      head + rest
  }

  /** The item summary: an array of valid items, or any object (a record). */
  predicate ValidItemSummary(v: Option<Json>)
  {
    && v.Some?
    && ((v.value.JArray? && forall i :: 0 <= i < |v.value.items| ==> ValidItem(v.value.items[i]))
        || v.value.JObject?)
  }

  /** An item as the schema outputs it: unknown keys dropped. */
  function NormalItem(j: Json): (n: Json)
    requires ValidItem(j)
    ensures n.JObject? && n.fields.Keys == {"name", "quantity", "price"}
    ensures forall key :: key in n.fields ==> Field(j, key) == Some(n.fields[key])
    ensures ValidItem(n)
  {
    JObject(map["name" := Field(j, "name").value, "quantity" := Field(j, "quantity").value,
                "price" := Field(j, "price").value])
  }

  /** Parsing an item that is already in output form changes nothing. */
  lemma NormalItemIdempotent(j: Json)
    requires ValidItem(j)
    ensures NormalItem(NormalItem(j)) == NormalItem(j)
  {
    var n := NormalItem(j);
    assert NormalItem(n).fields == n.fields;
  }

  /** `z.array(itemSchema).or(z.record(z.string(), z.any()))`. */
  function ParseItemSummary(path: seq<string>, v: Option<Json>): (r: Parsed<Json>)
    ensures r.Valid? <==> ValidItemSummary(v)
    ensures r.Valid? && v.value.JObject? ==> r.value == v.value
    ensures r.Valid? && v.value.JArray? ==>
      && r.value.JArray? && |r.value.items| == |v.value.items|
      && forall i :: 0 <= i < |v.value.items| ==>
           ValidItem(v.value.items[i]) && r.value.items[i] == NormalItem(v.value.items[i])
    ensures r.Invalid? ==> r.issues != []
  {
    match v
    case Some(JArray(items)) =>
      if ItemsIssues(path, items, 0) == [] then
        Valid(JArray(seq(|items|, i requires 0 <= i < |items| => NormalItem(items[i]))))
      else Invalid([Issue(path, NoMatchingUnion)])
    case Some(JObject(_)) => Valid(v.value)
    case _ => Invalid([Issue(path, NoMatchingUnion)])
  }

  /** The input `OrderService.createOrder` receives. The webhook path passes
      an item summary of any shape, possibly none. */
  datatype CreateOrderInput = CreateOrderInput(
    externalOrderId: string,
    customerEmail: string,
    customerPhone: Option<string>,
    deliveryAddress: string,
    itemSummary: Option<Json>,
    isSubscriptionActive: bool)

  /** `createOrderSchema`. */
  function ParseCreateOrder(isEmail: string -> bool, j: Json): (r: Parsed<CreateOrderInput>)
    ensures r.Valid? <==>
      && StrMinAt(j, "externalOrderId", 1)
      && EmailAt(isEmail, j, "customerEmail")
      && (Field(j, "customerPhone").None? || StrAt(j, "customerPhone").Some?)
      && StrMinAt(j, "deliveryAddress", 5)
      && ValidItemSummary(Field(j, "itemSummary"))
      && (Field(j, "isSubscriptionActive").None? || Field(j, "isSubscriptionActive").value.JBool?)
    ensures r.Valid? ==>
      && StrAt(j, "externalOrderId") == Some(r.value.externalOrderId)
      && StrAt(j, "customerEmail") == Some(r.value.customerEmail)
      && (r.value.customerPhone.None? <==> Field(j, "customerPhone").None?)
      && (r.value.customerPhone.Some? ==> StrAt(j, "customerPhone") == r.value.customerPhone)
      && StrAt(j, "deliveryAddress") == Some(r.value.deliveryAddress)
      && r.value.itemSummary.Some?
      && ParseItemSummary(["itemSummary"], Field(j, "itemSummary")) == Valid(r.value.itemSummary.value)
      && r.value.isSubscriptionActive == (Field(j, "isSubscriptionActive").None? || Field(j, "isSubscriptionActive").value.b)
    ensures r.Invalid? ==> r.issues != []
  {
    if !j.JObject? then Invalid([Issue([], InvalidType)])
    else
      var id := ParseString(["externalOrderId"], Field(j, "externalOrderId"), 1);
      var email := ParseEmail(isEmail, ["customerEmail"], Field(j, "customerEmail"));
      var phone := ParseOptional(Field(j, "customerPhone"), ParseString(["customerPhone"], Field(j, "customerPhone"), 0));
      var address := ParseString(["deliveryAddress"], Field(j, "deliveryAddress"), 5);
      var items := ParseItemSummary(["itemSummary"], Field(j, "itemSummary"));
      var subscription := ParseBoolDefault(["isSubscriptionActive"], Field(j, "isSubscriptionActive"), true);
      if id.Valid? && email.Valid? && phone.Valid? && address.Valid? && items.Valid? && subscription.Valid? then
        Valid(CreateOrderInput(id.value, email.value, phone.value, address.value, Some(items.value), subscription.value))
      else
        Invalid(IssuesOf(id) + IssuesOf(email) + IssuesOf(phone) + IssuesOf(address)
                + IssuesOf(items) + IssuesOf(subscription))
  }

  datatype UpdateStatusInput = UpdateStatusInput(status: OrderStatus, additionalNote: Option<string>)

  /** `updateStatusSchema`: a status of the enumeration and an optional note. */
  function ParseUpdateStatus(j: Json): (r: Parsed<UpdateStatusInput>)
    ensures r.Valid? <==>
      && StrAt(j, "status").Some? && StatusNamed(StrAt(j, "status").value).Some?
      && (Field(j, "additionalNote").None? || StrAt(j, "additionalNote").Some?)
    ensures r.Valid? ==>
      && StrAt(j, "status") == Some(StatusName(r.value.status))
      && (r.value.additionalNote.None? <==> Field(j, "additionalNote").None?)
      && (r.value.additionalNote.Some? ==> StrAt(j, "additionalNote") == r.value.additionalNote)
    ensures r.Invalid? ==> r.issues != []
  {
    if !j.JObject? then Invalid([Issue([], InvalidType)])
    else
      var status := ParseStatus(["status"], Field(j, "status"));
      var note := ParseOptional(Field(j, "additionalNote"), ParseString(["additionalNote"], Field(j, "additionalNote"), 0));
      if status.Valid? && note.Valid? then Valid(UpdateStatusInput(status.value, note.value))
      else Invalid(IssuesOf(status) + IssuesOf(note))
  }
}
