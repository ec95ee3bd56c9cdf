/** Orders and their tracking history. An order is unique per company and
    external order id; every status change appends one tracking entry, and
    the order's current status is the status of its newest entry. */
module Orders {
  import opened Common
  import opened Seqs
  import opened Schema
  import opened OrderValidation

  datatype Order = Order(
    id: string,
    companyId: string,
    externalOrderId: string,
    customerEmail: string,
    customerPhone: Option<string>,     // None is a stored null
    deliveryAddress: string,
    itemSummary: Json,
    isSubscriptionActive: bool,
    currentStatus: OrderStatus)

  datatype TrackingEntry = TrackingEntry(orderId: string, status: OrderStatus, additionalNote: Option<string>)

  /** The order table and the tracking history table, rows in creation order. */
  datatype OrderTables = OrderTables(orders: seq<Order>, history: seq<TrackingEntry>)

  datatype OrderStep<+T> = OrderStep(tables: OrderTables, result: Result<T>)

  /** What `updateStatus` answers on success. */
  datatype StatusOutcome =
    | AlreadyInStatus(message: string)
    | StatusUpdated(message: string, status: OrderStatus)

  /** The order together with its history, newest entry first. */
  datatype OrderDetails = OrderDetails(order: Order, trackingHistory: seq<TrackingEntry>)

  const CreatedNote: string := "Order created via API"
  const OrderNotFound: Error := HttpError(404, "Order not found")

  function DuplicateOrder(externalOrderId: string): Error
  {
    HttpError(409, "Order with " + externalOrderId + " already exists for the company")
  }

  function OrderWithId(orders: seq<Order>, id: string): Option<nat>
  {
    FindFirst(orders, (o: Order) => o.id == id)
  }

  /** Lookup by the compound unique key (company, external order id). */
  function OrderWithExternalId(orders: seq<Order>, companyId: string, externalOrderId: string): Option<nat>
  {
    FindFirst(orders, (o: Order) => o.companyId == companyId && o.externalOrderId == externalOrderId)
  }

  predicate HasOrder(orders: seq<Order>, id: string)
  {
    exists i :: 0 <= i < |orders| && orders[i].id == id
  }

  /** The tracking entries of one order, oldest first. */
  function HistoryOf(history: seq<TrackingEntry>, orderId: string): seq<TrackingEntry>
  {
    Filter(history, (e: TrackingEntry) => e.orderId == orderId)
  }

  /** The order's history is not empty and its newest entry carries the
      order's current status. */
  predicate StatusTracked(history: seq<TrackingEntry>, o: Order)
  {
    var h := HistoryOf(history, o.id);
    |h| > 0 && h[|h| - 1].status == o.currentStatus
  }

  /** The invariant of the order tables: unique ids, unique (company,
      external id) pairs, every entry belongs to an order, and every order's
      current status is that of its newest entry. */
  predicate Consistent(ot: OrderTables)
  {
    UniqueKeys(ot.orders) && HistoryOwned(ot) && AllTracked(ot)
  }

  predicate UniqueKeys(orders: seq<Order>)
  {
    forall i, j :: 0 <= i < j < |orders| ==>
      orders[i].id != orders[j].id
      && (orders[i].companyId != orders[j].companyId || orders[i].externalOrderId != orders[j].externalOrderId)
  }

  predicate HistoryOwned(ot: OrderTables)
  {
    forall k :: 0 <= k < |ot.history| ==> HasOrder(ot.orders, ot.history[k].orderId)
  }

  predicate AllTracked(ot: OrderTables)
  {
    forall i :: 0 <= i < |ot.orders| ==> StatusTracked(ot.history, ot.orders[i])
  }

  /** With unique keys, looking a row up by its id or by its (company,
      external id) pair finds that very row. */
  lemma KeysFindTheirRow(orders: seq<Order>, k: nat)
    requires UniqueKeys(orders) && k < |orders|
    ensures OrderWithId(orders, orders[k].id) == Some(k)
    ensures OrderWithExternalId(orders, orders[k].companyId, orders[k].externalOrderId) == Some(k)
  {
    var byId := OrderWithId(orders, orders[k].id);
    assert !(byId.value < k);
    var byKey := OrderWithExternalId(orders, orders[k].companyId, orders[k].externalOrderId);
    assert !(byKey.value < k);
  }

  /** Appending an entry for `orderId` leaves every other order's history as
      it was and extends that order's history by the entry. */
  lemma HistoryAfterAppend(history: seq<TrackingEntry>, e: TrackingEntry, id: string)
    ensures HistoryOf(history + [e], id) == HistoryOf(history, id) + (if e.orderId == id then [e] else [])
  {
    FilterAppend(history, e, (x: TrackingEntry) => x.orderId == id);
  }

  /** `itemSummary ?? {}`: an absent or null item summary is stored as the
      empty object, anything else as given. */
  function StoredItemSummary(itemSummary: Option<Json>): (stored: Json)
    ensures itemSummary.None? || itemSummary.value.JNull? ==> stored == JObject(map[])
    ensures itemSummary.Some? && !itemSummary.value.JNull? ==> stored == itemSummary.value
  {
    match itemSummary
    case Some(j) => if j.JNull? then JObject(map[]) else j
    case None => JObject(map[])
  }

  /** `createOrder`: refused with 409 when the company already has an order
      with that external id; otherwise one order and one PENDING entry are
      added. `freshId` is the id the store assigns. */
  function CreateOrderStep(ot: OrderTables, companyId: string, input: CreateOrderInput, freshId: string): (r: OrderStep<Reply<string>>)
    requires !HasOrder(ot.orders, freshId)
    ensures r.result.Err? <==>
      exists i :: 0 <= i < |ot.orders| && ot.orders[i].companyId == companyId && ot.orders[i].externalOrderId == input.externalOrderId
    ensures r.result.Err? ==> r == OrderStep(ot, Err(DuplicateOrder(input.externalOrderId)))
    ensures r.result.Ok? ==>
      && r.result.value == Reply("Order created successfully", freshId)
      && |r.tables.orders| == |ot.orders| + 1 && r.tables.orders[..|ot.orders|] == ot.orders
      && r.tables.orders[|ot.orders|] == Order(freshId, companyId, input.externalOrderId, input.customerEmail,
           input.customerPhone, input.deliveryAddress,
           StoredItemSummary(input.itemSummary),
           input.isSubscriptionActive, Pending)
      && r.tables.history == ot.history + [TrackingEntry(freshId, Pending, Some(CreatedNote))]
    ensures Consistent(ot) ==> Consistent(r.tables)
  {
    if OrderWithExternalId(ot.orders, companyId, input.externalOrderId).Some? then
      OrderStep(ot, Err(DuplicateOrder(input.externalOrderId)))
    else
      var o := Order(freshId, companyId, input.externalOrderId, input.customerEmail, input.customerPhone,
                     input.deliveryAddress, StoredItemSummary(input.itemSummary),
                     input.isSubscriptionActive, Pending);
      var e := TrackingEntry(freshId, Pending, Some(CreatedNote));
      var after := OrderTables(ot.orders + [o], ot.history + [e]);
      assert Consistent(ot) ==> Consistent(after) by {
        if Consistent(ot) { CreateKeepsConsistent(ot, o, e); }
      }
      OrderStep(after, Ok(Reply("Order created successfully", freshId)))
  }

  lemma CreateKeepsConsistent(ot: OrderTables, o: Order, e: TrackingEntry)
    requires Consistent(ot) && !HasOrder(ot.orders, o.id)
    requires forall i :: 0 <= i < |ot.orders| ==>
      ot.orders[i].companyId != o.companyId || ot.orders[i].externalOrderId != o.externalOrderId
    requires e.orderId == o.id && e.status == o.currentStatus
    ensures Consistent(OrderTables(ot.orders + [o], ot.history + [e]))
  {
    var after := OrderTables(ot.orders + [o], ot.history + [e]);
    CreateKeepsKeys(ot.orders, o);
    CreateKeepsOwned(ot, o, e);
    forall i | 0 <= i < |after.orders|
      ensures StatusTracked(after.history, after.orders[i])
    {
      CreateKeepsTracked(ot, o, e, i);
    }
  }

  lemma CreateKeepsKeys(orders: seq<Order>, o: Order)
    requires UniqueKeys(orders) && !HasOrder(orders, o.id)
    requires forall i :: 0 <= i < |orders| ==>
      orders[i].companyId != o.companyId || orders[i].externalOrderId != o.externalOrderId
    ensures UniqueKeys(orders + [o])
  {
    var after := orders + [o];
    forall i, j | 0 <= i < j < |after|
      ensures after[i].id != after[j].id
              && (after[i].companyId != after[j].companyId || after[i].externalOrderId != after[j].externalOrderId)
    {
      assert after[i] == orders[i];
      if j < |orders| { assert after[j] == orders[j]; }
    }
  }

  lemma CreateKeepsOwned(ot: OrderTables, o: Order, e: TrackingEntry)
    requires HistoryOwned(ot) && e.orderId == o.id
    ensures HistoryOwned(OrderTables(ot.orders + [o], ot.history + [e]))
  {
    var after := OrderTables(ot.orders + [o], ot.history + [e]);
    forall k | 0 <= k < |after.history|
      ensures HasOrder(after.orders, after.history[k].orderId)
    {
      if k < |ot.history| {
        var i :| 0 <= i < |ot.orders| && ot.orders[i].id == ot.history[k].orderId;
        assert after.orders[i] == ot.orders[i];
      } else {
        assert after.orders[|ot.orders|] == o;
      }
    }
  }

  lemma CreateKeepsTracked(ot: OrderTables, o: Order, e: TrackingEntry, i: nat)
    requires AllTracked(ot) && !HasOrder(ot.orders, o.id) && i <= |ot.orders|
    requires e.orderId == o.id && e.status == o.currentStatus
    ensures StatusTracked(ot.history + [e], (ot.orders + [o])[i])
  {
    var x := (ot.orders + [o])[i];
    HistoryAfterAppend(ot.history, e, x.id);
    if i < |ot.orders| {
      assert x == ot.orders[i];
      assert StatusTracked(ot.history, ot.orders[i]);
    }
  }

  /** `updateStatus`: a missing order and another company's order get the
      same 404. Asking for the current status writes nothing. Any other
      status is accepted, with no check of the transition: the order takes
      it and one entry with the status and the note is appended. */
  function UpdateStatusStep(ot: OrderTables, orderId: string, companyId: string, input: UpdateStatusInput): (r: OrderStep<StatusOutcome>)
    ensures var f := OrderWithId(ot.orders, orderId);
      && (r.result == Err(OrderNotFound) <==> f.None? || ot.orders[f.value].companyId != companyId)
      && (r.result.Err? ==> r.result == Err(OrderNotFound))
      && (r.result.Ok? && r.result.value.AlreadyInStatus? <==>
            f.Some? && ot.orders[f.value].companyId == companyId && ot.orders[f.value].currentStatus == input.status)
      && (r.result.Ok? && r.result.value.AlreadyInStatus? ==>
            r.result.value.message == "Order is already in " + StatusName(input.status) + " status")
      && (r.result.Ok? && r.result.value.StatusUpdated? <==>
            f.Some? && ot.orders[f.value].companyId == companyId && ot.orders[f.value].currentStatus != input.status)
      && (r.result.Ok? && r.result.value.StatusUpdated? ==>
            && r.result.value == StatusUpdated("Order status updated successfully", input.status)
            && r.tables.orders == ot.orders[f.value := ot.orders[f.value].(currentStatus := input.status)]
            && r.tables.history == ot.history + [TrackingEntry(orderId, input.status, input.additionalNote)])
    ensures !(r.result.Ok? && r.result.value.StatusUpdated?) ==> r.tables == ot
    ensures forall id :: id != orderId ==> HistoryOf(r.tables.history, id) == HistoryOf(ot.history, id)
    ensures Consistent(ot) ==> Consistent(r.tables)
  {
    match OrderWithId(ot.orders, orderId)
    case None => OrderStep(ot, Err(OrderNotFound))
    case Some(k) =>
      var o := ot.orders[k];
      if o.companyId != companyId then OrderStep(ot, Err(OrderNotFound))
      else if o.currentStatus == input.status then
        OrderStep(ot, Ok(AlreadyInStatus("Order is already in " + StatusName(input.status) + " status")))
      else
        var e := TrackingEntry(orderId, input.status, input.additionalNote);
        var after := OrderTables(ot.orders[k := o.(currentStatus := input.status)], ot.history + [e]);
        assert forall id :: id != orderId ==> HistoryOf(after.history, id) == HistoryOf(ot.history, id) by {
          forall id | id != orderId
            ensures HistoryOf(after.history, id) == HistoryOf(ot.history, id)
          {
            HistoryAfterAppend(ot.history, e, id);
          }
        }
        assert Consistent(ot) ==> Consistent(after) by {
          if Consistent(ot) { UpdateKeepsConsistent(ot, k, input.status, e); }
        }
        OrderStep(after, Ok(StatusUpdated("Order status updated successfully", input.status)))
  }

  lemma UpdateKeepsConsistent(ot: OrderTables, k: nat, status: OrderStatus, e: TrackingEntry)
    requires Consistent(ot) && k < |ot.orders|
    requires e.orderId == ot.orders[k].id && e.status == status
    ensures Consistent(OrderTables(ot.orders[k := ot.orders[k].(currentStatus := status)], ot.history + [e]))
  {
    var after := OrderTables(ot.orders[k := ot.orders[k].(currentStatus := status)], ot.history + [e]);
    UpdateKeepsKeys(ot.orders, k, status);
    UpdateKeepsOwned(ot, k, status, e);
    forall i | 0 <= i < |after.orders|
      ensures StatusTracked(after.history, after.orders[i])
    {
      UpdateKeepsTracked(ot, k, status, e, i);
    }
  }

  lemma UpdateKeepsKeys(orders: seq<Order>, k: nat, status: OrderStatus)
    requires UniqueKeys(orders) && k < |orders|
    ensures UniqueKeys(orders[k := orders[k].(currentStatus := status)])
  {
    var after := orders[k := orders[k].(currentStatus := status)];
    forall i | 0 <= i < |after|
      ensures after[i].id == orders[i].id && after[i].companyId == orders[i].companyId
              && after[i].externalOrderId == orders[i].externalOrderId
    {
    }
  }

  lemma UpdateKeepsOwned(ot: OrderTables, k: nat, status: OrderStatus, e: TrackingEntry)
    requires HistoryOwned(ot) && k < |ot.orders| && e.orderId == ot.orders[k].id
    ensures HistoryOwned(OrderTables(ot.orders[k := ot.orders[k].(currentStatus := status)], ot.history + [e]))
  {
    var after := OrderTables(ot.orders[k := ot.orders[k].(currentStatus := status)], ot.history + [e]);
    forall m | 0 <= m < |after.history|
      ensures HasOrder(after.orders, after.history[m].orderId)
    {
      if m < |ot.history| {
        var i :| 0 <= i < |ot.orders| && ot.orders[i].id == ot.history[m].orderId;
        assert after.orders[i].id == ot.orders[i].id;
      } else {
        assert after.orders[k].id == e.orderId;
      }
    }
  }

  lemma UpdateKeepsTracked(ot: OrderTables, k: nat, status: OrderStatus, e: TrackingEntry, i: nat)
    requires UniqueKeys(ot.orders) && AllTracked(ot) && k < |ot.orders| && i < |ot.orders|
    requires e.orderId == ot.orders[k].id && e.status == status
    ensures StatusTracked(ot.history + [e], ot.orders[k := ot.orders[k].(currentStatus := status)][i])
  {
    var o := ot.orders[k := ot.orders[k].(currentStatus := status)][i];
    HistoryAfterAppend(ot.history, e, o.id);
    assert StatusTracked(ot.history, ot.orders[i]);
    if i != k {
      assert o == ot.orders[i];
      assert ot.orders[i].id != ot.orders[k].id;
    }
  }

  /** The history of one order read newest first: exactly that order's
      entries, later entries before earlier ones. */
  lemma NewestFirst(history: seq<TrackingEntry>, orderId: string)
    ensures var h := Reverse(HistoryOf(history, orderId));
      && (forall k :: 0 <= k < |h| ==> h[k] in history && h[k].orderId == orderId)
      && (forall j :: 0 <= j < |history| && history[j].orderId == orderId ==> history[j] in h)
      && (forall a, b :: 0 <= a < b < |h| ==> Precedes(history, h[b], h[a]))
      && (forall k :: 0 <= k < |h| ==>
            h[k] == HistoryOf(history, orderId)[|HistoryOf(history, orderId)| - 1 - k])
  {
    ReversedFilter(history, (e: TrackingEntry) => e.orderId == orderId);
  }

  /** Read newest first, a tracked order's history starts with its current
      status. */
  lemma TrackedNewestFirst(history: seq<TrackingEntry>, o: Order)
    requires StatusTracked(history, o)
    ensures var h := Reverse(HistoryOf(history, o.id));
      |h| > 0 && h[0].status == o.currentStatus
  {
  }

  /** A write made for `companyId`: no other company's order changes, at
      most one order is added, and the history only grows, by at most one
      entry. */
  predicate WritesWithin(before: OrderTables, after: OrderTables, companyId: string)
  {
    && |before.orders| <= |after.orders| <= |before.orders| + 1
    && (forall i :: 0 <= i < |before.orders| && before.orders[i].companyId != companyId ==>
          after.orders[i] == before.orders[i])
    && |before.history| <= |after.history| <= |before.history| + 1
    && after.history[..|before.history|] == before.history
  }

  lemma CreateWritesWithin(ot: OrderTables, companyId: string, input: CreateOrderInput, freshId: string)
    requires !HasOrder(ot.orders, freshId)
    ensures WritesWithin(ot, CreateOrderStep(ot, companyId, input, freshId).tables, companyId)
  {
    var s := CreateOrderStep(ot, companyId, input, freshId);
    if s.result.Ok? {
      assert s.tables.history[..|ot.history|] == ot.history;
      forall i | 0 <= i < |ot.orders|
        ensures s.tables.orders[i] == ot.orders[i]
      {
        assert s.tables.orders[..|ot.orders|][i] == s.tables.orders[i];
      }
    } else {
      assert ot.history[..|ot.history|] == ot.history;
    }
  }

  lemma UpdateWritesWithin(ot: OrderTables, orderId: string, companyId: string, input: UpdateStatusInput)
    ensures WritesWithin(ot, UpdateStatusStep(ot, orderId, companyId, input).tables, companyId)
  {
    var s := UpdateStatusStep(ot, orderId, companyId, input);
    if s.result.Ok? && s.result.value.StatusUpdated? {
      assert s.tables.history[..|ot.history|] == ot.history;
    } else {
      assert ot.history[..|ot.history|] == ot.history;
    }
  }

  /** `getOrderDetails`: the same tenant-scoped 404 as `updateStatus`;
      otherwise the order and exactly its own tracking entries, newest
      first. */
  function GetOrderDetails(ot: OrderTables, orderId: string, companyId: string): (r: Result<OrderDetails>)
    ensures var f := OrderWithId(ot.orders, orderId);
      && (r.Err? <==> f.None? || ot.orders[f.value].companyId != companyId)
      && (r.Err? ==> r.error == OrderNotFound)
      && (r.Ok? ==> r.value.order == ot.orders[f.value] && r.value.order.id == orderId)
    ensures r.Ok? ==>
      var h := r.value.trackingHistory;
      && |h| == |HistoryOf(ot.history, orderId)|
      && (forall k :: 0 <= k < |h| ==> h[k] in ot.history && h[k].orderId == orderId)
      && (forall j :: 0 <= j < |ot.history| && ot.history[j].orderId == orderId ==> ot.history[j] in h)
      && (forall a, b :: 0 <= a < b < |h| ==> Precedes(ot.history, h[b], h[a]))
      && (forall k :: 0 <= k < |h| ==>
            h[k] == HistoryOf(ot.history, orderId)[|HistoryOf(ot.history, orderId)| - 1 - k])
    ensures r.Ok? && Consistent(ot) ==>
      |r.value.trackingHistory| > 0 && r.value.trackingHistory[0].status == r.value.order.currentStatus
  {
    match OrderWithId(ot.orders, orderId)
    case None => Err(OrderNotFound)
    case Some(k) =>
      if ot.orders[k].companyId != companyId then Err(OrderNotFound)
      else
        var h := Reverse(HistoryOf(ot.history, orderId));
        NewestFirst(ot.history, orderId);
        assert Consistent(ot) ==> |h| > 0 && h[0].status == ot.orders[k].currentStatus by {
          if Consistent(ot) {
            TrackedNewestFirst(ot.history, ot.orders[k]);
          }
        }
        Ok(OrderDetails(ot.orders[k], h))
  }

  /** A repeated create for the same company and external id is refused and
      writes nothing, whatever the rest of the payload. */
  lemma ReplayedCreateRejected(ot: OrderTables, companyId: string, input: CreateOrderInput, freshId: string,
                               replay: CreateOrderInput, otherId: string)
    requires !HasOrder(ot.orders, freshId)
    requires CreateOrderStep(ot, companyId, input, freshId).result.Ok?
    requires replay.externalOrderId == input.externalOrderId
    requires !HasOrder(CreateOrderStep(ot, companyId, input, freshId).tables.orders, otherId)
    ensures var after := CreateOrderStep(ot, companyId, input, freshId).tables;
      CreateOrderStep(after, companyId, replay, otherId) == OrderStep(after, Err(DuplicateOrder(input.externalOrderId)))
  {
    var after := CreateOrderStep(ot, companyId, input, freshId).tables;
    assert after.orders[|ot.orders|].companyId == companyId;
  }

  /** Status updates are idempotent: repeating an update changes nothing, so
      two identical updates leave one tracking entry. */
  lemma RepeatedUpdateIsNoOp(ot: OrderTables, orderId: string, companyId: string, input: UpdateStatusInput,
                             again: UpdateStatusInput)
    requires UpdateStatusStep(ot, orderId, companyId, input).result.Ok?
    requires again.status == input.status
    ensures var after := UpdateStatusStep(ot, orderId, companyId, input).tables;
      && UpdateStatusStep(after, orderId, companyId, again).tables == after
      && UpdateStatusStep(after, orderId, companyId, again).result.Ok?
      && UpdateStatusStep(after, orderId, companyId, again).result.value.AlreadyInStatus?
      && |after.history| <= |ot.history| + 1
  {
    var k := OrderWithId(ot.orders, orderId).value;
    var after := UpdateStatusStep(ot, orderId, companyId, input).tables;
    if after != ot {
      FindFirstAfterUpdate(ot.orders, (o: Order) => o.id == orderId, k, after.orders[k]);
    }
  }

  /** A new order followed by a delivery update shows both entries, the
      delivery first. */
  lemma CreateThenDeliver(ot: OrderTables, companyId: string, input: CreateOrderInput, freshId: string, note: Option<string>)
    requires Consistent(ot) && !HasOrder(ot.orders, freshId)
    requires CreateOrderStep(ot, companyId, input, freshId).result.Ok?
    ensures var created := CreateOrderStep(ot, companyId, input, freshId).tables;
      var delivered := UpdateStatusStep(created, freshId, companyId, UpdateStatusInput(Delivered, note)).tables;
      GetOrderDetails(delivered, freshId, companyId).Ok?
      && GetOrderDetails(delivered, freshId, companyId).value.order.currentStatus == Delivered
      && GetOrderDetails(delivered, freshId, companyId).value.trackingHistory
         == [TrackingEntry(freshId, Delivered, note), TrackingEntry(freshId, Pending, Some(CreatedNote))]
  {
    var created := CreateOrderStep(ot, companyId, input, freshId).tables;
    CreatedOrderFound(ot, companyId, input, freshId);
    DeliveredDetails(created, |ot.orders|, freshId, companyId, note);
  }

  lemma DeliveredDetails(created: OrderTables, n: nat, freshId: string, companyId: string, note: Option<string>)
    requires n < |created.orders| && OrderWithId(created.orders, freshId) == Some(n)
    requires created.orders[n].companyId == companyId && created.orders[n].currentStatus == Pending
    requires HistoryOf(created.history, freshId) == [TrackingEntry(freshId, Pending, Some(CreatedNote))]
    ensures var delivered := UpdateStatusStep(created, freshId, companyId, UpdateStatusInput(Delivered, note)).tables;
      GetOrderDetails(delivered, freshId, companyId).Ok?
      && GetOrderDetails(delivered, freshId, companyId).value.order.currentStatus == Delivered
      && GetOrderDetails(delivered, freshId, companyId).value.trackingHistory
         == [TrackingEntry(freshId, Delivered, note), TrackingEntry(freshId, Pending, Some(CreatedNote))]
  {
    var e0 := TrackingEntry(freshId, Pending, Some(CreatedNote));
    var e1 := TrackingEntry(freshId, Delivered, note);
    var delivered := UpdateStatusStep(created, freshId, companyId, UpdateStatusInput(Delivered, note)).tables;
    DeliveredAfterCreate(created, n, freshId, companyId, note, e0);
    assert GetOrderDetails(delivered, freshId, companyId) == Ok(OrderDetails(delivered.orders[n], Reverse([e0, e1])));
    assert Reverse([e0, e1]) == [e1, e0];
  }

  lemma DeliveredAfterCreate(created: OrderTables, n: nat, freshId: string, companyId: string,
                             note: Option<string>, e0: TrackingEntry)
    requires n < |created.orders| && OrderWithId(created.orders, freshId) == Some(n)
    requires created.orders[n].companyId == companyId && created.orders[n].currentStatus == Pending
    requires HistoryOf(created.history, freshId) == [e0]
    ensures var delivered := UpdateStatusStep(created, freshId, companyId, UpdateStatusInput(Delivered, note)).tables;
      && OrderWithId(delivered.orders, freshId) == Some(n)
      && delivered.orders[n] == created.orders[n].(currentStatus := Delivered)
      && HistoryOf(delivered.history, freshId) == [e0, TrackingEntry(freshId, Delivered, note)]
  {
    var e1 := TrackingEntry(freshId, Delivered, note);
    var delivered := UpdateStatusStep(created, freshId, companyId, UpdateStatusInput(Delivered, note)).tables;
    assert delivered.history == created.history + [e1];
    FindFirstAfterUpdate(created.orders, (x: Order) => x.id == freshId, n, delivered.orders[n]);
    HistoryAfterAppend(created.history, e1, freshId);
  }

  /** Right after a create, the new order is found by its id, is PENDING
      and its history is the single creation entry. */
  lemma CreatedOrderFound(ot: OrderTables, companyId: string, input: CreateOrderInput, freshId: string)
    requires Consistent(ot) && !HasOrder(ot.orders, freshId)
    requires CreateOrderStep(ot, companyId, input, freshId).result.Ok?
    ensures var created := CreateOrderStep(ot, companyId, input, freshId).tables;
      && OrderWithId(created.orders, freshId) == Some(|ot.orders|)
      && created.orders[|ot.orders|].companyId == companyId
      && created.orders[|ot.orders|].currentStatus == Pending
      && HistoryOf(created.history, freshId) == [TrackingEntry(freshId, Pending, Some(CreatedNote))]
  {
    var created := CreateOrderStep(ot, companyId, input, freshId).tables;
    var o := created.orders[|ot.orders|];
    var e0 := TrackingEntry(freshId, Pending, Some(CreatedNote));
    assert created.orders == ot.orders + [o];
    FindFirstAfterAppend(ot.orders, (x: Order) => x.id == freshId, o);
    HistoryAfterAppend(ot.history, e0, freshId);
    NoHistoryYet(ot, freshId);
  }

  /** An id that no order has has no tracking entries. */
  lemma NoHistoryYet(ot: OrderTables, id: string)
    requires HistoryOwned(ot) && !HasOrder(ot.orders, id)
    ensures HistoryOf(ot.history, id) == []
  {
    forall j | 0 <= j < |ot.history|
      ensures ot.history[j].orderId != id
    {
      assert HasOrder(ot.orders, ot.history[j].orderId);
    }
    FilterNone(ot.history, (e: TrackingEntry) => e.orderId == id);
  }

  /** The order store: one object holding both tables, updated in place.
      Each method is one atomic step (the two writes of a create or an
      update happen together). */
  class OrderService {
    var orders: seq<Order>
    var history: seq<TrackingEntry>

    function Tables(): OrderTables
      reads this
    {
      OrderTables(orders, history)
    }

    ghost predicate Valid()
      reads this
    {
      Consistent(Tables())
    }

    constructor ()
      ensures Valid() && orders == [] && history == []
    {
      orders, history := [], [];
    }

    method CreateOrder(companyId: string, input: CreateOrderInput, freshId: string) returns (r: Result<Reply<string>>)
      requires Valid() && !HasOrder(orders, freshId)
      modifies this
      ensures Valid()
      ensures var s := CreateOrderStep(old(Tables()), companyId, input, freshId);
        Tables() == s.tables && r == s.result
    {
      // Brings the step's contract into scope for the invariant proof.
      ghost var expected := CreateOrderStep(Tables(), companyId, input, freshId);
      var existing := OrderWithExternalId(orders, companyId, input.externalOrderId);
      if existing.Some? {
        return Err(DuplicateOrder(input.externalOrderId));
      }
      var itemSummary := StoredItemSummary(input.itemSummary);
      var order := Order(freshId, companyId, input.externalOrderId, input.customerEmail, input.customerPhone,
                         input.deliveryAddress, itemSummary, input.isSubscriptionActive, Pending);
      orders := orders + [order];
      history := history + [TrackingEntry(order.id, Pending, Some(CreatedNote))];
      r := Ok(Reply("Order created successfully", order.id));
    }

    method UpdateStatus(orderId: string, companyId: string, input: UpdateStatusInput) returns (r: Result<StatusOutcome>)
      requires Valid()
      modifies this
      ensures Valid()
      ensures var s := UpdateStatusStep(old(Tables()), orderId, companyId, input);
        Tables() == s.tables && r == s.result
    {
      // Brings the step's contract into scope for the invariant proof.
      ghost var expected := UpdateStatusStep(Tables(), orderId, companyId, input);
      var found := OrderWithId(orders, orderId);
      if found.None? || orders[found.value].companyId != companyId {
        return Err(OrderNotFound);
      }
      var k := found.value;
      if orders[k].currentStatus == input.status {
        return Ok(AlreadyInStatus("Order is already in " + StatusName(input.status) + " status"));
      }
      orders := orders[k := orders[k].(currentStatus := input.status)];
      history := history + [TrackingEntry(orderId, input.status, input.additionalNote)];
      r := Ok(StatusUpdated("Order status updated successfully", orders[k].currentStatus));
    }
  }
}
