/** The order service: the order-creation workflow (availability check, PENDING save, stock
    decrease, then CONFIRMED + event or CANCELLED + exception), its circuit-breaker fallback, the
    composition of the two that the breaker annotation performs, and the read-only lookups.

    The inventory calls, the confirming save, the event publish and the cancelling save are
    outcomes given as inputs; the breaker's own state is the input `breakerOpen`; `createdAt` is the opaque `now`. */
module Orders {
  import opened Common
  import Tables

  datatype OrderStatus = PENDING | CONFIRMED | SHIPPED | DELIVERED | CANCELLED {
    /** The Java enum constant's `name()`. */
    function Name(): string {
      match this
      case PENDING => "PENDING"
      case CONFIRMED => "CONFIRMED"
      case SHIPPED => "SHIPPED"
      case DELIVERED => "DELIVERED"
      case CANCELLED => "CANCELLED"
    }
  }

  /** Distinct statuses have distinct names, so a status name in a response or an event
      identifies the status. */
  lemma NameIsInjective(a: OrderStatus, b: OrderStatus)
    ensures a.Name() == b.Name() <==> a == b
  {
    if a != b {
      assert a.Name()[0] != b.Name()[0] || a.Name()[1] != b.Name()[1];
    }
  }

  /** An opaque creation time, assigned when an order is first saved. */
  type Timestamp = int

  datatype CreateOrderRequest = CreateOrderRequest(userId: int, productId: int, quantity: Int32)

  datatype Order = Order(id: int, userId: int, productId: int, quantity: Int32, status: OrderStatus, createdAt: Timestamp)

  datatype OrderResponse = OrderResponse(id: int, userId: int, productId: int, quantity: Int32, status: string)

  datatype OrderCreatedEvent = OrderCreatedEvent(
    orderId: int, userId: int, productId: int, quantity: Int32, status: string, createdAt: Timestamp)

  /** How the calls that `createOrder` makes turn out: the two inventory-service calls, the save that
      confirms the order, the publish of its event and the save that cancels it. */
  datatype Downstream = Downstream(availability: Step, decrease: Step, confirmingSave: Step, publish: Step,
                                   cancellingSave: Step)

  /** An effect of the service, recorded in the order in which it happens. A save that throws
      writes nothing and is not recorded; a remote call is recorded whether or not it throws. */
  datatype Action =
    | CheckAvailability(productId: int, quantity: Int32)
    | Save(order: Order)
    | DecreaseStock(productId: int, quantity: Int32)
    | Publish(event: OrderCreatedEvent)

  type OrderTable = map<int, Order>

  function ToResponse(o: Order): OrderResponse {
    OrderResponse(o.id, o.userId, o.productId, o.quantity, o.status.Name())
  }

  function EventOf(o: Order): OrderCreatedEvent {
    OrderCreatedEvent(o.id, o.userId, o.productId, o.quantity, o.status.Name(), o.createdAt)
  }

  /** A response determines everything about its order except the creation time. */
  lemma ResponseIdentifiesOrder(a: Order, b: Order)
    ensures ToResponse(a) == ToResponse(b) <==> a == b.(createdAt := a.createdAt)
  {
    NameIsInjective(a.status, b.status);
  }

  /** An event determines its order completely. */
  lemma EventIdentifiesOrder(a: Order, b: Order)
    ensures EventOf(a) == EventOf(b) <==> a == b
  {
    NameIsInjective(a.status, b.status);
  }

  /** The order `createOrder` and its fallback build from a request, with the id the save assigns. */
  function Placed(id: int, request: CreateOrderRequest, status: OrderStatus, now: Timestamp): Order {
    Order(id, request.userId, request.productId, request.quantity, status, now)
  }

  /** Every call after the stock decrease completed: the order is confirmed and its event is out. */
  predicate Confirms(calls: Downstream) {
    calls.decrease.Completes? && calls.confirmingSave.Completes? && calls.publish.Completes?
  }

  /** The status the body leaves its order in once availability is confirmed: CONFIRMED when every
      later call completes; otherwise CANCELLED, unless the cancelling save throws as well, which
      leaves the order as it was last saved. */
  function FinalStatus(calls: Downstream): (s: OrderStatus)
    ensures s == CONFIRMED <==>
      calls.decrease.Completes? && calls.confirmingSave.Completes? &&
      (calls.publish.Completes? || calls.cancellingSave.Fails?)
    ensures s == CANCELLED <==> !Confirms(calls) && calls.cancellingSave.Completes?
    ensures s == PENDING <==> (calls.decrease.Fails? || calls.confirmingSave.Fails?) && calls.cancellingSave.Fails?
  {
    if Confirms(calls) then CONFIRMED
    else if calls.cancellingSave.Completes? then CANCELLED
    else if calls.decrease.Completes? && calls.confirmingSave.Completes? then CONFIRMED
    else PENDING
  }

  /** The exception a body that got past the availability check and then failed lets out: its own,
      unless the cancelling save throws first from inside the handler. */
  function FailureMessage(calls: Downstream): string {
    if calls.cancellingSave.Fails? then calls.cancellingSave.message else "Failed to process order"
  }

  /** The effects of the body of `createOrder` for the order that receives id `id`. */
  ghost function BodyActions(request: CreateOrderRequest, calls: Downstream, id: int, now: Timestamp): seq<Action> {
    var check := [CheckAvailability(request.productId, request.quantity)];
    var pending := Placed(id, request, PENDING, now);
    if calls.availability.Fails? then check
    else check + [Save(pending)] + ProcessActions(request, calls, id, now)
  }

  /** The effects of the body from the stock decrease on. */
  ghost function ProcessActions(request: CreateOrderRequest, calls: Downstream, id: int, now: Timestamp): seq<Action> {
    var confirmed := Placed(id, request, CONFIRMED, now);
    var cancelled := Placed(id, request, CANCELLED, now);
    [DecreaseStock(request.productId, request.quantity)] +
    (if calls.decrease.Fails? || calls.confirmingSave.Fails? then [] else [Save(confirmed)]) +
    (if Confirms(calls) then [Publish(EventOf(confirmed))]
     else if calls.cancellingSave.Completes? then [Save(cancelled)]
     else [])
  }

  /** The effects of the fallback for the order that receives id `id`. */
  ghost function FallbackActions(request: CreateOrderRequest, id: int, now: Timestamp): seq<Action> {
    var pending := Placed(id, request, PENDING, now);
    [Save(pending), Publish(EventOf(pending))]
  }

  /** Once availability is confirmed, the PENDING order is saved before the stock decrease is
      requested, and the decrease is requested exactly once. */
  lemma PendingSavedBeforeDecrease(request: CreateOrderRequest, calls: Downstream, id: int, now: Timestamp)
    requires calls.availability.Completes?
    ensures var actions := BodyActions(request, calls, id, now);
      && actions[1] == Save(Placed(id, request, PENDING, now))
      && actions[2] == DecreaseStock(request.productId, request.quantity)
      && forall i :: 0 <= i < |actions| && actions[i].DecreaseStock? ==> i == 2
  {
  }

  /** When the confirming save or the publish throws after a completed decrease, the order is
      overwritten as CANCELLED although its stock was taken, and no event announces it. */
  lemma CancelledAfterStockTaken(request: CreateOrderRequest, calls: Downstream, id: int, now: Timestamp)
    requires calls.availability.Completes? && calls.decrease.Completes?
    requires calls.confirmingSave.Fails? || calls.publish.Fails?
    requires calls.cancellingSave.Completes?
    ensures var actions := BodyActions(request, calls, id, now);
      && DecreaseStock(request.productId, request.quantity) in actions
      && actions[|actions| - 1] == Save(Placed(id, request, CANCELLED, now))
      && forall i :: 0 <= i < |actions| ==> !actions[i].Publish?
  {
  }

  /** When only the publish throws, the order leaves CONFIRMED: it is saved CONFIRMED and then, under
      the same id, CANCELLED. */
  lemma ConfirmedThenCancelled(request: CreateOrderRequest, calls: Downstream, id: int, now: Timestamp)
    requires calls.availability.Completes? && calls.decrease.Completes? && calls.confirmingSave.Completes?
    requires calls.publish.Fails? && calls.cancellingSave.Completes?
    ensures var actions := BodyActions(request, calls, id, now);
      && |actions| == 5
      && actions[3] == Save(Placed(id, request, CONFIRMED, now))
      && actions[4] == Save(Placed(id, request, CANCELLED, now))
  {
  }

  /** When the cancelling save throws, no CANCELLED order is ever written and no event is published:
      the order keeps the status of its last successful save, PENDING or CONFIRMED. */
  lemma CancellingSaveFailureKeepsLastSave(request: CreateOrderRequest, calls: Downstream, id: int, now: Timestamp)
    requires calls.availability.Completes? && !Confirms(calls) && calls.cancellingSave.Fails?
    ensures var actions := BodyActions(request, calls, id, now);
      && FinalStatus(calls) != CANCELLED
      && Save(Placed(id, request, FinalStatus(calls), now)) in actions
      && Save(Placed(id, request, CANCELLED, now)) !in actions
      && forall i :: 0 <= i < |actions| ==> !actions[i].Publish?
  {
  }

  /** Keys are ids drawn from a counter now at `nextId`, and each order is stored under its own id. */
  ghost predicate WellKeyed(t: OrderTable, nextId: int) {
    Tables.KeysBelow(t, nextId) && forall id :: id in t ==> t[id].id == id
  }

  /** The service only ever writes PENDING, CONFIRMED and CANCELLED. */
  ghost predicate ReachedStatuses(t: OrderTable) {
    forall id :: id in t ==> t[id].status == PENDING || t[id].status == CONFIRMED || t[id].status == CANCELLED
  }

  /** Every published event describes a stored order exactly as it is stored, and no order has two. */
  ghost predicate EventsDescribeStore(t: OrderTable, events: seq<OrderCreatedEvent>) {
    && (forall i :: 0 <= i < |events| ==> events[i].orderId in t && events[i] == EventOf(t[events[i].orderId]))
    && (forall i, j :: 0 <= i < j < |events| ==> events[i].orderId != events[j].orderId)
  }

  /** The invariant of the order service's state. */
  ghost predicate Consistent(t: OrderTable, nextId: int, events: seq<OrderCreatedEvent>) {
    0 <= nextId && WellKeyed(t, nextId) && ReachedStatuses(t) && EventsDescribeStore(t, events)
  }

  /** No published event names an id the counter has not handed out yet. */
  lemma NoEventForFreshId(t: OrderTable, nextId: int, events: seq<OrderCreatedEvent>)
    requires Consistent(t, nextId, events)
    ensures forall i :: 0 <= i < |events| ==> events[i].orderId != nextId
  {
  }

  /** Inserting an order under the next id, before any event describes it, keeps the invariant. */
  lemma InsertKeepsConsistent(t: OrderTable, nextId: int, events: seq<OrderCreatedEvent>, o: Order)
    requires Consistent(t, nextId, events)
    requires o.id == nextId && o.status == PENDING
    ensures Consistent(t[o.id := o], nextId + 1, events)
    ensures forall i :: 0 <= i < |events| ==> events[i].orderId != o.id
  {
    NoEventForFreshId(t, nextId, events);
  }

  /** Rewriting a stored order that no event describes yet keeps the invariant. */
  lemma RewriteKeepsConsistent(t: OrderTable, nextId: int, events: seq<OrderCreatedEvent>, o: Order)
    requires Consistent(t, nextId, events)
    requires o.id in t && (o.status == CONFIRMED || o.status == CANCELLED)
    requires forall i :: 0 <= i < |events| ==> events[i].orderId != o.id
    ensures Consistent(t[o.id := o], nextId, events)
  {
  }

  /** Publishing the event of a stored order that has none yet keeps the invariant. */
  lemma PublishKeepsConsistent(t: OrderTable, nextId: int, events: seq<OrderCreatedEvent>, o: Order)
    requires Consistent(t, nextId, events)
    requires o.id in t && t[o.id] == o
    requires forall i :: 0 <= i < |events| ==> events[i].orderId != o.id
    ensures Consistent(t, nextId, events + [EventOf(o)])
  {
  }

  /** `getOrderById`: the stored order's response, or the not-found exception. */
  function GetOrderById(t: OrderTable, id: int): (r: Result<OrderResponse>)
    ensures r.Ok? <==> id in t
    ensures r.Ok? ==> r.value == ToResponse(t[id])
    ensures r.Err? ==> r.message == "Order not found with ID: " + IntToString(id)
  {
    if id in t then Ok(ToResponse(t[id])) else Err("Order not found with ID: " + IntToString(id))
  }

  /** The responses of the orders of table `t` that `keep` accepts, by ascending id. */
  function OrdersWhere(t: OrderTable, nextId: int, keep: Order -> bool): (r: seq<OrderResponse>)
    requires WellKeyed(t, nextId)
    ensures forall o :: o in r <==> exists id :: id in t && keep(t[id]) && o == ToResponse(t[id])
    ensures forall i, j :: 0 <= i < j < |r| ==> r[i].id < r[j].id
  {
    Tables.QueryInKeyOrder(t, nextId, keep, ToResponse);
    Tables.Query(t, nextId, keep, ToResponse)
  }

  /** `getUserOrders`: exactly the orders placed by `userId`, each once. */
  function GetUserOrders(t: OrderTable, nextId: int, userId: int): (r: seq<OrderResponse>)
    requires WellKeyed(t, nextId)
    ensures forall o :: o in r <==> exists id :: id in t && t[id].userId == userId && o == ToResponse(t[id])
    ensures forall i, j :: 0 <= i < j < |r| ==> r[i].id < r[j].id
  {
    OrdersWhere(t, nextId, (o: Order) => o.userId == userId)
  }

  /** `getProductOrders`: exactly the orders for `productId`, each once. */
  function GetProductOrders(t: OrderTable, nextId: int, productId: int): (r: seq<OrderResponse>)
    requires WellKeyed(t, nextId)
    ensures forall o :: o in r <==> exists id :: id in t && t[id].productId == productId && o == ToResponse(t[id])
    ensures forall i, j :: 0 <= i < j < |r| ==> r[i].id < r[j].id
  {
    OrdersWhere(t, nextId, (o: Order) => o.productId == productId)
  }

  class OrderService {
    /** The order repository. */
    var orders: OrderTable
    /** The id the repository assigns to the next new order. */
    var nextId: int
    /** The events sent to the order-events topic. */
    var published: seq<OrderCreatedEvent>
    /** Every effect so far, in order. */
    ghost var trace: seq<Action>

    ghost predicate Valid()
      reads this
    {
      Consistent(orders, nextId, published)
    }

    constructor ()
      ensures Valid()
      ensures orders == map[] && nextId == 0 && published == [] && trace == []
    {
      orders, nextId, published, trace := map[], 0, [], [];
    }

    /** The body of `createOrder`, as it runs when the breaker lets the call through. */
    method CreateOrder(request: CreateOrderRequest, calls: Downstream, now: Timestamp) returns (r: Result<OrderResponse>)
      requires Valid()
      requires request.quantity > 0
      modifies this
      ensures Valid()
      ensures trace == old(trace) + BodyActions(request, calls, old(nextId), now)
      ensures calls.availability.Fails? ==>
        && r == Err("Inventory service unavailable")
        && orders == old(orders) && nextId == old(nextId) && published == old(published)
      ensures calls.availability.Completes? ==>
        var id := old(nextId);
        var final := Placed(id, request, FinalStatus(calls), now);
        && id !in old(orders)
        && orders == old(orders)[id := final] && nextId == id + 1
        && (Confirms(calls) ==> r == Ok(ToResponse(final)) && published == old(published) + [EventOf(final)])
        && (!Confirms(calls) ==> r == Err(FailureMessage(calls)) && published == old(published))
    {
      trace := trace + [CheckAvailability(request.productId, request.quantity)];
      if calls.availability.Fails? {
        return Err("Inventory service unavailable");
      }

      var order := Placed(nextId, request, PENDING, now);
      InsertKeepsConsistent(orders, nextId, published, order);
      orders := orders[order.id := order];
      nextId := nextId + 1;
      trace := trace + [Save(order)];

      r := Process(request, order, calls);
    }

    /** The body of `createOrder` from the stock decrease on, for the PENDING order just saved: the
        decrease, then the confirming save and the publish, or the exception handler. */
    method Process(request: CreateOrderRequest, order: Order, calls: Downstream) returns (r: Result<OrderResponse>)
      requires Valid()
      requires order == Placed(order.id, request, PENDING, order.createdAt)
      requires order.id in orders && orders[order.id] == order
      requires forall i :: 0 <= i < |published| ==> published[i].orderId != order.id
      modifies this
      ensures Valid() && nextId == old(nextId)
      ensures trace == old(trace) + ProcessActions(request, calls, order.id, order.createdAt)
      ensures var final := order.(status := FinalStatus(calls));
        && orders == old(orders)[order.id := final]
        && (Confirms(calls) ==> r == Ok(ToResponse(final)) && published == old(published) + [EventOf(final)])
        && (!Confirms(calls) ==> r == Err(FailureMessage(calls)) && published == old(published))
    {
      var confirmed := order.(status := CONFIRMED);
      trace := trace + [DecreaseStock(request.productId, request.quantity)];
      if calls.decrease.Completes? && calls.confirmingSave.Completes? {
        RewriteKeepsConsistent(orders, nextId, published, confirmed);
        orders := orders[order.id := confirmed];
        trace := trace + [Save(confirmed)];
        if calls.publish.Completes? {
          var event := EventOf(confirmed);
          PublishKeepsConsistent(orders, nextId, published, confirmed);
          published := published + [event];
          trace := trace + [Publish(event)];
          return Ok(ToResponse(confirmed));
        }
      }
      r := Cancel(order, calls.cancellingSave);
    }

    /** The exception handler of the body of `createOrder`: the order is saved CANCELLED and the
        processing failure is thrown; when that save throws, its exception escapes instead and the
        order stays as it was last saved. */
    method Cancel(order: Order, cancellingSave: Step) returns (r: Result<OrderResponse>)
      requires Valid()
      requires order.id in orders
      requires forall i :: 0 <= i < |published| ==> published[i].orderId != order.id
      modifies this
      ensures Valid() && nextId == old(nextId) && published == old(published)
      ensures cancellingSave.Fails? ==>
        r == Err(cancellingSave.message) && orders == old(orders) && trace == old(trace)
      ensures cancellingSave.Completes? ==>
        var cancelled := order.(status := CANCELLED);
        && r == Err("Failed to process order")
        && orders == old(orders)[order.id := cancelled]
        && trace == old(trace) + [Save(cancelled)]
    {
      if cancellingSave.Fails? {
        return Err(cancellingSave.message);
      }
      var cancelled := order.(status := CANCELLED);
      RewriteKeepsConsistent(orders, nextId, published, cancelled);
      orders := orders[cancelled.id := cancelled];
      trace := trace + [Save(cancelled)];
      return Err("Failed to process order");
    }

    /** `createOrderFallback`: a fresh PENDING order, saved and announced, whatever the exception was. */
    method CreateOrderFallback(request: CreateOrderRequest, cause: string, now: Timestamp) returns (r: OrderResponse)
      requires Valid()
      modifies this
      ensures Valid()
      ensures var pending := Placed(old(nextId), request, PENDING, now);
        && old(nextId) !in old(orders)
        && orders == old(orders)[pending.id := pending] && nextId == old(nextId) + 1
        && published == old(published) + [EventOf(pending)]
        && trace == old(trace) + FallbackActions(request, old(nextId), now)
        && r == ToResponse(pending)
    {
      var order := Placed(nextId, request, PENDING, now);
      InsertKeepsConsistent(orders, nextId, published, order);
      orders := orders[order.id := order];
      nextId := nextId + 1;
      trace := trace + [Save(order)];
      var event := EventOf(order);
      PublishKeepsConsistent(orders, nextId, published, order);
      published := published + [event];
      trace := trace + [Publish(event)];
      return ToResponse(order);
    }

    /** `createOrder` as the circuit breaker runs it: an open breaker runs only the fallback; otherwise
        the body runs, and if it throws (either of its two exceptions) the fallback runs after it,
        with the body's writes left in place. */
    method CreateOrderGuarded(request: CreateOrderRequest, breakerOpen: bool, calls: Downstream, now: Timestamp)
      returns (r: OrderResponse)
      requires Valid()
      requires request.quantity > 0
      modifies this
      ensures Valid()
      ensures var id := old(nextId);
        var pending := Placed(id, request, PENDING, now);
        breakerOpen ==>
          && orders == old(orders)[id := pending] && nextId == id + 1
          && published == old(published) + [EventOf(pending)]
          && trace == old(trace) + FallbackActions(request, id, now)
          && r == ToResponse(pending)
      ensures var id := old(nextId);
        var pending := Placed(id, request, PENDING, now);
        !breakerOpen && calls.availability.Fails? ==>
          && orders == old(orders)[id := pending] && nextId == id + 1
          && published == old(published) + [EventOf(pending)]
          && trace == old(trace) + BodyActions(request, calls, id, now) + FallbackActions(request, id, now)
          && r == ToResponse(pending)
      ensures var id := old(nextId);
        var confirmed := Placed(id, request, CONFIRMED, now);
        !breakerOpen && calls.availability.Completes? && Confirms(calls) ==>
          && orders == old(orders)[id := confirmed] && nextId == id + 1
          && published == old(published) + [EventOf(confirmed)]
          && trace == old(trace) + BodyActions(request, calls, id, now)
          && r == ToResponse(confirmed)
      ensures var id := old(nextId);
        var left := Placed(id, request, FinalStatus(calls), now);
        var pending := Placed(id + 1, request, PENDING, now);
        !breakerOpen && calls.availability.Completes? && !Confirms(calls) ==>
          && orders == old(orders)[id := left][id + 1 := pending] && nextId == id + 2
          && published == old(published) + [EventOf(pending)]
          && trace == old(trace) + BodyActions(request, calls, id, now) + FallbackActions(request, id + 1, now)
          && r == ToResponse(pending)
    {
      if breakerOpen {
        r := CreateOrderFallback(request, "CallNotPermittedException", now);
        return;
      }
      var body := CreateOrder(request, calls, now);
      match body
      case Ok(response) =>
        r := response;
      case Err(message) =>
        r := CreateOrderFallback(request, message, now);
    }
  }

  /** Two fallback runs for the same request store two orders under distinct ids and publish two
      events: nothing deduplicates them. */
  method FallbackTwice(service: OrderService, request: CreateOrderRequest, now: Timestamp)
    returns (first: OrderResponse, second: OrderResponse)
    requires service.Valid()
    modifies service
    ensures service.Valid()
    ensures first.id != second.id
    ensures first.id in service.orders && second.id in service.orders
    ensures first.id !in old(service.orders) && second.id !in old(service.orders)
    ensures |service.orders| == |old(service.orders)| + 2
    ensures |service.published| == |old(service.published)| + 2
  {
    first := service.CreateOrderFallback(request, "first", now);
    second := service.CreateOrderFallback(request, "second", now);
  }
}
