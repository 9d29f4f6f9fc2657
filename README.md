# Enterprise microservices platform — verified model of the service core

This project models, in Dafny, the business logic of six services of an e-commerce platform:

- **Order service** — the order-creation saga. It checks availability, saves a PENDING order and
  asks inventory to decrease stock. Then it either confirms the order and publishes an
  `OrderCreatedEvent`, or cancels the order and throws. A circuit-breaker fallback saves a fresh
  PENDING order and publishes its event. Lookups by id, by user and by product complete the service.
- **Inventory service** — one stock row per product, with add, set, check, look-up and decrease.
  Quantities are Java `int`s.
- **Product catalogue** — create, read, update and delete over the product table, plus the
  category filter and the case-insensitive name search.
- **Aggregation service** — a product view merged from the product service (mandatory) and the
  inventory service (best effort, defaulted on failure), behind a breaker whose fallback always throws.
- **Gateway authentication filter** — public-route prefix matching, the `Bearer ` header check,
  token extraction, and forwarding with the token's identity headers.
- **Authentication service** — registration with a unique user name, and the ordered login checks
  (exists, active, password) ending in a token with a fixed lifetime.

Layout: `common.dfy` (results, call outcomes, 32-bit `int` arithmetic, decimal rendering of ids
in messages), `strings.dfy` (prefix test, ASCII lower-casing, substring search), `tables.dfy`
(filtering a keyed table in key order), then one module per service: `orders.dfy`,
`inventory.dfy`, `products.dfy`, `aggregation.dfy`, `gateway.dfy`, `auth.dfy`.

Services that change their repositories are classes. Their tables are `map` fields and the next
generated id is a counter field. Their methods carry `modifies` clauses and state the whole new
state. Read-only operations are functions of the table value. Every Java exception is an
`Err` carrying the exception's exact message. Remote calls, the password encoder and the token
provider are inputs: either the outcome of the call (returns a value, or throws) or an
uninterpreted function.

### Where the code and the intended behaviour differ

The intended behaviour of the order saga is this:
- an unavailable availability check falls back to a PENDING order;
- a failed stock decrease cancels the order and reports a processing failure to the caller;
- only PENDING → CONFIRMED and PENDING → CANCELLED transitions happen;
- a cancelled order never had its stock taken.

The code differs in the points below, and the model follows the code in each case.

- **Order creation under the breaker.** In the code, both failures are exceptions thrown by the body of
  `createOrder`: "Inventory service unavailable" and "Failed to process order". The fallback
  declares an `Exception` parameter, so it catches both. As a result:
  - `Orders.OrderService.CreateOrderGuarded` never reports an error;
  - a failed decrease leaves the CANCELLED order in the table **and** adds a second, PENDING order
    with its event (transaction rollback aside, see "## Left out").
- **Cancelled after stock was taken.** The same handler catches a throw from the confirming save or from the
  publish, which both come after a successful decrease. Such an order is cancelled with its stock
  already taken (`Orders.CancelledAfterStockTaken`).
- **CONFIRMED, then CANCELLED.** When only the publish throws, the order is first saved CONFIRMED
  and then, under the same id, CANCELLED: a transition out of CONFIRMED
  (`Orders.ConfirmedThenCancelled`).
- **A cancelling save that throws.** Its exception escapes the handler in place of "Failed to
  process order". The order keeps its last saved status: PENDING, or CONFIRMED with the stock
  taken and no event (`Orders.CancellingSaveFailureKeepsLastSave`). The fallback still catches
  that exception.
- **The availability check never compares quantities.** `checkAvailability` only looks the row
  up, so "insufficient stock" can only come from `decreaseStock`.
- **Decrease with a non-positive request.** `decreaseStock` has no positivity check. A negative
  request passes the stock test and raises the stock. Because the arithmetic is Java `int`
  arithmetic, the raised value can wrap around to a negative quantity. `addStock` can overflow
  the same way. Both are modelled with explicit 32-bit wrap-around.

## Model

| member | source | states |
|---|---|---|
| Orders.NameIsInjective | enterprise-microservices-platform/order-service/src/main/java/com/edureka/microservices/order/entity/OrderStatus.java:4-8 | distinct statuses have distinct `name()` strings, so a status name identifies the status |
| Orders.ResponseIdentifiesOrder | enterprise-microservices-platform/order-service/src/main/java/com/edureka/microservices/order/service/OrderService.java:122-130 | `toResponse` copies id, userId, productId, quantity and the status name: two orders have equal responses iff they agree on everything but createdAt |
| Orders.EventIdentifiesOrder | enterprise-microservices-platform/order-service/src/main/java/com/edureka/microservices/order/service/OrderService.java:61-68 | the event carries id, userId, productId, quantity, status name and createdAt: equal events iff equal orders |
| Orders.PendingSavedBeforeDecrease | enterprise-microservices-platform/order-service/src/main/java/com/edureka/microservices/order/service/OrderService.java:50-55 | once availability is confirmed, the PENDING order with the request's fields is saved before the single decrease request |
| Orders.CancelledAfterStockTaken | enterprise-microservices-platform/order-service/src/main/java/com/edureka/microservices/order/service/OrderService.java:54-78 | a throw from the confirming save or the publish after a completed decrease ends with the order saved CANCELLED, the decrease made, and no event |
| Orders.InsertKeepsConsistent | enterprise-microservices-platform/order-service/src/main/java/com/edureka/microservices/order/service/OrderService.java:50-51 | saving a new PENDING order under the next id keeps the store invariant: well keyed, only PENDING/CONFIRMED/CANCELLED, every event matching its stored order |
| Orders.RewriteKeepsConsistent | enterprise-microservices-platform/order-service/src/main/java/com/edureka/microservices/order/service/OrderService.java:58-59 | re-saving an unannounced order as CONFIRMED or CANCELLED keeps the store invariant |
| Orders.PublishKeepsConsistent | enterprise-microservices-platform/order-service/src/main/java/com/edureka/microservices/order/service/OrderService.java:69 | publishing the event of a stored, not yet announced order keeps the store invariant |
| Orders.GetOrderById | enterprise-microservices-platform/order-service/src/main/java/com/edureka/microservices/order/service/OrderService.java:99-104 | Ok iff the id is stored, with that order's response; otherwise the error "Order not found with ID: " followed by the id |
| Orders.GetUserOrders | enterprise-microservices-platform/order-service/src/main/java/com/edureka/microservices/order/service/OrderService.java:106-112 | exactly the responses of the orders whose userId matches, each once, in ascending id order |
| Orders.GetProductOrders | enterprise-microservices-platform/order-service/src/main/java/com/edureka/microservices/order/service/OrderService.java:114-120 | exactly the responses of the orders whose productId matches, each once, in ascending id order |
| Orders.FinalStatus | enterprise-microservices-platform/order-service/src/main/java/com/edureka/microservices/order/service/OrderService.java:54-78 | the status the body leaves: CONFIRMED iff decrease and confirming save complete and either the publish completes or the cancelling save throws; CANCELLED iff some later call failed and the cancelling save completes; PENDING iff the decrease or confirming save failed and the cancelling save throws |
| Orders.ConfirmedThenCancelled | enterprise-microservices-platform/order-service/src/main/java/com/edureka/microservices/order/service/OrderService.java:58-76 | when only the publish throws, the same id is saved CONFIRMED and then CANCELLED, and nothing else follows |
| Orders.CancellingSaveFailureKeepsLastSave | enterprise-microservices-platform/order-service/src/main/java/com/edureka/microservices/order/service/OrderService.java:54-78 | when the cancelling save throws, no CANCELLED order is written and no event is published; the order keeps its last saved status, PENDING or CONFIRMED |
| Orders.OrderService.CreateOrder | enterprise-microservices-platform/order-service/src/main/java/com/edureka/microservices/order/service/OrderService.java:39-79 | availability failure: error "Inventory service unavailable", nothing saved or published. Otherwise exactly one new order under a fresh id, left with `FinalStatus`: with one event and its response when decrease, confirming save and publish all complete; else no event and the error "Failed to process order", or the cancelling save's own exception when that save throws. The effects happen in the order the body performs them |
| Orders.OrderService.Process | enterprise-microservices-platform/order-service/src/main/java/com/edureka/microservices/order/service/OrderService.java:54-78 | from the decrease on: the order ends with `FinalStatus` under its id; confirmed with one event and its response, or no event and the failure's message |
| Orders.OrderService.Cancel | enterprise-microservices-platform/order-service/src/main/java/com/edureka/microservices/order/service/OrderService.java:73-78 | the handler: the cancelling save completes, so the order is re-saved CANCELLED and "Failed to process order" is thrown; or it throws, so its exception escapes and nothing changes |
| Orders.OrderService.CreateOrderFallback | enterprise-microservices-platform/order-service/src/main/java/com/edureka/microservices/order/service/OrderService.java:81-97 | exactly one new PENDING order under a fresh id, exactly one event for it with status PENDING, and its response |
| Orders.OrderService.CreateOrderGuarded | enterprise-microservices-platform/order-service/src/main/java/com/edureka/microservices/order/service/OrderService.java:38-97 | breaker open: only the fallback runs. Availability failure: the fallback's PENDING order. Full success: the confirmed order. Any later failure: the order stays with `FinalStatus` (CANCELLED unless the cancelling save threw) and a second PENDING order is added and announced. No error ever reaches the caller |
| Orders.FallbackTwice | enterprise-microservices-platform/order-service/src/main/java/com/edureka/microservices/order/service/OrderService.java:81-97 | two fallback runs create two orders with distinct fresh ids and two events; nothing is deduplicated |
| Inventory.GetInventoryByProductId | enterprise-microservices-platform/inventory-service/src/main/java/com/edureka/microservices/inventory/service/InventoryService.java:66-76 | Ok iff the product has a row, with that row's response, available iff quantity > 0; otherwise "Inventory not found for product: " and the id |
| Inventory.CheckAvailability | enterprise-microservices-platform/inventory-service/src/main/java/com/edureka/microservices/inventory/service/InventoryService.java:54-64 | fails iff the product has no row; the required quantity plays no part, so the answer equals the plain look-up |
| Inventory.DecreaseWithinStock | enterprise-microservices-platform/inventory-service/src/main/java/com/edureka/microservices/inventory/service/InventoryService.java:87-92 | a request in 0..stock decreases the stock exactly and leaves it non-negative |
| Inventory.NegativeDecreaseRaisesStock | enterprise-microservices-platform/inventory-service/src/main/java/com/edureka/microservices/inventory/service/InventoryService.java:87-92 | a negative request passes the stock test and raises the stock, wrapping to a negative quantity beyond the `int` range |
| Inventory.AddStockArithmetic | enterprise-microservices-platform/inventory-service/src/main/java/com/edureka/microservices/inventory/service/InventoryService.java:33 | adding a positive amount is exact within the `int` range and wraps to a negative quantity past it |
| Inventory.InventoryService.AddStock | enterprise-microservices-platform/inventory-service/src/main/java/com/edureka/microservices/inventory/service/InventoryService.java:24-37 | a product without a row gets a new row starting at 0 under a fresh id; the row's quantity grows by exactly the request (32-bit); no other row changes |
| Inventory.InventoryService.UpdateStock | enterprise-microservices-platform/inventory-service/src/main/java/com/edureka/microservices/inventory/service/InventoryService.java:39-52 | missing row: "Inventory not found for product: …" and the table unchanged; otherwise the quantity becomes exactly the request and no other row changes |
| Inventory.InventoryService.DecreaseStock | enterprise-microservices-platform/inventory-service/src/main/java/com/edureka/microservices/inventory/service/InventoryService.java:78-96 | missing row or stored quantity below the request: the matching error and the table unchanged; otherwise quantity becomes old − request (32-bit) and no other row changes |
| Inventory.RestockAfterDecrease | enterprise-microservices-platform/inventory-service/src/main/java/com/edureka/microservices/inventory/service/InventoryService.java:33-34 | a successful decrease followed by adding the same positive quantity restores the table exactly |
| Common.Wrap32 | enterprise-microservices-platform/inventory-service/src/main/java/com/edureka/microservices/inventory/service/InventoryService.java:33 | Java `int` overflow: the identity within range, and the value shifted by 2^32 just outside it |
| Common.AddUndoesSub | enterprise-microservices-platform/inventory-service/src/main/java/com/edureka/microservices/inventory/service/InventoryService.java:92 | adding back what was subtracted restores the `int` value, overflow included |
| Products.GetProductById | enterprise-microservices-platform/product-catalog-service/src/main/java/com/edureka/microservices/product/service/ProductService.java:40-45 | Ok iff the id is stored, returning its fields unchanged; otherwise "Product not found with ID: " and the id |
| Products.GetAllProducts | enterprise-microservices-platform/product-catalog-service/src/main/java/com/edureka/microservices/product/service/ProductService.java:47-53 | every stored product's response, each once, and nothing else |
| Products.GetProductsByCategory | enterprise-microservices-platform/product-catalog-service/src/main/java/com/edureka/microservices/product/service/ProductService.java:55-61 | exactly the products whose category equals the argument |
| Products.SearchProductsByName | enterprise-microservices-platform/product-catalog-service/src/main/java/com/edureka/microservices/product/service/ProductService.java:63-69 | exactly the products whose name contains the argument, ignoring case |
| Products.EmptySearchListsAll | enterprise-microservices-platform/product-catalog-service/src/main/java/com/edureka/microservices/product/service/ProductService.java:63-69 | searching for the empty name lists the whole catalogue, in the same order as the full listing |
| Products.SearchIgnoresCase | enterprise-microservices-platform/product-catalog-service/src/main/java/com/edureka/microservices/product/service/ProductService.java:63-69 | the search result does not depend on the case of the argument |
| Strings.ContainsIgnoreCaseIgnoresCase | enterprise-microservices-platform/product-catalog-service/src/main/java/com/edureka/microservices/product/service/ProductService.java:65 | case-insensitive containment is unchanged by lower-casing the searched-for text |
| Strings.ContainsIffOccurs | enterprise-microservices-platform/product-catalog-service/src/main/java/com/edureka/microservices/product/service/ProductService.java:65 | the computed containment test holds iff the text occurs at some position |
| Products.ProductService.CreateProduct | enterprise-microservices-platform/product-catalog-service/src/main/java/com/edureka/microservices/product/service/ProductService.java:27-38 | a new product with the request's four fields under a fresh id; the table grows by exactly one and the new id looks up to the response |
| Products.ProductService.UpdateProduct | enterprise-microservices-platform/product-catalog-service/src/main/java/com/edureka/microservices/product/service/ProductService.java:71-84 | unknown id: error, nothing changes; otherwise all four fields replaced, id kept, every other product unchanged |
| Products.ProductService.DeleteProduct | enterprise-microservices-platform/product-catalog-service/src/main/java/com/edureka/microservices/product/service/ProductService.java:86-93 | unknown id: error, nothing changes; otherwise exactly that id is removed and then looks up as not found |
| Aggregation.GetAggregatedProduct | enterprise-microservices-platform/aggregation-service/src/main/java/com/edureka/microservices/aggregation/service/AggregationService.java:28-52 | product first; its failure propagates and inventory is never asked. Otherwise the catalogue fields are the product's, and stockAvailable/quantity are inventory's or false/0 after a failure |
| Aggregation.InventoryFailureIsDefault | enterprise-microservices-platform/aggregation-service/src/main/java/com/edureka/microservices/aggregation/service/AggregationService.java:35-41 | a failed inventory call reads exactly like the answer (null, productId, 0, false) |
| Aggregation.InventoryNeverDecidesSuccess | enterprise-microservices-platform/aggregation-service/src/main/java/com/edureka/microservices/aggregation/service/AggregationService.java:35-41 | the inventory outcome never decides success nor the catalogue fields |
| Aggregation.GetAggregatedProductGuarded | enterprise-microservices-platform/aggregation-service/src/main/java/com/edureka/microservices/aggregation/service/AggregationService.java:27-57 | succeeds iff the breaker is closed and the product call returns; every failure is "Product service is unavailable"; an open breaker calls nothing |
| Gateway.PublicRoutesSpelledOut | enterprise-microservices-platform/api-gateway/src/main/java/com/edureka/microservices/gateway/security/JwtAuthenticationFilter.java:23-27 | a path is public iff it starts with /auth/register, /auth/login or /actuator/health |
| Gateway.PublicRouteExtended | enterprise-microservices-platform/api-gateway/src/main/java/com/edureka/microservices/gateway/security/JwtAuthenticationFilter.java:67-69 | the public-route test is on prefixes: anything below a public path is public |
| Gateway.PublicRouteExamples | enterprise-microservices-platform/api-gateway/src/main/java/com/edureka/microservices/gateway/security/JwtAuthenticationFilter.java:67-69 | "/auth/login/x" is public; "/api/orders" is not |
| Gateway.ExtractTokenRoundTrip | enterprise-microservices-platform/api-gateway/src/main/java/com/edureka/microservices/gateway/security/JwtAuthenticationFilter.java:49 | dropping seven characters from "Bearer " + t gives t, and a bearer header is the prefix followed by its token |
| Gateway.Filter | enterprise-microservices-platform/api-gateway/src/main/java/com/edureka/microservices/gateway/security/JwtAuthenticationFilter.java:34-65 | public path: forwarded unchanged. Otherwise forwarded iff the first Authorization value starts with "Bearer " and its token validates, else 401; a forwarded request has X-User-Name and X-User-Role set to the token's claims |
| Gateway.ForwardedIdentityComesFromToken | enterprise-microservices-platform/api-gateway/src/main/java/com/edureka/microservices/gateway/security/JwtAuthenticationFilter.java:56-64 | the identity headers of a forwarded request are the token's claims, whatever the caller sent |
| Auth.Login | enterprise-microservices-platform/auth-service/src/main/java/com/edureka/microservices/auth/service/AuthService.java:48-74 | unknown user: "Invalid credentials"; inactive: "User account is inactive"; wrong password: "Invalid credentials"; success iff all three pass, with the token, stored user name, role name and 86400000 |
| Auth.InactiveCheckedBeforePassword | enterprise-microservices-platform/auth-service/src/main/java/com/edureka/microservices/auth/service/AuthService.java:55-63 | an inactive account gets "User account is inactive" whatever the password |
| Auth.UnknownUserLooksLikeWrongPassword | enterprise-microservices-platform/auth-service/src/main/java/com/edureka/microservices/auth/service/AuthService.java:49-63 | an unknown user and a wrong password get the same answer |
| Auth.LoginAfterRegister | enterprise-microservices-platform/auth-service/src/main/java/com/edureka/microservices/auth/service/AuthService.java:32-74 | right after registering, login succeeds iff the encoder matches the password against the stored encoding, as the new user with role USER |
| Auth.AuthService.Register | enterprise-microservices-platform/auth-service/src/main/java/com/edureka/microservices/auth/service/AuthService.java:32-46 | taken name: "Username already exists" and nothing saved; otherwise exactly one new user with the encoded password, role USER |

## Left out

- The circuit breaker's own state machine (failure-rate windows, OPEN/HALF_OPEN timing) is library code. Whether it is open is the input `breakerOpen`.
- `@Transactional` rollback is framework behaviour. Saves are the sequential writes the code performs. When the body of `createOrder` throws, the running service may roll its writes back before the fallback runs; the model keeps them.
- HTTP controllers, Feign clients and the Kafka producer and consumer are transport. A remote call is its outcome (returns or throws), and publishing appends to the `published` sequence.
- Logging and notification formatting have no effect on state.
- The password encoder, the JWT token provider and its claims are uninterpreted functions passed in.
- Spring Data derived queries are specified by what their names say (equality, case-insensitive containment). Listing order is not specified by the repository; the model lists by ascending id.
- Orders.OrderService.CreateOrder: the first PENDING save (OrderService.java:51) is assumed to succeed, and so are the fallback's own save and publish (OrderService.java:84, 94). A throw from them would reach the caller and is not modelled. The confirming save, the publish and the cancelling save are modelled with both outcomes.
- Orders.OrderService.CreateOrderGuarded: the exception cause passed to the fallback is a label only; the fallback ignores it.
- createdAt is an opaque timestamp passed in as `now`; the body and a fallback in the same call share it.
- `BigDecimal` prices are opaque integers; nothing computes with them.
- Case folding is ASCII only; Unicode case mapping is not modelled.
- Header names in the gateway are compared exactly; HTTP's case-insensitive header names are not modelled.
- Java `null` fields and requests are not modelled, except the inventory id that the aggregation default leaves null, which is an `Option`.
- The `User` entity is not part of this model. A newly registered user is taken to be active.
- Auth.Login is a function of the user table, so it cannot modify it.
- Concurrency, such as two orders racing for the same stock row, is not modelled.
