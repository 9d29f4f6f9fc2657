/** The aggregation service: a product view merged from the product service (mandatory) and the
    inventory service (best effort, replaced by a default when its call throws), behind a circuit
    breaker whose fallback always throws. The two remote calls are given as their outcomes. */
module Aggregation {
  import opened Common

  type Price = int

  datatype ProductResponse = ProductResponse(id: int, name: string, description: string, price: Price, category: string)

  /** The inventory service's answer as this service reads it; the id may be null. */
  datatype InventoryResponse = InventoryResponse(id: Option<int>, productId: int, quantity: Int32, available: bool)

  datatype AggregatedProductResponse = AggregatedProductResponse(
    id: int, name: string, description: string, price: Price, category: string,
    stockAvailable: bool, quantity: Int32)

  /** The services a run calls. */
  datatype Dependency = ProductService | InventoryService

  /** What a run yields, and the services it called, in order. */
  datatype Run = Run(result: Result<AggregatedProductResponse>, called: seq<Dependency>)

  const Unavailable: string := "Product service is unavailable"

  /** The stand-in for an inventory answer that could not be had. */
  function DefaultInventory(productId: int): InventoryResponse {
    InventoryResponse(None, productId, 0, false)
  }

  function Merge(product: ProductResponse, inventory: InventoryResponse): AggregatedProductResponse {
    AggregatedProductResponse(product.id, product.name, product.description, product.price, product.category,
                              inventory.available, inventory.quantity)
  }

  /** The body of `getAggregatedProduct`. The product call comes first and its exception propagates
      before inventory is asked; an inventory exception is absorbed into the default answer. */
  function GetAggregatedProduct(productId: int, product: Call<ProductResponse>, inventory: Call<InventoryResponse>): (run: Run)
    ensures product.Throws? ==> run == Run(Err(product.message), [ProductService])
    ensures product.Returns? ==> run.called == [ProductService, InventoryService] && run.result.Ok?
    ensures product.Returns? ==>
      var p := product.value;
      var a := run.result.value;
      && (a.id, a.name, a.description, a.price, a.category) == (p.id, p.name, p.description, p.price, p.category)
      && a.stockAvailable == (inventory.Returns? && inventory.value.available)
      && a.quantity == (if inventory.Returns? then inventory.value.quantity else 0)
  {
    match product
    case Throws(message) => Run(Err(message), [ProductService])
    case Returns(p) =>
      var stock := match inventory
        case Returns(i) => i
        case Throws(_) => DefaultInventory(productId);
      Run(Ok(Merge(p, stock)), [ProductService, InventoryService])
  }

  /** A failed inventory call reads exactly like an inventory answer of 0 units, unavailable. */
  lemma InventoryFailureIsDefault(productId: int, product: Call<ProductResponse>, message: string)
    ensures GetAggregatedProduct(productId, product, Throws(message)) ==
            GetAggregatedProduct(productId, product, Returns(DefaultInventory(productId)))
  {
  }

  /** The inventory outcome never decides whether the aggregation succeeds, nor the catalogue fields. */
  lemma InventoryNeverDecidesSuccess(productId: int, product: Call<ProductResponse>, a: Call<InventoryResponse>, b: Call<InventoryResponse>)
    ensures GetAggregatedProduct(productId, product, a).result.Ok? == GetAggregatedProduct(productId, product, b).result.Ok?
    ensures GetAggregatedProduct(productId, product, a).result.Ok? ==>
      var x := GetAggregatedProduct(productId, product, a).result.value;
      var y := GetAggregatedProduct(productId, product, b).result.value;
      x.(stockAvailable := y.stockAvailable, quantity := y.quantity) == y
  {
  }

  /** `getAggregatedProductFallback`: always throws. */
  function GetAggregatedProductFallback(productId: int, cause: string): Result<AggregatedProductResponse> {
    Err(Unavailable)
  }

  /** `getAggregatedProduct` as the circuit breaker runs it: an open breaker goes straight to the
      fallback without calling anything; otherwise the body runs and any exception it lets out (only
      the product call's can) is replaced by the fallback's. */
  function GetAggregatedProductGuarded(breakerOpen: bool, productId: int, product: Call<ProductResponse>,
                                       inventory: Call<InventoryResponse>): (run: Run)
    ensures run.result.Ok? <==> !breakerOpen && product.Returns?
    ensures run.result.Err? ==> run.result.message == Unavailable
    ensures breakerOpen ==> run.called == []
    ensures !breakerOpen ==> run.called == GetAggregatedProduct(productId, product, inventory).called
    ensures run.result.Ok? ==> run.result == GetAggregatedProduct(productId, product, inventory).result
  {
    if breakerOpen then
      Run(GetAggregatedProductFallback(productId, "CallNotPermittedException"), [])
    else
      var body := GetAggregatedProduct(productId, product, inventory);
      match body.result
      case Ok(_) => body
      case Err(message) => Run(GetAggregatedProductFallback(productId, message), body.called)
  }
}
