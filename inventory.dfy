/** The inventory service: one stock row per product, with add, set, check, look-up and decrease.
    Quantities are Java `int`s, so adding and subtracting wrap around at 32 bits. */
module Inventory {
  import opened Common

  /** A stock row: its generated id, the product it counts, and the quantity on hand. */
  datatype Inventory = Inventory(id: int, productId: int, quantity: Int32)

  datatype StockUpdateRequest = StockUpdateRequest(productId: int, quantity: Int32)

  datatype InventoryResponse = InventoryResponse(id: int, productId: int, quantity: Int32, available: bool)

  /** The inventory repository, keyed by product id: `findByProductId` finds at most one row. */
  type StockTable = map<int, Inventory>

  function ToResponse(row: Inventory): InventoryResponse {
    InventoryResponse(row.id, row.productId, row.quantity, row.quantity > 0)
  }

  function NotFound(productId: int): string {
    "Inventory not found for product: " + IntToString(productId)
  }

  function InsufficientStock(productId: int): string {
    "Insufficient stock for product: " + IntToString(productId)
  }

  /** `getInventoryByProductId`: the product's row, or the not-found exception. The response reports
      stock as available exactly when the quantity is positive. */
  function GetInventoryByProductId(t: StockTable, productId: int): (r: Result<InventoryResponse>)
    ensures r.Ok? <==> productId in t
    ensures r.Ok? ==> r.value == ToResponse(t[productId]) && (r.value.available <==> t[productId].quantity > 0)
    ensures r.Err? ==> r.message == NotFound(productId)
  {
    if productId in t then Ok(ToResponse(t[productId])) else Err(NotFound(productId))
  }

  /** `checkAvailability`: fails only when the product has no row. The required quantity is never
      compared with the stock, so the answer is the plain look-up whatever quantity is asked for. */
  function CheckAvailability(t: StockTable, productId: int, requiredQuantity: Int32): (r: Result<InventoryResponse>)
    ensures r.Err? <==> productId !in t
    ensures r == GetInventoryByProductId(t, productId)
  {
    if productId in t then Ok(ToResponse(t[productId])) else Err(NotFound(productId))
  }

  /** With a non-negative request no larger than the stock, the decrease is exact and leaves a
      non-negative quantity. */
  lemma DecreaseWithinStock(stock: Int32, quantity: Int32)
    requires 0 <= quantity <= stock
    ensures SubInt32(stock, quantity) == stock - quantity >= 0
  {
  }

  /** A negative request passes the stock test and raises the stock; when the raised value exceeds
      the `int` range it wraps around to a negative quantity. */
  lemma NegativeDecreaseRaisesStock(stock: Int32, quantity: Int32)
    requires quantity < 0 && quantity <= stock
    ensures stock - quantity <= MaxInt32 ==> SubInt32(stock, quantity) == stock - quantity > stock
    ensures stock - quantity > MaxInt32 ==> SubInt32(stock, quantity) == stock - quantity - 0x1_0000_0000 < 0
  {
  }

  /** Adding a positive amount is exact unless the sum leaves the `int` range, when it wraps to a
      negative quantity. */
  lemma AddStockArithmetic(stock: Int32, quantity: Int32)
    requires quantity > 0
    ensures stock + quantity <= MaxInt32 ==> AddInt32(stock, quantity) == stock + quantity
    ensures stock + quantity > MaxInt32 ==> AddInt32(stock, quantity) < 0
  {
  }

  class InventoryService {
    var stock: StockTable
    /** The id the repository assigns to the next new row. */
    var nextId: int

    ghost predicate Valid()
      reads this
    {
      && 0 <= nextId
      && (forall p :: p in stock ==> stock[p].productId == p && 0 <= stock[p].id < nextId)
      && (forall p, q :: p in stock && q in stock && p != q ==> stock[p].id != stock[q].id)
    }

    constructor ()
      ensures Valid() && stock == map[] && nextId == 0
    {
      stock, nextId := map[], 0;
    }

    /** `addStock`: creates a row at quantity 0 when the product has none, then adds the requested
        quantity (with `int` wrap-around) to it. No other row changes. */
    method AddStock(request: StockUpdateRequest) returns (r: InventoryResponse)
      requires Valid()
      requires request.quantity > 0
      modifies this
      ensures Valid()
      ensures var p := request.productId;
        var before := if p in old(stock) then old(stock)[p].quantity else 0;
        var id := if p in old(stock) then old(stock)[p].id else old(nextId);
        && stock == old(stock)[p := Inventory(id, p, AddInt32(before, request.quantity))]
        && nextId == (if p in old(stock) then old(nextId) else old(nextId) + 1)
        && r == ToResponse(stock[p])
    {
      var row: Inventory;
      if request.productId in stock {
        row := stock[request.productId];
      } else {
        row := Inventory(nextId, request.productId, 0);
        stock := stock[row.productId := row];
        nextId := nextId + 1;
      }
      row := row.(quantity := AddInt32(row.quantity, request.quantity));
      stock := stock[row.productId := row];
      r := ToResponse(row);
    }

    /** `updateStock`: sets an existing row's quantity to exactly the requested one; a product with
        no row is an error and changes nothing. */
    method UpdateStock(request: StockUpdateRequest) returns (r: Result<InventoryResponse>)
      requires Valid()
      requires request.quantity > 0
      modifies this
      ensures Valid() && nextId == old(nextId)
      ensures var p := request.productId;
        p !in old(stock) ==> r == Err(NotFound(p)) && stock == old(stock)
      ensures var p := request.productId;
        p in old(stock) ==>
          && stock == old(stock)[p := old(stock)[p].(quantity := request.quantity)]
          && r == Ok(ToResponse(stock[p]))
    {
      if request.productId !in stock {
        return Err(NotFound(request.productId));
      }
      var row := stock[request.productId];
      row := row.(quantity := request.quantity);
      stock := stock[row.productId := row];
      r := Ok(ToResponse(row));
    }

    /** `decreaseStock`: a missing row or a stored quantity below the request is an error that changes
        nothing; otherwise the request is subtracted (with `int` wrap-around). The request is not
        required to be positive. No other row changes. */
    method DecreaseStock(productId: int, quantity: Int32) returns (r: Result<InventoryResponse>)
      requires Valid()
      modifies this
      ensures Valid() && nextId == old(nextId)
      ensures productId !in old(stock) ==> r == Err(NotFound(productId)) && stock == old(stock)
      ensures productId in old(stock) && old(stock)[productId].quantity < quantity ==>
        r == Err(InsufficientStock(productId)) && stock == old(stock)
      ensures productId in old(stock) && old(stock)[productId].quantity >= quantity ==>
        var row := old(stock)[productId];
        && stock == old(stock)[productId := row.(quantity := SubInt32(row.quantity, quantity))]
        && r == Ok(ToResponse(stock[productId]))
    {
      if productId !in stock {
        return Err(NotFound(productId));
      }
      var row := stock[productId];
      if row.quantity < quantity {
        return Err(InsufficientStock(productId));
      }
      row := row.(quantity := SubInt32(row.quantity, quantity));
      stock := stock[productId := row];
      r := Ok(ToResponse(row));
    }
  }

  /** A successful decrease followed by adding the same quantity back restores the row exactly. */
  method RestockAfterDecrease(service: InventoryService, productId: int, quantity: Int32)
    requires service.Valid()
    requires quantity > 0
    modifies service
    ensures service.Valid()
    ensures productId in old(service.stock) && old(service.stock)[productId].quantity >= quantity ==>
      service.stock == old(service.stock)
  {
    var decreased := service.DecreaseStock(productId, quantity);
    if decreased.Ok? {
      var added := service.AddStock(StockUpdateRequest(productId, quantity));
      AddUndoesSub(old(service.stock)[productId].quantity, quantity);
    }
  }
}
