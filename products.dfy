/** The product catalogue: create, read, update and delete over the product table, plus the
    listing, the category filter and the case-insensitive name search. Prices are opaque. */
module Products {
  import opened Common
  import Tables
  import Strings

  /** A `BigDecimal` price; the service never computes with it. */
  type Price = int

  datatype Product = Product(id: int, name: string, description: string, price: Price, category: string)

  datatype CreateProductRequest = CreateProductRequest(name: string, description: string, price: Price, category: string)

  datatype ProductResponse = ProductResponse(id: int, name: string, description: string, price: Price, category: string)

  type ProductTable = map<int, Product>

  function ToResponse(p: Product): ProductResponse {
    ProductResponse(p.id, p.name, p.description, p.price, p.category)
  }

  function NotFound(id: int): string {
    "Product not found with ID: " + IntToString(id)
  }

  /** Keys are ids drawn from a counter now at `nextId`, and each product is stored under its own id. */
  ghost predicate WellKeyed(t: ProductTable, nextId: int) {
    0 <= nextId && Tables.KeysBelow(t, nextId) && forall id :: id in t ==> t[id].id == id
  }

  /** `getProductById`: the stored fields unchanged, or the not-found exception. */
  function GetProductById(t: ProductTable, id: int): (r: Result<ProductResponse>)
    ensures r.Ok? <==> id in t
    ensures r.Ok? ==> r.value == ToResponse(t[id])
    ensures r.Err? ==> r.message == NotFound(id)
  {
    if id in t then Ok(ToResponse(t[id])) else Err(NotFound(id))
  }

  /** The responses of the products that `keep` accepts, by ascending id. */
  function ProductsWhere(t: ProductTable, nextId: int, keep: Product -> bool): (r: seq<ProductResponse>)
    requires WellKeyed(t, nextId)
    ensures forall x :: x in r <==> exists id :: id in t && keep(t[id]) && x == ToResponse(t[id])
    ensures forall i, j :: 0 <= i < j < |r| ==> r[i].id < r[j].id
  {
    Tables.QueryInKeyOrder(t, nextId, keep, ToResponse);
    Tables.Query(t, nextId, keep, ToResponse)
  }

  /** `getAllProducts`: every stored product, once each, and nothing else. */
  function GetAllProducts(t: ProductTable, nextId: int): (r: seq<ProductResponse>)
    requires WellKeyed(t, nextId)
    ensures forall x :: x in r <==> exists id :: id in t && x == ToResponse(t[id])
    ensures forall i, j :: 0 <= i < j < |r| ==> r[i].id < r[j].id
  {
    ProductsWhere(t, nextId, (p: Product) => true)
  }

  /** `getProductsByCategory`: exactly the products whose category equals the argument. */
  function GetProductsByCategory(t: ProductTable, nextId: int, category: string): (r: seq<ProductResponse>)
    requires WellKeyed(t, nextId)
    ensures forall x :: x in r <==> exists id :: id in t && t[id].category == category && x == ToResponse(t[id])
    ensures forall x :: x in r ==> x.category == category
    ensures forall i, j :: 0 <= i < j < |r| ==> r[i].id < r[j].id
  {
    ProductsWhere(t, nextId, (p: Product) => p.category == category)
  }

  /** `searchProductsByName`: exactly the products whose name contains the argument, ignoring case. */
  function SearchProductsByName(t: ProductTable, nextId: int, name: string): (r: seq<ProductResponse>)
    requires WellKeyed(t, nextId)
    ensures forall x :: x in r <==> exists id :: id in t && Strings.ContainsIgnoreCase(t[id].name, name) && x == ToResponse(t[id])
    ensures forall i, j :: 0 <= i < j < |r| ==> r[i].id < r[j].id
  {
    ProductsWhere(t, nextId, (p: Product) => Strings.ContainsIgnoreCase(p.name, name))
  }

  /** Searching for the empty name lists the whole catalogue, in the same order. */
  lemma EmptySearchListsAll(t: ProductTable, nextId: int)
    requires WellKeyed(t, nextId)
    ensures SearchProductsByName(t, nextId, "") == GetAllProducts(t, nextId)
  {
    var search := (p: Product) => Strings.ContainsIgnoreCase(p.name, "");
    var all := (p: Product) => true;
    forall k | k in t ensures search(t[k]) == all(t[k]) {
      Strings.ContainsIgnoreCaseEmpty(t[k].name);
    }
    Tables.SelectAgrees(t, nextId, search, all);
  }

  /** The search does not depend on the case of its argument. */
  lemma SearchIgnoresCase(t: ProductTable, nextId: int, name: string)
    requires WellKeyed(t, nextId)
    ensures SearchProductsByName(t, nextId, Strings.LowerString(name)) == SearchProductsByName(t, nextId, name)
  {
    var lowered := (p: Product) => Strings.ContainsIgnoreCase(p.name, Strings.LowerString(name));
    var given := (p: Product) => Strings.ContainsIgnoreCase(p.name, name);
    forall k | k in t ensures lowered(t[k]) == given(t[k]) {
      Strings.ContainsIgnoreCaseIgnoresCase(t[k].name, name);
    }
    Tables.SelectAgrees(t, nextId, lowered, given);
  }

  class ProductService {
    var products: ProductTable
    /** The id the repository assigns to the next new product. */
    var nextId: int

    ghost predicate Valid()
      reads this
    {
      WellKeyed(products, nextId)
    }

    constructor ()
      ensures Valid() && products == map[] && nextId == 0
    {
      products, nextId := map[], 0;
    }

    /** `createProduct`: stores a new product with the request's fields under a fresh id. */
    method CreateProduct(request: CreateProductRequest) returns (r: ProductResponse)
      requires Valid()
      modifies this
      ensures Valid()
      ensures var id := old(nextId);
        var created := Product(id, request.name, request.description, request.price, request.category);
        && id !in old(products)
        && products == old(products)[id := created] && nextId == id + 1
        && |products| == |old(products)| + 1
        && r == ToResponse(created)
        && GetProductById(products, id) == Ok(r)
    {
      var product := Product(nextId, request.name, request.description, request.price, request.category);
      products := products[product.id := product];
      nextId := nextId + 1;
      r := ToResponse(product);
    }

    /** `updateProduct`: replaces all four fields of an existing product and keeps its id; an unknown
        id is an error that changes nothing. Every other product is unchanged. */
    method UpdateProduct(id: int, request: CreateProductRequest) returns (r: Result<ProductResponse>)
      requires Valid()
      modifies this
      ensures Valid() && nextId == old(nextId)
      ensures id !in old(products) ==> r == Err(NotFound(id)) && products == old(products)
      ensures id in old(products) ==>
        var updated := Product(id, request.name, request.description, request.price, request.category);
        && products == old(products)[id := updated]
        && r == Ok(ToResponse(updated))
        && GetProductById(products, id) == r
    {
      if id !in products {
        return Err(NotFound(id));
      }
      var product := products[id];
      product := product.(name := request.name, description := request.description,
                          price := request.price, category := request.category);
      products := products[id := product];
      r := Ok(ToResponse(product));
    }

    /** `deleteProduct`: removes exactly the given id; an unknown id is an error that changes nothing. */
    method DeleteProduct(id: int) returns (r: Result<()>)
      requires Valid()
      modifies this
      ensures Valid() && nextId == old(nextId)
      ensures id !in old(products) ==> r == Err(NotFound(id)) && products == old(products)
      ensures id in old(products) ==>
        && r == Ok(())
        && products == old(products) - {id}
        && |products| == |old(products)| - 1
        && GetProductById(products, id) == Err(NotFound(id))
    {
      if id !in products {
        return Err(NotFound(id));
      }
      products := products - {id};
      r := Ok(());
    }
  }
}
