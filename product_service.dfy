/**
 * The product-service: a soft-delete lifecycle for catalog entries, the batch
 * lookup the order-service uses, and the all-or-nothing stock update.
 */
module ProductServiceImpl {
  import opened Wrappers
  import opened Common
  import opened Products
  import opened Stock

  /** The ways the lifecycle operations are refused. */
  datatype ProductError =
    | ProductNotFound(id: ProductId)
    | ProductDeleted
    | CannotUpdateDeletedProduct
    | ProductAlreadyDeleted

  /**
   * Message texts the service raises literally; the not-found text comes from a
   * constants class that is not part of this model.
   */
  function Message(e: ProductError): (r: Option<string>)
    ensures r.None? <==> e.ProductNotFound?
  {
    match e
    case ProductNotFound(_) => None
    case ProductDeleted => Some("Product has been deleted")
    case CannotUpdateDeletedProduct => Some("Cannot update a deleted product")
    case ProductAlreadyDeleted => Some("Product is already deleted")
  }

  /**
   * The repository's `findAllById`: the stored products whose ids are requested,
   * each once, deleted ones included, unknown ids left out.
   */
  function FindAllById(store: Store, ids: seq<ProductId>): (found: seq<Product>)
    requires KeysMatch(store)
    ensures forall i :: 0 <= i < |found| ==>
      found[i].id in ids && found[i].id in store && found[i] == store[found[i].id]
    ensures forall id :: id in ids && id in store ==> exists i :: 0 <= i < |found| && found[i].id == id
    ensures forall i, j :: 0 <= i < j < |found| ==> found[i].id != found[j].id
    decreases |ids|
  {
    if ids == [] then []
    else
      var prefix := ids[..|ids| - 1];
      var id := ids[|ids| - 1];
      var rest := FindAllById(store, prefix);
      assert forall x :: x in ids <==> x in prefix || x == id;
      if id in store && id !in prefix then
        assert (rest + [store[id]])[|rest|].id == id;
        assert forall i :: 0 <= i < |rest| ==> (rest + [store[id]])[i] == rest[i];
        rest + [store[id]]
      else rest
  }

  /** The products looked up for an update are exactly the existing ones it names. */
  lemma FoundCoversNamed(store: Store, updates: seq<StockUpdateItem>, ids: seq<ProductId>, found: Store)
    requires |ids| == |updates| && forall k :: 0 <= k < |updates| ==> ids[k] == updates[k].productId
    requires found == map id | id in store && id in ids :: store[id]
    ensures found.Keys <= store.Keys && forall id :: id in found ==> found[id] == store[id]
    ensures forall k :: 0 <= k < |updates| && updates[k].productId in store ==> updates[k].productId in found
    ensures found == map[] <==> forall k :: 0 <= k < |updates| ==> updates[k].productId !in store
  {
    forall k | 0 <= k < |updates| ensures updates[k].productId in store ==> updates[k].productId in found {
      assert ids[k] in ids;
    }
    if found != map[] {
      var id :| id in found;
      var k :| 0 <= k < |ids| && ids[k] == id;
      assert updates[k].productId in store;
    }
  }

  /**
   * The update loop over the working copies: each step refuses an unknown id or
   * a stock that would go negative, else adjusts that copy in place.
   */
  method ApplyInOrder(found: Store, updates: seq<StockUpdateItem>) returns (r: Result<Store, StockError>)
    ensures r == ApplyAll(found, updates)
  {
    var working := found;
    var i := 0;
    while i < |updates|
      invariant 0 <= i <= |updates|
      invariant ApplyAll(found, updates) == ApplyAll(working, updates[i..])
    {
      var item := updates[i];
      assert updates[i..][0] == item && updates[i..][1..] == updates[i + 1..];
      if item.productId !in working {
        return Failure(UnknownProduct(item.productId));
      }
      var product := working[item.productId];
      if product.stockQuantity + item.quantityChange < 0 {
        return Failure(InsufficientStock(product.name));
      }
      working := working[item.productId := product.(stockQuantity := product.stockQuantity + item.quantityChange)];
      i := i + 1;
    }
    assert updates[i..] == [];
    r := Success(working);
  }

  class ProductService {
    /** The product collection. */
    var products: Store

    ghost predicate Valid()
      reads this
    {
      KeysMatch(products)
    }

    constructor (initial: Store)
      requires KeysMatch(initial)
      ensures Valid() && products == initial
    {
      products := initial;
    }

    /**
     * `addProduct`: store a new, not deleted product under the id the store
     * generates, stamped with its creation time and no update time.
     */
    method AddProduct(request: ProductRequest, id: ProductId, now: Time) returns (r: ProductResponse)
      requires Valid() && id !in products
      modifies this
      ensures Valid()
      ensures products == old(products)[id := Product(id, request.name, request.description, request.category,
                                                      request.price, request.stockQuantity, request.sku,
                                                      request.brand, Some(now), None, false)]
      ensures r == AsResponse(products[id])
    {
      var product := Product(id, request.name, request.description, request.category, request.price,
                             request.stockQuantity, request.sku, request.brand, Some(now), None, false);
      products := products[id := product];
      r := AsResponse(product);
    }

    /** `getProductDetails`: unknown and soft-deleted products are refused. */
    function GetProductDetails(id: ProductId): (r: Result<ProductResponse, ProductError>)
      reads this
      ensures id !in products ==> r == Failure(ProductNotFound(id))
      ensures id in products && products[id].isDeleted ==> r == Failure(ProductDeleted)
      ensures r.Success? <==> id in products && !products[id].isDeleted
      ensures r.Success? ==> r.value == AsResponse(products[id])
    {
      if id !in products then Failure(ProductNotFound(id))
      else if products[id].isDeleted then Failure(ProductDeleted)
      else Success(AsResponse(products[id]))
    }

    /** `getAllProductsDetails`: exactly the products that are not soft-deleted. */
    function GetAllProductsDetails(): (r: set<ProductResponse>)
      requires Valid()
      reads this
      ensures forall id :: id in products ==> (AsResponse(products[id]) in r <==> !products[id].isDeleted)
      ensures forall x :: x in r ==> x.id in products && !products[x.id].isDeleted && x == AsResponse(products[x.id])
    {
      set id | id in products && !products[id].isDeleted :: AsResponse(products[id])
    }

    /**
     * The two read paths agree: a product is listed exactly when its details can
     * be fetched, and the listing holds what the lookup returns.
     */
    lemma ListingMatchesLookup(id: ProductId)
      requires Valid()
      ensures GetProductDetails(id).Success? <==> exists x :: x in GetAllProductsDetails() && x.id == id
      ensures GetProductDetails(id).Success? ==> GetProductDetails(id).value in GetAllProductsDetails()
    {
      if id in products && !products[id].isDeleted {
        assert AsResponse(products[id]) in GetAllProductsDetails();
      }
    }

    /**
     * `updateProduct`: unknown and soft-deleted products are refused; otherwise the
     * request's fields overwrite the stored ones and the update time is set.
     */
    method UpdateProduct(id: ProductId, request: ProductRequest, now: Time) returns (r: Result<ProductResponse, ProductError>)
      requires Valid()
      modifies this
      ensures Valid()
      ensures id !in old(products) ==> r == Failure(ProductNotFound(id)) && products == old(products)
      ensures id in old(products) && old(products)[id].isDeleted ==>
        r == Failure(CannotUpdateDeletedProduct) && products == old(products)
      ensures id in old(products) && !old(products)[id].isDeleted ==>
        var p := old(products)[id];
        products == old(products)[id := p.(name := request.name, description := request.description,
                                           category := request.category, price := request.price,
                                           stockQuantity := request.stockQuantity, sku := request.sku,
                                           brand := request.brand, updatedAt := Some(now))]
        && r == Success(AsResponse(products[id]))
    {
      if id !in products { return Failure(ProductNotFound(id)); }
      var p := products[id];
      if p.isDeleted { return Failure(CannotUpdateDeletedProduct); }
      p := p.(name := request.name, description := request.description, category := request.category,
              price := request.price, stockQuantity := request.stockQuantity, sku := request.sku,
              brand := request.brand);
      p := p.(updatedAt := Some(now));
      products := products[id := p];
      r := Success(AsResponse(p));
    }

    /**
     * `deleteProduct`: unknown and already deleted products are refused; otherwise
     * the product is marked deleted and kept, and no other product changes.
     */
    method DeleteProduct(id: ProductId) returns (r: Outcome<ProductError>)
      requires Valid()
      modifies this
      ensures Valid()
      ensures id !in old(products) ==> r == Fail(ProductNotFound(id)) && products == old(products)
      ensures id in old(products) && old(products)[id].isDeleted ==>
        r == Fail(ProductAlreadyDeleted) && products == old(products)
      ensures id in old(products) && !old(products)[id].isDeleted ==>
        r == Pass && products == old(products)[id := old(products)[id].(isDeleted := true)]
    {
      if id !in products { return Fail(ProductNotFound(id)); }
      var p := products[id];
      if p.isDeleted { return Fail(ProductAlreadyDeleted); }
      products := products[id := p.(isDeleted := true)];
      r := Pass;
    }

    /**
     * `getProductsByIds`: the responses for the requested ids that exist, each
     * once; deleted products are not filtered out, unknown ids are dropped.
     */
    method GetProductsByIds(ids: seq<ProductId>) returns (r: seq<ProductResponse>)
      requires Valid()
      ensures forall i :: 0 <= i < |r| ==>
        r[i].id in ids && r[i].id in products && r[i] == AsResponse(products[r[i].id])
      ensures forall id :: id in ids && id in products ==> exists i :: 0 <= i < |r| && r[i].id == id
      ensures forall i, j :: 0 <= i < j < |r| ==> r[i].id != r[j].id
    {
      var found := FindAllById(products, ids);
      r := [];
      var i := 0;
      while i < |found|
        invariant 0 <= i <= |found|
        invariant |r| == i
        invariant forall j :: 0 <= j < i ==> r[j] == AsResponse(found[j])
      {
        r := r + [AsResponse(found[i])];
        i := i + 1;
      }
      forall id | id in ids && id in products ensures exists j :: 0 <= j < |r| && r[j].id == id {
        var j :| 0 <= j < |found| && found[j].id == id;
        assert r[j].id == id;
      }
    }

    /**
     * `updateStock`: look up the named products, apply the changes in order to
     * working copies, and write the copies back only when every step passed.
     */
    method UpdateStock(updates: seq<StockUpdateItem>) returns (r: Outcome<StockError>)
      requires Valid()
      modifies this
      ensures Valid()
      ensures UpdateStockSpec(old(products), updates).Success? ==>
        r == Pass && products == UpdateStockSpec(old(products), updates).value
      ensures UpdateStockSpec(old(products), updates).Failure? ==>
        r == Fail(UpdateStockSpec(old(products), updates).error) && products == old(products)
    {
      var ids := seq(|updates|, k requires 0 <= k < |updates| => updates[k].productId);
      var found := map id | id in products && id in ids :: products[id];
      FoundCoversNamed(products, updates, ids, found);
      if found == map[] {
        return Fail(NoProductsFound);
      }
      ApplyAllOnFoundProducts(products, found, updates);
      var outcome := ApplyInOrder(found, updates);
      if outcome.Failure? {
        return Fail(outcome.error);
      }
      ghost var spec := ApplyAll(products, updates);
      assert UpdateStockSpec(products, updates) == spec;
      ApplyAllEffect(products, updates);
      products := products + outcome.value;
      assert products == spec.value;
      r := Pass;
    }
  }

  /**
   * Deletion is final for the lifecycle operations but not for the batch
   * lookup: after a delete, a second delete, a lookup and an update are
   * refused, yet the batch lookup still returns the deleted product.
   */
  method DeleteIsFinal(service: ProductService, id: ProductId, request: ProductRequest, now: Time)
    returns (second: Outcome<ProductError>, update: Result<ProductResponse, ProductError>, batch: seq<ProductResponse>)
    requires service.Valid() && id in service.products && !service.products[id].isDeleted
    modifies service
    ensures service.Valid()
    ensures second == Fail(ProductAlreadyDeleted)
    ensures update == Failure(CannotUpdateDeletedProduct)
    ensures service.GetProductDetails(id) == Failure(ProductDeleted)
    ensures forall x :: x in service.GetAllProductsDetails() ==> x.id != id
    ensures exists i :: 0 <= i < |batch| && batch[i] == AsResponse(old(service.products)[id])
  {
    var first := service.DeleteProduct(id);
    second := service.DeleteProduct(id);
    update := service.UpdateProduct(id, request, now);
    batch := service.GetProductsByIds([id]);
    var i :| 0 <= i < |batch| && batch[i].id == id;
    assert batch[i] == AsResponse(old(service.products)[id].(isDeleted := true));
  }
}
