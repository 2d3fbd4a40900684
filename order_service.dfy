/**
 * The order-service itself: a class over the order collection whose methods
 * run the workflows step by step, calling the product-service object for the
 * catalog and the stock updates. The user lookup and the payment call's
 * answer are parameters. Every method is proved to leave both collections as
 * the corresponding function of the Orders module says.
 */
module OrderServiceImpl {
  import opened Wrappers
  import opened Common
  import opened Products
  import opened Stock
  import opened OrderRequests
  import opened Orders
  import ProductServiceImpl
  import PaymentServiceImpl
  import UserServiceImpl

  /**
   * The batch lookup's result, turned into a map, is the catalog view of the
   * requested ids; it is empty exactly when the lookup found nothing.
   */
  lemma CatalogFromBatch(store: Store, ids: seq<ProductId>, list: seq<ProductResponse>)
    requires forall i :: 0 <= i < |list| ==>
      list[i].id in ids && list[i].id in store && list[i] == Products.AsResponse(store[list[i].id])
    requires forall id :: id in ids && id in store ==> exists i :: 0 <= i < |list| && list[i].id == id
    requires forall i, j :: 0 <= i < j < |list| ==> list[i].id != list[j].id
    ensures CatalogOf(list) == CatalogView(store, ids)
    ensures list == [] <==> CatalogView(store, ids) == map[]
  {
    CatalogMatchesView(store, ids, list);
    if list != [] {
      assert list[0].id in CatalogOf(list);
    }
  }

  lemma CatalogMatchesView(store: Store, ids: seq<ProductId>, list: seq<ProductResponse>)
    requires forall i :: 0 <= i < |list| ==>
      list[i].id in ids && list[i].id in store && list[i] == Products.AsResponse(store[list[i].id])
    requires forall id :: id in ids && id in store ==> exists i :: 0 <= i < |list| && list[i].id == id
    requires forall i, j :: 0 <= i < j < |list| ==> list[i].id != list[j].id
    ensures CatalogOf(list) == CatalogView(store, ids)
  {
    CatalogKeysFromBatch(store, ids, list);
    CatalogValuesFromBatch(store, ids, list);
  }

  lemma CatalogKeysFromBatch(store: Store, ids: seq<ProductId>, list: seq<ProductResponse>)
    requires forall i :: 0 <= i < |list| ==> list[i].id in ids && list[i].id in store
    requires forall id :: id in ids && id in store ==> exists i :: 0 <= i < |list| && list[i].id == id
    requires forall i, j :: 0 <= i < j < |list| ==> list[i].id != list[j].id
    ensures CatalogOf(list).Keys == CatalogView(store, ids).Keys
  {
    var catalog := CatalogOf(list);
    forall id | id in catalog ensures id in ids && id in store {
      var i :| 0 <= i < |list| && list[i].id == id;
    }
    forall id | id in ids && id in store ensures id in catalog {
      var i :| 0 <= i < |list| && list[i].id == id;
    }
  }

  lemma CatalogValuesFromBatch(store: Store, ids: seq<ProductId>, list: seq<ProductResponse>)
    requires forall i :: 0 <= i < |list| ==>
      list[i].id in ids && list[i].id in store && list[i] == Products.AsResponse(store[list[i].id])
    requires forall i, j :: 0 <= i < j < |list| ==> list[i].id != list[j].id
    ensures forall id :: id in CatalogOf(list) ==>
      id in CatalogView(store, ids) && CatalogOf(list)[id] == CatalogView(store, ids)[id]
  {
    var catalog := CatalogOf(list);
    forall id | id in catalog ensures id in CatalogView(store, ids) && catalog[id] == CatalogView(store, ids)[id] {
      var i :| 0 <= i < |list| && list[i].id == id;
    }
  }

  /**
   * The line-population loop: each line takes its product's name and price
   * from the catalog and gets its total; a missing product stops the loop.
   */
  method PopulateItems(items: seq<OrderItemRequest>, catalog: map<ProductId, ProductResponse>)
    returns (r: Result<seq<OrderItem>, OrderError>)
    ensures r == PricedLines(items, catalog)
  {
    var lines: seq<OrderItem> := [];
    var i := 0;
    while i < |items|
      invariant 0 <= i <= |items|
      invariant |lines| == i
      invariant forall j :: 0 <= j < i ==>
        items[j].productId in catalog && lines[j] == PricedLine(items[j], catalog[items[j].productId])
    {
      var item := items[i];
      if item.productId !in catalog {
        assert !(forall j :: 0 <= j < |items| ==> items[j].productId in catalog);
        return Failure(ProductNotFound);
      }
      var product := catalog[item.productId];
      var line := OrderItem(item.productId, "", item.quantity, 0, 0);
      line := line.(productName := product.name);
      line := line.(price := product.price);
      line := line.(total := product.price * item.quantity);
      lines := lines + [line];
      i := i + 1;
    }
    assert PricedLines(items, catalog).value == lines;
    r := Success(lines);
  }

  /**
   * The steps of `placeOrder` before its first save: user check, batch
   * catalog lookup, line population, stock check and deduction.
   */
  method ReserveItems(request: OrderRequest, user: Option<UserServiceImpl.UserResponse>,
                      inventory: ProductServiceImpl.ProductService)
    returns (r: Result<seq<OrderItem>, OrderError>)
    requires inventory.Valid() && BeanValid(request)
    modifies inventory
    ensures inventory.Valid()
    ensures Reserve(old(inventory.products), request, user).Failure? ==>
      r == Failure(Reserve(old(inventory.products), request, user).error) && inventory.products == old(inventory.products)
    ensures Reserve(old(inventory.products), request, user).Success? ==>
      r == Success(Reserve(old(inventory.products), request, user).value.lines)
      && inventory.products == Reserve(old(inventory.products), request, user).value.store
  {
    if user.None? {
      return Failure(UserNotExists);
    }
    var ids := Distinct(ProductIds(request.items.value));
    var list := inventory.GetProductsByIds(ids);
    CatalogFromBatch(inventory.products, ids, list);
    if |list| == 0 {
      return Failure(ProductNotFound);
    }
    var catalog := CatalogOf(list);
    var priced := PopulateItems(request.items.value, catalog);
    if priced.Failure? {
      return Failure(priced.error);
    }
    var lines := priced.value;
    var check := CheckStock(lines, catalog);
    if check.Fail? {
      return Failure(check.error);
    }
    var deducted := inventory.UpdateStock(StockDeltas(lines, -1));
    if deducted.Fail? {
      return Failure(StockUpdateFailed(deducted.error));
    }
    r := Success(lines);
  }

  class OrderService {
    /** The order collection. */
    var orders: OrderStore

    ghost predicate Valid()
      reads this
    {
      OrderKeysMatch(orders)
    }

    constructor (initial: OrderStore)
      requires OrderKeysMatch(initial)
      ensures Valid() && orders == initial
    {
      orders := initial;
    }

    /**
     * `placeOrder`: user check, batch catalog lookup, line population, stock
     * check, deduction, the PENDING save, the payment call, and the final
     * status with the stock added back when the payment did not succeed.
     * `orderId` is the id the saved order carries; an order already stored
     * under it is replaced, as the store's save does.
     */
    method PlaceOrder(request: OrderRequest, user: Option<UserServiceImpl.UserResponse>, inventory: ProductServiceImpl.ProductService,
                      orderId: OrderId, now: Time, reply: PaymentReply)
      returns (r: Result<OrderResponse, OrderError>)
      requires Valid() && inventory.Valid() && BeanValid(request)
      modifies this, inventory
      ensures Valid() && inventory.Valid()
      ensures r == PlaceOrderSpec(old(orders), old(inventory.products), request, user, orderId, now, reply).result
      ensures orders == PlaceOrderSpec(old(orders), old(inventory.products), request, user, orderId, now, reply).orders
      ensures inventory.products == PlaceOrderSpec(old(orders), old(inventory.products), request, user, orderId, now, reply).store
    {
      var reserved := ReserveItems(request, user, inventory);
      if reserved.Failure? {
        return Failure(reserved.error);
      }
      ghost var reservation := Reserve(old(inventory.products), request, user).value;
      var pending := PendingOrder(orderId, request, reserved.value, now);
      assert PlaceOrderSpec(old(orders), old(inventory.products), request, user, orderId, now, reply)
        == Settle(old(orders), pending, reservation.store, reply);
      r := SettlePayment(pending, inventory, reply);
    }

    /**
     * The steps of `placeOrder` from its first save on: save the PENDING
     * order, then settle it on the payment call's answer.
     */
    method SettlePayment(pending: Order, inventory: ProductServiceImpl.ProductService, reply: PaymentReply)
      returns (r: Result<OrderResponse, OrderError>)
      requires Valid() && inventory.Valid()
      modifies this, inventory
      ensures Valid() && inventory.Valid()
      ensures r == Settle(old(orders), pending, old(inventory.products), reply).result
      ensures orders == Settle(old(orders), pending, old(inventory.products), reply).orders
      ensures inventory.products == Settle(old(orders), pending, old(inventory.products), reply).store
    {
      var order := pending;
      orders := orders[order.orderId := order];
      match reply {
        case PaymentThrew =>
          return Failure(PaymentCallFailed);
        case PaymentReturned(status, paymentId) =>
          if status == PaymentServiceImpl.StatusName(PaymentServiceImpl.SUCCESS) {
            order := order.(status := PLACED);
          } else {
            order := order.(status := FAILED);
            var restored := inventory.UpdateStock(StockDeltas(order.items, 1));
            if restored.Fail? {
              return Failure(StockUpdateFailed(restored.error));
            }
          }
          orders := orders[order.orderId := order];
          r := Success(AsOrderResponse(order, paymentId));
      }
    }

    /**
     * `cancelOrder`: refuse a missing, DELIVERED or CANCELLED order; otherwise
     * add every line's quantity back, then mark the order CANCELLED with its
     * update time.
     */
    method CancelOrder(id: OrderId, inventory: ProductServiceImpl.ProductService, now: Time) returns (r: Result<string, OrderError>)
      requires Valid() && inventory.Valid()
      modifies this, inventory
      ensures Valid() && inventory.Valid()
      ensures r == CancelOrderSpec(old(orders), old(inventory.products), id, now).result
      ensures orders == CancelOrderSpec(old(orders), old(inventory.products), id, now).orders
      ensures inventory.products == CancelOrderSpec(old(orders), old(inventory.products), id, now).store
    {
      if id !in orders {
        return Failure(OrderNotFound(id));
      }
      var order := orders[id];
      if order.status == DELIVERED {
        return Failure(OrderAlreadyDelivered);
      }
      if order.status == CANCELLED {
        return Failure(OrderAlreadyCancelled);
      }
      var restored := inventory.UpdateStock(StockDeltas(order.items, 1));
      if restored.Fail? {
        return Failure(StockUpdateFailed(restored.error));
      }
      order := order.(status := CANCELLED);
      order := order.(updatedAt := Some(now));
      orders := orders[id := order];
      r := Success(CancelledReply);
    }

    /**
     * `updateOrderStatus`: any status may replace any other; only a missing
     * order is refused, with the bare no-value error. The update time is not
     * touched.
     */
    method UpdateOrderStatus(id: OrderId, status: OrderStatus) returns (r: Outcome<OrderError>)
      requires Valid()
      modifies this
      ensures Valid()
      ensures id !in old(orders) ==> r == Fail(NoSuchElement) && orders == old(orders)
      ensures id in old(orders) ==> r == Pass && orders == old(orders)[id := old(orders)[id].(status := status)]
    {
      if id !in orders {
        return Fail(NoSuchElement);
      }
      var order := orders[id];
      order := order.(status := status);
      orders := orders[id := order];
      r := Pass;
    }

    /** `getOrderDetails`: the stored order, or an error naming the missing id. */
    function GetOrderDetails(id: OrderId): (r: Result<OrderResponse, OrderError>)
      reads this
      ensures r.Failure? <==> id !in orders
      ensures r.Failure? ==> r.error == OrderNotFound(id)
      ensures r.Success? ==> r.value == AsOrderResponse(orders[id], orders[id].paymentId)
    {
      if id !in orders then Failure(OrderNotFound(id))
      else Success(AsOrderResponse(orders[id], orders[id].paymentId))
    }

    /**
     * `getAllOrderDetailsByUser`: the user's orders, or an error instead of an
     * empty result.
     */
    function GetAllOrderDetailsByUser(userId: string): (r: Result<set<OrderResponse>, OrderError>)
      reads this
      ensures r.Failure? <==> forall id :: id in orders ==> orders[id].userId != userId
      ensures r.Failure? ==> r.error == NoOrdersFound(userId)
      ensures r.Success? ==> r.value != {}
      ensures r.Success? ==> forall x :: x in r.value <==>
        exists id :: id in orders && orders[id].userId == userId && x == AsOrderResponse(orders[id], orders[id].paymentId)
    {
      if forall id :: id in orders ==> orders[id].userId != userId then Failure(NoOrdersFound(userId))
      else
        var found := set id | id in orders && orders[id].userId == userId :: AsOrderResponse(orders[id], orders[id].paymentId);
        var some :| some in orders && orders[some].userId == userId;
        assert AsOrderResponse(orders[some], orders[some].paymentId) in found;
        Success(found)
    }

    /** The two read paths agree: an order can be looked up exactly when its user's listing holds it. */
    lemma ListingMatchesLookup(id: OrderId)
      ensures GetOrderDetails(id).Success? ==>
        var o := GetOrderDetails(id).value;
        GetAllOrderDetailsByUser(o.userId).Success? && o in GetAllOrderDetailsByUser(o.userId).value
    {
    }

    /**
     * `updateOrderDetails`, up to its field copy: a missing order is refused;
     * otherwise `merged`, the stored order with the request's fields copied
     * onto it, replaces the stored one under the same id.
     */
    method UpdateOrderDetails(id: OrderId, merged: Order) returns (r: Result<OrderResponse, OrderError>)
      requires Valid()
      modifies this
      ensures Valid()
      ensures id !in old(orders) ==> r == Failure(OrderNotFound(id)) && orders == old(orders)
      ensures id in old(orders) ==>
        && orders == old(orders)[id := merged.(orderId := id)]
        && r == Success(AsOrderResponse(orders[id], orders[id].paymentId))
    {
      if id !in orders {
        return Failure(OrderNotFound(id));
      }
      var saved := merged.(orderId := id);
      orders := orders[id := saved];
      r := Success(AsOrderResponse(saved, saved.paymentId));
    }
  }
}
