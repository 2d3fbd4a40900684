/**
 * The order-service's entities, its errors, and the placement and cancellation
 * workflows stated as pure functions of the order collection and the product
 * collection. Each workflow yields the caller's result together with both
 * collections as they are left, including when the result is an error.
 */
module Orders {
  import opened Wrappers
  import opened Common
  import opened Products
  import opened Stock
  import opened OrderRequests
  import UserServiceImpl
  import PaymentServiceImpl

  type OrderId = string

  datatype OrderStatus = PENDING | PLACED | PROCESSING | SHIPPED | DELIVERED | FAILED | CANCELLED

  /**
   * A stored order line. The order response carries lines with the same five
   * fields, so the model uses this type for both.
   */
  datatype OrderItem = OrderItem(productId: ProductId, productName: string, quantity: int, price: int, total: int)

  /** The stored order document. */
  datatype Order = Order(
    orderId: OrderId,
    userId: string,
    items: seq<OrderItem>,
    totalAmount: int,
    status: OrderStatus,
    shippingAddress: string,
    billingAddress: string,
    orderDate: Option<Time>,
    updatedAt: Option<Time>,
    paymentId: Option<string>)

  /** What the order-service returns for an order. */
  datatype OrderResponse = OrderResponse(
    orderId: OrderId,
    userId: string,
    items: seq<OrderItem>,
    totalAmount: int,
    status: OrderStatus,
    shippingAddress: string,
    billingAddress: string,
    orderDate: Option<Time>,
    updatedAt: Option<Time>,
    paymentId: Option<string>)

  /** The response for `o`, carrying `paymentId` as its payment reference. */
  function AsOrderResponse(o: Order, paymentId: Option<string>): OrderResponse {
    OrderResponse(o.orderId, o.userId, o.items, o.totalAmount, o.status, o.shippingAddress,
                  o.billingAddress, o.orderDate, o.updatedAt, paymentId)
  }

  /** The order collection, keyed by order id. */
  type OrderStore = map<OrderId, Order>

  ghost predicate OrderKeysMatch(orders: OrderStore) {
    forall id :: id in orders ==> orders[id].orderId == id
  }

  /** What the payment call gave back: it threw, or it answered with a status text and a payment id. */
  datatype PaymentReply = PaymentThrew | PaymentReturned(status: string, paymentId: Option<string>)

  datatype OrderError =
    | UserNotExists
    | ProductNotFound
    | StockInsufficient(productName: string, available: int, requested: int)
    | StockUpdateFailed(cause: StockError)
    | PaymentCallFailed
    | OrderNotFound(orderId: OrderId)
    | NoOrdersFound(userId: string)
    | OrderAlreadyDelivered
    | OrderAlreadyCancelled
    | NoSuchElement

  /**
   * The texts the service raises itself. Errors raised by another service and
   * passed through have none here.
   */
  function Message(e: OrderError): (r: Option<string>)
    ensures r.None? <==> e.StockUpdateFailed? || e.PaymentCallFailed?
  {
    match e
    case UserNotExists => Some("User Not Exists")
    case ProductNotFound => Some("Product not exist")
    case StockInsufficient(name, available, requested) =>
      Some("Product '" + name + "' has only " + DecimalText(available) + " items left in stock, but "
           + DecimalText(requested) + " were requested.")
    case StockUpdateFailed(_) => None
    case PaymentCallFailed => None
    case OrderNotFound(id) => Some("Order with orderId " + id + " does not exist")
    case NoOrdersFound(userId) => Some("No orders found for userId: " + userId)
    case OrderAlreadyDelivered => Some("Order has already been delivered and cannot be canceled.")
    case OrderAlreadyCancelled => Some("Order is already canceled.")
    case NoSuchElement => Some("No value present")
  }

  /** The text a successful cancellation returns; its placeholder is never filled in. */
  const CancelledReply: string := "Order successfully canceled: {}"

  /** The result of an operation together with the two collections as it leaves them. */
  datatype Effect<R> = Effect(result: Result<R, OrderError>, orders: OrderStore, store: Store)

  /** The product id of every requested line, in line order. */
  function ProductIds(items: seq<OrderItemRequest>): (r: seq<ProductId>)
    ensures |r| == |items| && forall i :: 0 <= i < |items| ==> r[i] == items[i].productId
  {
    seq(|items|, i requires 0 <= i < |items| => items[i].productId)
  }

  /** The stream's `distinct`: the same ids, each once. */
  function Distinct(ids: seq<ProductId>): (r: seq<ProductId>)
    ensures forall id :: id in r <==> id in ids
    ensures forall i, j :: 0 <= i < j < |r| ==> r[i] != r[j]
  {
    if ids == [] then []
    else
      var prefix := Distinct(ids[..|ids| - 1]);
      var last := ids[|ids| - 1];
      assert forall id :: id in ids <==> id in ids[..|ids| - 1] || id == last;
      if last in prefix then prefix else prefix + [last]
  }

  /**
   * The catalog map the order-service builds from the batch lookup: every
   * requested id that the product collection holds, deleted or not.
   */
  function CatalogView(store: Store, ids: seq<ProductId>): map<ProductId, ProductResponse> {
    map id | id in ids && id in store :: AsResponse(store[id])
  }

  /** `toMap` over the batch result, which never holds an id twice. */
  function CatalogOf(list: seq<ProductResponse>): (r: map<ProductId, ProductResponse>)
    requires forall i, j :: 0 <= i < j < |list| ==> list[i].id != list[j].id
    ensures forall i :: 0 <= i < |list| ==> list[i].id in r && r[list[i].id] == list[i]
    ensures forall id :: id in r ==> exists i :: 0 <= i < |list| && list[i].id == id
  {
    if list == [] then map[]
    else
      var rest := CatalogOf(list[..|list| - 1]);
      var last := list[|list| - 1];
      assert forall i :: 0 <= i < |list| - 1 ==> list[..|list| - 1][i] == list[i];
      rest[last.id := last]
  }

  /** One request line filled in from its catalog entry. */
  function PricedLine(item: OrderItemRequest, product: ProductResponse): OrderItem {
    OrderItem(item.productId, product.name, item.quantity, product.price, product.price * item.quantity)
  }

  /**
   * The line-population loop: every line takes name and price from the catalog
   * and gets `total = price * quantity`; a line whose product is missing from
   * the catalog stops it.
   */
  function PricedLines(items: seq<OrderItemRequest>, catalog: map<ProductId, ProductResponse>)
    : (r: Result<seq<OrderItem>, OrderError>)
    ensures r.Success? <==> forall i :: 0 <= i < |items| ==> items[i].productId in catalog
    ensures r.Failure? ==> r.error == ProductNotFound
    ensures r.Success? ==> |r.value| == |items|
    ensures r.Success? ==>
      forall i :: 0 <= i < |items| ==> r.value[i] == PricedLine(items[i], catalog[items[i].productId])
  {
    if items == [] then Success([])
    else if items[0].productId !in catalog then Failure(ProductNotFound)
    else
      match PricedLines(items[1..], catalog)
      case Failure(e) => Failure(e)
      case Success(rest) =>
        assert forall i :: 1 <= i < |items| ==> items[1..][i - 1] == items[i];
        Success([PricedLine(items[0], catalog[items[0].productId])] + rest)
  }

  /** A line whose product is in the catalog with at least the requested stock. */
  predicate InStock(line: OrderItem, catalog: map<ProductId, ProductResponse>) {
    line.productId in catalog && line.quantity <= catalog[line.productId].stockQuantity
  }

  /** Line `i` is the first line not in stock. */
  predicate FirstShortLine(lines: seq<OrderItem>, catalog: map<ProductId, ProductResponse>, i: int) {
    && 0 <= i < |lines|
    && !InStock(lines[i], catalog)
    && forall j :: 0 <= j < i ==> InStock(lines[j], catalog)
  }

  /** The error a line that is not in stock raises. */
  function ShortLineError(line: OrderItem, catalog: map<ProductId, ProductResponse>): OrderError {
    if line.productId !in catalog then ProductNotFound
    else StockInsufficient(catalog[line.productId].name, catalog[line.productId].stockQuantity, line.quantity)
  }

  /**
   * `validateStockAvailability`: each line on its own against the catalog's
   * stock, so repeated products are not added up. The first line that fails
   * decides the error, which carries the product's name, its stock and the
   * requested quantity.
   */
  function CheckStock(lines: seq<OrderItem>, catalog: map<ProductId, ProductResponse>): (r: Outcome<OrderError>)
    ensures r == Pass <==> forall i :: 0 <= i < |lines| ==> InStock(lines[i], catalog)
    ensures r.Fail? ==> exists i :: FirstShortLine(lines, catalog, i) && r.error == ShortLineError(lines[i], catalog)
  {
    if lines == [] then Pass
    else if lines[0].productId !in catalog then Fail(ProductNotFound)
    else if catalog[lines[0].productId].stockQuantity < lines[0].quantity then
      Fail(StockInsufficient(catalog[lines[0].productId].name, catalog[lines[0].productId].stockQuantity,
                             lines[0].quantity))
    else
      var rest := CheckStock(lines[1..], catalog);
      assert forall i :: 1 <= i < |lines| ==> lines[1..][i - 1] == lines[i];
      rest
  }

  /** The stock update list the service sends: one entry per line, in line order, quantity times `multiplier`. */
  function StockDeltas(lines: seq<OrderItem>, multiplier: int): (r: seq<StockUpdateItem>)
    ensures |r| == |lines|
    ensures forall i :: 0 <= i < |lines| ==>
      r[i] == StockUpdateItem(lines[i].productId, lines[i].quantity * multiplier)
  {
    if lines == [] then []
    else [StockUpdateItem(lines[0].productId, lines[0].quantity * multiplier)] + StockDeltas(lines[1..], multiplier)
  }

  /** The sum of the line totals. */
  function TotalAmount(lines: seq<OrderItem>): (r: int)
    ensures (forall i :: 0 <= i < |lines| ==> lines[i].total >= 0) ==> r >= 0
    ensures (forall i :: 0 <= i < |lines| ==> lines[i].total == 0) ==> r == 0
  {
    if lines == [] then 0 else lines[0].total + TotalAmount(lines[1..])
  }

  /** How many units of product `id` the lines ask for in all. */
  function QuantityOf(lines: seq<OrderItem>, id: ProductId): int {
    if lines == [] then 0
    else (if lines[0].productId == id then lines[0].quantity else 0) + QuantityOf(lines[1..], id)
  }

  /** The lines after catalog lookup and the product collection after the deduction. */
  datatype Reservation = Reservation(lines: seq<OrderItem>, store: Store)

  /**
   * The steps of `placeOrder` before anything is saved: the user check, the
   * batch catalog lookup, line population, the stock check, and the deduction.
   */
  function Reserve(store: Store, request: OrderRequest, user: Option<UserServiceImpl.UserResponse>)
    : Result<Reservation, OrderError>
    requires BeanValid(request)
  {
    if user.None? then Failure(UserNotExists)
    else
      var catalog := CatalogView(store, Distinct(ProductIds(request.items.value)));
      if catalog == map[] then Failure(ProductNotFound)
      else
        match PricedLines(request.items.value, catalog)
        case Failure(e) => Failure(e)
        case Success(lines) =>
          match CheckStock(lines, catalog)
          case Fail(e) => Failure(e)
          case Pass =>
            match UpdateStockSpec(store, StockDeltas(lines, -1))
            case Failure(e) => Failure(StockUpdateFailed(e))
            case Success(after) => Success(Reservation(lines, after))
  }

  /** The order as first saved: PENDING, dated, no update time, no payment reference. */
  function PendingOrder(orderId: OrderId, request: OrderRequest, lines: seq<OrderItem>, now: Time): Order
    requires BeanValid(request)
  {
    Order(orderId, request.userId.value, lines, TotalAmount(lines), PENDING, request.shippingAddress.value,
          request.billingAddress.value, Some(now), None, None)
  }

  /**
   * The steps after the first save: the payment call, then PLACED on the status
   * text "SUCCESS" and FAILED with the stock added back on anything else. A
   * payment call that throws leaves the PENDING order and the deduction in
   * place; a refused restore leaves the PENDING order saved.
   */
  function Settle(orders: OrderStore, pending: Order, store: Store, reply: PaymentReply): Effect<OrderResponse> {
    var saved := orders[pending.orderId := pending];
    match reply
    case PaymentThrew => Effect(Failure(PaymentCallFailed), saved, store)
    case PaymentReturned(status, paymentId) =>
      if status == PaymentServiceImpl.StatusName(PaymentServiceImpl.SUCCESS) then
        var placed := pending.(status := PLACED);
        Effect(Success(AsOrderResponse(placed, paymentId)), orders[pending.orderId := placed], store)
      else
        var failed := pending.(status := FAILED);
        match UpdateStockSpec(store, StockDeltas(pending.items, 1))
        case Failure(e) => Effect(Failure(StockUpdateFailed(e)), saved, store)
        case Success(restored) => Effect(Success(AsOrderResponse(failed, paymentId)), orders[pending.orderId := failed], restored)
  }

  /** `placeOrder` as a whole. */
  function PlaceOrderSpec(orders: OrderStore, store: Store, request: OrderRequest, user: Option<UserServiceImpl.UserResponse>,
                          orderId: OrderId, now: Time, reply: PaymentReply): Effect<OrderResponse>
    requires BeanValid(request)
  {
    match Reserve(store, request, user)
    case Failure(e) => Effect(Failure(e), orders, store)
    case Success(reservation) => Settle(orders, PendingOrder(orderId, request, reservation.lines, now), reservation.store, reply)
  }

  /**
   * `cancelOrder` as written: a missing, DELIVERED or CANCELLED order is
   * refused; any other order, FAILED included, gets its quantities added back
   * and becomes CANCELLED with its update time set.
   */
  function CancelOrderSpec(orders: OrderStore, store: Store, id: OrderId, now: Time): Effect<string> {
    if id !in orders then Effect(Failure(OrderNotFound(id)), orders, store)
    else
      var o := orders[id];
      if o.status == DELIVERED then Effect(Failure(OrderAlreadyDelivered), orders, store)
      else if o.status == CANCELLED then Effect(Failure(OrderAlreadyCancelled), orders, store)
      else
        match UpdateStockSpec(store, StockDeltas(o.items, 1))
        case Failure(e) => Effect(Failure(StockUpdateFailed(e)), orders, store)
        case Success(restored) =>
          Effect(Success(CancelledReply), orders[id := o.(status := CANCELLED, updatedAt := Some(now))], restored)
  }

  /**
   * Cancellation as intended: the stock of a FAILED order was already given
   * back when its payment failed, so cancelling it only changes its status.
   */
  function CancelOrderCorrectedSpec(orders: OrderStore, store: Store, id: OrderId, now: Time): Effect<string> {
    if id in orders && orders[id].status == FAILED then
      Effect(Success(CancelledReply), orders[id := orders[id].(status := CANCELLED, updatedAt := Some(now))], store)
    else CancelOrderSpec(orders, store, id, now)
  }
}
