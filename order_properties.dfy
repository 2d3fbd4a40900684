/**
 * Properties of order placement and cancellation, stated over the functions of
 * the Orders module (which the order-service's methods are proved to follow):
 * what an early refusal leaves behind, what a placed order holds, the net
 * stock effect of each outcome, and what cancellation does afterwards.
 */
module OrderProperties {
  import opened Wrappers
  import opened Common
  import opened Products
  import opened Stock
  import opened OrderRequests
  import opened Orders
  import UserServiceImpl
  import PaymentServiceImpl

  /** The deduction list moves each product by `multiplier` times its requested quantity. */
  lemma {:induction false} DeltasSum(lines: seq<OrderItem>, multiplier: int, id: ProductId)
    ensures SumDeltas(StockDeltas(lines, multiplier), id) == multiplier * QuantityOf(lines, id)
  {
    if lines != [] {
      assert StockDeltas(lines, multiplier)[1..] == StockDeltas(lines[1..], multiplier);
      DeltasSum(lines[1..], multiplier, id);
      var q := if lines[0].productId == id then lines[0].quantity else 0;
      assert multiplier * QuantityOf(lines, id) == multiplier * q + multiplier * QuantityOf(lines[1..], id);
    }
  }

  /** The restore list the service sends is the deduction list with every sign flipped. */
  lemma RestoreIsNegatedDeduction(lines: seq<OrderItem>)
    ensures StockDeltas(lines, 1) == Negated(StockDeltas(lines, -1))
  {
    NegatedAt(StockDeltas(lines, -1));
  }

  /** What a successful reservation holds: every line priced from the collection, in stock, and deducted. */
  lemma ReserveFacts(store: Store, request: OrderRequest, user: Option<UserServiceImpl.UserResponse>)
    requires BeanValid(request) && Reserve(store, request, user).Success?
    ensures var items := request.items.value;
      var lines := Reserve(store, request, user).value.lines;
      && user.Some?
      && |lines| == |items|
      && (forall i :: 0 <= i < |items| ==>
            items[i].productId in store
            && lines[i] == PricedLine(items[i], AsResponse(store[items[i].productId]))
            && lines[i].quantity <= store[items[i].productId].stockQuantity)
      && UpdateStockSpec(store, StockDeltas(lines, -1)) == Success(Reserve(store, request, user).value.store)
  {
    var items := request.items.value;
    var catalog := CatalogView(store, Distinct(ProductIds(items)));
    var lines := PricedLines(items, catalog).value;
    assert CheckStock(lines, catalog) == Pass;
    forall i | 0 <= i < |items|
      ensures items[i].productId in store && lines[i].quantity <= store[items[i].productId].stockQuantity
    {
      assert InStock(lines[i], catalog);
    }
  }

  /** A successful reservation's collection is the deduction of its lines. */
  lemma ReserveDeducts(store: Store, request: OrderRequest, user: Option<UserServiceImpl.UserResponse>)
    requires BeanValid(request) && Reserve(store, request, user).Success?
    ensures var res := Reserve(store, request, user).value;
      UpdateStockSpec(store, StockDeltas(res.lines, -1)) == Success(res.store)
  {
  }

  /** Once the reservation succeeds, placement is the settlement of the PENDING order. */
  lemma PlaceOrderIsSettle(orders: OrderStore, store: Store, request: OrderRequest,
                           user: Option<UserServiceImpl.UserResponse>, orderId: OrderId, now: Time,
                           reply: PaymentReply)
    requires BeanValid(request) && Reserve(store, request, user).Success?
    ensures var res := Reserve(store, request, user).value;
      PlaceOrderSpec(orders, store, request, user, orderId, now, reply) ==
        Settle(orders, PendingOrder(orderId, request, res.lines, now), res.store, reply)
  {
  }

  /**
   * A refused placement that stops before the deduction changes nothing: a
   * missing user, a product that is not in the collection (whichever of the
   * two catalog checks catches it), or a line over its product's stock.
   */
  lemma EarlyRefusalsChangeNothing(orders: OrderStore, store: Store, request: OrderRequest,
                                   user: Option<UserServiceImpl.UserResponse>, orderId: OrderId, now: Time,
                                   reply: PaymentReply)
    requires BeanValid(request)
    ensures var e := PlaceOrderSpec(orders, store, request, user, orderId, now, reply);
      user.None? ==> e == Effect(Failure(UserNotExists), orders, store)
    ensures var e := PlaceOrderSpec(orders, store, request, user, orderId, now, reply);
      user.Some? && (exists i :: 0 <= i < |request.items.value| && request.items.value[i].productId !in store) ==>
        e == Effect(Failure(ProductNotFound), orders, store)
    ensures var e := PlaceOrderSpec(orders, store, request, user, orderId, now, reply);
      e.result.Failure? && (e.result.error.UserNotExists? || e.result.error.ProductNotFound? ||
                            e.result.error.StockInsufficient?) ==>
        e.orders == orders && e.store == store
  {
    var items := request.items.value;
    if user.Some? && exists i :: 0 <= i < |items| && items[i].productId !in store {
      var i :| 0 <= i < |items| && items[i].productId !in store;
      var catalog := CatalogView(store, Distinct(ProductIds(items)));
      assert items[i].productId !in catalog;
    }
    if Reserve(store, request, user).Success? {
      var res := Reserve(store, request, user).value;
      SettleErrors(orders, PendingOrder(orderId, request, res.lines, now), res.store, reply);
    }
  }

  /** Once the order is saved, the only refusals left are a failed payment call and a refused restore. */
  lemma SettleErrors(orders: OrderStore, pending: Order, store: Store, reply: PaymentReply)
    ensures var r := Settle(orders, pending, store, reply).result;
      r.Failure? ==> r.error == PaymentCallFailed || r.error.StockUpdateFailed?
  {
  }

  /**
   * A successful placement answers with the order it saved last: the PENDING
   * order with the status the payment answer decides, PLACED exactly on the
   * status text "SUCCESS" and FAILED otherwise, and the answer's payment id.
   */
  lemma SettledOrder(orders: OrderStore, pending: Order, store: Store, reply: PaymentReply)
    requires Settle(orders, pending, store, reply).result.Success?
    ensures var e := Settle(orders, pending, store, reply);
      var status := if reply.status == "SUCCESS" then PLACED else FAILED;
      && reply.PaymentReturned?
      && e.result.value == AsOrderResponse(pending.(status := status), reply.paymentId)
      && e.orders == orders[pending.orderId := pending.(status := status)]
  {
  }

  /**
   * A successful placement answers with the saved order: the request's user
   * and addresses, dated now and never updated, the request's lines,
   * each priced from its product with `total = price * quantity`, the sum of
   * the totals, and the status the payment answer decides; PLACED exactly on
   * the status text "SUCCESS", FAILED otherwise.
   */
  lemma PlacedOrderContents(orders: OrderStore, store: Store, request: OrderRequest,
                            user: Option<UserServiceImpl.UserResponse>, orderId: OrderId, now: Time,
                            reply: PaymentReply)
    requires BeanValid(request)
    requires PlaceOrderSpec(orders, store, request, user, orderId, now, reply).result.Success?
    ensures var e := PlaceOrderSpec(orders, store, request, user, orderId, now, reply);
      var o := e.result.value;
      var items := request.items.value;
      && user.Some? && reply.PaymentReturned?
      && o.orderId == orderId && o.userId == request.userId.value
      && o.shippingAddress == request.shippingAddress.value
      && o.billingAddress == request.billingAddress.value
      && o.orderDate == Some(now) && o.updatedAt == None
      && |o.items| == |items|
      && (forall i :: 0 <= i < |items| ==>
            var pid := items[i].productId;
            && pid in store
            && o.items[i].productId == pid
            && o.items[i].quantity == items[i].quantity
            && o.items[i].productName == store[pid].name
            && o.items[i].price == store[pid].price
            && o.items[i].total == store[pid].price * items[i].quantity)
      && o.totalAmount == TotalAmount(o.items)
      && (o.status == PLACED <==> reply.status == "SUCCESS")
      && (o.status == PLACED || o.status == FAILED)
      && o.paymentId == reply.paymentId
      && orderId in e.orders && AsOrderResponse(e.orders[orderId], reply.paymentId) == o
  {
    var res := Reserve(store, request, user).value;
    ReserveFacts(store, request, user);
    PlaceOrderIsSettle(orders, store, request, user, orderId, now, reply);
    SettledOrder(orders, PendingOrder(orderId, request, res.lines, now), res.store, reply);
  }

  /**
   * `after` is `before` with the stock of every product moved by `multiplier`
   * times the quantity `lines` ask for, and nothing else changed.
   */
  predicate StockMoved(before: Store, after: Store, lines: seq<OrderItem>, multiplier: int) {
    && after.Keys == before.Keys
    && forall id :: id in before ==>
         && after[id].stockQuantity == before[id].stockQuantity + multiplier * QuantityOf(lines, id)
         && after[id] == before[id].(stockQuantity := after[id].stockQuantity)
  }

  /** A successful update made from order lines moves each product by `multiplier` times its quantity. */
  lemma DeductionEffect(store: Store, lines: seq<OrderItem>, multiplier: int)
    requires UpdateStockSpec(store, StockDeltas(lines, multiplier)).Success?
    ensures StockMoved(store, UpdateStockSpec(store, StockDeltas(lines, multiplier)).value, lines, multiplier)
  {
    ApplyAllEffect(store, StockDeltas(lines, multiplier));
    forall id | id in store
      ensures SumDeltas(StockDeltas(lines, multiplier), id) == multiplier * QuantityOf(lines, id)
    {
      DeltasSum(lines, multiplier, id);
    }
  }

  lemma {:induction false} QuantityOfNonNegative(lines: seq<OrderItem>, id: ProductId)
    requires forall i :: 0 <= i < |lines| ==> lines[i].quantity >= 0
    ensures QuantityOf(lines, id) >= 0
  {
    if lines != [] {
      QuantityOfNonNegative(lines[1..], id);
    }
  }

  lemma {:induction false} QuantityOfPositive(lines: seq<OrderItem>, i: int)
    requires forall j :: 0 <= j < |lines| ==> lines[j].quantity > 0
    requires 0 <= i < |lines|
    ensures QuantityOf(lines, lines[i].productId) > 0
  {
    QuantityOfNonNegative(lines[1..], lines[i].productId);
    if i > 0 {
      assert lines[1..][i - 1] == lines[i];
      QuantityOfPositive(lines[1..], i - 1);
    }
  }

  /** Under the cascaded rules, every reserved line asks for a positive quantity that its product has in stock. */
  lemma ReservePositive(store: Store, request: OrderRequest, user: Option<UserServiceImpl.UserResponse>)
    requires RequestValid(request) && Reserve(store, request, user).Success?
    ensures var lines := Reserve(store, request, user).value.lines;
      && |lines| > 0
      && forall i :: 0 <= i < |lines| ==>
           && 0 < lines[i].quantity
           && lines[i].productId in store
           && lines[i].quantity <= store[lines[i].productId].stockQuantity
  {
    ReserveFacts(store, request, user);
    forall i | 0 <= i < |request.items.value| ensures request.items.value[i].quantity > 0 {
      assert ItemValid(request.items.value[i]);
    }
  }

  /**
   * A payment call that throws leaves the order saved as PENDING with no
   * payment reference, and the stock of every product lowered by the quantity
   * the saved order asks for.
   */
  lemma PaymentThrowLeavesPending(orders: OrderStore, store: Store, request: OrderRequest,
                                  user: Option<UserServiceImpl.UserResponse>, orderId: OrderId, now: Time)
    requires BeanValid(request) && Reserve(store, request, user).Success?
    ensures var e := PlaceOrderSpec(orders, store, request, user, orderId, now, PaymentThrew);
      && e.result == Failure(PaymentCallFailed)
      && e.orders == orders[orderId := PendingOrder(orderId, request, Reserve(store, request, user).value.lines, now)]
      && e.orders[orderId].status == PENDING && e.orders[orderId].paymentId == None
      && StockMoved(store, e.store, e.orders[orderId].items, -1)
  {
    ReserveDeducts(store, request, user);
    PlaceOrderIsSettle(orders, store, request, user, orderId, now, PaymentThrew);
    DeductionEffect(store, Reserve(store, request, user).value.lines, -1);
  }

  /** Adding back what a successful deduction took, when that succeeds, gives the collection it started from. */
  lemma RestoreAfterDeduction(store: Store, after: Store, lines: seq<OrderItem>)
    requires UpdateStockSpec(store, StockDeltas(lines, -1)) == Success(after)
    requires UpdateStockSpec(after, StockDeltas(lines, 1)).Success?
    ensures UpdateStockSpec(after, StockDeltas(lines, 1)).value == store
  {
    var restored := UpdateStockSpec(after, StockDeltas(lines, 1)).value;
    DeductionEffect(store, lines, -1);
    DeductionEffect(after, lines, 1);
    forall id | id in store ensures restored[id] == store[id] {
      assert restored[id].stockQuantity == store[id].stockQuantity;
    }
  }

  /**
   * The stock a successful placement leaves: a PLACED order keeps its
   * quantities deducted, a FAILED one leaves every product as it was.
   */
  lemma NetStockEffect(orders: OrderStore, store: Store, request: OrderRequest,
                       user: Option<UserServiceImpl.UserResponse>, orderId: OrderId, now: Time,
                       reply: PaymentReply)
    requires BeanValid(request)
    requires PlaceOrderSpec(orders, store, request, user, orderId, now, reply).result.Success?
    ensures var e := PlaceOrderSpec(orders, store, request, user, orderId, now, reply);
      && (e.result.value.status == PLACED ==> StockMoved(store, e.store, e.result.value.items, -1))
      && (e.result.value.status == FAILED ==> e.store == store)
  {
    ReserveDeducts(store, request, user);
    PlaceOrderIsSettle(orders, store, request, user, orderId, now, reply);
    var res := Reserve(store, request, user).value;
    DeductionEffect(store, res.lines, -1);
    if reply.PaymentReturned? && reply.status != "SUCCESS" {
      RestoreAfterDeduction(store, res.store, res.lines);
    }
  }

  /**
   * When no line asks for a negative quantity, a declined payment always gets
   * its stock back: the order is saved FAILED and every product is exactly as
   * before the placement.
   */
  lemma DeclineRestoresExactly(orders: OrderStore, pending: Order, store: Store, after: Store,
                               status: string, paymentId: Option<string>)
    requires UpdateStockSpec(store, StockDeltas(pending.items, -1)) == Success(after)
    requires forall i :: 0 <= i < |pending.items| ==> pending.items[i].quantity >= 0
    requires status != "SUCCESS"
    ensures var failed := pending.(status := FAILED);
      Settle(orders, pending, after, PaymentReturned(status, paymentId)) ==
        Effect(Success(AsOrderResponse(failed, paymentId)), orders[pending.orderId := failed], store)
  {
    RestoreUndoesDeduction(store, StockDeltas(pending.items, -1));
    RestoreIsNegatedDeduction(pending.items);
  }

  /** `DeclineRestoresExactly` for a placement whose request meets the cascaded rules. */
  lemma DeclinedPaymentRestoresStock(orders: OrderStore, store: Store, request: OrderRequest,
                                     user: Option<UserServiceImpl.UserResponse>, orderId: OrderId, now: Time,
                                     status: string, paymentId: Option<string>)
    requires RequestValid(request) && Reserve(store, request, user).Success?
    requires status != "SUCCESS"
    ensures var e := PlaceOrderSpec(orders, store, request, user, orderId, now, PaymentReturned(status, paymentId));
      var failed := PendingOrder(orderId, request, Reserve(store, request, user).value.lines, now).(status := FAILED);
      e == Effect(Success(AsOrderResponse(failed, paymentId)), orders[orderId := failed], store)
  {
    ReservePositive(store, request, user);
    ReserveDeducts(store, request, user);
    PlaceOrderIsSettle(orders, store, request, user, orderId, now, PaymentReturned(status, paymentId));
    var res := Reserve(store, request, user).value;
    DeclineRestoresExactly(orders, PendingOrder(orderId, request, res.lines, now), store, res.store, status, paymentId);
  }

  /** A cancelled order cannot be cancelled again: the second call is refused and changes nothing. */
  lemma CancelIsNotRepeated(orders: OrderStore, store: Store, id: OrderId, now: Time, later: Time)
    requires CancelOrderSpec(orders, store, id, now).result.Success?
    ensures var e := CancelOrderSpec(orders, store, id, now);
      CancelOrderSpec(e.orders, e.store, id, later) == Effect(Failure(OrderAlreadyCancelled), e.orders, e.store)
  {
  }

  /**
   * Cancelling an order that is neither delivered nor cancelled, whose lines
   * name products that exist with non-negative stock and ask for non-negative
   * quantities, succeeds: the order becomes CANCELLED with its update time set
   * and every product gets back the quantity the order asks for.
   */
  lemma CancelRestores(orders: OrderStore, store: Store, id: OrderId, now: Time)
    requires id in orders && orders[id].status != DELIVERED && orders[id].status != CANCELLED
    requires |orders[id].items| > 0
    requires forall i :: 0 <= i < |orders[id].items| ==>
      && orders[id].items[i].quantity >= 0
      && orders[id].items[i].productId in store
      && store[orders[id].items[i].productId].stockQuantity >= 0
    ensures var e := CancelOrderSpec(orders, store, id, now);
      && e.result == Success(CancelledReply)
      && e.orders == orders[id := orders[id].(status := CANCELLED, updatedAt := Some(now))]
      && StockMoved(store, e.store, orders[id].items, 1)
  {
    var deltas := StockDeltas(orders[id].items, 1);
    IncreasesAlwaysApply(store, deltas);
    assert deltas[0].productId in store;
    DeductionEffect(store, orders[id].items, 1);
  }

  /**
   * Cancellation as written, after a declined payment: the stock came back
   * when the order became FAILED, and the cancellation adds the quantities
   * once more, so every ordered product ends above where it started.
   */
  lemma DeclineThenCancel(orders: OrderStore, pending: Order, store: Store, after: Store,
                          status: string, paymentId: Option<string>, later: Time)
    requires UpdateStockSpec(store, StockDeltas(pending.items, -1)) == Success(after)
    requires |pending.items| > 0
    requires forall i :: 0 <= i < |pending.items| ==>
      && pending.items[i].quantity > 0
      && pending.items[i].productId in store
      && pending.items[i].quantity <= store[pending.items[i].productId].stockQuantity
    requires status != "SUCCESS"
    ensures var placed := Settle(orders, pending, after, PaymentReturned(status, paymentId));
      var c := CancelOrderSpec(placed.orders, placed.store, pending.orderId, later);
      && c.result == Success(CancelledReply)
      && StockMoved(store, c.store, pending.items, 1)
      && forall i :: 0 <= i < |pending.items| ==>
           && pending.items[i].productId in c.store
           && c.store[pending.items[i].productId].stockQuantity > store[pending.items[i].productId].stockQuantity
  {
    DeclineRestoresExactly(orders, pending, store, after, status, paymentId);
    var placed := Settle(orders, pending, after, PaymentReturned(status, paymentId));
    CancelRestores(placed.orders, store, pending.orderId, later);
    forall i | 0 <= i < |pending.items| ensures QuantityOf(pending.items, pending.items[i].productId) > 0 {
      QuantityOfPositive(pending.items, i);
    }
  }

  /** `DeclineThenCancel` for a placement whose request meets the cascaded rules. */
  lemma CancelAfterDeclinedPaymentRestoresTwice(orders: OrderStore, store: Store, request: OrderRequest,
                                                user: Option<UserServiceImpl.UserResponse>, orderId: OrderId,
                                                now: Time, status: string, paymentId: Option<string>, later: Time)
    requires RequestValid(request) && Reserve(store, request, user).Success?
    requires status != "SUCCESS"
    ensures var placed := PlaceOrderSpec(orders, store, request, user, orderId, now, PaymentReturned(status, paymentId));
      var c := CancelOrderSpec(placed.orders, placed.store, orderId, later);
      var lines := Reserve(store, request, user).value.lines;
      && c.result == Success(CancelledReply)
      && StockMoved(store, c.store, lines, 1)
      && forall i :: 0 <= i < |lines| ==>
           && lines[i].productId in store && lines[i].productId in c.store
           && c.store[lines[i].productId].stockQuantity > store[lines[i].productId].stockQuantity
  {
    ReservePositive(store, request, user);
    ReserveDeducts(store, request, user);
    PlaceOrderIsSettle(orders, store, request, user, orderId, now, PaymentReturned(status, paymentId));
    var res := Reserve(store, request, user).value;
    DeclineThenCancel(orders, PendingOrder(orderId, request, res.lines, now), store, res.store, status, paymentId, later);
  }

  /**
   * Settlement followed by the corrected cancellation gives every product its
   * stock back exactly once, whatever the payment answered.
   */
  lemma SettleThenCorrectedCancel(orders: OrderStore, pending: Order, store: Store, after: Store,
                                  reply: PaymentReply, later: Time)
    requires UpdateStockSpec(store, StockDeltas(pending.items, -1)) == Success(after)
    requires forall i :: 0 <= i < |pending.items| ==> pending.items[i].quantity >= 0
    requires Settle(orders, pending, after, reply).result.Success?
    ensures var placed := Settle(orders, pending, after, reply);
      var c := CancelOrderCorrectedSpec(placed.orders, placed.store, pending.orderId, later);
      && c.result == Success(CancelledReply)
      && c.orders == placed.orders[pending.orderId := placed.orders[pending.orderId].(status := CANCELLED, updatedAt := Some(later))]
      && c.store == store
  {
    if reply.status == "SUCCESS" {
      RestoreUndoesDeduction(store, StockDeltas(pending.items, -1));
      RestoreIsNegatedDeduction(pending.items);
    } else {
      DeclineRestoresExactly(orders, pending, store, after, reply.status, reply.paymentId);
    }
  }

  /** `SettleThenCorrectedCancel` for a placement whose request meets the cascaded rules. */
  lemma PlaceThenCancelIsStockNeutral(orders: OrderStore, store: Store, request: OrderRequest,
                                      user: Option<UserServiceImpl.UserResponse>, orderId: OrderId,
                                      now: Time, reply: PaymentReply, later: Time)
    requires RequestValid(request)
    requires PlaceOrderSpec(orders, store, request, user, orderId, now, reply).result.Success?
    ensures var placed := PlaceOrderSpec(orders, store, request, user, orderId, now, reply);
      var c := CancelOrderCorrectedSpec(placed.orders, placed.store, orderId, later);
      && c.result == Success(CancelledReply)
      && c.orders == placed.orders[orderId := placed.orders[orderId].(status := CANCELLED, updatedAt := Some(later))]
      && c.store == store
  {
    ReservePositive(store, request, user);
    ReserveDeducts(store, request, user);
    PlaceOrderIsSettle(orders, store, request, user, orderId, now, reply);
    var res := Reserve(store, request, user).value;
    SettleThenCorrectedCancel(orders, PendingOrder(orderId, request, res.lines, now), store, res.store, reply, later);
  }

  /**
   * With the cascaded rules no placement raises any product's stock, whatever
   * the payment answered, and no other product field changes.
   */
  lemma PlacementNeverRaisesStock(orders: OrderStore, store: Store, request: OrderRequest,
                                  user: Option<UserServiceImpl.UserResponse>, orderId: OrderId, now: Time,
                                  reply: PaymentReply)
    requires RequestValid(request)
    ensures var e := PlaceOrderSpec(orders, store, request, user, orderId, now, reply);
      && e.store.Keys == store.Keys
      && forall id :: id in store ==>
           && e.store[id].stockQuantity <= store[id].stockQuantity
           && e.store[id] == store[id].(stockQuantity := e.store[id].stockQuantity)
  {
    if Reserve(store, request, user).Success? {
      ReservePositive(store, request, user);
      ReserveDeducts(store, request, user);
      PlaceOrderIsSettle(orders, store, request, user, orderId, now, reply);
      var res := Reserve(store, request, user).value;
      DeductionEffect(store, res.lines, -1);
      forall id | id in store ensures QuantityOf(res.lines, id) >= 0 {
        QuantityOfNonNegative(res.lines, id);
      }
      if reply.PaymentReturned? && reply.status != "SUCCESS" {
        DeclineRestoresExactly(orders, PendingOrder(orderId, request, res.lines, now), store, res.store,
                               reply.status, reply.paymentId);
      }
    }
  }

  /**
   * The answer the order-service gets from the payment-service of this code
   * base, for an order saved just before the call (so the payment-service finds
   * it): a refused payment request reaches the caller as an exception, an
   * accepted one as the SUCCESS status with the never-filled payment id.
   */
  function LivePaymentReply(order: Order, paymentMethod: Option<string>, now: Time): (reply: PaymentReply)
    ensures reply.PaymentThrew? <==>
      IsBlank(order.orderId) || order.totalAmount <= 0 || paymentMethod.None? || IsBlank(paymentMethod.value)
    ensures reply.PaymentReturned? ==> reply == PaymentReturned("SUCCESS", None)
  {
    var call := PaymentServiceImpl.PaymentRequest(Some(order.orderId), Some(order.userId), Some(order.totalAmount),
                                                  paymentMethod);
    match PaymentServiceImpl.ProcessPaymentSpec(call, true, now)
    case Failure(_) => PaymentThrew
    case Success(payment) => PaymentReturned(PaymentServiceImpl.StatusName(payment.status.value), payment.paymentId)
  }

  /**
   * Against the payment-service of this code base an order never ends FAILED:
   * it is PLACED, without a payment reference, exactly when its id is not blank,
   * its total is positive and its payment method is not blank; otherwise the
   * call throws and the order stays PENDING with its stock deducted.
   */
  lemma LivePaymentNeverFailsAnOrder(orders: OrderStore, store: Store, request: OrderRequest,
                                     user: Option<UserServiceImpl.UserResponse>, orderId: OrderId, now: Time,
                                     payNow: Time)
    requires BeanValid(request) && Reserve(store, request, user).Success?
    ensures var res := Reserve(store, request, user).value;
      var pending := PendingOrder(orderId, request, res.lines, now);
      var e := PlaceOrderSpec(orders, store, request, user, orderId, now, LivePaymentReply(pending, request.paymentMethod, payNow));
      && (e.result.Success? <==> !IsBlank(orderId) && pending.totalAmount > 0 && !IsBlank(request.paymentMethod.value))
      && (e.result.Success? ==>
            && e.result.value.status == PLACED && e.result.value.paymentId == None
            && e.orders == orders[orderId := pending.(status := PLACED)] && e.store == res.store)
      && (e.result.Failure? ==>
            && e.result == Failure(PaymentCallFailed)
            && e.orders == orders[orderId := pending] && e.store == res.store)
  {
    var res := Reserve(store, request, user).value;
    var pending := PendingOrder(orderId, request, res.lines, now);
    PlaceOrderIsSettle(orders, store, request, user, orderId, now, LivePaymentReply(pending, request.paymentMethod, payNow));
  }

  /** When every line names product `p`, the catalog holds exactly `p`. */
  lemma SingleProductCatalog(p: Product, items: seq<OrderItemRequest>)
    requires |items| > 0 && forall i :: 0 <= i < |items| ==> items[i].productId == p.id
    ensures CatalogView(map[p.id := p], Distinct(ProductIds(items))) == map[p.id := AsResponse(p)]
  {
    var ids := Distinct(ProductIds(items));
    assert p.id in ProductIds(items);
    assert forall id :: id in ids ==> id == p.id;
  }

  /** The reservation for a single line of -2 units of `p`. */
  lemma NegativeLineReservation(p: Product, request: OrderRequest, user: Option<UserServiceImpl.UserResponse>)
    requires user.Some? && BeanValid(request) && request.items == Some([OrderItemRequest(p.id, -2)])
    requires p.stockQuantity >= 0
    ensures Reserve(map[p.id := p], request, user) ==
      Success(Reservation([PricedLine(OrderItemRequest(p.id, -2), AsResponse(p))],
                          map[p.id := p.(stockQuantity := p.stockQuantity + 2)]))
  {
    var store := map[p.id := p];
    var items := request.items.value;
    SingleProductCatalog(p, items);
    var catalog := map[p.id := AsResponse(p)];
    var line := PricedLine(items[0], AsResponse(p));
    var priced := PricedLines(items, catalog);
    assert priced.Success? && priced.value[0] == line;
    assert priced.value == [line];
    assert CheckStock([line], catalog) == Pass;
    var deltas := StockDeltas([line], -1);
    var u := StockUpdateItem(p.id, 2);
    assert deltas[0] == u;
    assert deltas == [u];
    var raised := map[p.id := p.(stockQuantity := p.stockQuantity + 2)];
    assert Adjusted(store[p.id], 2) == raised[p.id];
    assert store[p.id := raised[p.id]] == raised;
    assert ApplyOne(store, u) == Success(raised);
    assert ApplyAll(store, deltas) == ApplyAll(raised, []);
  }

  /**
   * As written, a line with a negative quantity passes the controller, the
   * stock check and the deduction, which then adds to the stock; the order's
   * total is negative, the payment-service refuses it, and the order stays
   * PENDING with the stock raised. The cascaded rules refuse the request.
   */
  lemma NegativeLineRaisesStock(p: Product, orders: OrderStore, request: OrderRequest,
                                user: Option<UserServiceImpl.UserResponse>, orderId: OrderId, now: Time,
                                payNow: Time)
    requires user.Some? && BeanValid(request) && request.items == Some([OrderItemRequest(p.id, -2)])
    requires p.stockQuantity >= 0 && p.price >= 0
    ensures var store := map[p.id := p];
      var reserved := Reserve(store, request, user);
      && reserved.Success?
      && reserved.value.store == map[p.id := p.(stockQuantity := p.stockQuantity + 2)]
      && TotalAmount(reserved.value.lines) == -2 * p.price
      && LivePaymentReply(PendingOrder(orderId, request, reserved.value.lines, now), request.paymentMethod, payNow)
           == PaymentThrew
      && PlaceOrderSpec(orders, store, request, user, orderId, now, PaymentThrew) ==
           Effect(Failure(PaymentCallFailed), orders[orderId := PendingOrder(orderId, request, reserved.value.lines, now)],
                  reserved.value.store)
      && !RequestValid(request)
  {
    NegativeLineReservation(p, request, user);
    var store := map[p.id := p];
    var line := PricedLine(OrderItemRequest(p.id, -2), AsResponse(p));
    assert TotalAmount([line]) == line.total;
    PlaceOrderIsSettle(orders, store, request, user, orderId, now, PaymentThrew);
    assert !ItemValid(request.items.value[0]);
  }

  /**
   * The stock check looks at each line on its own: two lines of 2 for a
   * product with 3 in stock pass it, and the product-service then refuses the
   * deduction, so the placement fails with nothing saved and nothing changed.
   */
  lemma RepeatedProductIsCheckedLineByLine(p: Product, orders: OrderStore, request: OrderRequest,
                                           user: Option<UserServiceImpl.UserResponse>, orderId: OrderId, now: Time,
                                           reply: PaymentReply)
    requires user.Some? && BeanValid(request)
    requires request.items == Some([OrderItemRequest(p.id, 2), OrderItemRequest(p.id, 2)])
    requires p.stockQuantity == 3
    ensures var store := map[p.id := p];
      var line := PricedLine(OrderItemRequest(p.id, 2), AsResponse(p));
      && CheckStock([line, line], CatalogView(store, [p.id])) == Pass
      && PlaceOrderSpec(orders, store, request, user, orderId, now, reply) ==
           Effect(Failure(StockUpdateFailed(InsufficientStock(p.name))), orders, store)
  {
    var store := map[p.id := p];
    var items := request.items.value;
    SingleProductCatalog(p, items);
    var catalog := map[p.id := AsResponse(p)];
    var line := PricedLine(items[0], AsResponse(p));
    var priced := PricedLines(items, catalog);
    assert priced.Success? && priced.value[0] == line && priced.value[1] == line;
    assert priced.value == [line, line];
    assert CheckStock([line, line], catalog) == Pass;
    assert CatalogView(store, [p.id]) == catalog;
    var deltas := StockDeltas([line, line], -1);
    var u := StockUpdateItem(p.id, -2);
    assert deltas[0] == u && deltas[1] == u;
    assert deltas == [u, u];
    var once := map[p.id := p.(stockQuantity := 1)];
    assert Adjusted(store[p.id], -2) == once[p.id];
    assert store[p.id := once[p.id]] == once;
    assert ApplyOne(store, u) == Success(once);
    assert ApplyOne(once, u) == Failure(InsufficientStock(p.name));
    assert deltas[1..] == [u];
    assert ApplyAll(store, deltas) == Failure(InsufficientStock(p.name));
  }

  /** Exactly the available stock passes the check; one unit more is refused with name, stock and request. */
  lemma StockCheckBoundary(line: OrderItem, product: ProductResponse)
    requires line.productId == product.id
    ensures CheckStock([line.(quantity := product.stockQuantity)], map[product.id := product]) == Pass
    ensures CheckStock([line.(quantity := product.stockQuantity + 1)], map[product.id := product]) ==
      Fail(StockInsufficient(product.name, product.stockQuantity, product.stockQuantity + 1))
  {
    assert [line.(quantity := product.stockQuantity)][1..] == [];
  }
}
