/**
 * The body of a place-order call and the Bean Validation rules attached to it.
 * The list of lines carries no cascade annotation, so the rules declared on a
 * line are never checked at the HTTP boundary.
 */
module OrderRequests {
  import opened Wrappers
  import opened Common

  /** One requested line: a product reference and a count. */
  datatype OrderItemRequest = OrderItemRequest(productId: string, quantity: int)

  /** The place-order request as received; the reference fields may be null. */
  datatype OrderRequest = OrderRequest(
    userId: Option<string>,
    items: Option<seq<OrderItemRequest>>,
    shippingAddress: Option<string>,
    billingAddress: Option<string>,
    paymentMethod: Option<string>)

  /**
   * What the controller's validation checks as written: the user id, both
   * addresses and the payment method are not blank, and the list of lines is
   * present and not empty. Nothing is checked about the lines themselves.
   */
  predicate BeanValid(request: OrderRequest) {
    && NotBlank(request.userId)
    && request.items.Some? && |request.items.value| > 0
    && NotBlank(request.shippingAddress)
    && NotBlank(request.billingAddress)
    && NotBlank(request.paymentMethod)
  }

  /** The rules declared on a line: a non-blank product id and a positive quantity. */
  predicate ItemValid(item: OrderItemRequest) {
    NotBlank(Some(item.productId)) && item.quantity > 0
  }

  /** The request rules with the line rules cascaded into every line. */
  predicate RequestValid(request: OrderRequest) {
    BeanValid(request) && forall i :: 0 <= i < |request.items.value| ==> ItemValid(request.items.value[i])
  }

  /**
   * The cascaded rules are strictly stronger: every request they accept passes
   * the controller, and a request with a negative line passes the controller
   * while the cascaded rules refuse it.
   */
  lemma CascadeIsStronger(request: OrderRequest)
    ensures RequestValid(request) ==> BeanValid(request)
    ensures var negative := request.(items := Some([OrderItemRequest("P1", -2)]));
      BeanValid(request) ==> BeanValid(negative) && !RequestValid(negative)
  {
    var negative := request.(items := Some([OrderItemRequest("P1", -2)]));
    assert !ItemValid(negative.items.value[0]);
  }
}
