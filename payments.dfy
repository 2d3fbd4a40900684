/**
 * The payment-service: ordered validation of a payment request, a check that
 * the order exists, a status decision that in this code base always settles on
 * SUCCESS, an append to the payment history, and the lookup by order id.
 */
module PaymentServiceImpl {
  import opened Wrappers
  import opened Common

  datatype PaymentStatus = SUCCESS | FAILED

  /** `PaymentStatus.name()`. */
  function StatusName(s: PaymentStatus): string {
    match s
    case SUCCESS => "SUCCESS"
    case FAILED => "FAILED"
  }

  /** The request as received; every field may be null. Money in minor units. */
  datatype PaymentRequest = PaymentRequest(
    orderId: Option<string>,
    userId: Option<string>,
    amount: Option<int>,
    paymentMethod: Option<string>)

  /**
   * A document of the payment history. `paymentId` carries no id annotation,
   * so the store never fills it in.
   */
  datatype Payment = Payment(
    paymentId: Option<string>,
    orderId: string,
    userId: Option<string>,
    amount: int,
    paymentMethod: string,
    status: Option<PaymentStatus>,
    transactionDate: Option<Time>)

  /** The request the service sends back to the order-service on success. */
  datatype StatusUpdate = StatusUpdate(orderId: string, status: string)

  datatype PaymentError =
    | OrderIdRequired
    | InvalidPaymentAmount
    | PaymentMethodRequired
    | NoOrderFound(orderId: string)
    | PaymentDetailsNotFound(orderId: string)
    | SeveralPaymentsFound(orderId: string)

  /** The texts the service raises; the several-results error comes from the data layer and has none here. */
  function Message(e: PaymentError): string
    requires !e.SeveralPaymentsFound?
  {
    match e
    case OrderIdRequired => "Order ID is required"
    case InvalidPaymentAmount => "Invalid payment amount"
    case PaymentMethodRequired => "Payment method is required"
    case NoOrderFound(id) => "No order found with ID: " + id + ". Please place an order first."
    case PaymentDetailsNotFound(id) => "Payment details not found for orderId: " + id
  }

  predicate OrderIdGiven(request: PaymentRequest) {
    request.orderId.Some? && !IsBlank(request.orderId.value)
  }

  predicate AmountPositive(request: PaymentRequest) {
    request.amount.Some? && request.amount.value > 0
  }

  predicate MethodGiven(request: PaymentRequest) {
    request.paymentMethod.Some? && !IsBlank(request.paymentMethod.value)
  }

  /**
   * `validatePaymentRequest`: the request passes exactly when all three checks
   * hold, and otherwise the first failing check, in the order order id,
   * amount, method, names the error.
   */
  function ValidatePaymentRequest(request: PaymentRequest): (r: Outcome<PaymentError>)
    ensures r == Pass <==> OrderIdGiven(request) && AmountPositive(request) && MethodGiven(request)
    ensures !OrderIdGiven(request) ==> r == Fail(OrderIdRequired)
    ensures OrderIdGiven(request) && !AmountPositive(request) ==> r == Fail(InvalidPaymentAmount)
    ensures OrderIdGiven(request) && AmountPositive(request) && !MethodGiven(request) ==> r == Fail(PaymentMethodRequired)
  {
    if request.orderId.None? || IsBlank(request.orderId.value) then Fail(OrderIdRequired)
    else if request.amount.None? || request.amount.value <= 0 then Fail(InvalidPaymentAmount)
    else if request.paymentMethod.None? || IsBlank(request.paymentMethod.value) then Fail(PaymentMethodRequired)
    else Pass
  }

  /**
   * What `processPayment` records: validation first, then the order check, and
   * once both pass a SUCCESS payment stamped with the transaction time, whatever
   * the simulated gateway answered.
   */
  function ProcessPaymentSpec(request: PaymentRequest, orderFound: bool, now: Time): (r: Result<Payment, PaymentError>)
    ensures ValidatePaymentRequest(request).Fail? ==> r == Failure(ValidatePaymentRequest(request).error)
    ensures ValidatePaymentRequest(request) == Pass && !orderFound ==> r == Failure(NoOrderFound(request.orderId.value))
    ensures r.Success? <==> ValidatePaymentRequest(request) == Pass && orderFound
    ensures r.Success? ==>
      && r.value.status == Some(SUCCESS)
      && r.value.transactionDate == Some(now)
      && r.value.paymentId == None
      && Some(r.value.orderId) == request.orderId
      && r.value.userId == request.userId
      && Some(r.value.amount) == request.amount
      && Some(r.value.paymentMethod) == request.paymentMethod
  {
    match ValidatePaymentRequest(request)
    case Fail(e) => Failure(e)
    case Pass =>
      if !orderFound then Failure(NoOrderFound(request.orderId.value))
      else Success(Payment(None, request.orderId.value, request.userId, request.amount.value,
                           request.paymentMethod.value, Some(SUCCESS), Some(now)))
  }

  /**
   * The stored payments for one order, in storage order: each payment for the
   * order as often as it is stored, and nothing else.
   */
  function PaymentsFor(payments: seq<Payment>, orderId: string): (r: seq<Payment>)
    ensures |r| <= |payments|
    ensures forall p :: p in r <==> p in payments && p.orderId == orderId
    ensures forall p :: multiset(r)[p] == if p.orderId == orderId then multiset(payments)[p] else 0
  {
    if payments == [] then []
    else
      var last := payments[|payments| - 1];
      assert payments == payments[..|payments| - 1] + [last];
      if last.orderId == orderId then
        PaymentsFor(payments[..|payments| - 1], orderId) + [last]
      else PaymentsFor(payments[..|payments| - 1], orderId)
  }

  /** Appending a payment extends the filtered view by that payment when it is for the order. */
  lemma PaymentsForAppend(payments: seq<Payment>, p: Payment, orderId: string)
    ensures PaymentsFor(payments + [p], orderId) ==
      PaymentsFor(payments, orderId) + (if p.orderId == orderId then [p] else [])
  {
    assert (payments + [p])[..|payments|] == payments;
  }

  class PaymentService {
    /** The payment history; saving an entity without an id always appends. */
    var payments: seq<Payment>

    constructor (initial: seq<Payment>)
      ensures payments == initial
    {
      payments := initial;
    }

    /**
     * `processPayment`: a refused request saves nothing and sends nothing; an
     * accepted one appends the SUCCESS payment and tells the order-service the
     * order is PLACED. `mockApproved` is the simulated gateway's answer, which
     * the service does not look at.
     */
    method ProcessPayment(request: PaymentRequest, orderFound: bool, mockApproved: bool, now: Time)
      returns (r: Result<Payment, PaymentError>, callback: Option<StatusUpdate>)
      modifies this
      ensures r == ProcessPaymentSpec(request, orderFound, now)
      ensures r.Failure? ==> payments == old(payments) && callback == None
      ensures r.Success? ==>
        payments == old(payments) + [r.value] && callback == Some(StatusUpdate(r.value.orderId, "PLACED"))
    {
      var check := ValidatePaymentRequest(request);
      if check.Fail? {
        return Failure(check.error), None;
      }
      var payment := Payment(None, request.orderId.value, request.userId, request.amount.value,
                             request.paymentMethod.value, None, None);
      if !orderFound {
        return Failure(NoOrderFound(payment.orderId)), None;
      }
      payment := payment.(status := Some(SUCCESS));
      payment := payment.(transactionDate := Some(now));
      payments := payments + [payment];
      callback := Some(StatusUpdate(payment.orderId, "PLACED"));
      r := Success(payment);
    }

    /**
     * `retrievePaymentDetails`: the one payment stored for the order; none is an
     * error, and so is more than one, as the single-result query refuses it.
     */
    function RetrievePaymentDetails(orderId: string): (r: Result<Payment, PaymentError>)
      reads this
      ensures r.Success? <==> |PaymentsFor(payments, orderId)| == 1
      ensures r.Success? ==> r.value in payments && r.value.orderId == orderId
      ensures (forall p :: p in payments ==> p.orderId != orderId) ==> r == Failure(PaymentDetailsNotFound(orderId))
    {
      var found := PaymentsFor(payments, orderId);
      if |found| == 0 then Failure(PaymentDetailsNotFound(orderId))
      else if |found| == 1 then assert found[0] in found; Success(found[0])
      else Failure(SeveralPaymentsFound(orderId))
    }

    /**
     * No path of the service stores a FAILED payment: as long as the history
     * holds none, processing keeps it that way.
     */
    method ProcessKeepsHistorySuccessful(request: PaymentRequest, orderFound: bool, mockApproved: bool, now: Time)
      returns (r: Result<Payment, PaymentError>)
      requires forall p :: p in payments ==> p.status == Some(SUCCESS)
      modifies this
      ensures forall p :: p in payments ==> p.status == Some(SUCCESS)
    {
      var callback;
      r, callback := ProcessPayment(request, orderFound, mockApproved, now);
    }
  }

  /**
   * The first payment for an order can be looked up afterwards, and is what was
   * processed; a second accepted payment for the same order makes the lookup
   * fail.
   */
  lemma RetrieveAfterProcess(payments: seq<Payment>, request: PaymentRequest, orderFound: bool, now: Time)
    requires ProcessPaymentSpec(request, orderFound, now).Success?
    ensures var p := ProcessPaymentSpec(request, orderFound, now).value;
      && (PaymentsFor(payments, p.orderId) == [] ==> PaymentsFor(payments + [p], p.orderId) == [p])
      && (|PaymentsFor(payments, p.orderId)| == 1 ==> |PaymentsFor(payments + [p], p.orderId)| == 2)
  {
    var p := ProcessPaymentSpec(request, orderFound, now).value;
    PaymentsForAppend(payments, p, p.orderId);
  }
}
