# E-commerce order workflow in Dafny

This project models the business core of a small micro-service shop. It has four services:

- **user-service:** registers users and soft-deletes them.
- **product-service:** keeps the catalog and its stock. Its `updateStock` applies signed stock changes in list order and refuses a step that would drive a stock below zero.
- **payment-service:** validates a payment request and records it as a SUCCESS payment. It then tells the order-service that the order is PLACED, and it looks up a payment by order id.
- **order-service:** handles orders.
  - `placeOrder` checks that the user exists. It then looks up the named products in one batch, prices every line from the catalog and checks every line against the stock. It deducts the stock and saves the order as PENDING, then calls the payment service. The order becomes PLACED on a "SUCCESS" reply; on any other reply it becomes FAILED and the stock is given back.
  - `cancelOrder` refuses DELIVERED and CANCELLED orders. For any other order it gives the stock back and marks the order CANCELLED.

How the services are represented:

- Each service is a `class` whose collection is a `map` from document id to record; a soft delete sets a flag.
- Each state-changing method is proved to leave its collection equal to a pure specification function of the old state. Examples: `Orders.PlaceOrderSpec`, `Orders.CancelOrderSpec`, `Stock.UpdateStockSpec`.
- The properties of the workflows are lemmas about those functions, mostly in the module `OrderProperties`.

How the services' environment is represented:

- Calls between services are modelled as follows:
  - the order service's product calls act on a `ProductServiceImpl.ProductService` object;
  - the user lookup is an `Option<UserResponse>` parameter;
  - the payment call's outcome is a `PaymentReply` parameter (`PaymentThrew` or `PaymentReturned(status, paymentId)`).
- Clock readings are `Time` parameters.
- Money (`BigDecimal` prices and totals) is an unbounded `int` in minor units.

Files:

- `wrappers.dfy`: `Option`, `Result`, `Outcome`.
- `common.dfy`: both notions of blank text.
- `products.dfy`: the product record and its response.
- `stock.dfy`: the stock-update rule and its lemmas.
- `product_service.dfy`, `users.dfy`, `payments.dfy`: the three simpler services.
- `order_request.dfy`: the place-order request and its validation.
- `orders.dfy`: order records and the workflow functions.
- `order_service.dfy`: the order-service class.
- `order_properties.dfy`: the workflow lemmas.

## Model

| member | source | states |
|---|---|---|
| Common.BlankRulesDiffer | common/src/main/java/com/main/dtos/OrderRequest.java:16-29 | @NotBlank at the HTTP boundary and `String.isBlank` in the payment service disagree both ways: U+3000 passes @NotBlank yet is blank for isBlank, and U+0001 fails @NotBlank yet is not blank for isBlank |
| Common.IsBlank | payment-service/src/main/java/com/main/service/impl/PaymentServiceImpl.java:77-84 | `String.isBlank`: every character is Java whitespace; in particular the empty string is blank |
| Common.NotBlank | common/src/main/java/com/main/dtos/OrderRequest.java:16-29 | @NotBlank as the validator checks it: the value is present and some character lies above U+0020, so a passing value is never null or empty |
| OrderRequests.CascadeIsStronger | common/src/main/java/com/main/dtos/OrderRequest.java:19-20 | the validation with the line rules cascaded implies the validation as declared; a request with a line of quantity -2 passes the declared validation and fails the cascaded one |
| OrderRequests.BeanValid | common/src/main/java/com/main/dtos/OrderRequest.java:16-29 | what the controller's validation checks as declared: user id, both addresses and payment method pass @NotBlank and the line list is present and not empty; nothing about the lines |
| OrderRequests.RequestValid | common/src/main/java/com/main/dtos/OrderItemRequestDto.java:9-13 | the declared rules with each line's own rules applied as well: every line has a @NotBlank product id and a positive quantity |
| Stock.SumDeltasNegated | product-service/src/main/java/com/main/service/impl/ProductServiceImpl.java:134-146 | flipping every change flips the net change to each product |
| Stock.Message | product-service/src/main/java/com/main/service/impl/ProductServiceImpl.java:128-142 | the three refusal texts of the stock update: no products found, product not found with its id, insufficient stock with the product name |
| Stock.ApplyOne | product-service/src/main/java/com/main/service/impl/ProductServiceImpl.java:135-145 | one loop step succeeds iff the product exists and its stock plus the change is not negative; a success keeps the set of products and leaves that stock non-negative |
| Stock.ApplyAll | product-service/src/main/java/com/main/service/impl/ProductServiceImpl.java:134-146 | the loop in list order, stopping at the first refused step; a success keeps the set of products, and a refusal names an unknown product or insufficient stock |
| Stock.UpdateStockSpec | product-service/src/main/java/com/main/service/impl/ProductServiceImpl.java:121-149 | refused with NoProductsFound exactly when no named product exists, otherwise the loop; a success keeps the set of products |
| Stock.ApplyAllEffect | product-service/src/main/java/com/main/service/impl/ProductServiceImpl.java:134-146 | a successful update keeps the set of products and moves each product's stock by the sum of the changes naming it; no other field changes |
| Stock.ApplyAllSucceedsIff | product-service/src/main/java/com/main/service/impl/ProductServiceImpl.java:134-146 | the update loop succeeds exactly when every step names an existing product and the running stock of that product never drops below zero |
| Stock.ApplyAllLeavesNamedNonNegative | product-service/src/main/java/com/main/service/impl/ProductServiceImpl.java:141-145 | after a successful update every product that an update names has stock >= 0 |
| Stock.IncreasesAlwaysApply | product-service/src/main/java/com/main/service/impl/ProductServiceImpl.java:134-146 | a list of non-negative changes applies if every product it names exists with stock >= 0 |
| Stock.RestoreUndoesDeduction | product-service/src/main/java/com/main/service/impl/ProductServiceImpl.java:121-149 | a successful all-deduction update followed by its negation returns exactly the original collection |
| Stock.ApplyAllRoundTrip | product-service/src/main/java/com/main/service/impl/ProductServiceImpl.java:134-146 | the loop-level round trip: deductions and then their negation restore the collection |
| Stock.NegatedAt | product-service/src/main/java/com/main/service/impl/ProductServiceImpl.java:134-146 | the negated list holds, position by position, the same product with the opposite change |
| Stock.MixedSignsDoNotRoundTrip | product-service/src/main/java/com/main/service/impl/ProductServiceImpl.java:141-143 | the round trip needs same-signed changes: for stock 0, [+5, -5] succeeds but its negation [-5, +5] is refused with InsufficientStock |
| Stock.ApplyOneOnFoundProducts | product-service/src/main/java/com/main/service/impl/ProductServiceImpl.java:126-145 | one loop step on the looked-up products refuses exactly when it refuses on the whole collection, and on success it writes the same record |
| Stock.ApplyAllOnFoundProducts | product-service/src/main/java/com/main/service/impl/ProductServiceImpl.java:126-148 | the loop on the looked-up products fails exactly as on the whole collection; on success, saving the copies gives the whole-collection result |
| ProductServiceImpl.FindAllById | product-service/src/main/java/com/main/service/impl/ProductServiceImpl.java:112 | the batch lookup returns every existing requested product, only requested existing products, each once |
| ProductServiceImpl.FoundCoversNamed | product-service/src/main/java/com/main/service/impl/ProductServiceImpl.java:122-129 | the looked-up products are exactly the existing named ones; the lookup is empty iff no named product exists (the "No products found" refusal) |
| ProductServiceImpl.ApplyInOrder | product-service/src/main/java/com/main/service/impl/ProductServiceImpl.java:134-146 | the in-order loop over the working copies computes the update fold, including its first refusal |
| ProductServiceImpl.Message | product-service/src/main/java/com/main/service/impl/ProductServiceImpl.java:50-108 | the texts the lifecycle refusals raise; only the not-found refusal has none, its text being a constant not in this model |
| ProductServiceImpl.ProductService.AddProduct | product-service/src/main/java/com/main/service/impl/ProductServiceImpl.java:39-47 | the new product is stored under its id, not deleted, with its creation time and no update time; the reply is its response |
| ProductServiceImpl.ProductService.GetProductDetails | product-service/src/main/java/com/main/service/impl/ProductServiceImpl.java:50-61 | success iff the product exists and is not deleted; an unknown id gives ProductNotFound(id) and a deleted product gives ProductDeleted |
| ProductServiceImpl.ProductService.GetAllProductsDetails | product-service/src/main/java/com/main/service/impl/ProductServiceImpl.java:63-70 | the listing is exactly the responses of the products that are not deleted |
| ProductServiceImpl.ProductService.ListingMatchesLookup | product-service/src/main/java/com/main/service/impl/ProductServiceImpl.java:50-70 | a product can be looked up exactly when the listing holds a product with that id, and the looked-up response is in the listing |
| ProductServiceImpl.ProductService.UpdateProduct | product-service/src/main/java/com/main/service/impl/ProductServiceImpl.java:73-88 | unknown and deleted products are refused and nothing changes; otherwise the request's fields and the update time are written and nothing else changes |
| ProductServiceImpl.ProductService.DeleteProduct | product-service/src/main/java/com/main/service/impl/ProductServiceImpl.java:91-108 | unknown products and products already deleted are refused and nothing changes; otherwise only the deletion flag is set |
| ProductServiceImpl.ProductService.GetProductsByIds | product-service/src/main/java/com/main/service/impl/ProductServiceImpl.java:111-117 | the reply holds the response of every existing requested product, each once, and nothing else; deleted products are included |
| ProductServiceImpl.ProductService.UpdateStock | product-service/src/main/java/com/main/service/impl/ProductServiceImpl.java:121-149 | on success the collection becomes the update fold's result; on any refusal the error is the fold's and nothing is written |
| ProductServiceImpl.DeleteIsFinal | product-service/src/main/java/com/main/service/impl/ProductServiceImpl.java:91-117 | after a delete, a second delete, an update and a lookup are refused and the listing omits the product, yet the batch lookup still returns it |
| UserServiceImpl.UserService.RegisterUser | user-service/src/main/java/com/main/service/impl/UserServiceImpl.java:29-35 | the new user is stored under its id with the request's fields and not deleted; the reply copies those fields |
| UserServiceImpl.UserService.GetUserDetails | user-service/src/main/java/com/main/service/impl/UserServiceImpl.java:38-50 | success iff the user exists and is not deleted; an unknown id gives UserNotFound(id) and a deleted user gives UserDeleted |
| UserServiceImpl.UserService.GetAllUsersDetails | user-service/src/main/java/com/main/service/impl/UserServiceImpl.java:53-59 | the listing is exactly the responses of the users that are not deleted |
| UserServiceImpl.UserService.ListingMatchesLookup | user-service/src/main/java/com/main/service/impl/UserServiceImpl.java:38-59 | a user can be looked up exactly when the listing holds a user with that id, and the looked-up response is in the listing |
| UserServiceImpl.UserService.UpdateUserDetails | user-service/src/main/java/com/main/service/impl/UserServiceImpl.java:63-77 | unknown and deleted users are refused and nothing changes; otherwise the request's fields are written and the deletion flag kept |
| UserServiceImpl.UserService.DeleteUser | user-service/src/main/java/com/main/service/impl/UserServiceImpl.java:81-98 | unknown users and users already deleted are refused and nothing changes; otherwise only the deletion flag is set and no user is removed |
| UserServiceImpl.DeleteIsFinal | user-service/src/main/java/com/main/service/impl/UserServiceImpl.java:38-98 | the first delete passes iff the user was live; afterwards a second delete, an update and a lookup are refused and the listing omits the user |
| UserServiceImpl.Message | user-service/src/main/java/com/main/service/impl/UserServiceImpl.java:38-98 | the texts the lifecycle refusals raise; only the not-found refusal has none, its text being a constant not in this model |
| PaymentServiceImpl.ValidatePaymentRequest | payment-service/src/main/java/com/main/service/impl/PaymentServiceImpl.java:76-86 | passes iff the order id is given, the amount is positive and the method is given; otherwise the first failing check, in that order, names the error |
| PaymentServiceImpl.Message | payment-service/src/main/java/com/main/service/impl/PaymentServiceImpl.java:76-104 | the texts of the validation, order-check and lookup refusals, the order id written into the last two |
| PaymentServiceImpl.ProcessPaymentSpec | payment-service/src/main/java/com/main/service/impl/PaymentServiceImpl.java:40-74 | succeeds iff validation passes and the order exists, with the right error otherwise; a success is a SUCCESS payment with the request's fields, stamped now, with no payment id |
| PaymentServiceImpl.PaymentsFor | payment-service/src/main/java/com/main/service/impl/PaymentServiceImpl.java:101 | the payments for an order are exactly the stored payments with that order id |
| PaymentServiceImpl.PaymentsForAppend | payment-service/src/main/java/com/main/service/impl/PaymentServiceImpl.java:68 | appending a payment extends an order's payments by it exactly when it is for that order |
| PaymentServiceImpl.PaymentService.ProcessPayment | payment-service/src/main/java/com/main/service/impl/PaymentServiceImpl.java:40-74 | the result is the processing function's; a refusal saves and sends nothing; a success appends the payment and sends PLACED for the order |
| PaymentServiceImpl.PaymentService.RetrievePaymentDetails | payment-service/src/main/java/com/main/service/impl/PaymentServiceImpl.java:98-109 | success iff exactly one payment is stored for the order, and then it is that payment; none gives PaymentDetailsNotFound(orderId) |
| PaymentServiceImpl.PaymentService.ProcessKeepsHistorySuccessful | payment-service/src/main/java/com/main/service/impl/PaymentServiceImpl.java:55-68 | no path stores a FAILED payment: a history of SUCCESS payments stays so |
| PaymentServiceImpl.RetrieveAfterProcess | payment-service/src/main/java/com/main/service/impl/PaymentServiceImpl.java:40-109 | after a first accepted payment for an order, the lookup finds exactly that payment; after a second, it finds two and so fails |
| Orders.Distinct | order-service/src/main/java/com/main/service/impl/OrderServiceImpl.java:63-66 | the requested ids without repetition: the same ids, none twice |
| Orders.CatalogOf | order-service/src/main/java/com/main/service/impl/OrderServiceImpl.java:74-75 | the product map holds every listed product under its id and nothing unlisted |
| Orders.PricedLines | order-service/src/main/java/com/main/service/impl/OrderServiceImpl.java:81-89 | succeeds iff every line's product is in the catalog (else ProductNotFound); each line gets its product's name and price and total = price * quantity |
| Orders.CheckStock | order-service/src/main/java/com/main/service/impl/OrderServiceImpl.java:132-144 | passes iff every line's quantity is at most its product's stock; otherwise the first short line is reported with product name, stock and requested quantity |
| Orders.StockDeltas | order-service/src/main/java/com/main/service/impl/OrderServiceImpl.java:146-151 | one change per line, in order, naming the line's product with quantity * multiplier |
| Orders.Message | order-service/src/main/java/com/main/util/OrderServiceConstants.java:4-13 | every error the order service raises itself has its text, with the stock numbers in decimal; only the errors passed through from the stock update and the payment call have none |
| Orders.TotalAmount | order-service/src/main/java/com/main/service/impl/OrderServiceImpl.java:98-101 | the sum of the line totals: non-negative when every line total is, zero when every line total is |
| Orders.PendingOrder | order-service/src/main/java/com/main/service/impl/OrderServiceImpl.java:101-105 | the order as first saved: PENDING, the request's user and addresses, the priced lines and their total, dated now, no update time and no payment id |
| Orders.Reserve | order-service/src/main/java/com/main/service/impl/OrderServiceImpl.java:54-95 | the steps before the first save: UserNotExists without a user, ProductNotFound when no requested product exists or a line's product is missing, the first short line's StockInsufficient, a refused deduction; else the priced lines and the deducted stock (properties in ReserveFacts, EarlyRefusalsChangeNothing, ReservePositive) |
| Orders.Settle | order-service/src/main/java/com/main/service/impl/OrderServiceImpl.java:105-117 | after the PENDING save: a throwing payment call leaves it; status text "SUCCESS" makes it PLACED; anything else makes it FAILED and adds the quantities back, and a refused restore leaves it PENDING with StockUpdateFailed (properties in SettledOrder, SettleErrors, DeclineRestoresExactly) |
| Orders.PlaceOrderSpec | order-service/src/main/java/com/main/service/impl/OrderServiceImpl.java:54-129 | `placeOrder` as a whole: a refused reservation changes nothing, else settlement (properties in PlacedOrderContents, NetStockEffect, PaymentThrowLeavesPending) |
| Orders.CancelOrderSpec | order-service/src/main/java/com/main/service/impl/OrderServiceImpl.java:207-240 | `cancelOrder` as written: OrderNotFound, OrderAlreadyDelivered and OrderAlreadyCancelled change nothing; any other order, FAILED included, gets its quantities added back and becomes CANCELLED with the update time (properties in CancelRestores, CancelIsNotRepeated) |
| Orders.CancelOrderCorrectedSpec | order-service/src/main/java/com/main/service/impl/OrderServiceImpl.java:216-227 | cancellation as intended: a FAILED order only becomes CANCELLED, every other case as written (property in PlaceThenCancelIsStockNeutral) |
| OrderServiceImpl.CatalogFromBatch | order-service/src/main/java/com/main/service/impl/OrderServiceImpl.java:63-75 | the product map built from the batch reply is the catalog restricted to the requested existing ids; the reply is empty iff none exists |
| OrderServiceImpl.CatalogMatchesView | order-service/src/main/java/com/main/service/impl/OrderServiceImpl.java:67-75 | the map built from any reply listing exactly the requested existing products is the catalog view |
| OrderServiceImpl.PopulateItems | order-service/src/main/java/com/main/service/impl/OrderServiceImpl.java:81-89 | the population loop computes the priced lines, stopping with ProductNotFound at the first missing product |
| OrderServiceImpl.ReserveItems | order-service/src/main/java/com/main/service/impl/OrderServiceImpl.java:54-95 | the steps before the first save either refuse with the reservation's error and leave the stock, or return its lines with the stock deducted |
| OrderServiceImpl.OrderService.PlaceOrder | order-service/src/main/java/com/main/service/impl/OrderServiceImpl.java:54-129 | for any order id, reply, orders and stock are exactly those of the place-order function; an order already stored under the id is replaced, as the save does |
| OrderServiceImpl.OrderService.SettlePayment | order-service/src/main/java/com/main/service/impl/OrderServiceImpl.java:101-117 | reply, orders and stock after the PENDING save are exactly those of the settle function |
| OrderServiceImpl.OrderService.CancelOrder | order-service/src/main/java/com/main/service/impl/OrderServiceImpl.java:207-240 | reply, orders and stock are exactly those of the cancel function as written |
| OrderServiceImpl.OrderService.UpdateOrderStatus | order-service/src/main/java/com/main/service/impl/OrderServiceImpl.java:243-247 | a missing order gives NoSuchElement and no change; otherwise only that order's status changes, to any status from any status |
| OrderServiceImpl.OrderService.GetOrderDetails | order-service/src/main/java/com/main/service/impl/OrderServiceImpl.java:165-173 | fails iff the order is missing, with OrderNotFound(id); otherwise returns the stored order's response |
| OrderServiceImpl.OrderService.GetAllOrderDetailsByUser | order-service/src/main/java/com/main/service/impl/OrderServiceImpl.java:176-188 | fails with NoOrdersFound iff the user has no order; otherwise a non-empty result holding exactly the responses of the user's orders |
| OrderServiceImpl.OrderService.ListingMatchesLookup | order-service/src/main/java/com/main/service/impl/OrderServiceImpl.java:165-188 | an order that can be looked up is in its user's listing |
| OrderServiceImpl.OrderService.UpdateOrderDetails | order-service/src/main/java/com/main/service/impl/OrderServiceImpl.java:191-204 | a missing order gives OrderNotFound(id) and no change; otherwise the merged record is saved under the same id and returned |
| OrderProperties.DeltasSum | order-service/src/main/java/com/main/service/impl/OrderServiceImpl.java:146-151 | the net change an order's stock update makes to a product is multiplier times the order's total quantity of it |
| OrderProperties.RestoreIsNegatedDeduction | order-service/src/main/java/com/main/service/impl/OrderServiceImpl.java:95-114 | the restoring update (multiplier 1) is the negation of the deducting update (multiplier -1) |
| OrderProperties.ReserveFacts | order-service/src/main/java/com/main/service/impl/OrderServiceImpl.java:56-95 | a reservation implies the user exists, one line per requested line, each priced from the stored product, each quantity within stock, and the stock deducted by the lines |
| OrderProperties.EarlyRefusalsChangeNothing | order-service/src/main/java/com/main/service/impl/OrderServiceImpl.java:56-92 | a missing user gives UserNotExists and a missing product gives ProductNotFound; those refusals and StockInsufficient change neither orders nor stock |
| OrderProperties.SettleErrors | order-service/src/main/java/com/main/service/impl/OrderServiceImpl.java:105-117 | after the PENDING save the only errors are the payment call failing and the stock restore being refused |
| OrderProperties.SettledOrder | order-service/src/main/java/com/main/service/impl/OrderServiceImpl.java:108-128 | a settled order is PLACED iff the payment status text is "SUCCESS", else FAILED; it is saved with the new status and no payment id, and only the response carries the reply's payment id |
| OrderProperties.PlacedOrderContents | order-service/src/main/java/com/main/service/impl/OrderServiceImpl.java:54-129 | a placed order has the request's user and addresses, lines priced from the catalog, total = sum of line totals, PLACED iff "SUCCESS" else FAILED, and is saved under its id |
| OrderProperties.DeductionEffect | order-service/src/main/java/com/main/service/impl/OrderServiceImpl.java:95 | a successful order stock update moves each product's stock by multiplier times the order's quantity of it and changes nothing else |
| OrderProperties.QuantityOfNonNegative | common/src/main/java/com/main/dtos/OrderItemRequestDto.java:12-13 | with non-negative line quantities, an order's quantity of any product is non-negative |
| OrderProperties.QuantityOfPositive | common/src/main/java/com/main/dtos/OrderItemRequestDto.java:12-13 | with positive line quantities, an order's quantity of a product it names is positive |
| OrderProperties.ReservePositive | order-service/src/main/java/com/main/service/impl/OrderServiceImpl.java:81-95 | for a fully valid request a reservation has lines, each with positive quantity, an existing product and enough stock |
| OrderProperties.PaymentThrowLeavesPending | order-service/src/main/java/com/main/service/impl/OrderServiceImpl.java:95-108 | a payment call that throws leaves the order saved as PENDING without payment id and the stock deducted |
| OrderProperties.RestoreAfterDeduction | order-service/src/main/java/com/main/service/impl/OrderServiceImpl.java:95-114 | restoring an order's lines after deducting them gives back the original stock |
| OrderProperties.NetStockEffect | order-service/src/main/java/com/main/service/impl/OrderServiceImpl.java:95-117 | a PLACED order leaves the stock deducted by its lines; a FAILED one leaves the stock as it was before the order |
| OrderProperties.DeclineRestoresExactly | order-service/src/main/java/com/main/service/impl/OrderServiceImpl.java:110-117 | for an order none of whose lines asks for a negative quantity, whose deduction succeeded: a non-"SUCCESS" reply saves the order as FAILED and returns the stock to exactly its state before the deduction (with mixed-sign lines the restore can be refused instead, see MixedSignsDoNotRoundTrip) |
| OrderProperties.DeclinedPaymentRestoresStock | order-service/src/main/java/com/main/service/impl/OrderServiceImpl.java:54-129 | for a valid request and a non-"SUCCESS" reply, placement succeeds with a FAILED order and the original stock |
| OrderProperties.CancelIsNotRepeated | order-service/src/main/java/com/main/service/impl/OrderServiceImpl.java:221-224 | a second cancel of a cancelled order is refused with OrderAlreadyCancelled and changes nothing |
| OrderProperties.CancelRestores | order-service/src/main/java/com/main/service/impl/OrderServiceImpl.java:207-240 | for a stored order that is neither DELIVERED nor CANCELLED, has at least one line, asks for no negative quantity and names only stored products whose stock is >= 0: cancelling it succeeds, marks it CANCELLED with the update time, and adds its quantities back |
| OrderProperties.DeclineThenCancel | order-service/src/main/java/com/main/service/impl/OrderServiceImpl.java:110-117 | a declined order cancelled as written has its quantities added back a second time: every line's product ends above its original stock |
| OrderProperties.CancelAfterDeclinedPaymentRestoresTwice | order-service/src/main/java/com/main/service/impl/OrderServiceImpl.java:216-227 | from a valid request, a declined placement followed by a cancel as written raises every ordered product's stock above where it started |
| OrderProperties.SettleThenCorrectedCancel | order-service/src/main/java/com/main/service/impl/OrderServiceImpl.java:110-117 | for an order none of whose lines asks for a negative quantity, whose deduction succeeded and whose settlement succeeded (PLACED or FAILED): the corrected cancel then succeeds and leaves the stock exactly as before the deduction |
| OrderProperties.PlaceThenCancelIsStockNeutral | order-service/src/main/java/com/main/service/impl/OrderServiceImpl.java:54-240 | for a valid request, placement followed by the corrected cancel leaves the stock as it was, whatever the payment reply |
| OrderProperties.PlacementNeverRaisesStock | order-service/src/main/java/com/main/service/impl/OrderServiceImpl.java:95-117 | for a fully valid request, placement keeps the same products, never raises a stock and changes no other product field |
| OrderProperties.LivePaymentReply | payment-service/src/main/java/com/main/service/impl/PaymentServiceImpl.java:40-86 | the real payment service, called for an order, throws iff order id, amount or method fails its check, and otherwise answers "SUCCESS" with no payment id |
| OrderProperties.LivePaymentNeverFailsAnOrder | order-service/src/main/java/com/main/service/impl/OrderServiceImpl.java:108-117 | with the payment service as modelled an order is never FAILED: it is PLACED when the payment checks pass, and left PENDING with PaymentCallFailed otherwise |
| OrderProperties.SingleProductCatalog | order-service/src/main/java/com/main/service/impl/OrderServiceImpl.java:63-75 | with one stored product named by every line, the catalog holds exactly that product |
| OrderProperties.NegativeLineReservation | order-service/src/main/java/com/main/service/impl/OrderServiceImpl.java:81-95 | a line of quantity -2 passes the stock check and its deduction adds 2 to the stock |
| OrderProperties.NegativeLineRaisesStock | common/src/main/java/com/main/dtos/OrderRequest.java:19-20 | a request with a line of quantity -2 passes validation, raises the stock by 2 and is left PENDING with total -2 * price, though the cascaded validation refuses it |
| OrderProperties.RepeatedProductIsCheckedLineByLine | order-service/src/main/java/com/main/service/impl/OrderServiceImpl.java:132-144 | with stock 3 and two lines of 2 for one product, the per-line check passes but the deduction is refused, and nothing changes |
| OrderProperties.StockCheckBoundary | order-service/src/main/java/com/main/service/impl/OrderServiceImpl.java:138-141 | a line asking for exactly the stock passes; one asking for one more is refused with the product's name, its stock and the request |

Proof helpers have no row: `OrderServiceImpl.CatalogKeysFromBatch` and `OrderServiceImpl.CatalogValuesFromBatch` (the two halves of `CatalogMatchesView`), `OrderProperties.ReserveDeducts` and `OrderProperties.PlaceOrderIsSettle` (unfolding `Reserve` and `PlaceOrderSpec`), `OrderProperties.StockMoved`, `Stock.SumDeltasUnnamed`, `Stock.AdjustedTwice`, and the small functions `Orders.ProductIds`, `Orders.CatalogView`, `Orders.PricedLine`, `Orders.QuantityOf`, `Stock.SumDeltas`, `Stock.Negated`.

## Left out

- Java `int` and `BigDecimal` arithmetic: stock quantities and money are unbounded integers. The model does not capture `int` overflow of stock, and money is in minor units.
- Storage order: `GetAllProductsDetails`, `GetAllUsersDetails` and `GetAllOrderDetailsByUser` return sets, so the order of a listing is not modelled. `FindAllById` returns the products in the order of the requested ids; the order in which the store returns a batch is not modelled.
- OrderServiceImpl.OrderService.GetAllOrderDetailsByUser: returns the set of responses, not a list, so the order of the listing is not stated. Every stored order carries its own id, so no two of a user's orders give the same response.
- The user lookup: the Feign call, the exception it may raise and the fallback client at `order-service/src/main/java/com/main/feign/UserClientFallback.java:7-11` are not modelled. The looked-up user is an `Option` parameter, so the fallback's default user is just one more `Some` value.
- The remote calls between services: the HTTP verbs, Feign error wrapping and any message texts of wrapped errors are not modelled. A payment call that raises, or that returns an empty body, is `PaymentThrew`.
- OrderProperties.LivePaymentNeverFailsAnOrder: the payment service's status callback is declared as PUT at `payment-service/src/main/java/com/main/feign_client/OrderClient.java:17`, while the order controller maps that path to PATCH at `order-service/src/main/java/com/main/controller/OrderController.java:58`. Deployed, that callback fails after the payment is saved, so the payment call throws and the order stays PENDING. The lemma states the outcome with a payment service whose callback succeeds.
- The mock gateway (`processMockPayment`): its random draw is a parameter that the service ignores, as the code ignores its result.
- PaymentServiceImpl.PaymentsFor: states which payments it holds and how often, not that they keep storage order; the lookup depends only on how many there are.
- OrderProperties.LivePaymentReply: takes the order-found check of the payment service as passing, because the order it is asked about was saved just before the call. It also takes the copy from the payment request onto the `Payment` record at `payment-service/src/main/java/com/main/service/impl/PaymentServiceImpl.java:44` as a copy of same-named fields. ModelMapper's default matching may instead find `paymentId` matched by both `orderId` and `userId` and refuse the copy as ambiguous, in which case the payment call throws.
- OrderServiceImpl.OrderService.UpdateOrderDetails: the ModelMapper field copy from the request onto the stored order is not modelled; the merged record is a parameter. The model keeps the order id under which it was found. ModelMapper's default matching may also copy the request's `userId` into `orderId`, which would save the merged order under another id; that is not modelled.
- OrderServiceImpl.OrderService.PlaceOrder: ModelMapper's implicit copy from the request onto the new order (`order-service/src/main/java/com/main/service/impl/OrderServiceImpl.java:78`) is modelled as a copy of same-named fields. `placeOrder` never sets `orderId` itself, so the order id is a parameter. It may name an order already stored, for example if ModelMapper's default matching fills `orderId` from the request's `userId`. In that case the save replaces the stored order, and the model does the same.
- UserServiceImpl.UserService.RegisterUser: stores the new user with the deletion flag false. `registerUser` never sets the flag, and the user record is not part of this model; the product record defaults the same flag to false (`product-service/src/main/java/com/main/entity/Product.java:29`). A user whose flag is null would be fetched by `getUserDetails` yet left out of `getAllUsersDetails`, which `UserServiceImpl.UserService.ListingMatchesLookup` does not allow.
- Payment ids: `Payment.paymentId` carries no id annotation, and neither `PaymentServiceImpl` nor `OrderServiceImpl` sets it or the order's `paymentId`. So every payment stored by the model has none, and placement never gives an order one; only `UpdateOrderDetails` can store an order carrying one, from its merged record.
- `updateOrderStatus` does not set `updatedAt`, and neither does the model; the PLACED callback of the payment service is sent, not applied to an order collection.
- OrderProperties.CancelRestores: promises success only under its hypotheses. A cancellable order whose lines were emptied by `updateOrderDetails` is refused with StockUpdateFailed, the stock update having found no products. A cancellable order with a negative quantity, which placement accepts, is refused with StockUpdateFailed, for insufficient stock, once that product's stock is below the size of the negative quantity (a restore of -2 needs a stock of at least 2). In both cases the order stays as it was; `Orders.CancelOrderSpec` models these refusals, and no lemma states them separately.
- OrderProperties.DeclineRestoresExactly and OrderProperties.SettleThenCorrectedCancel: state nothing about orders with mixed-sign lines. There the restore after a declined payment can be refused, as `Stock.MixedSignsDoNotRoundTrip` shows, and the order then stays PENDING with StockUpdateFailed, as `Orders.Settle` models.
- A thrown payment call propagates from `placeOrder`: the PENDING order and the stock deduction stay, and the model keeps them.
- Logging, transactions and concurrency are not modelled. This includes the race between the stock check and the deduction across concurrent orders.
- A null product id in a line, a null product price (`Product.price` carries no @NotNull, so pricing a line at `order-service/src/main/java/com/main/service/impl/OrderServiceImpl.java:81-89` would throw), and null collections other than the request's own fields are not modelled; a price is always an integer here.
- ProductRequest, UserRequest, User, PaymentResponse and the services' constants classes are not part of this model beyond the fields the operations use. Their message texts are modelled where the services raise them.

## Findings

| source | as written | input that shows it | evidently intended | confidence | as-written member | corrected member |
|---|---|---|---|---|---|---|
| common/src/main/java/com/main/dtos/OrderRequest.java:19-20 | the line list has no `@Valid`, so the `@Positive` quantity rule on a line is never checked and `placeOrder` accepts a negative quantity | one line for an existing product with quantity -2: the stock check passes, the deduction adds 2 to the stock, and the total is -2 * price | every line is validated, so placement never raises a stock | not executed | OrderProperties.NegativeLineRaisesStock | OrderProperties.PlacementNeverRaisesStock |
| order-service/src/main/java/com/main/service/impl/OrderServiceImpl.java:216-227 | `cancelOrder` refuses only DELIVERED and CANCELLED orders, so a FAILED order, whose stock was already given back at lines 112-114, gets its quantities added back a second time | place an order whose payment status is not "SUCCESS", then cancel it: each ordered product ends above its original stock | a FAILED order is cancelled without a second restore, so placing then cancelling leaves the stock unchanged | not executed | OrderProperties.CancelAfterDeclinedPaymentRestoresTwice | OrderProperties.PlaceThenCancelIsStockNeutral |
