/** What placeOrder records and changes, as functions of the stored values: the order, its payment
    and one order line per cart line, the stock after every line is taken, and the cart emptied. */
module OrderModel {
  import opened Domain
  import opened Store
  import opened Money
  import opened CartModel
  import opened Validation

  /** The gateway fields of an order request. */
  datatype PaymentDetails = PaymentDetails(
    paymentMethod: string,
    pgName: string,
    pgPaymentId: string,
    pgStatus: string,
    pgResponseMessage: string)

  /** What placeOrder hands back: the order, its payment and its lines. */
  datatype PlacedOrder = PlacedOrder(order: Order, payment: Payment, items: seq<OrderItem>)

  /** placeOrder's checks in the order it makes them. Saving the payment checks its payment
      method's constraints; the empty-cart check comes after the payment and the order are saved.
      The method is transactional, so either failure keeps nothing. */
  function CheckoutError(carts: map<int, Cart>, cartOf: map<string, int>, addresses: map<int, Address>,
                         email: string, addressId: int, paymentMethod: string): (r: Option<Error>)
    requires forall e :: e in cartOf ==> cartOf[e] in carts
    ensures r.None? <==> && email in cartOf && addressId in addresses && ValidPaymentMethod(paymentMethod)
                         && carts[cartOf[email]].items != []
    ensures email !in cartOf ==> r == Some(APIException("Cart not found"))
    ensures email in cartOf && addressId in addresses && !ValidPaymentMethod(paymentMethod) ==> r == Some(ConstraintViolation)
    ensures r.Some? ==> || r.value == APIException("Cart not found")
                        || r.value == ResourceNotFound("Cart", "Email", TextValue(email))
                        || r.value == ConstraintViolation
  {
    if email !in cartOf then Some(APIException("Cart not found"))
    else if addressId !in addresses then Some(ResourceNotFound("Cart", "Email", TextValue(email)))
    else if !ValidPaymentMethod(paymentMethod) then Some(ConstraintViolation)
    else if carts[cartOf[email]].items == [] then Some(APIException("Cart not found"))
    else None
  }

  /** The order line for one cart line. */
  function OrderLine(item: CartItem, orderId: int, id: int): OrderItem {
    OrderItem(id, orderId, item.productId, item.quantity, item.discount, item.productPrice)
  }

  /** The order lines for a cart's lines, with consecutive ids from firstId. */
  function OrderLines(items: seq<CartItem>, orderId: int, firstId: int): (r: seq<OrderItem>)
    ensures |r| == |items|
    decreases |items|
  {
    if items == [] then []
    else OrderLines(items[..|items| - 1], orderId, firstId) + [OrderLine(items[|items| - 1], orderId, firstId + |items| - 1)]
  }

  /** Each order line copies its cart line's product, quantity, discount and price, belongs to the
      order, and the ids run consecutively from firstId. */
  lemma {:induction false} OrderLinesMirror(items: seq<CartItem>, orderId: int, firstId: int)
    ensures var r := OrderLines(items, orderId, firstId);
      forall i :: 0 <= i < |items| ==>
        && r[i].orderItemId == firstId + i && r[i].orderId == orderId
        && r[i].productId == items[i].productId && r[i].quantity == items[i].quantity
        && r[i].discount == items[i].discount && r[i].orderedProductPrice == items[i].productPrice
    decreases |items|
  {
    if items != [] {
      var prefix := items[..|items| - 1];
      OrderLinesMirror(prefix, orderId, firstId);
      var r := OrderLines(items, orderId, firstId);
      assert r == OrderLines(prefix, orderId, firstId) + [OrderLine(items[|items| - 1], orderId, firstId + |items| - 1)];
    }
  }

  /** One more cart line gives one more order line, with the next id. */
  lemma OrderLinesStep(items: seq<CartItem>, i: nat, orderId: int, firstId: int)
    requires i < |items|
    ensures OrderLines(items[..i + 1], orderId, firstId)
            == OrderLines(items[..i], orderId, firstId) + [OrderLine(items[i], orderId, firstId + i)]
  {
    assert items[..i + 1][..i] == items[..i];
  }

  /** The order-item table after saveAll: each line stored under its own id, in order. */
  function SaveAll(table: map<int, OrderItem>, lines: seq<OrderItem>): map<int, OrderItem>
    decreases |lines|
  {
    if lines == [] then table
    else
      var last := lines[|lines| - 1];
      SaveAll(table, lines[..|lines| - 1])[last.orderItemId := last]
  }

  lemma SaveAllSnoc(table: map<int, OrderItem>, lines: seq<OrderItem>, line: OrderItem)
    ensures SaveAll(table, lines + [line]) == SaveAll(table, lines)[line.orderItemId := line]
  {
    assert (lines + [line])[..|lines|] == lines;
  }

  /** Everything placeOrder records for a cart, with ids handed out from firstId: the payment, then
      the order, then one per line. */
  function NewOrder(cart: Cart, email: string, addressId: int, today: LocalDate, details: PaymentDetails, firstId: int): (r: PlacedOrder)
    ensures r.order.email == email && r.order.addressId == addressId && r.order.orderDate == today
    ensures r.order.totalAmount == cart.totalPrice && r.order.orderStatus == "Order Accepted!"
    ensures r.order.paymentId == r.payment.paymentId && r.payment.orderId == r.order.orderId
    ensures r.payment.paymentId == firstId && r.order.orderId == firstId + 1
    ensures r.payment.paymentMethod == details.paymentMethod && r.payment.pgName == details.pgName
    ensures r.payment.pgPaymentId == details.pgPaymentId && r.payment.pgStatus == details.pgStatus
    ensures r.payment.pgResponseMessage == details.pgResponseMessage
    ensures |r.items| == |cart.items|
  {
    var paymentId := firstId;
    var orderId := firstId + 1;
    PlacedOrder(
      Order(orderId, email, today, cart.totalPrice, "Order Accepted!", addressId, paymentId),
      Payment(paymentId, orderId, details.paymentMethod, details.pgPaymentId, details.pgStatus,
              details.pgResponseMessage, details.pgName),
      OrderLines(cart.items, orderId, firstId + 2))
  }

  /** The stock after each cart line's quantity is taken from its product, line by line. */
  function StockAfter(products: map<int, Product>, items: seq<CartItem>): (r: map<int, Product>)
    requires ProductsKnown(items, products)
    ensures r.Keys == products.Keys
    decreases |items|
  {
    if items == [] then products
    else
      var last := items[|items| - 1];
      assert ProductsKnown(items[..|items| - 1], products);
      TakeStock(StockAfter(products, items[..|items| - 1]), last.productId, last.quantity)
  }

  /** The total quantity the lines order of one product. */
  function OrderedQuantity(items: seq<CartItem>, productId: int): int
    decreases |items|
  {
    if items == [] then 0
    else OrderedQuantity(items[..|items| - 1], productId)
         + (if items[|items| - 1].productId == productId then items[|items| - 1].quantity else 0)
  }

  /** The cart as placeOrder leaves it: no lines, and the total lowered by each line at its
      product's special price. */
  function Emptied(cart: Cart, products: map<int, Product>): (r: Cart)
    requires ProductsKnown(cart.items, products)
    ensures r.cartId == cart.cartId && r.email == cart.email && r.items == []
    ensures TotalMatches(cart, products) ==> r.totalPrice == 0.0
  {
    cart.(totalPrice := cart.totalPrice - SpecialTotal(cart.items, products), items := [])
  }

  // ---------------------------------------------------------------------------------------------
  // Properties

  /** Each product's stock drops by exactly the quantity the lines order of it; nothing else about
      the product changes, and nothing bounds the stock below. */
  lemma {:induction false} StockAfterQuantity(products: map<int, Product>, items: seq<CartItem>, id: int)
    requires ProductsKnown(items, products) && id in products
    ensures StockAfter(products, items)[id] == products[id].(quantity := products[id].quantity - OrderedQuantity(items, id))
    decreases |items|
  {
    if items != [] {
      var prefix := items[..|items| - 1];
      assert ProductsKnown(prefix, products);
      StockAfterQuantity(products, prefix, id);
    }
  }

  /** In a cart with one line per product, the ordered quantity of a product is its line's quantity. */
  lemma {:induction false} OrderedQuantityOfLine(items: seq<CartItem>, k: nat)
    requires DistinctProducts(items) && k < |items|
    ensures OrderedQuantity(items, items[k].productId) == items[k].quantity
    decreases |items|
  {
    var prefix := items[..|items| - 1];
    if k == |items| - 1 {
      OrderedQuantityAbsent(prefix, items[k].productId);
    } else {
      OrderedQuantityOfLine(prefix, k);
    }
  }

  /** A product no line names is not ordered. */
  lemma {:induction false} OrderedQuantityAbsent(items: seq<CartItem>, id: int)
    requires forall k :: 0 <= k < |items| ==> items[k].productId != id
    ensures OrderedQuantity(items, id) == 0
    decreases |items|
  {
    if items != [] {
      OrderedQuantityAbsent(items[..|items| - 1], id);
    }
  }

  /** Checkout takes each line's quantity from its product's stock, and leaves products no line
      names as they were. */
  lemma CheckoutStock(products: map<int, Product>, items: seq<CartItem>, id: int)
    requires DistinctProducts(items) && ProductsKnown(items, products) && id in products
    ensures (forall k :: 0 <= k < |items| ==> items[k].productId != id) ==> StockAfter(products, items)[id] == products[id]
    ensures forall k :: 0 <= k < |items| && items[k].productId == id ==>
      StockAfter(products, items)[id] == products[id].(quantity := products[id].quantity - items[k].quantity)
  {
    StockAfterQuantity(products, items, id);
    if forall k :: 0 <= k < |items| ==> items[k].productId != id {
      OrderedQuantityAbsent(items, id);
    }
    forall k | 0 <= k < |items| && items[k].productId == id
      ensures StockAfter(products, items)[id] == products[id].(quantity := products[id].quantity - items[k].quantity)
    {
      OrderedQuantityOfLine(items, k);
    }
  }

  /** A cart whose total was correct is emptied to a total of exactly 0, and every stored cart
      total stays correct at the new stock. */
  lemma CheckoutKeepsTotals(carts: map<int, Cart>, products: map<int, Product>, cartId: int)
    requires TotalsMatch(carts, products) && cartId in carts
    ensures ProductsKnown(carts[cartId].items, products)
    ensures Emptied(carts[cartId], products).totalPrice == 0.0
    ensures TotalsMatch(carts[cartId := Emptied(carts[cartId], products)], StockAfter(products, carts[cartId].items))
  {
    var emptied := Emptied(carts[cartId], products);
    assert TotalMatches(emptied, products);
    TotalsMatchReplace(carts, products, cartId, emptied);
    StockAfterSamePrices(products, carts[cartId].items);
    TotalsMatchSamePrices(carts[cartId := emptied], products, StockAfter(products, carts[cartId].items));
  }

  /** A cart whose total had drifted from its lines keeps that drift after checkout: the emptied cart's
      total is the old total minus the lines at their special prices, not 0. */
  lemma CheckoutLeavesDrift(cart: Cart, products: map<int, Product>)
    requires ProductsKnown(cart.items, products)
    ensures Emptied(cart, products).items == []
    ensures Emptied(cart, products).totalPrice == 0.0 <==> TotalMatches(cart, products)
  {
  }

  /** The cart part-way through checkout: the first i lines deleted, each lowering the total by the
      line at its product's special price. */
  function Emptying(cart: Cart, products: map<int, Product>, i: nat): Cart
    requires ProductsKnown(cart.items, products) && i <= |cart.items|
  {
    assert ProductsKnown(cart.items[..i], products);
    cart.(totalPrice := cart.totalPrice - SpecialTotal(cart.items[..i], products), items := cart.items[i..])
  }

  /** Deleting the first of the remaining lines, as each step of checkout does, is one more line of
      the emptying; the last step leaves the cart emptied. */
  lemma EmptyingStep(cart: Cart, products: map<int, Product>, i: nat)
    requires ProductsKnown(cart.items, products) && i < |cart.items|
    ensures var pid := cart.items[i].productId;
            && FindItem(Emptying(cart, products, i).items, pid) == Some(0)
            && WithoutProduct(Emptying(cart, products, i), pid, products[pid].specialPrice) == Emptying(cart, products, i + 1)
  {
    assert ProductsKnown(cart.items[..i], products);
    assert ProductsKnown(cart.items[..i + 1], products);
    assert cart.items[..i + 1][..i] == cart.items[..i];
    var rest := cart.items[i..];
    assert rest[..0] + rest[1..] == cart.items[i + 1..];
  }

  /** Extending the lines taken by one more line takes one more product's quantity. */
  lemma StockAfterStep(products: map<int, Product>, items: seq<CartItem>, i: nat)
    requires ProductsKnown(items, products) && i < |items|
    ensures ProductsKnown(items[..i], products) && ProductsKnown(items[..i + 1], products)
    ensures StockAfter(products, items[..i + 1]) == TakeStock(StockAfter(products, items[..i]), items[i].productId, items[i].quantity)
    ensures StockAfter(products, items[..i])[items[i].productId].specialPrice == products[items[i].productId].specialPrice
  {
    assert ProductsKnown(items[..i], products);
    assert ProductsKnown(items[..i + 1], products);
    assert items[..i + 1][..i] == items[..i];
    StockAfterQuantity(products, items[..i], items[i].productId);
  }

  /** Taking stock never changes a price. */
  lemma StockAfterSamePrices(products: map<int, Product>, items: seq<CartItem>)
    requires ProductsKnown(items, products)
    ensures SamePrices(products, StockAfter(products, items))
  {
    forall id | id in products
      ensures products[id].specialPrice == StockAfter(products, items)[id].specialPrice
    {
      StockAfterQuantity(products, items, id);
    }
  }

  /** A table written twice under one key holds the second value. */
  lemma UpdateTwice<V>(table: map<int, V>, key: int, first: V, second: V)
    ensures table[key := first][key := second] == table[key := second]
  {
  }
}
