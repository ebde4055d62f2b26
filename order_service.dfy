/** placeOrder: turns the user's cart into an order with a payment and one line per cart line,
    takes the ordered quantities from stock and empties the cart, all in one transaction. */
module OrderService {
  import opened Domain
  import opened Store
  import opened CartModel
  import opened CartService
  import opened OrderModel
  import opened Validation

  /** paymentRepository.save then orderRepository.save: the payment and the order, linked 1:1. */
  method RecordOrder(orderBook: OrderBook, cart: Cart, email: string, addressId: int, today: LocalDate, details: PaymentDetails)
    returns (order: Order, payment: Payment)
    requires orderBook.Valid()
    modifies orderBook`orders, orderBook`payments, orderBook`nextId
    ensures orderBook.Valid()
    ensures order == NewOrder(cart, email, addressId, today, details, old(orderBook.nextId)).order
    ensures payment == NewOrder(cart, email, addressId, today, details, old(orderBook.nextId)).payment
    ensures orderBook.payments == old(orderBook.payments)[payment.paymentId := payment]
    ensures orderBook.orders == old(orderBook.orders)[order.orderId := order]
    ensures orderBook.nextId == old(orderBook.nextId) + 2
  {
    var paymentId := orderBook.NewId();
    var orderId := orderBook.NewId();
    payment := Payment(paymentId, orderId, details.paymentMethod, details.pgPaymentId, details.pgStatus,
                       details.pgResponseMessage, details.pgName);
    orderBook.payments := orderBook.payments[paymentId := payment];
    order := Order(orderId, email, today, cart.totalPrice, "Order Accepted!", addressId, paymentId);
    orderBook.orders := orderBook.orders[orderId := order];
  }

  /** The loop building one order line per cart line, in cart order, and orderItemRepository.saveAll,
      which gives each line the next identity value as it stores it. */
  method SaveOrderLines(orderBook: OrderBook, items: seq<CartItem>, orderId: int) returns (lines: seq<OrderItem>)
    requires orderBook.Valid()
    modifies orderBook`orderItems, orderBook`nextId
    ensures orderBook.Valid()
    ensures lines == OrderLines(items, orderId, old(orderBook.nextId))
    ensures orderBook.orderItems == SaveAll(old(orderBook.orderItems), lines)
    ensures orderBook.nextId == old(orderBook.nextId) + |items|
  {
    var firstId := orderBook.nextId;
    lines := [];
    var i := 0;
    while i < |items|
      invariant 0 <= i <= |items|
      invariant orderBook.Valid() && orderBook.nextId == firstId + i
      invariant lines == OrderLines(items[..i], orderId, firstId)
      invariant orderBook.orderItems == SaveAll(old(orderBook.orderItems), lines)
    {
      var id := orderBook.NewId();
      var line := OrderLine(items[i], orderId, id);
      SaveAllSnoc(old(orderBook.orderItems), lines, line);
      OrderLinesStep(items, i, orderId, firstId);
      orderBook.orderItems := orderBook.orderItems[id := line];
      lines := lines + [line];
      i := i + 1;
    }
    assert items[..i] == items;
  }

  /** One step of the forEach: the line's product loses the line's quantity of stock and is saved,
      then the line is deleted through deleteProductFromCart. */
  method ReleaseLine(catalog: Catalog, cartStore: CartStore, cartId: int, item: CartItem)
    requires Consistent(catalog, cartStore) && cartId in cartStore.carts
    requires FindItem(cartStore.carts[cartId].items, item.productId).Some?
    modifies catalog`products, cartStore`carts
    ensures Consistent(catalog, cartStore)
    ensures item.productId in old(catalog.products)
    ensures catalog.products == TakeStock(old(catalog.products), item.productId, item.quantity)
    ensures cartStore.carts
            == old(cartStore.carts)[cartId := WithoutProduct(old(cartStore.carts)[cartId], item.productId,
                                                             old(catalog.products)[item.productId].specialPrice)]
  {
    var k := FindItem(cartStore.carts[cartId].items, item.productId).value;
    assert ProductsKnown(cartStore.carts[cartId].items, catalog.products);
    var product := catalog.products[item.productId];
    SaveProduct(catalog, cartStore, product.(quantity := product.quantity - item.quantity));
    assert RemoveLine(cartStore.carts, catalog.products, cartId, item.productId)
           == Ok(WithoutProduct(cartStore.carts[cartId], item.productId, product.specialPrice));
    var removed := DeleteProductFromCart(catalog, cartStore, cartId, item.productId);
  }

  /** The forEach over the cart's lines: each product's stock drops by the line's quantity and the
      line is deleted, which lowers the cart total by the line at the product's special price. */
  method ReleaseCart(catalog: Catalog, cartStore: CartStore, cartId: int)
    requires Consistent(catalog, cartStore) && cartId in cartStore.carts
    modifies catalog`products, cartStore`carts
    ensures Consistent(catalog, cartStore)
    ensures ProductsKnown(old(cartStore.carts)[cartId].items, old(catalog.products))
    ensures catalog.products == StockAfter(old(catalog.products), old(cartStore.carts)[cartId].items)
    ensures cartStore.carts == old(cartStore.carts)[cartId := Emptied(old(cartStore.carts)[cartId], old(catalog.products))]
  {
    ghost var products0 := catalog.products;
    ghost var carts0 := cartStore.carts;
    var cart := cartStore.carts[cartId];
    assert ProductsKnown(cart.items, products0);
    assert cart.items[..0] == [] && cart.items[0..] == cart.items;
    assert Emptying(cart, products0, 0) == cart;
    var i := 0;
    while i < |cart.items|
      invariant 0 <= i <= |cart.items|
      invariant Consistent(catalog, cartStore)
      invariant catalog.products == StockAfter(products0, cart.items[..i])
      invariant cartStore.carts == carts0[cartId := Emptying(cart, products0, i)]
    {
      StockAfterStep(products0, cart.items, i);
      EmptyingStep(cart, products0, i);
      UpdateTwice(carts0, cartId, Emptying(cart, products0, i), Emptying(cart, products0, i + 1));
      ReleaseLine(catalog, cartStore, cartId, cart.items[i]);
      i := i + 1;
    }
    assert cart.items[..i] == cart.items && cart.items[i..] == [];
    assert Emptying(cart, products0, i) == Emptied(cart, products0);
  }

  /** placeOrder's writes once its checks have passed: the payment and the order, the order lines,
      then the stock and the cart. */
  method CommitOrder(catalog: Catalog, cartStore: CartStore, orderBook: OrderBook, cartId: int,
                     email: string, addressId: int, details: PaymentDetails, today: LocalDate)
    returns (placed: PlacedOrder)
    requires Consistent(catalog, cartStore) && orderBook.Valid() && cartId in cartStore.carts
    modifies catalog`products, cartStore`carts
    modifies orderBook`orders, orderBook`payments, orderBook`orderItems, orderBook`nextId
    ensures Consistent(catalog, cartStore) && orderBook.Valid()
    ensures placed == NewOrder(old(cartStore.carts)[cartId], email, addressId, today, details, old(orderBook.nextId))
    ensures orderBook.payments == old(orderBook.payments)[placed.payment.paymentId := placed.payment]
    ensures orderBook.orders == old(orderBook.orders)[placed.order.orderId := placed.order]
    ensures orderBook.orderItems == SaveAll(old(orderBook.orderItems), placed.items)
    ensures ProductsKnown(old(cartStore.carts)[cartId].items, old(catalog.products))
    ensures catalog.products == StockAfter(old(catalog.products), old(cartStore.carts)[cartId].items)
    ensures cartStore.carts == old(cartStore.carts)[cartId := Emptied(old(cartStore.carts)[cartId], old(catalog.products))]
  {
    var cart := cartStore.carts[cartId];
    var order, payment := RecordOrder(orderBook, cart, email, addressId, today, details);
    var lines := SaveOrderLines(orderBook, cart.items, order.orderId);
    ReleaseCart(catalog, cartStore, cartId);
    placed := PlacedOrder(order, payment, lines);
  }

  /** placeOrder for the logged-in user's email (transactional). A failed check changes nothing. */
  method PlaceOrder(catalog: Catalog, cartStore: CartStore, accounts: Accounts, orderBook: OrderBook,
                    email: string, addressId: int, details: PaymentDetails, today: LocalDate)
    returns (r: Result<PlacedOrder>)
    requires Consistent(catalog, cartStore) && accounts.Valid() && orderBook.Valid()
    modifies catalog`products, cartStore`carts
    modifies orderBook`orders, orderBook`payments, orderBook`orderItems, orderBook`nextId
    ensures Consistent(catalog, cartStore) && orderBook.Valid()
    ensures r.Err? ==>
      && CheckoutError(old(cartStore.carts), cartStore.cartOf, accounts.addresses, email, addressId, details.paymentMethod) == Some(r.error)
      && catalog.products == old(catalog.products) && cartStore.carts == old(cartStore.carts)
      && orderBook.orders == old(orderBook.orders) && orderBook.payments == old(orderBook.payments)
      && orderBook.orderItems == old(orderBook.orderItems) && orderBook.nextId == old(orderBook.nextId)
    ensures r.Ok? ==>
      && CheckoutError(old(cartStore.carts), cartStore.cartOf, accounts.addresses, email, addressId, details.paymentMethod) == None
      && email in cartStore.cartOf
      && var cartId := cartStore.cartOf[email];
         && r.value == NewOrder(old(cartStore.carts)[cartId], email, addressId, today, details, old(orderBook.nextId))
         && orderBook.payments == old(orderBook.payments)[r.value.payment.paymentId := r.value.payment]
         && orderBook.orders == old(orderBook.orders)[r.value.order.orderId := r.value.order]
         && orderBook.orderItems == SaveAll(old(orderBook.orderItems), r.value.items)
         && ProductsKnown(old(cartStore.carts)[cartId].items, old(catalog.products))
         && catalog.products == StockAfter(old(catalog.products), old(cartStore.carts)[cartId].items)
         && cartStore.carts == old(cartStore.carts)[cartId := Emptied(old(cartStore.carts)[cartId], old(catalog.products))]
  {
    if email !in cartStore.cartOf {
      r := Err(APIException("Cart not found"));
      assert CheckoutError(cartStore.carts, cartStore.cartOf, accounts.addresses, email, addressId, details.paymentMethod) == Some(r.error);
      return;
    }
    var cartId := cartStore.cartOf[email];
    if addressId !in accounts.addresses {
      r := Err(ResourceNotFound("Cart", "Email", TextValue(email)));
      assert CheckoutError(cartStore.carts, cartStore.cartOf, accounts.addresses, email, addressId, details.paymentMethod) == Some(r.error);
      return;
    }
    if !ValidPaymentMethod(details.paymentMethod) {
      r := Err(ConstraintViolation);
      assert CheckoutError(cartStore.carts, cartStore.cartOf, accounts.addresses, email, addressId, details.paymentMethod) == Some(r.error);
      return;
    }
    if cartStore.carts[cartId].items == [] {
      r := Err(APIException("Cart not found"));
      assert CheckoutError(cartStore.carts, cartStore.cartOf, accounts.addresses, email, addressId, details.paymentMethod) == Some(r.error);
      return;
    }
    assert CheckoutError(cartStore.carts, cartStore.cartOf, accounts.addresses, email, addressId, details.paymentMethod) == None;
    var placed := CommitOrder(catalog, cartStore, orderBook, cartId, email, addressId, details, today);
    r := Ok(placed);
  }
}
