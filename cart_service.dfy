/** The cart service: adding, removing, re-counting and re-pricing cart items in the stores. Each
    operation is tied to the function in CartModel that says what it does to the stored values. */
module CartService {
  import opened Text
  import opened Domain
  import opened Store
  import opened Money
  import opened CartModel

  /** The catalogue and the carts agree: both stores are valid and every cart item names a stored
      product. */
  ghost predicate Consistent(catalog: Catalog, cartStore: CartStore)
    reads catalog, cartStore
  {
    catalog.Valid() && cartStore.Valid() && CartItemsKnown(cartStore.carts, catalog.products)
  }

  // ---------------------------------------------------------------------------------------------
  // Repository writes

  /** cartRepository.save for a stored cart: same id and owner, one line per product, every line
      naming a stored product. */
  method SaveCart(catalog: Catalog, cartStore: CartStore, cartId: int, cart: Cart)
    requires Consistent(catalog, cartStore) && cartId in cartStore.carts
    requires cart.cartId == cartId && cart.email == cartStore.carts[cartId].email
    requires DistinctProducts(cart.items) && ProductsKnown(cart.items, catalog.products)
    modifies cartStore`carts
    ensures Consistent(catalog, cartStore)
    ensures cartStore.carts == old(cartStore.carts)[cartId := cart]
  {
    CartsWellFormedReplace(cartStore.carts, cartStore.cartOf, cartId, cart);
    CartItemsKnownReplace(cartStore.carts, catalog.products, cartId, cart);
    cartStore.carts := cartStore.carts[cartId := cart];
  }

  /** productRepository.save for a stored product. */
  method SaveProduct(catalog: Catalog, cartStore: CartStore, product: Product)
    requires Consistent(catalog, cartStore) && product.productId in catalog.products
    modifies catalog`products
    ensures Consistent(catalog, cartStore)
    ensures catalog.products == old(catalog.products)[product.productId := product]
  {
    CartItemsKnownRestock(cartStore.carts, catalog.products, product.productId, product);
    catalog.products := catalog.products[product.productId := product];
  }

  // ---------------------------------------------------------------------------------------------
  // The service operations

  /** createCart: the logged-in user's cart, or a new one with total 0 when the user has none. */
  method CreateCart(catalog: Catalog, cartStore: CartStore, email: string) returns (cartId: int)
    requires Consistent(catalog, cartStore)
    modifies cartStore`carts, cartStore`cartOf, cartStore`nextId
    ensures Consistent(catalog, cartStore)
    ensures email in cartStore.cartOf && cartId == cartStore.cartOf[email]
    ensures email in old(cartStore.cartOf) ==>
      cartStore.carts == old(cartStore.carts) && cartStore.cartOf == old(cartStore.cartOf)
    ensures email !in old(cartStore.cartOf) ==>
      && cartId !in old(cartStore.carts)
      && cartStore.carts == old(cartStore.carts)[cartId := Cart(cartId, email, 0.0, [])]
      && cartStore.cartOf == old(cartStore.cartOf)[email := cartId]
  {
    if email in cartStore.cartOf {
      cartId := cartStore.cartOf[email];
    } else {
      cartId := cartStore.NewId();
      CartsWellFormedNewCart(cartStore.carts, cartStore.cartOf, cartId, email);
      cartStore.carts := cartStore.carts[cartId := Cart(cartId, email, 0.0, [])];
      cartStore.cartOf := cartStore.cartOf[email := cartId];
    }
  }

  /** addProductToCart for the logged-in user's email. Not transactional: the cart createCart
      opened stays even when the add then fails. */
  method AddProductToCart(catalog: Catalog, cartStore: CartStore, email: string, productId: int, quantity: int)
    returns (r: Result<Cart>)
    requires Consistent(catalog, cartStore)
    modifies cartStore`carts, cartStore`cartOf, cartStore`nextId, catalog`products
    ensures Consistent(catalog, cartStore)
    ensures email in cartStore.cartOf
    ensures email in old(cartStore.cartOf) ==> cartStore.cartOf == old(cartStore.cartOf)
    ensures email !in old(cartStore.cartOf) ==>
      && cartStore.cartOf == old(cartStore.cartOf)[email := cartStore.cartOf[email]]
      && cartStore.cartOf[email] !in old(cartStore.carts)
    ensures r == AddLine(OpenedCart(old(cartStore.carts), old(cartStore.cartOf), email, cartStore.cartOf[email]),
                         old(catalog.products), productId, quantity)
    ensures r.Ok? ==> cartStore.carts == old(cartStore.carts)[cartStore.cartOf[email] := r.value]
    ensures r.Err? ==>
      cartStore.carts
      == old(cartStore.carts)[cartStore.cartOf[email] := OpenedCart(old(cartStore.carts), old(cartStore.cartOf), email, cartStore.cartOf[email])]
    ensures r.Ok? ==> productId in old(catalog.products) && catalog.products == TakeStock(old(catalog.products), productId, quantity)
    ensures r.Err? ==> catalog.products == old(catalog.products)
  {
    ghost var carts0, cartOf0 := cartStore.carts, cartStore.cartOf;
    var cartId := CreateCart(catalog, cartStore, email);
    assert cartStore.carts == carts0[cartId := OpenedCart(carts0, cartOf0, email, cartId)];
    if productId !in catalog.products {
      return Err(ResourceNotFound("Product", "productID", IdValue(productId)));
    }
    var product := catalog.products[productId];
    var cart := cartStore.carts[cartId];
    if FindItem(cart.items, productId).Some? {
      return Err(APIException("Product " + product.productName + " is already in the cart"));
    }
    if product.quantity == 0 {
      return Err(APIException(product.productName + " is not available"));
    }
    if product.quantity < quantity {
      return Err(APIException(product.productName + " is out of stock"));
    }
    var newCart := SaveAddedLine(catalog, cartStore, cartId, productId, quantity);
    r := Ok(newCart);
  }

  /** The writes of a successful addProductToCart: a new line recording the product's base price
      and discount, the total grown by the special price times the quantity, and the stock lowered
      by the quantity. */
  method SaveAddedLine(catalog: Catalog, cartStore: CartStore, cartId: int, productId: int, quantity: int)
    returns (newCart: Cart)
    requires Consistent(catalog, cartStore) && cartId in cartStore.carts
    requires AddLine(cartStore.carts[cartId], catalog.products, productId, quantity).Ok?
    modifies cartStore`carts, catalog`products
    ensures Consistent(catalog, cartStore)
    ensures productId in old(catalog.products)
    ensures newCart == AddLine(old(cartStore.carts)[cartId], old(catalog.products), productId, quantity).value
    ensures cartStore.carts == old(cartStore.carts)[cartId := newCart]
    ensures catalog.products == TakeStock(old(catalog.products), productId, quantity)
  {
    var product := catalog.products[productId];
    var cart := cartStore.carts[cartId];
    var newItem := CartItem(productId, quantity, product.discount, product.price);
    newCart := cart.(items := cart.items + [newItem],
                     totalPrice := cart.totalPrice + Times(product.specialPrice, quantity));
    AddLineValue(cart, catalog.products, productId, quantity);
    DistinctAfterAppend(cart.items, newItem, catalog.products);
    SaveProduct(catalog, cartStore, product.(quantity := product.quantity - quantity));
    assert ProductsKnown(newCart.items, catalog.products);
    SaveCart(catalog, cartStore, cartId, newCart);
  }

  /** deleteProductFromCart (transactional). The stock is not given back. */
  method DeleteProductFromCart(catalog: Catalog, cartStore: CartStore, cartId: int, productId: int)
    returns (r: Result<string>)
    requires Consistent(catalog, cartStore)
    modifies cartStore`carts
    ensures Consistent(catalog, cartStore)
    ensures r.Ok? == RemoveLine(old(cartStore.carts), catalog.products, cartId, productId).Ok?
    ensures r.Err? ==>
      && r.error == RemoveLine(old(cartStore.carts), catalog.products, cartId, productId).error
      && cartStore.carts == old(cartStore.carts)
    ensures r.Ok? ==>
      && r.value == "Product removed From Cart"
      && cartStore.carts == old(cartStore.carts)[cartId := RemoveLine(old(cartStore.carts), catalog.products, cartId, productId).value]
  {
    if cartId !in cartStore.carts {
      return Err(ResourceNotFound("Cart", "cartID", IdValue(cartId)));
    }
    var cart := cartStore.carts[cartId];
    var found := FindItem(cart.items, productId);
    if found.None? {
      return Err(ResourceNotFound("Product", "productID", IdValue(productId)));
    }
    var item := cart.items[found.value];
    var specialPrice := catalog.products[productId].specialPrice;
    var newTotal := cart.totalPrice - Times(specialPrice, item.quantity);
    var newItems := RemoveItem(cart.items, productId);
    RemoveItemAt(cart.items, productId, found.value);
    var newCart := cart.(totalPrice := newTotal, items := newItems);
    WithoutProductWellFormed(cart, productId, specialPrice, catalog.products);
    SaveCart(catalog, cartStore, cartId, newCart);
    r := Ok("Product removed From Cart");
  }

  /** updateProductQuantityInCart (transactional) for the logged-in user's email: delta is the +1
      or -1 the controller derives from the requested operation. Stock is not touched here. */
  method UpdateProductQuantityInCart(catalog: Catalog, cartStore: CartStore, email: string, productId: int, delta: int)
    returns (r: Result<Cart>)
    requires Consistent(catalog, cartStore)
    requires delta != 0
    modifies cartStore`carts
    ensures Consistent(catalog, cartStore)
    ensures email !in old(cartStore.cartOf) ==> r == Err(RuntimeFailure("NullPointerException: the user has no cart"))
    ensures email in old(cartStore.cartOf) ==>
      r == ChangeQuantity(old(cartStore.carts)[old(cartStore.cartOf)[email]], catalog.products, productId, delta)
    ensures r.Ok? ==> email in old(cartStore.cartOf) && cartStore.carts == old(cartStore.carts)[old(cartStore.cartOf)[email] := r.value]
    ensures r.Err? ==> cartStore.carts == old(cartStore.carts)
  {
    if email !in cartStore.cartOf {
      return Err(RuntimeFailure("NullPointerException: the user has no cart"));
    }
    var cartId := cartStore.cartOf[email];
    if productId !in catalog.products {
      return Err(ResourceNotFound("Product", "ProductId", IdValue(productId)));
    }
    var product := catalog.products[productId];
    if product.quantity == 0 {
      return Err(APIException("Product is not available!!"));
    }
    if product.quantity < delta {
      return Err(APIException("Please, make an order of the " + product.productName
                              + " less than or equal to the quantity " + IntToString(product.quantity) + "."));
    }
    var cart := cartStore.carts[cartId];
    var found := FindItem(cart.items, productId);
    if found.None? {
      return Err(APIException(product.productName + " is not available in the cart!!!"));
    }
    var k := found.value;
    var newQuantity := cart.items[k].quantity + delta;
    if newQuantity < 0 {
      return Err(APIException("Quantity can not be negative!!"));
    }
    if newQuantity == 0 {
      var removed := DeleteProductFromCart(catalog, cartStore, cartId, productId);
      r := Ok(cartStore.carts[cartId]);
    } else {
      var updated := CartItem(productId, newQuantity, product.discount, product.specialPrice);
      var newCart := cart.(items := cart.items[k := updated],
                           totalPrice := cart.totalPrice + Times(updated.productPrice, delta));
      DistinctAfterReplace(cart.items, k, updated, catalog.products);
      SaveCart(catalog, cartStore, cartId, newCart);
      r := Ok(newCart);
    }
  }

  /** updateProductInCarts: re-prices one cart's line for productId at the product's current
      special price; the quantity stays. */
  method UpdateProductInCarts(catalog: Catalog, cartStore: CartStore, cartId: int, productId: int) returns (r: Result<()>)
    requires Consistent(catalog, cartStore)
    modifies cartStore`carts
    ensures Consistent(catalog, cartStore)
    ensures r.Ok? == RepriceLine(old(cartStore.carts), catalog.products, cartId, productId).Ok?
    ensures r.Err? ==>
      && r.error == RepriceLine(old(cartStore.carts), catalog.products, cartId, productId).error
      && cartStore.carts == old(cartStore.carts)
    ensures r.Ok? ==>
      cartStore.carts == old(cartStore.carts)[cartId := RepriceLine(old(cartStore.carts), catalog.products, cartId, productId).value]
  {
    if cartId !in cartStore.carts {
      return Err(ResourceNotFound("Cart", "CartId", IdValue(cartId)));
    }
    var cart := cartStore.carts[cartId];
    if productId !in catalog.products {
      return Err(ResourceNotFound("Product", "ProductId", IdValue(productId)));
    }
    var product := catalog.products[productId];
    var found := FindItem(cart.items, productId);
    if found.None? {
      return Err(APIException("Product Not available!!"));
    }
    var item := cart.items[found.value];
    var cartPrice := cart.totalPrice - Times(item.productPrice, item.quantity);
    item := item.(productPrice := product.specialPrice);
    var newCart := cart.(items := cart.items[found.value := item],
                         totalPrice := cartPrice + Times(item.productPrice, item.quantity));
    RepriceCartWellFormed(cart, productId, product.specialPrice, catalog.products);
    SaveCart(catalog, cartStore, cartId, newCart);
    r := Ok(());
  }

  /** getCart: the cart with this id when it belongs to this email; otherwise not found. */
  method GetCart(cartStore: CartStore, email: string, cartId: int) returns (r: Result<Cart>)
    requires cartStore.Valid()
    ensures r.Ok? <==> cartId in cartStore.carts && cartStore.carts[cartId].email == email
    ensures r.Ok? ==> r.value == cartStore.carts[cartId]
    ensures r.Err? ==> r.error == ResourceNotFound("Cart", "CartId", IdValue(cartId))
  {
    if email in cartStore.cartOf && cartStore.cartOf[email] == cartId {
      r := Ok(cartStore.carts[cartId]);
    } else {
      r := Err(ResourceNotFound("Cart", "CartId", IdValue(cartId)));
    }
  }
}
