/** What the cart service does to carts, as functions of the stored values, and the properties of
    those effects: one line per product, the cached total against the sum of the lines at the
    current special prices, stock taken by an add. */
module CartModel {
  import opened Text
  import opened Domain
  import opened Store
  import opened Money

  // ---------------------------------------------------------------------------------------------
  // The controller's quantity operation

  /** The delta the cart controller passes for an operation: -1 for "delete" in any letter case,
      +1 for every other operation. It is never 0. */
  function QuantityDelta(operation: string): (delta: int)
    ensures delta == -1 <==> EqualsIgnoreCase(operation, "delete")
    ensures delta == 1 <==> !EqualsIgnoreCase(operation, "delete")
  {
    if EqualsIgnoreCase(operation, "delete") then -1 else 1
  }

  /** "DELETE" and "Delete" decrement; "add", "remove" and "deleted" increment. */
  lemma QuantityDeltaExamples()
    ensures QuantityDelta("DELETE") == -1 && QuantityDelta("Delete") == -1
    ensures QuantityDelta("add") == 1 && QuantityDelta("remove") == 1 && QuantityDelta("deleted") == 1
  {
    assert EqualsIgnoreCase("DELETE", "delete") by {
      assert ToLowerAscii('D') == 'd' && ToLowerAscii('E') == 'e' && ToLowerAscii('L') == 'l' && ToLowerAscii('T') == 't';
    }
    assert EqualsIgnoreCase("Delete", "delete") by {
      assert ToLowerAscii('D') == 'd';
    }
    assert !EqualsIgnoreCase("remove", "delete") by {
      assert ToLowerAscii('r') != ToLowerAscii('d');
    }
  }

  // ---------------------------------------------------------------------------------------------
  // Cart items addressed by (cart, product)

  /** findCartItemByProductIdAndCartId: the position of the item for productId in a cart's items. */
  function FindItem(items: seq<CartItem>, productId: int): (r: Option<nat>)
    ensures r.Some? ==> r.value < |items| && items[r.value].productId == productId
    ensures r.None? <==> forall k :: 0 <= k < |items| ==> items[k].productId != productId
  {
    if items == [] then None
    else if items[0].productId == productId then Some(0)
    else match FindItem(items[1..], productId)
      case None => None
      case Some(k) => Some(k + 1)
  }

  /** deleteCartItemByProductIdAndCartId: the bulk delete drops every item of the cart for productId. */
  function RemoveItem(items: seq<CartItem>, productId: int): (r: seq<CartItem>)
    ensures forall k :: 0 <= k < |r| ==> r[k].productId != productId
  {
    if items == [] then []
    else (if items[0].productId == productId then [] else [items[0]]) + RemoveItem(items[1..], productId)
  }

  /** In a cart without duplicate products, the bulk delete removes exactly the one matching item
      and keeps the others in order. */
  lemma {:induction false} RemoveItemAt(items: seq<CartItem>, productId: int, k: nat)
    requires DistinctProducts(items)
    requires k < |items| && items[k].productId == productId
    ensures RemoveItem(items, productId) == items[..k] + items[k + 1..]
  {
    if k == 0 {
      RemoveItemAbsent(items[1..], productId);
      assert items[1..] == items[..0] + items[1..];
    } else {
      RemoveItemAt(items[1..], productId, k - 1);
      assert items[1..][..k - 1] + items[1..][k..] == items[1..k] + items[k + 1..];
      assert [items[0]] + items[1..k] == items[..k];
    }
  }

  /** Deleting a product the cart does not hold leaves the items as they are. */
  lemma {:induction false} RemoveItemAbsent(items: seq<CartItem>, productId: int)
    requires forall k :: 0 <= k < |items| ==> items[k].productId != productId
    ensures RemoveItem(items, productId) == items
  {
    if items != [] {
      RemoveItemAbsent(items[1..], productId);
      assert [items[0]] + items[1..] == items;
    }
  }

  lemma DistinctAfterRemoveAt(items: seq<CartItem>, k: nat)
    requires DistinctProducts(items) && k < |items|
    ensures DistinctProducts(items[..k] + items[k + 1..])
  {
    var r := items[..k] + items[k + 1..];
    forall j | 0 <= j < |r|
      ensures r[j] == items[if j < k then j else j + 1]
    {
    }
  }

  lemma DistinctAfterReplace(items: seq<CartItem>, k: nat, x: CartItem, products: map<int, Product>)
    requires DistinctProducts(items) && ProductsKnown(items, products) && k < |items| && x.productId == items[k].productId
    ensures DistinctProducts(items[k := x]) && ProductsKnown(items[k := x], products)
  {
    assert forall j :: 0 <= j < |items| ==> items[k := x][j].productId == items[j].productId;
  }

  /** Replacing one cart by a well-formed cart with the same id and owner keeps the cart tables well formed. */
  lemma CartsWellFormedReplace(carts: map<int, Cart>, cartOf: map<string, int>, cid: int, c: Cart)
    requires CartsWellFormed(carts, cartOf) && cid in carts
    requires c.cartId == cid && c.email == carts[cid].email && DistinctProducts(c.items)
    ensures CartsWellFormed(carts[cid := c], cartOf)
  {
  }

  lemma CartItemsKnownReplace(carts: map<int, Cart>, products: map<int, Product>, cid: int, c: Cart)
    requires CartItemsKnown(carts, products) && ProductsKnown(c.items, products)
    ensures CartItemsKnown(carts[cid := c], products)
  {
  }

  // ---------------------------------------------------------------------------------------------
  // What a cart's total ought to be

  /** One line at the product's current special price. */
  function LineTotal(item: CartItem, products: map<int, Product>): real
    requires item.productId in products
  {
    Times(products[item.productId].specialPrice, item.quantity)
  }

  /** The sum of the cart's lines at the current special prices. */
  function SpecialTotal(items: seq<CartItem>, products: map<int, Product>): real
    requires ProductsKnown(items, products)
    decreases |items|
  {
    if items == [] then 0.0
    else SpecialTotal(items[..|items| - 1], products) + LineTotal(items[|items| - 1], products)
  }

  /** The cached total agrees with the items at the current special prices. */
  ghost predicate TotalMatches(cart: Cart, products: map<int, Product>) {
    ProductsKnown(cart.items, products) && cart.totalPrice == SpecialTotal(cart.items, products)
  }

  ghost predicate TotalsMatch(carts: map<int, Cart>, products: map<int, Product>) {
    forall c :: c in carts ==> TotalMatches(carts[c], products)
  }

  /** Two catalogue states that agree on every special price. */
  ghost predicate SamePrices(p1: map<int, Product>, p2: map<int, Product>) {
    p1.Keys == p2.Keys && forall id :: id in p1 ==> p1[id].specialPrice == p2[id].specialPrice
  }

  lemma {:induction false} SpecialTotalAppend(a: seq<CartItem>, b: seq<CartItem>, products: map<int, Product>)
    requires ProductsKnown(a, products) && ProductsKnown(b, products)
    ensures ProductsKnown(a + b, products)
    ensures SpecialTotal(a + b, products) == SpecialTotal(a, products) + SpecialTotal(b, products)
    decreases |b|
  {
    assert forall k :: 0 <= k < |a + b| ==> (a + b)[k] == if k < |a| then a[k] else b[k - |a|];
    if b == [] {
      assert a + b == a;
    } else {
      var b' := b[..|b| - 1];
      SpecialTotalAppend(a, b', products);
      assert (a + b)[..|a + b| - 1] == a + b';
    }
  }

  lemma SpecialTotalSingle(x: CartItem, products: map<int, Product>)
    requires x.productId in products
    ensures ProductsKnown([x], products)
    ensures SpecialTotal([x], products) == LineTotal(x, products)
  {
    assert [x][..0] == [];
  }

  /** Splitting the items around position k. */
  lemma SpecialTotalSplit(items: seq<CartItem>, k: nat, products: map<int, Product>)
    requires ProductsKnown(items, products) && k < |items|
    ensures ProductsKnown(items[..k], products) && ProductsKnown(items[k + 1..], products)
    ensures SpecialTotal(items, products)
         == SpecialTotal(items[..k], products) + LineTotal(items[k], products) + SpecialTotal(items[k + 1..], products)
  {
    assert ProductsKnown(items[..k], products);
    assert ProductsKnown(items[k + 1..], products);
    SpecialTotalSingle(items[k], products);
    SpecialTotalAppend(items[..k], [items[k]], products);
    SpecialTotalAppend(items[..k] + [items[k]], items[k + 1..], products);
    assert items[..k] + [items[k]] + items[k + 1..] == items;
  }

  /** Removing the item at k lowers the sum by exactly that line. */
  lemma SpecialTotalRemoveAt(items: seq<CartItem>, k: nat, products: map<int, Product>)
    requires ProductsKnown(items, products) && k < |items|
    ensures ProductsKnown(items[..k] + items[k + 1..], products)
    ensures SpecialTotal(items[..k] + items[k + 1..], products) == SpecialTotal(items, products) - LineTotal(items[k], products)
  {
    SpecialTotalSplit(items, k, products);
    SpecialTotalAppend(items[..k], items[k + 1..], products);
  }

  /** Replacing the item at k by one for the same product changes the sum by the difference of the two lines. */
  lemma SpecialTotalReplaceAt(items: seq<CartItem>, k: nat, x: CartItem, products: map<int, Product>)
    requires ProductsKnown(items, products) && k < |items| && x.productId == items[k].productId
    ensures ProductsKnown(items[k := x], products)
    ensures SpecialTotal(items[k := x], products)
         == SpecialTotal(items, products) - LineTotal(items[k], products) + LineTotal(x, products)
  {
    var items' := items[k := x];
    assert ProductsKnown(items', products);
    SpecialTotalSplit(items, k, products);
    SpecialTotalSplit(items', k, products);
    assert items'[..k] == items[..k] && items'[k + 1..] == items[k + 1..];
  }

  /** The sum reads only the special prices of the products the items name. */
  lemma {:induction false} SpecialTotalSamePrices(items: seq<CartItem>, p1: map<int, Product>, p2: map<int, Product>)
    requires ProductsKnown(items, p1) && ProductsKnown(items, p2)
    requires forall k :: 0 <= k < |items| ==> p1[items[k].productId].specialPrice == p2[items[k].productId].specialPrice
    ensures SpecialTotal(items, p1) == SpecialTotal(items, p2)
    decreases |items|
  {
    if items != [] {
      SpecialTotalSamePrices(items[..|items| - 1], p1, p2);
    }
  }

  lemma TotalsMatchReplace(carts: map<int, Cart>, products: map<int, Product>, cid: int, c: Cart)
    requires TotalsMatch(carts, products) && TotalMatches(c, products)
    ensures TotalsMatch(carts[cid := c], products)
  {
  }

  /** Stock changes leave every cart's agreement with the prices as it was. */
  lemma TotalsMatchSamePrices(carts: map<int, Cart>, p1: map<int, Product>, p2: map<int, Product>)
    requires TotalsMatch(carts, p1) && SamePrices(p1, p2)
    ensures TotalsMatch(carts, p2)
  {
    forall c | c in carts
      ensures TotalMatches(carts[c], p2)
    {
      SpecialTotalSamePrices(carts[c].items, p1, p2);
    }
  }

  // ---------------------------------------------------------------------------------------------
  // Cart effects shared with the product and order services

  /** deleteProductFromCart's effect on a cart: the total drops by the product's current special
      price times the item's quantity and the item goes; a cart without the product is unchanged. */
  function WithoutProduct(cart: Cart, productId: int, specialPrice: real): (r: Cart)
    ensures r.cartId == cart.cartId && r.email == cart.email
    ensures FindItem(cart.items, productId).None? ==> r == cart
    ensures FindItem(cart.items, productId).Some? ==>
              && |r.items| == |cart.items| - 1
              && r.totalPrice == cart.totalPrice - Times(specialPrice, cart.items[FindItem(cart.items, productId).value].quantity)
  {
    var found := FindItem(cart.items, productId);
    if found.None? then cart
    else
      var k := found.value;
      cart.(totalPrice := cart.totalPrice - Times(specialPrice, cart.items[k].quantity),
            items := cart.items[..k] + cart.items[k + 1..])
  }

  /** Removing a product's line at its current special price keeps a cart's total correct. */
  lemma WithoutProductKeepsTotal(cart: Cart, productId: int, products: map<int, Product>)
    requires TotalMatches(cart, products) && productId in products
    ensures TotalMatches(WithoutProduct(cart, productId, products[productId].specialPrice), products)
  {
    var found := FindItem(cart.items, productId);
    if found.Some? {
      var k := found.value;
      SpecialTotalRemoveAt(cart.items, k, products);
      var c' := cart.(totalPrice := cart.totalPrice - Times(products[productId].specialPrice, cart.items[k].quantity),
                      items := cart.items[..k] + cart.items[k + 1..]);
      assert WithoutProduct(cart, productId, products[productId].specialPrice) == c';
    }
  }

  /** Removing a product keeps the cart's lines distinct and known. */
  lemma WithoutProductWellFormed(cart: Cart, productId: int, specialPrice: real, products: map<int, Product>)
    requires DistinctProducts(cart.items) && ProductsKnown(cart.items, products)
    ensures var c' := WithoutProduct(cart, productId, specialPrice);
            && c'.cartId == cart.cartId && c'.email == cart.email
            && DistinctProducts(c'.items) && ProductsKnown(c'.items, products)
  {
    var found := FindItem(cart.items, productId);
    if found.Some? {
      DistinctAfterRemoveAt(cart.items, found.value);
      assert ProductsKnown(cart.items[..found.value] + cart.items[found.value + 1..], products);
    }
  }

  /** Changing one line's quantity by delta and adding specialPrice * delta keeps a cart's total correct. */
  lemma ChangeQuantityKeepsTotal(cart: Cart, k: nat, x: CartItem, delta: int, products: map<int, Product>)
    requires TotalMatches(cart, products) && k < |cart.items|
    requires x.productId == cart.items[k].productId && x.quantity == cart.items[k].quantity + delta
    ensures x.productId in products
    ensures TotalMatches(cart.(items := cart.items[k := x],
                               totalPrice := cart.totalPrice + Times(products[x.productId].specialPrice, delta)), products)
  {
    SpecialTotalReplaceAt(cart.items, k, x, products);
    TimesAdd(products[x.productId].specialPrice, cart.items[k].quantity, delta);
  }

  /** updateProductInCarts' effect on a cart: the item's stored price is swapped for the new special
      price inside the total, and the item now carries the new special price. */
  function RepriceCart(cart: Cart, productId: int, specialPrice: real): (r: Cart)
    ensures r.cartId == cart.cartId && r.email == cart.email && |r.items| == |cart.items|
    ensures FindItem(cart.items, productId).None? ==> r == cart
    ensures FindItem(cart.items, productId).Some? ==>
              var k := FindItem(cart.items, productId).value;
              && r.items == cart.items[k := cart.items[k].(productPrice := specialPrice)]
  {
    var found := FindItem(cart.items, productId);
    if found.None? then cart
    else
      var item := cart.items[found.value];
      cart.(totalPrice := cart.totalPrice - Times(item.productPrice, item.quantity) + Times(specialPrice, item.quantity),
            items := cart.items[found.value := item.(productPrice := specialPrice)])
  }

  /** Re-pricing keeps the cart's lines distinct and known. */
  lemma RepriceCartWellFormed(cart: Cart, productId: int, specialPrice: real, products: map<int, Product>)
    requires DistinctProducts(cart.items) && ProductsKnown(cart.items, products)
    ensures var c' := RepriceCart(cart, productId, specialPrice);
            && c'.cartId == cart.cartId && c'.email == cart.email
            && DistinctProducts(c'.items) && ProductsKnown(c'.items, products)
  {
    var found := FindItem(cart.items, productId);
    if found.Some? {
      var k := found.value;
      DistinctAfterReplace(cart.items, k, cart.items[k].(productPrice := specialPrice), products);
    }
  }

  /** Re-pricing leaves the cached total off from the recomputed one by exactly
      (old special price - stored item price) * quantity: it stays correct only for an item that
      was stored at the old special price, which an item fresh from addProductToCart (stored at
      the base price) is not unless the discount is 0. */
  lemma RepriceDrift(cart: Cart, products: map<int, Product>, k: nat, specialPrice: real)
    requires TotalMatches(cart, products) && DistinctProducts(cart.items) && k < |cart.items|
    ensures var item := cart.items[k];
            var repriced := products[item.productId := products[item.productId].(specialPrice := specialPrice)];
            var after := RepriceCart(cart, item.productId, specialPrice);
            && ProductsKnown(after.items, repriced)
            && after.totalPrice
               == SpecialTotal(after.items, repriced)
                  + Times(products[item.productId].specialPrice - item.productPrice, item.quantity)
  {
    var item := cart.items[k];
    assert FindItem(cart.items, item.productId) == Some(k);
    RepricedSum(cart.items, products, k, specialPrice);
    TimesSub(products[item.productId].specialPrice, item.productPrice, item.quantity);
  }

  /** The recomputed sum after one product's special price changes and its item is re-priced. */
  lemma RepricedSum(items: seq<CartItem>, products: map<int, Product>, k: nat, specialPrice: real)
    requires ProductsKnown(items, products) && DistinctProducts(items) && k < |items|
    ensures var item := items[k];
            var repriced := products[item.productId := products[item.productId].(specialPrice := specialPrice)];
            var items' := items[k := item.(productPrice := specialPrice)];
            && ProductsKnown(items', repriced)
            && SpecialTotal(items', repriced)
               == SpecialTotal(items, products) - LineTotal(item, products) + Times(specialPrice, item.quantity)
  {
    var item := items[k];
    var productId := item.productId;
    var repriced := products[productId := products[productId].(specialPrice := specialPrice)];
    var items' := items[k := item.(productPrice := specialPrice)];
    assert ProductsKnown(items', repriced);
    SpecialTotalSplit(items, k, products);
    SpecialTotalSplit(items', k, repriced);
    assert items'[..k] == items[..k] && items'[k + 1..] == items[k + 1..];
    SpecialTotalOtherPrice(items[..k], products, productId, specialPrice);
    SpecialTotalOtherPrice(items[k + 1..], products, productId, specialPrice);
  }

  /** Changing the special price of a product the items do not name leaves their sum alone. */
  lemma SpecialTotalOtherPrice(items: seq<CartItem>, products: map<int, Product>, productId: int, specialPrice: real)
    requires ProductsKnown(items, products) && productId in products
    requires forall j :: 0 <= j < |items| ==> items[j].productId != productId
    ensures ProductsKnown(items, products[productId := products[productId].(specialPrice := specialPrice)])
    ensures SpecialTotal(items, products[productId := products[productId].(specialPrice := specialPrice)])
         == SpecialTotal(items, products)
  {
    var repriced := products[productId := products[productId].(specialPrice := specialPrice)];
    SpecialTotalSamePrices(items, products, repriced);
  }

  /** A user's first cart joins the cart tables without breaking them. */
  lemma CartsWellFormedNewCart(carts: map<int, Cart>, cartOf: map<string, int>, cartId: int, email: string)
    requires CartsWellFormed(carts, cartOf) && email !in cartOf && cartId !in carts
    ensures CartsWellFormed(carts[cartId := Cart(cartId, email, 0.0, [])], cartOf[email := cartId])
  {
  }

  /** A stock change leaves the cart tables well formed. */
  lemma CartItemsKnownRestock(carts: map<int, Cart>, products: map<int, Product>, productId: int, p: Product)
    requires CartItemsKnown(carts, products) && productId in products
    ensures CartItemsKnown(carts, products[productId := p])
  {
  }

  lemma DistinctAfterAppend(items: seq<CartItem>, x: CartItem, products: map<int, Product>)
    requires DistinctProducts(items) && ProductsKnown(items, products) && x.productId in products
    requires FindItem(items, x.productId).None?
    ensures DistinctProducts(items + [x]) && ProductsKnown(items + [x], products)
  {
    assert forall j :: 0 <= j < |items| ==> (items + [x])[j] == items[j];
  }

  /** A new line at the product's special price, added into the total, keeps a cart's total correct. */
  lemma AppendKeepsTotal(cart: Cart, x: CartItem, products: map<int, Product>)
    requires TotalMatches(cart, products) && x.productId in products
    ensures TotalMatches(cart.(items := cart.items + [x],
                               totalPrice := cart.totalPrice + Times(products[x.productId].specialPrice, x.quantity)), products)
  {
    SpecialTotalSingle(x, products);
    SpecialTotalAppend(cart.items, [x], products);
  }

  // ---------------------------------------------------------------------------------------------
  // What each operation does to a cart, as functions of the stored values

  /** addProductToCart's checks, in the order the service makes them, and the cart it then saves:
      a new line recording the product's base price and discount, the total grown by the special
      price times the quantity. */
  function AddLine(cart: Cart, products: map<int, Product>, productId: int, quantity: int): (r: Result<Cart>)
    ensures r.Ok? <==> && productId in products && FindItem(cart.items, productId).None?
                       && products[productId].quantity != 0 && quantity <= products[productId].quantity
    ensures productId !in products ==> r == Err(ResourceNotFound("Product", "productID", IdValue(productId)))
    ensures r.Err? ==> r.error.ResourceNotFound? || r.error.APIException?
    ensures r.Ok? ==> && r.value.cartId == cart.cartId && r.value.email == cart.email
                      && |r.value.items| == |cart.items| + 1 && r.value.items[..|cart.items|] == cart.items
  {
    if productId !in products then Err(ResourceNotFound("Product", "productID", IdValue(productId)))
    else
      var p := products[productId];
      if FindItem(cart.items, productId).Some? then Err(APIException("Product " + p.productName + " is already in the cart"))
      else if p.quantity == 0 then Err(APIException(p.productName + " is not available"))
      else if p.quantity < quantity then Err(APIException(p.productName + " is out of stock"))
      else Ok(cart.(items := cart.items + [CartItem(productId, quantity, p.discount, p.price)],
                    totalPrice := cart.totalPrice + Times(p.specialPrice, quantity)))
  }

  /** deleteProductFromCart's checks and the cart it saves. */
  function RemoveLine(carts: map<int, Cart>, products: map<int, Product>, cartId: int, productId: int): (r: Result<Cart>)
    requires cartId in carts ==> ProductsKnown(carts[cartId].items, products)
    ensures r.Ok? <==> cartId in carts && FindItem(carts[cartId].items, productId).Some?
    ensures r.Err? ==> r.error.ResourceNotFound?
    ensures r.Ok? ==> && r.value.cartId == carts[cartId].cartId && r.value.email == carts[cartId].email
                      && |r.value.items| == |carts[cartId].items| - 1
  {
    if cartId !in carts then Err(ResourceNotFound("Cart", "cartID", IdValue(cartId)))
    else if FindItem(carts[cartId].items, productId).None? then Err(ResourceNotFound("Product", "productID", IdValue(productId)))
    else Ok(WithoutProduct(carts[cartId], productId, products[productId].specialPrice))
  }

  /** updateProductQuantityInCart's checks and the cart it saves, for a user who has a cart. A line
      that reaches 0 is deleted as deleteProductFromCart does; otherwise the line takes the new
      quantity, the current discount and special price, and the total moves by special price * delta. */
  function ChangeQuantity(cart: Cart, products: map<int, Product>, productId: int, delta: int): (r: Result<Cart>)
    ensures r.Ok? <==> && productId in products && products[productId].quantity != 0
                       && delta <= products[productId].quantity && FindItem(cart.items, productId).Some?
                       && 0 <= cart.items[FindItem(cart.items, productId).value].quantity + delta
    ensures productId !in products ==> r == Err(ResourceNotFound("Product", "ProductId", IdValue(productId)))
    ensures productId in products ==> (r.Err? ==> r.error.APIException?)
    ensures r.Ok? ==> r.value.cartId == cart.cartId && r.value.email == cart.email
  {
    if productId !in products then Err(ResourceNotFound("Product", "ProductId", IdValue(productId)))
    else
      var p := products[productId];
      if p.quantity == 0 then Err(APIException("Product is not available!!"))
      else if p.quantity < delta then
        Err(APIException("Please, make an order of the " + p.productName
                         + " less than or equal to the quantity " + IntToString(p.quantity) + "."))
      else
        var found := FindItem(cart.items, productId);
        if found.None? then Err(APIException(p.productName + " is not available in the cart!!!"))
        else
          var newQuantity := cart.items[found.value].quantity + delta;
          if newQuantity < 0 then Err(APIException("Quantity can not be negative!!"))
          else if newQuantity == 0 then Ok(WithoutProduct(cart, productId, p.specialPrice))
          else Ok(cart.(items := cart.items[found.value := CartItem(productId, newQuantity, p.discount, p.specialPrice)],
                        totalPrice := cart.totalPrice + Times(p.specialPrice, delta)))
  }

  /** updateProductInCarts' checks and the cart it saves. */
  function RepriceLine(carts: map<int, Cart>, products: map<int, Product>, cartId: int, productId: int): (r: Result<Cart>)
    ensures r.Ok? <==> cartId in carts && productId in products && FindItem(carts[cartId].items, productId).Some?
    ensures r.Ok? ==> && r.value.cartId == carts[cartId].cartId && r.value.email == carts[cartId].email
                      && |r.value.items| == |carts[cartId].items|
                      && var k := FindItem(carts[cartId].items, productId).value;
                         r.value.items[k] == carts[cartId].items[k].(productPrice := products[productId].specialPrice)
  {
    if cartId !in carts then Err(ResourceNotFound("Cart", "CartId", IdValue(cartId)))
    else if productId !in products then Err(ResourceNotFound("Product", "ProductId", IdValue(productId)))
    else if FindItem(carts[cartId].items, productId).None? then Err(APIException("Product Not available!!"))
    else Ok(RepriceCart(carts[cartId], productId, products[productId].specialPrice))
  }

  // ---------------------------------------------------------------------------------------------
  // Properties of the cart operations

  /** A successful add keeps the cart's lines distinct and its total equal to the sum of its lines
      at the special prices; the stock was not 0 and covers the quantity, and the new line is the
      last one. */
  lemma AddLineCorrect(cart: Cart, products: map<int, Product>, productId: int, quantity: int)
    requires DistinctProducts(cart.items) && ProductsKnown(cart.items, products)
    requires AddLine(cart, products, productId, quantity).Ok?
    ensures var c' := AddLine(cart, products, productId, quantity).value;
            && productId in products && products[productId].quantity != 0
            && 0 <= products[productId].quantity - quantity
            && c'.cartId == cart.cartId && c'.email == cart.email
            && DistinctProducts(c'.items) && ProductsKnown(c'.items, products)
            && (TotalMatches(cart, products) ==> TotalMatches(c', products))
            && FindItem(c'.items, productId) == Some(|cart.items|)
  {
    var p := products[productId];
    var x := CartItem(productId, quantity, p.discount, p.price);
    DistinctAfterAppend(cart.items, x, products);
    if TotalMatches(cart, products) {
      AppendKeepsTotal(cart, x, products);
    }
    FindItemAppend(cart.items, x);
  }

  lemma AddLineValue(cart: Cart, products: map<int, Product>, productId: int, quantity: int)
    requires AddLine(cart, products, productId, quantity).Ok?
    ensures productId in products && FindItem(cart.items, productId).None?
    ensures var p := products[productId];
            AddLine(cart, products, productId, quantity).value
            == cart.(items := cart.items + [CartItem(productId, quantity, p.discount, p.price)],
                     totalPrice := cart.totalPrice + Times(p.specialPrice, quantity))
  {
  }

  /** The cart a successful quantity change gives. When the new quantity is 0 the product's line is
      taken out and the total drops by the special price times the old quantity; otherwise the line
      is replaced in place by one with the new quantity and the product's current discount and
      special price, every other line is kept, and the stored total moves by the special price
      times the delta, whatever it was before. */
  lemma ChangeQuantityValue(cart: Cart, products: map<int, Product>, productId: int, delta: int)
    requires ChangeQuantity(cart, products, productId, delta).Ok?
    ensures productId in products && FindItem(cart.items, productId).Some?
    ensures var p := products[productId];
            var k := FindItem(cart.items, productId).value;
            var q := cart.items[k].quantity + delta;
            var r := ChangeQuantity(cart, products, productId, delta).value;
            && (q == 0 ==>
                  r == cart.(items := cart.items[..k] + cart.items[k + 1..],
                             totalPrice := cart.totalPrice - Times(p.specialPrice, cart.items[k].quantity)))
            && (q != 0 ==>
                  r == cart.(items := cart.items[k := CartItem(productId, q, p.discount, p.specialPrice)],
                             totalPrice := cart.totalPrice + Times(p.specialPrice, delta)))
  {
  }

  /** A cart's total agreement depends only on the special prices. */
  lemma TotalMatchesSamePrices(cart: Cart, p1: map<int, Product>, p2: map<int, Product>)
    requires TotalMatches(cart, p1) && SamePrices(p1, p2)
    ensures TotalMatches(cart, p2)
  {
    SpecialTotalSamePrices(cart.items, p1, p2);
  }

  lemma FindItemAppend(items: seq<CartItem>, x: CartItem)
    requires FindItem(items, x.productId).None?
    ensures FindItem(items + [x], x.productId) == Some(|items|)
  {
    var r := FindItem(items + [x], x.productId);
    assert (items + [x])[|items|] == x;
    assert forall k :: 0 <= k < |items| ==> (items + [x])[k] == items[k];
  }

  /** Deleting the line just added gives back the cart as it was before the add (the stock the add
      took is not given back, since deleteProductFromCart leaves stock alone). */
  lemma AddThenRemove(carts: map<int, Cart>, products: map<int, Product>, cartId: int, productId: int, quantity: int)
    requires cartId in carts && DistinctProducts(carts[cartId].items) && TotalMatches(carts[cartId], products)
    requires AddLine(carts[cartId], products, productId, quantity).Ok?
    ensures var added := carts[cartId := AddLine(carts[cartId], products, productId, quantity).value];
            && ProductsKnown(added[cartId].items, products)
            && RemoveLine(added, products, cartId, productId) == Ok(carts[cartId])
  {
    var cart := carts[cartId];
    var p := products[productId];
    AddLineCorrect(cart, products, productId, quantity);
    var c' := AddLine(cart, products, productId, quantity).value;
    assert c' == cart.(items := cart.items + [CartItem(productId, quantity, p.discount, p.price)],
                       totalPrice := cart.totalPrice + Times(p.specialPrice, quantity));
    var k := |cart.items|;
    assert c'.items[..k] == cart.items && c'.items[k + 1..] == [];
    assert WithoutProduct(c', productId, p.specialPrice) == cart;
  }

  /** A successful delete keeps the cart well formed and its total correct, and the product is gone. */
  lemma RemoveLineCorrect(carts: map<int, Cart>, products: map<int, Product>, cartId: int, productId: int)
    requires cartId in carts && DistinctProducts(carts[cartId].items) && TotalMatches(carts[cartId], products)
    requires RemoveLine(carts, products, cartId, productId).Ok?
    ensures var c' := RemoveLine(carts, products, cartId, productId).value;
            && c'.cartId == carts[cartId].cartId && c'.email == carts[cartId].email
            && DistinctProducts(c'.items) && TotalMatches(c', products)
            && |c'.items| == |carts[cartId].items| - 1
            && FindItem(c'.items, productId).None?
  {
    var cart := carts[cartId];
    var k := FindItem(cart.items, productId).value;
    WithoutProductWellFormed(cart, productId, products[productId].specialPrice, products);
    WithoutProductKeepsTotal(cart, productId, products);
    RemoveItemAt(cart.items, productId, k);
  }

  /** A successful quantity change keeps the cart well formed and its total correct, and the product's
      line holds the old quantity plus delta (or is gone when that reaches 0). */
  lemma ChangeQuantityCorrect(cart: Cart, products: map<int, Product>, productId: int, delta: int)
    requires DistinctProducts(cart.items) && TotalMatches(cart, products)
    requires ChangeQuantity(cart, products, productId, delta).Ok?
    ensures var c' := ChangeQuantity(cart, products, productId, delta).value;
            var k := FindItem(cart.items, productId).value;
            && FindItem(cart.items, productId).Some?
            && c'.cartId == cart.cartId && c'.email == cart.email
            && DistinctProducts(c'.items) && TotalMatches(c', products)
            && 0 <= cart.items[k].quantity + delta
            && (cart.items[k].quantity + delta == 0 ==> FindItem(c'.items, productId).None?)
            && (cart.items[k].quantity + delta != 0 ==> c'.items[k].quantity == cart.items[k].quantity + delta)
  {
    var p := products[productId];
    var k := FindItem(cart.items, productId).value;
    var newQuantity := cart.items[k].quantity + delta;
    if newQuantity == 0 {
      assert ChangeQuantity(cart, products, productId, delta) == Ok(WithoutProduct(cart, productId, p.specialPrice));
      WithoutProductWellFormed(cart, productId, p.specialPrice, products);
      WithoutProductKeepsTotal(cart, productId, products);
      RemoveItemAt(cart.items, productId, k);
    } else {
      var updated := CartItem(productId, newQuantity, p.discount, p.specialPrice);
      assert ChangeQuantity(cart, products, productId, delta)
          == Ok(cart.(items := cart.items[k := updated], totalPrice := cart.totalPrice + Times(p.specialPrice, delta)));
      DistinctAfterReplace(cart.items, k, updated, products);
      ChangeQuantityKeepsTotal(cart, k, updated, delta, products);
    }
  }

  /** A successful re-price keeps the cart well formed, and leaves its total off from the recomputed
      one by (old special price - stored line price) * quantity once the new price is in place. */
  lemma RepriceLineCorrect(carts: map<int, Cart>, products: map<int, Product>, cartId: int, productId: int, newSpecialPrice: real)
    requires cartId in carts && DistinctProducts(carts[cartId].items) && TotalMatches(carts[cartId], products)
    requires productId in products
    requires var repriced := products[productId := products[productId].(specialPrice := newSpecialPrice)];
             RepriceLine(carts, repriced, cartId, productId).Ok?
    ensures var repriced := products[productId := products[productId].(specialPrice := newSpecialPrice)];
            var c' := RepriceLine(carts, repriced, cartId, productId).value;
            var item := carts[cartId].items[FindItem(carts[cartId].items, productId).value];
            && DistinctProducts(c'.items) && ProductsKnown(c'.items, repriced)
            && c'.totalPrice == SpecialTotal(c'.items, repriced)
                                + Times(products[productId].specialPrice - item.productPrice, item.quantity)
  {
    var cart := carts[cartId];
    var k := FindItem(cart.items, productId).value;
    RepriceCartWellFormed(cart, productId, newSpecialPrice, products);
    RepriceDrift(cart, products, k, newSpecialPrice);
  }

  /** The cart createCart hands back: the owner's cart, or the new empty one stored under cartId. */
  ghost function OpenedCart(carts: map<int, Cart>, cartOf: map<string, int>, email: string, cartId: int): (r: Cart)
    requires email in cartOf ==> cartOf[email] in carts
    ensures email in cartOf ==> r == carts[cartOf[email]]
    ensures email !in cartOf ==> r.cartId == cartId && r.email == email && r.totalPrice == 0.0 && r.items == []
  {
    if email in cartOf then carts[cartOf[email]] else Cart(cartId, email, 0.0, [])
  }

  /** The catalogue after quantity units of productId leave the stock; no price moves. */
  function TakeStock(products: map<int, Product>, productId: int, quantity: int): (r: map<int, Product>)
    requires productId in products
    ensures r.Keys == products.Keys
    ensures r[productId] == products[productId].(quantity := products[productId].quantity - quantity)
    ensures forall id :: id in products && id != productId ==> r[id] == products[id]
    ensures SamePrices(products, r)
  {
    products[productId := products[productId].(quantity := products[productId].quantity - quantity)]
  }

  /** The cart addProductToCart starts from has a correct total when all stored carts do. */
  lemma OpenedCartMatches(carts: map<int, Cart>, cartOf: map<string, int>, products: map<int, Product>, email: string, cartId: int)
    requires CartsWellFormed(carts, cartOf) && TotalsMatch(carts, products)
    ensures TotalMatches(OpenedCart(carts, cartOf, email, cartId), products)
    ensures DistinctProducts(OpenedCart(carts, cartOf, email, cartId).items)
  {
    if email in cartOf {
      var c := cartOf[email];
      assert c in carts;
      assert TotalMatches(carts[c], products) && DistinctProducts(carts[c].items);
      assert OpenedCart(carts, cartOf, email, cartId) == carts[c];
    } else {
      assert SpecialTotal([], products) == 0.0;
    }
  }

  /** addProductToCart keeps every stored cart total equal to the sum of its lines at the special
      prices, whether the add succeeds (stock taken) or fails (the opened cart kept). */
  lemma AddProductKeepsTotals(carts: map<int, Cart>, cartOf: map<string, int>, products: map<int, Product>,
                              email: string, cartId: int, productId: int, quantity: int)
    requires CartsWellFormed(carts, cartOf) && TotalsMatch(carts, products)
    requires email in cartOf ==> cartOf[email] == cartId
    ensures var start := OpenedCart(carts, cartOf, email, cartId);
            var r := AddLine(start, products, productId, quantity);
            && (r.Ok? ==> productId in products && TotalsMatch(carts[cartId := r.value], TakeStock(products, productId, quantity)))
            && (r.Err? ==> TotalsMatch(carts[cartId := start], products))
  {
    var start := OpenedCart(carts, cartOf, email, cartId);
    OpenedCartMatches(carts, cartOf, products, email, cartId);
    var r := AddLine(start, products, productId, quantity);
    if r.Ok? {
      AddLineCorrect(start, products, productId, quantity);
      TotalsMatchReplace(carts, products, cartId, r.value);
      TotalsMatchSamePrices(carts[cartId := r.value], products, TakeStock(products, productId, quantity));
    } else {
      TotalsMatchReplace(carts, products, cartId, start);
    }
  }

  /** deleteProductFromCart keeps every stored cart total correct. */
  lemma RemoveLineKeepsTotals(carts: map<int, Cart>, products: map<int, Product>, cartId: int, productId: int)
    requires TotalsMatch(carts, products) && (cartId in carts ==> DistinctProducts(carts[cartId].items))
    ensures cartId in carts ==> ProductsKnown(carts[cartId].items, products)
    ensures RemoveLine(carts, products, cartId, productId).Ok? ==>
            TotalsMatch(carts[cartId := RemoveLine(carts, products, cartId, productId).value], products)
  {
    if RemoveLine(carts, products, cartId, productId).Ok? {
      RemoveLineCorrect(carts, products, cartId, productId);
      TotalsMatchReplace(carts, products, cartId, RemoveLine(carts, products, cartId, productId).value);
    }
  }

  /** updateProductQuantityInCart keeps every stored cart total correct. */
  lemma ChangeQuantityKeepsTotals(carts: map<int, Cart>, products: map<int, Product>, cartId: int, productId: int, delta: int)
    requires TotalsMatch(carts, products) && cartId in carts && DistinctProducts(carts[cartId].items)
    ensures ChangeQuantity(carts[cartId], products, productId, delta).Ok? ==>
            TotalsMatch(carts[cartId := ChangeQuantity(carts[cartId], products, productId, delta).value], products)
  {
    var r := ChangeQuantity(carts[cartId], products, productId, delta);
    if r.Ok? {
      ChangeQuantityCorrect(carts[cartId], products, productId, delta);
      TotalsMatchReplace(carts, products, cartId, r.value);
    }
  }
}
