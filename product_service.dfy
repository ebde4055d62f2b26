/** The product service's writes: addProduct, updateProduct and deleteProduct. The last two reach
    into every cart that holds the product through the cart service. */
module ProductService {
  import opened Domain
  import opened Store
  import opened CartModel
  import opened CartService
  import opened ProductModel
  import opened Validation

  /** The constraint violation the database raises when productRepository.delete removes a product
      that order lines still refer to: nothing deletes order lines, and they join to the product. */
  const ProductStillOrdered := RuntimeFailure("DataIntegrityViolationException: order items refer to the product")

  /** Some saved order line refers to the product. */
  function Ordered(orderItems: map<int, OrderItem>, productId: int): (r: bool)
    ensures forall k :: k in orderItems && orderItems[k].productId == productId ==> r
    ensures orderItems == map[] ==> !r
  {
    exists k :: k in orderItems && orderItems[k].productId == productId
  }

  /** addProduct: the category must exist, and no product of that category may already have the
      name; the new product takes the computed special price and the default image. Saving it
      checks the entity's constraints on the name and the description. */
  method AddProduct(catalog: Catalog, categoryId: int, input: ProductInput) returns (r: Result<Product>)
    requires catalog.Valid()
    modifies catalog`products, catalog`nextId
    ensures catalog.Valid()
    ensures r.Ok? <==> && categoryId in catalog.categories && !NameTaken(old(catalog.products), categoryId, input.productName)
                       && ValidProductText(input.productName, input.description)
    ensures categoryId !in catalog.categories ==> r == Err(ResourceNotFound("Category", "CategoryId", IdValue(categoryId)))
    ensures categoryId in catalog.categories && NameTaken(old(catalog.products), categoryId, input.productName) ==>
            r == Err(APIException("Product with the name " + input.productName + " already exists"))
    ensures && categoryId in catalog.categories && !NameTaken(old(catalog.products), categoryId, input.productName)
            && !ValidProductText(input.productName, input.description)
            ==> r == Err(ConstraintViolation)
    ensures r.Err? ==> catalog.products == old(catalog.products) && catalog.nextId == old(catalog.nextId)
    ensures r.Ok? ==>
      && r.value == NewProduct(old(catalog.nextId), categoryId, input)
      && r.value.productId !in old(catalog.products)
      && catalog.products == old(catalog.products)[r.value.productId := r.value]
  {
    if categoryId !in catalog.categories {
      return Err(ResourceNotFound("Category", "CategoryId", IdValue(categoryId)));
    }
    // the category's products, looked at one by one
    var remaining := set k | k in catalog.products && catalog.products[k].categoryId == categoryId;
    while remaining != {}
      invariant catalog.Valid() && catalog.products == old(catalog.products) && catalog.nextId == old(catalog.nextId)
      invariant remaining <= catalog.products.Keys
      invariant forall k :: k in catalog.products && catalog.products[k].categoryId == categoryId && k !in remaining ==>
                  catalog.products[k].productName != input.productName
      decreases remaining
    {
      NonEmptyHasMember(remaining);
      var k :| k in remaining;
      if catalog.products[k].productName == input.productName {
        return Err(APIException("Product with the name " + input.productName + " already exists"));
      }
      remaining := remaining - {k};
    }
    if !ValidProductText(input.productName, input.description) {
      return Err(ConstraintViolation);
    }
    var id := catalog.NewId();
    var product := NewProduct(id, categoryId, input);
    catalog.products := catalog.products[id := product];
    r := Ok(product);
  }

  /** One cart of updateProduct's loop: updateProductInCarts re-prices the product's line at the
      saved special price. */
  method RepriceStep(catalog: Catalog, cartStore: CartStore, ghost carts0: map<int, Cart>, ghost done: set<int>,
                     c: int, productId: int)
    requires Consistent(catalog, cartStore) && productId in catalog.products
    requires c in carts0 && c !in done && FindItem(carts0[c].items, productId).Some?
    requires cartStore.carts == Repriced(carts0, done, productId, catalog.products[productId].specialPrice)
    modifies cartStore`carts
    ensures Consistent(catalog, cartStore)
    ensures cartStore.carts == Repriced(carts0, done + {c}, productId, catalog.products[productId].specialPrice)
  {
    var sp := catalog.products[productId].specialPrice;
    RepricedStep(carts0, done, c, productId, sp);
    assert cartStore.carts[c] == carts0[c];
    assert RepriceLine(cartStore.carts, catalog.products, c, productId) == Ok(RepriceCart(carts0[c], productId, sp));
    var repriced := UpdateProductInCarts(catalog, cartStore, c, productId);
  }

  /** updateProduct: overwrites the product's six fields from the request, saves it, then re-prices
      its line in every cart that holds it through updateProductInCarts. A name or description that
      breaks the entity's constraints fails the save, before any cart is touched. */
  method UpdateProduct(catalog: Catalog, cartStore: CartStore, productId: int, input: ProductInput)
    returns (r: Result<Product>)
    requires Consistent(catalog, cartStore)
    modifies catalog`products, cartStore`carts
    ensures Consistent(catalog, cartStore)
    ensures r.Err? <==> productId !in old(catalog.products) || !ValidProductText(input.productName, input.description)
    ensures productId !in old(catalog.products) ==> r == Err(ResourceNotFound("Product", "productId", IdValue(productId)))
    ensures productId in old(catalog.products) && !ValidProductText(input.productName, input.description) ==>
              r == Err(ConstraintViolation)
    ensures r.Err? ==> catalog.products == old(catalog.products) && cartStore.carts == old(cartStore.carts)
    ensures r.Ok? ==>
      && r.value == UpdatedProduct(old(catalog.products)[productId], input)
      && catalog.products == old(catalog.products)[productId := r.value]
      && cartStore.carts == Repriced(old(cartStore.carts), Holding(old(cartStore.carts), productId), productId, input.specialPrice)
  {
    if productId !in catalog.products {
      return Err(ResourceNotFound("Product", "productId", IdValue(productId)));
    }
    if !ValidProductText(input.productName, input.description) {
      return Err(ConstraintViolation);
    }
    var product := UpdatedProduct(catalog.products[productId], input);
    SaveProduct(catalog, cartStore, product);
    ghost var carts0 := cartStore.carts;
    var holding := set c | c in cartStore.carts && FindItem(cartStore.carts[c].items, productId).Some?;
    assert holding == Holding(carts0, productId);
    var remaining := holding;
    ghost var products0 := catalog.products;
    assert Repriced(carts0, holding - remaining, productId, input.specialPrice) == carts0;
    while remaining != {}
      invariant remaining <= holding
      invariant Consistent(catalog, cartStore) && catalog.products == products0
      invariant cartStore.carts == Repriced(carts0, holding - remaining, productId, input.specialPrice)
      decreases remaining
    {
      NonEmptyHasMember(remaining);
      var c :| c in remaining;
      VisitOne(holding, remaining, c);
      RepriceStep(catalog, cartStore, carts0, holding - remaining, c, productId);
      remaining := remaining - {c};
    }
    r := Ok(product);
  }

  /** productRepository.delete, once no cart refers to the product any more. */
  method DropProduct(catalog: Catalog, cartStore: CartStore, productId: int)
    requires Consistent(catalog, cartStore)
    requires forall c :: c in cartStore.carts ==> FindItem(cartStore.carts[c].items, productId).None?
    modifies catalog`products
    ensures Consistent(catalog, cartStore)
    ensures catalog.products == old(catalog.products) - {productId}
  {
    catalog.products := catalog.products - {productId};
    forall c | c in cartStore.carts
      ensures ProductsKnown(cartStore.carts[c].items, catalog.products)
    {
      assert ProductsKnown(cartStore.carts[c].items, old(catalog.products));
    }
  }

  /** One cart of deleteProduct's loop: deleteProductFromCart deletes the product's line at its
      special price. */
  method StripStep(catalog: Catalog, cartStore: CartStore, ghost carts0: map<int, Cart>, ghost done: set<int>,
                   c: int, productId: int)
    requires Consistent(catalog, cartStore) && productId in catalog.products
    requires c in carts0 && c !in done && FindItem(carts0[c].items, productId).Some?
    requires cartStore.carts == Stripped(carts0, done, productId, catalog.products[productId].specialPrice)
    modifies cartStore`carts
    ensures Consistent(catalog, cartStore)
    ensures cartStore.carts == Stripped(carts0, done + {c}, productId, catalog.products[productId].specialPrice)
  {
    var sp := catalog.products[productId].specialPrice;
    StrippedStep(carts0, done, c, productId, sp);
    assert cartStore.carts[c] == carts0[c];
    assert RemoveLine(cartStore.carts, catalog.products, c, productId) == Ok(WithoutProduct(carts0[c], productId, sp));
    var removed := DeleteProductFromCart(catalog, cartStore, c, productId);
  }

  /** deleteProduct: deletes the product's line from every cart that holds it through
      deleteProductFromCart, then deletes the product. The method is not transactional: each cart
      is saved as it is stripped, so when the final delete is refused because order lines still
      refer to the product, the carts stay stripped and the product stays. */
  method DeleteProduct(catalog: Catalog, cartStore: CartStore, orderBook: OrderBook, productId: int) returns (r: Result<Product>)
    requires Consistent(catalog, cartStore)
    modifies catalog`products, cartStore`carts
    ensures Consistent(catalog, cartStore)
    ensures r.Err? <==> productId !in old(catalog.products) || Ordered(orderBook.orderItems, productId)
    ensures productId !in old(catalog.products) ==>
      && r == Err(ResourceNotFound("Product", "productId", IdValue(productId)))
      && catalog.products == old(catalog.products) && cartStore.carts == old(cartStore.carts)
    ensures productId in old(catalog.products) && Ordered(orderBook.orderItems, productId) ==>
      && r == Err(ProductStillOrdered)
      && catalog.products == old(catalog.products)
      && cartStore.carts == Stripped(old(cartStore.carts), Holding(old(cartStore.carts), productId), productId,
                                     old(catalog.products)[productId].specialPrice)
    ensures r.Ok? ==>
      && r.value == old(catalog.products)[productId]
      && catalog.products == old(catalog.products) - {productId}
      && cartStore.carts == Stripped(old(cartStore.carts), Holding(old(cartStore.carts), productId), productId, r.value.specialPrice)
  {
    if productId !in catalog.products {
      return Err(ResourceNotFound("Product", "productId", IdValue(productId)));
    }
    var product := catalog.products[productId];
    ghost var carts0 := cartStore.carts;
    var holding := set c | c in cartStore.carts && FindItem(cartStore.carts[c].items, productId).Some?;
    assert holding == Holding(carts0, productId);
    var remaining := holding;
    ghost var products0 := catalog.products;
    assert Stripped(carts0, holding - remaining, productId, product.specialPrice) == carts0;
    while remaining != {}
      invariant remaining <= holding
      invariant Consistent(catalog, cartStore) && catalog.products == products0
      invariant cartStore.carts == Stripped(carts0, holding - remaining, productId, product.specialPrice)
      decreases remaining
    {
      NonEmptyHasMember(remaining);
      var c :| c in remaining;
      VisitOne(holding, remaining, c);
      StripStep(catalog, cartStore, carts0, holding - remaining, c, productId);
      remaining := remaining - {c};
    }
    assert holding - remaining == Holding(carts0, productId);
    if Ordered(orderBook.orderItems, productId) {
      return Err(ProductStillOrdered);
    }
    StrippedClears(carts0, productId, product.specialPrice);
    DropProduct(catalog, cartStore, productId);
    r := Ok(product);
  }
}
