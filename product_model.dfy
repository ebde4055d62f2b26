/** The catalogue rules of the product service as functions of the stored values: the special
    price of a new product, the per-category name check, the product an update writes, and what
    re-pricing or deleting a product does to every cart that holds it. */
module ProductModel {
  import opened Domain
  import opened Store
  import opened Money
  import opened Listing
  import opened CartModel

  /** The amount a discount from 0 to 100 percent takes off a non-negative price is between 0 and
      the price. */
  lemma DiscountAmountBounds(price: real, discount: real)
    ensures 0.0 <= price && 0.0 <= discount <= 100.0 ==> 0.0 <= (discount * 0.01) * price <= price
  {
    if 0.0 <= price && 0.0 <= discount <= 100.0 {
      assert 0.0 <= (discount * 0.01) * price;
      assert (discount * 0.01) * price <= price;
    }
  }

  /** price - (discount * 0.01) * price: the price after a percentage discount. */
  function SpecialPriceOf(price: real, discount: real): (r: real)
    ensures 0.0 <= price && 0.0 <= discount <= 100.0 ==> 0.0 <= r <= price
    ensures discount == 0.0 ==> r == price
  {
    DiscountAmountBounds(price, discount);
    price - (discount * 0.01) * price
  }

  /** Some product of the category already has exactly this name. */
  ghost function NameTaken(products: map<int, Product>, categoryId: int, name: string): (r: bool)
    ensures forall k :: k in products && products[k].categoryId == categoryId && products[k].productName == name ==> r
    ensures products == map[] ==> !r
  {
    exists k :: k in products && products[k].categoryId == categoryId && products[k].productName == name
  }

  /** No two products of one category share a name. */
  ghost predicate UniqueNamesPerCategory(products: map<int, Product>) {
    forall a, b ::
      (a in products && b in products && products[a].categoryId == products[b].categoryId
       && products[a].productName == products[b].productName) ==> a == b
  }

  /** The product addProduct saves: the request's name, description, stock, price and discount,
      the computed special price and the default image, in the given category. */
  function NewProduct(productId: int, categoryId: int, input: ProductInput): (r: Product)
    ensures r.productId == productId && r.categoryId == categoryId && r.image == "default.png"
    ensures r.productName == input.productName && r.description == input.description
    ensures r.quantity == input.quantity && r.price == input.price && r.discount == input.discount
    ensures 0.0 <= input.price && 0.0 <= input.discount <= 100.0 ==> 0.0 <= r.specialPrice <= r.price
  {
    Product(productId, input.productName, "default.png", input.description, input.quantity,
            input.price, input.discount, SpecialPriceOf(input.price, input.discount), categoryId)
  }

  /** The product updateProduct saves: six fields overwritten from the request as given. */
  function UpdatedProduct(p: Product, input: ProductInput): (r: Product)
    ensures r.productId == p.productId && r.image == p.image && r.categoryId == p.categoryId
    ensures r.productName == input.productName && r.description == input.description
    ensures r.quantity == input.quantity && r.price == input.price && r.discount == input.discount
    ensures r.specialPrice == input.specialPrice
  {
    p.(productName := input.productName, description := input.description, quantity := input.quantity,
       discount := input.discount, price := input.price, specialPrice := input.specialPrice)
  }

  /** findCartsByProductId: the ids of the carts holding a line for the product. */
  function Holding(carts: map<int, Cart>, productId: int): (r: set<int>)
    ensures forall c :: c in r <==> c in carts && FindItem(carts[c].items, productId).Some?
  {
    set c | c in carts && FindItem(carts[c].items, productId).Some?
  }

  /** The carts after the carts in done have had the product's line re-priced. */
  function Repriced(carts: map<int, Cart>, done: set<int>, productId: int, specialPrice: real): (r: map<int, Cart>)
    ensures r.Keys == carts.Keys
  {
    map c | c in carts :: if c in done then RepriceCart(carts[c], productId, specialPrice) else carts[c]
  }

  /** The carts after the carts in done have had the product's line deleted at the given special
      price. */
  function Stripped(carts: map<int, Cart>, done: set<int>, productId: int, specialPrice: real): (r: map<int, Cart>)
    ensures r.Keys == carts.Keys
  {
    map c | c in carts :: if c in done then WithoutProduct(carts[c], productId, specialPrice) else carts[c]
  }

  // ---------------------------------------------------------------------------------------------
  // Listings

  /** getAllProducts: the page of all products, or EmptyReturnList when it is empty. */
  function GetAllProducts(findAll: Query<Product>, pageNumber: int, pageSize: int, sortBy: string, sortOrder: string)
    : (r: Result<PageResponse<Product>>)
    ensures var page := findAll(PageRequest(pageNumber, pageSize, sortBy, SortFor(sortOrder)));
            && (r.Err? <==> page.content == [])
            && (r.Err? ==> r.error == EmptyReturnList("Product List is Empty"))
            && (r.Ok? ==> r.value.content == page.content)
  {
    ListPage(findAll, pageNumber, pageSize, sortBy, sortOrder, EmptyReturnList("Product List is Empty"))
  }

  /** searchByCategory: the category must exist; an empty page names it in the error. The
      repository query is passed the category and the page request. */
  function SearchByCategory(categories: map<int, Category>, findByCategory: Category -> Query<Product>, categoryId: int,
                            pageNumber: int, pageSize: int, sortBy: string, sortOrder: string)
    : (r: Result<PageResponse<Product>>)
    ensures categoryId !in categories ==> r == Err(ResourceNotFound("Category", "categoryId", IdValue(categoryId)))
    ensures categoryId in categories ==>
            var page := findByCategory(categories[categoryId])(PageRequest(pageNumber, pageSize, sortBy, SortFor(sortOrder)));
            && (r.Err? <==> page.content == [])
            && (r.Err? ==> r.error == APIException("Product List is Empty with " + categories[categoryId].categoryName + " Category"))
            && (r.Ok? ==> r.value.content == page.content)
  {
    if categoryId !in categories then Err(ResourceNotFound("Category", "categoryId", IdValue(categoryId)))
    else
      var category := categories[categoryId];
      ListPage(findByCategory(category), pageNumber, pageSize, sortBy, sortOrder,
               APIException("Product List is Empty with " + category.categoryName + " Category"))
  }

  /** searchProductByKeyword: the query is given the pattern '%' + keyword + '%'; an empty page
      names the keyword in the error. */
  function SearchProductByKeyword(findByNameLike: string -> Query<Product>, keyword: string,
                                  pageNumber: int, pageSize: int, sortBy: string, sortOrder: string)
    : (r: Result<PageResponse<Product>>)
    ensures var page := findByNameLike("%" + keyword + "%")(PageRequest(pageNumber, pageSize, sortBy, SortFor(sortOrder)));
            && (r.Err? <==> page.content == [])
            && (r.Err? ==> r.error == APIException("Product not Found with the keyWord: " + keyword))
            && (r.Ok? ==> r.value.content == page.content)
  {
    ListPage(findByNameLike("%" + keyword + "%"), pageNumber, pageSize, sortBy, sortOrder,
             APIException("Product not Found with the keyWord: " + keyword))
  }

  // ---------------------------------------------------------------------------------------------
  // Properties

  /** With a discount between 0 and 100 percent, the special price of a non-negative price lies
      between 0 and the price; no discount keeps the price and a full discount makes it 0. */
  lemma SpecialPriceBounds(price: real, discount: real)
    ensures SpecialPriceOf(price, discount) == price * (100.0 - discount) / 100.0
    ensures 0.0 <= price && 0.0 <= discount <= 100.0 ==> 0.0 <= SpecialPriceOf(price, discount) <= price
    ensures discount == 0.0 ==> SpecialPriceOf(price, discount) == price
    ensures discount == 100.0 ==> SpecialPriceOf(price, discount) == 0.0
  {
  }

  /** A product added under a name its category does not use keeps names unique per category. */
  lemma NewProductKeepsNamesUnique(products: map<int, Product>, productId: int, categoryId: int, input: ProductInput)
    requires UniqueNamesPerCategory(products) && productId !in products
    requires !NameTaken(products, categoryId, input.productName)
    ensures UniqueNamesPerCategory(products[productId := NewProduct(productId, categoryId, input)])
  {
  }

  /** updateProduct does not check names: it can give a product the name another product of its
      category already has. */
  lemma UpdateCanDuplicateName(products: map<int, Product>, a: int, b: int, input: ProductInput)
    requires a in products && b in products && a != b
    requires products[a].categoryId == products[b].categoryId
    requires input.productName == products[a].productName
    ensures !UniqueNamesPerCategory(products[b := UpdatedProduct(products[b], input)])
  {
    var after := products[b := UpdatedProduct(products[b], input)];
    assert after[a].productName == after[b].productName && after[a].categoryId == after[b].categoryId;
  }

  /** The update keeps the product's id, image and category and takes the given special price as it
      is, even where it is not price less the discount. */
  lemma UpdateKeepsGivenSpecialPrice()
    ensures var p := Product(4, "Mug", "mug.png", "A ceramic mug", 8, 12.0, 0.0, 12.0, 2);
            var u := UpdatedProduct(p, ProductInput("Mug", "A ceramic mug", 8, 10.0, 50.0, 9.0));
            && u.productId == 4 && u.image == "mug.png" && u.categoryId == 2
            && u.specialPrice == 9.0 && SpecialPriceOf(u.price, u.discount) == 5.0
  {
  }

  /** Re-pricing one more cart is one more entry of the re-priced carts. */
  lemma RepricedStep(carts: map<int, Cart>, done: set<int>, c: int, productId: int, specialPrice: real)
    requires c in carts
    ensures Repriced(carts, done + {c}, productId, specialPrice)
            == Repriced(carts, done, productId, specialPrice)[c := RepriceCart(carts[c], productId, specialPrice)]
  {
    var a := Repriced(carts, done + {c}, productId, specialPrice);
    var b := Repriced(carts, done, productId, specialPrice)[c := RepriceCart(carts[c], productId, specialPrice)];
    assert a.Keys == b.Keys;
    assert forall k :: k in a ==> a[k] == b[k];
  }

  /** Deleting the line from one more cart is one more entry of the stripped carts. */
  lemma StrippedStep(carts: map<int, Cart>, done: set<int>, c: int, productId: int, specialPrice: real)
    requires c in carts
    ensures Stripped(carts, done + {c}, productId, specialPrice)
            == Stripped(carts, done, productId, specialPrice)[c := WithoutProduct(carts[c], productId, specialPrice)]
  {
    var a := Stripped(carts, done + {c}, productId, specialPrice);
    var b := Stripped(carts, done, productId, specialPrice)[c := WithoutProduct(carts[c], productId, specialPrice)];
    assert a.Keys == b.Keys;
    assert forall k :: k in a ==> a[k] == b[k];
  }

  /** Re-pricing only the carts that hold the product is re-pricing every cart: a cart without the
      line is left as it is. */
  lemma RepricedHolding(carts: map<int, Cart>, productId: int, specialPrice: real)
    ensures forall c :: c in carts ==>
      Repriced(carts, Holding(carts, productId), productId, specialPrice)[c] == RepriceCart(carts[c], productId, specialPrice)
  {
  }

  /** updateProduct's effect on one cart: holding the product, its line takes the new special price
      and keeps its quantity, and the cached total then differs from the sum at the new prices by
      (old special price - line's stored price) * quantity; without it, the cart and its correct
      total are kept. */
  lemma UpdateProductCart(cart: Cart, products: map<int, Product>, productId: int, input: ProductInput)
    requires DistinctProducts(cart.items) && TotalMatches(cart, products) && productId in products
    ensures var updated := products[productId := UpdatedProduct(products[productId], input)];
            var after := RepriceCart(cart, productId, input.specialPrice);
            && after.cartId == cart.cartId && after.email == cart.email
            && DistinctProducts(after.items) && ProductsKnown(after.items, updated)
            && (FindItem(cart.items, productId).None? ==> after == cart && TotalMatches(after, updated))
            && (FindItem(cart.items, productId).Some? ==>
                  var k := FindItem(cart.items, productId).value;
                  var item := cart.items[k];
                  && after.items == cart.items[k := item.(productPrice := input.specialPrice)]
                  && after.totalPrice
                     == SpecialTotal(after.items, updated) + Times(products[productId].specialPrice - item.productPrice, item.quantity))
  {
    var updated := products[productId := UpdatedProduct(products[productId], input)];
    var repriced := products[productId := products[productId].(specialPrice := input.specialPrice)];
    var after := RepriceCart(cart, productId, input.specialPrice);
    RepriceCartWellFormed(cart, productId, input.specialPrice, products);
    assert ProductsKnown(after.items, repriced);
    if FindItem(cart.items, productId).None? {
      SpecialTotalOtherPrice(cart.items, products, productId, input.specialPrice);
      SpecialTotalSamePrices(cart.items, repriced, updated);
    } else {
      var k := FindItem(cart.items, productId).value;
      RepriceDrift(cart, products, k, input.specialPrice);
      SpecialTotalSamePrices(after.items, repriced, updated);
    }
  }

  /** updateProduct's effect on the carts: every cart holding the product is re-priced as above,
      every other cart is kept, and all stay well formed. */
  lemma UpdateProductCarts(carts: map<int, Cart>, cartOf: map<string, int>, products: map<int, Product>,
                           productId: int, input: ProductInput)
    requires CartsWellFormed(carts, cartOf) && TotalsMatch(carts, products) && productId in products
    ensures var updated := products[productId := UpdatedProduct(products[productId], input)];
            var after := Repriced(carts, Holding(carts, productId), productId, input.specialPrice);
            && after.Keys == carts.Keys
            && CartsWellFormed(after, cartOf) && CartItemsKnown(after, updated)
            && (forall c :: c in carts ==> after[c] == RepriceCart(carts[c], productId, input.specialPrice))
            && (forall c :: c in carts && c !in Holding(carts, productId) ==> after[c] == carts[c] && TotalMatches(after[c], updated))
  {
    var updated := products[productId := UpdatedProduct(products[productId], input)];
    var after := Repriced(carts, Holding(carts, productId), productId, input.specialPrice);
    forall c | c in carts
      ensures after[c] == RepriceCart(carts[c], productId, input.specialPrice)
      ensures after[c].cartId == c && after[c].email == carts[c].email
      ensures DistinctProducts(after[c].items) && ProductsKnown(after[c].items, updated)
      ensures c !in Holding(carts, productId) ==> after[c] == carts[c] && TotalMatches(after[c], updated)
    {
      UpdateProductCart(carts[c], products, productId, input);
    }
  }

  /** Deleting a product's line from a cart with one line per product leaves no line for it. */
  lemma WithoutProductGone(cart: Cart, productId: int, specialPrice: real)
    requires DistinctProducts(cart.items)
    ensures FindItem(WithoutProduct(cart, productId, specialPrice).items, productId).None?
  {
    var after := WithoutProduct(cart, productId, specialPrice);
    if FindItem(cart.items, productId).Some? {
      var k := FindItem(cart.items, productId).value;
      assert after.items == cart.items[..k] + cart.items[k + 1..];
      forall j | 0 <= j < |after.items| ensures after.items[j].productId != productId {
        if j < k {
          assert after.items[j] == cart.items[j];
        } else {
          assert after.items[j] == cart.items[j + 1];
        }
      }
    }
  }

  /** Once every holding cart has lost the product's line, no cart holds the product. */
  lemma StrippedClears(carts: map<int, Cart>, productId: int, specialPrice: real)
    requires forall c :: c in carts ==> DistinctProducts(carts[c].items)
    ensures var after := Stripped(carts, Holding(carts, productId), productId, specialPrice);
            forall c :: c in after ==> FindItem(after[c].items, productId).None?
  {
    var after := Stripped(carts, Holding(carts, productId), productId, specialPrice);
    forall c | c in after
      ensures FindItem(after[c].items, productId).None?
    {
      if c in Holding(carts, productId) {
        WithoutProductGone(carts[c], productId, specialPrice);
      }
    }
  }

  /** deleteProduct's effect on one cart: the product's line is gone, the cart stays well formed and
      its correct total stays correct once the product is dropped from the catalogue. */
  lemma DeleteProductCart(cart: Cart, products: map<int, Product>, productId: int)
    requires DistinctProducts(cart.items) && TotalMatches(cart, products) && productId in products
    ensures var after := WithoutProduct(cart, productId, products[productId].specialPrice);
            && after.cartId == cart.cartId && after.email == cart.email
            && DistinctProducts(after.items) && FindItem(after.items, productId).None?
            && TotalMatches(after, products - {productId})
  {
    var sp := products[productId].specialPrice;
    var after := WithoutProduct(cart, productId, sp);
    var rest := products - {productId};
    WithoutProductWellFormed(cart, productId, sp, products);
    WithoutProductKeepsTotal(cart, productId, products);
    WithoutProductGone(cart, productId, sp);
    assert ProductsKnown(after.items, rest);
    SpecialTotalSamePrices(after.items, products, rest);
  }

  /** deleteProduct leaves no cart holding the product, keeps every cart well formed and every cart
      total correct, so the catalogue can drop the product. */
  lemma DeleteProductCarts(carts: map<int, Cart>, cartOf: map<string, int>, products: map<int, Product>, productId: int)
    requires CartsWellFormed(carts, cartOf) && TotalsMatch(carts, products) && productId in products
    ensures var after := Stripped(carts, Holding(carts, productId), productId, products[productId].specialPrice);
            && after.Keys == carts.Keys
            && (forall c :: c in after ==> FindItem(after[c].items, productId).None?)
            && (forall c :: c in carts && c !in Holding(carts, productId) ==> after[c] == carts[c])
            && CartsWellFormed(after, cartOf)
            && CartItemsKnown(after, products - {productId})
            && TotalsMatch(after, products - {productId})
  {
    var sp := products[productId].specialPrice;
    var after := Stripped(carts, Holding(carts, productId), productId, sp);
    forall c | c in carts
      ensures after[c] == WithoutProduct(carts[c], productId, sp)
      ensures after[c].cartId == c && after[c].email == carts[c].email
      ensures DistinctProducts(after[c].items) && FindItem(after[c].items, productId).None?
      ensures TotalMatches(after[c], products - {productId})
    {
      DeleteProductCart(carts[c], products, productId);
    }
  }
}
