# Craftsbite e-commerce backend: a Dafny model of its service core

This project models the service layer of the Craftsbite Spring Boot shop backend, together with the
small security helpers around it. The core is the cart, stock and checkout state machine:

- adding a product to the user's cart, which also takes the stock;
- removing a line, and stepping a line's quantity up or down;
- re-pricing or removing a product's line in every cart that holds it, when the product is
  updated or deleted;
- placing an order, which records the order, its payment and one order line per cart line, lowers
  stock again and empties the cart.

Around that core the model covers:

- the catalogue rules (duplicate product names per category, the special price, the paged
  listings and their sort direction);
- categories;
- each user's address book;
- sign-up with its role mapping and `currentUserName`;
- locating the JWT in a bearer header or a cookie, and the login and logout cookies;
- the start-up seeding of roles and users;
- the security principal built from a user.

The repositories are four store classes (`Store.Catalog`, `Store.CartStore`, `Store.Accounts`,
`Store.OrderBook`). Each holds its tables as maps keyed by id and its own identity counter. Each
keeps a `Valid()` invariant:

- keys are below the counter and each entity's id equals its key;
- one cart per email, and at most one line per product in a cart;
- unique usernames;
- every address a user lists is stored and owned by that user.

`CartService.Consistent` adds the cross-store invariant that every cart line names a stored
product.

The service methods are Dafny methods on those stores. Each states its outcome and its new state
through value-level functions (`CartModel.AddLine`, `RemoveLine`, `ChangeQuantity`, `RepriceLine`,
`OrderModel.NewOrder`, `StockAfter`, `Emptied`, `ProductModel.Repriced`, `Stripped`, and so on).
What the code keeps or fails to keep is proved about those functions as lemmas. One example is the
cached cart total equal to the sum of its lines at the products' special prices, called
`TotalMatches` here.

The model follows the code where it differs from an idealised checkout:

- A cart line stores the product's base price, but the cart total is raised by the special price.
- Stock is taken both when a product is added to a cart and again at checkout, with no stock check
  at checkout.
- Removing a line subtracts the product's current special price. A cart whose total drifted
  (`CartModel.RepriceDrift`) therefore keeps a non-zero total after checkout
  (`OrderModel.CheckoutLeavesDrift`).
- `updateProduct` copies the given special price verbatim instead of recomputing it.
- `updateProduct` and `updateCategory` can create duplicate names.
- Sign-up grants ROLE_ADMIN for "admin" and nothing for "seller" or any other requested name.

Inputs the code takes from its environment are parameters:

- the logged-in user's email;
- today's date;
- the password encoder, as a function `string -> string`;
- the repository's paged queries, as a function from page request to page;
- the request's header lookup and cookies;
- the order in which a role set is iterated.

Prices are `real`. `Money.Times` multiplies a price by a quantity.

## Model

All source paths are under `src/main/java/com/ecommerce/project/`; the table writes them out in full.

| member | source | states |
|---|---|---|
| CartModel.QuantityDelta | src/main/java/com/ecommerce/project/controller/CartController.java:57-58 | the delta is -1 exactly when the operation equals "delete" ignoring case, and +1 exactly when it does not |
| CartModel.QuantityDeltaExamples | src/main/java/com/ecommerce/project/controller/CartController.java:57-58 | "DELETE" and "Delete" decrement; "add", "remove" and "deleted" increment |
| CartModel.FindItem | src/main/java/com/ecommerce/project/repository/CartItemRepository.java:9-10 | a found index holds the product; nothing is found exactly when no line of the cart holds it |
| CartModel.RemoveItem | src/main/java/com/ecommerce/project/repository/CartItemRepository.java:17-18 | after the bulk delete no line of the cart holds the product |
| CartModel.RemoveItemAt | src/main/java/com/ecommerce/project/repository/CartItemRepository.java:17-18 | in a cart with one line per product, the bulk delete removes exactly the product's line and keeps the others in order |
| CartModel.RemoveItemAbsent | src/main/java/com/ecommerce/project/repository/CartItemRepository.java:17-18 | deleting a product the cart does not hold leaves the lines unchanged |
| Money.TimesIsProduct | src/main/java/com/ecommerce/project/service/CartServiceImplementation.java:75 | the price-times-quantity used for totals is the product of price and quantity |
| CartModel.OpenedCart | src/main/java/com/ecommerce/project/service/CartServiceImplementation.java:252-263 | the user's stored cart when they have one; otherwise a cart for that email under the given id, with total 0 and no lines |
| CartModel.AddLine | src/main/java/com/ecommerce/project/service/CartServiceImplementation.java:41-76 | succeeds exactly when the product is known, not yet in the cart, its stock is not 0 and covers the quantity; an unknown product is ResourceNotFound("Product", "productID", id), every other failure an APIException or ResourceNotFound; a success keeps the cart's id, owner and lines and appends one line |
| CartModel.WithoutProduct | src/main/java/com/ecommerce/project/service/CartServiceImplementation.java:148-150 | a cart without a line for the product is returned as it is; otherwise the cart keeps its id and owner, loses one line, and its total drops by the given special price times that line's quantity |
| CartModel.RemoveLine | src/main/java/com/ecommerce/project/service/CartServiceImplementation.java:137-150 | succeeds exactly when the cart exists and holds a line for the product; every failure is ResourceNotFound; a success keeps the cart's id and owner and has one line fewer |
| CartModel.ChangeQuantity | src/main/java/com/ecommerce/project/service/CartServiceImplementation.java:157-202 | succeeds exactly when the product is known, its stock is not 0 and at least the delta, the cart holds a line for it, and that line's quantity plus the delta is not negative; an unknown product is ResourceNotFound("Product", "ProductId", id) and every other failure an APIException; a success keeps the cart's id and owner |
| CartModel.ChangeQuantityValue | src/main/java/com/ecommerce/project/service/CartServiceImplementation.java:183-202 | the successful cart in closed form: at new quantity 0 the product's line is cut out and the total drops by special price times the old quantity; otherwise that line alone becomes the new quantity at the product's current discount and special price, the rest are kept, and the stored total rises by special price times the delta |
| CartModel.RepriceLine | src/main/java/com/ecommerce/project/service/CartServiceImplementation.java:227-249 | succeeds exactly when the cart and the product exist and the cart holds a line for the product; a success keeps the cart's id, owner and number of lines, and the product's line takes the current special price as its price |
| CartModel.RepriceCart | src/main/java/com/ecommerce/project/service/CartServiceImplementation.java:242-248 | keeps the cart id, owner and number of lines; a cart without a line for the product is unchanged; otherwise exactly that line takes the special price as its price and every other line is kept |
| CartModel.TakeStock | src/main/java/com/ecommerce/project/service/CartServiceImplementation.java:74 | the product's stock drops by the quantity; no other product and no special price changes |
| CartModel.AddLineValue | src/main/java/com/ecommerce/project/service/CartServiceImplementation.java:50-75 | a successful add needs a known product not yet in the cart; it appends one line with the requested quantity, the product's discount and its base price, raises the total by special price times quantity and keeps every other line |
| CartModel.AddLineCorrect | src/main/java/com/ecommerce/project/service/CartServiceImplementation.java:41-76 | a successful add had stock that is not 0 and covers the quantity; the cart keeps one line per product, its correct total stays correct, and the new line is the last one |
| CartModel.AppendKeepsTotal | src/main/java/com/ecommerce/project/service/CartServiceImplementation.java:64-75 | appending a line and adding its special price times quantity keeps a correct total correct |
| CartModel.AddProductKeepsTotals | src/main/java/com/ecommerce/project/service/CartServiceImplementation.java:41-76 | after an add, every stored cart total matches the lowered stock's special prices; after a failure, with the opened cart included |
| CartModel.RemoveLineCorrect | src/main/java/com/ecommerce/project/service/CartServiceImplementation.java:137-150 | a successful removal keeps the cart's id and owner, removes exactly one line (the product's), and keeps a correct total correct |
| CartModel.AddThenRemove | src/main/java/com/ecommerce/project/service/CartServiceImplementation.java:137-150 | removing a line just added gives back the cart as it was before the add, total included |
| CartModel.WithoutProductKeepsTotal | src/main/java/com/ecommerce/project/service/CartServiceImplementation.java:148-150 | subtracting the current special price times quantity while removing the line keeps a correct total correct |
| CartModel.RemoveLineKeepsTotals | src/main/java/com/ecommerce/project/service/CartServiceImplementation.java:137-150 | deleteProductFromCart keeps every stored cart total correct |
| CartModel.ChangeQuantityCorrect | src/main/java/com/ecommerce/project/service/CartServiceImplementation.java:157-202 | a successful change found the line and gives a quantity of at least 0; a quantity of 0 removes the line, any other quantity replaces it in place; one line per product is kept, and so is a correct total |
| CartModel.ChangeQuantityKeepsTotal | src/main/java/com/ecommerce/project/service/CartServiceImplementation.java:195-199 | setting the line to quantity plus delta and adding special price times delta keeps a correct total correct |
| CartModel.ChangeQuantityKeepsTotals | src/main/java/com/ecommerce/project/service/CartServiceImplementation.java:157-202 | updateProductQuantityInCart keeps every stored cart total correct |
| CartModel.RepriceDrift | src/main/java/com/ecommerce/project/service/CartServiceImplementation.java:242-246 | after re-pricing, a correct total differs from the sum at the new special prices by (old special price minus the line's stored price) times quantity |
| CartModel.RepriceLineCorrect | src/main/java/com/ecommerce/project/service/CartServiceImplementation.java:227-249 | updateProductInCarts after a special-price change keeps one line per product and leaves the total off by exactly that drift |
| CartService.SaveCart | src/main/java/com/ecommerce/project/service/CartServiceImplementation.java:76 | cartRepository.save replaces exactly the given cart and keeps the stores consistent |
| CartService.SaveProduct | src/main/java/com/ecommerce/project/service/CartServiceImplementation.java:74 | the product update replaces exactly that product and keeps the stores consistent |
| CartService.SaveAddedLine | src/main/java/com/ecommerce/project/service/CartServiceImplementation.java:64-76 | the saved cart is the AddLine result (the new line at the product's price and discount, the total grown by special price times quantity), only that cart changes, and the product's stock is lowered by the quantity (TakeStock) |
| CartService.CreateCart | src/main/java/com/ecommerce/project/service/CartServiceImplementation.java:252-263 | the user's existing cart is reused with nothing changed; otherwise a new cart with total 0 and no lines is saved under a fresh id and becomes the user's cart |
| CartService.AddProductToCart | src/main/java/com/ecommerce/project/service/CartServiceImplementation.java:41-76 | the answer is AddLine on the user's opened cart; on success that cart is saved and the product's stock drops by the quantity; on failure only the opened cart persists and the stock is unchanged; the store invariants are kept |
| CartService.DeleteProductFromCart | src/main/java/com/ecommerce/project/service/CartServiceImplementation.java:137-153 | an unknown cart or an absent line is ResourceNotFound and changes nothing; otherwise exactly that cart is replaced by RemoveLine's result |
| CartService.UpdateProductQuantityInCart | src/main/java/com/ecommerce/project/service/CartServiceImplementation.java:157-208 | a user without a cart fails; otherwise the answer is ChangeQuantity on the user's cart, saved on success, with nothing changed on failure |
| CartService.UpdateProductInCarts | src/main/java/com/ecommerce/project/service/CartServiceImplementation.java:227-249 | unknown cart, unknown product and absent line fail in that order and change nothing; otherwise exactly that cart is replaced by RepriceLine's result |
| CartService.GetCart | src/main/java/com/ecommerce/project/service/CartServiceImplementation.java:118-122 | the cart is found exactly when it has that id and belongs to that email; otherwise ResourceNotFound("Cart", "CartId", id) |
| OrderModel.CheckoutError | src/main/java/com/ecommerce/project/service/OrderImplementation.java:48-74 | no error exactly when the user has a cart, the address exists, the payment method is at least 4 characters and not blank, and the cart has lines; no cart and an empty cart are APIException("Cart not found"), an unknown address ResourceNotFound("Cart", "Email", email), a payment method that breaks Payment's constraints the ConstraintViolationException raised when the payment is saved |
| OrderModel.NewOrder | src/main/java/com/ecommerce/project/service/OrderImplementation.java:57-89 | the order carries the email, the address, the date, the cart's total and "Order Accepted!"; the payment (id firstId) and the order (id firstId + 1) point at each other; the payment copies the gateway details; there is one order line per cart line |
| OrderModel.OrderLines | src/main/java/com/ecommerce/project/service/OrderImplementation.java:76-89 | one order line per cart line |
| OrderModel.OrderLinesMirror | src/main/java/com/ecommerce/project/service/OrderImplementation.java:78-87 | the i-th order line copies the i-th cart line's product, quantity, discount and price, points to the order and has the i-th consecutive id |
| OrderModel.StockAfter | src/main/java/com/ecommerce/project/service/OrderImplementation.java:91-97 | the same products remain, none added or dropped; StockAfterQuantity states each one's new stock |
| OrderModel.StockAfterQuantity | src/main/java/com/ecommerce/project/service/OrderImplementation.java:91-97 | each product's stock drops by the total quantity the cart orders of it, with no lower bound |
| OrderModel.CheckoutStock | src/main/java/com/ecommerce/project/service/OrderImplementation.java:91-97 | a product the cart does not hold keeps its stock; a product on a line drops by exactly that line's quantity |
| OrderModel.Emptied | src/main/java/com/ecommerce/project/service/OrderImplementation.java:99 | the emptied cart keeps its id and owner and has no lines; its total is 0 when it matched its lines |
| OrderModel.CheckoutKeepsTotals | src/main/java/com/ecommerce/project/service/OrderImplementation.java:91-100 | emptying a cart whose total is correct leaves total 0, and every cart total stays correct under the lowered stock |
| OrderModel.CheckoutLeavesDrift | src/main/java/com/ecommerce/project/service/OrderImplementation.java:99 | the emptied cart has no lines, and its total is 0 exactly when its total matched its lines before |
| OrderService.RecordOrder | src/main/java/com/ecommerce/project/service/OrderImplementation.java:57-69 | the order (email, date, cart total, "Order Accepted!", address) and its payment are saved under fresh ids and linked to each other |
| OrderService.SaveOrderLines | src/main/java/com/ecommerce/project/service/OrderImplementation.java:76-89 | the loop returns OrderLines of the cart lines and saves exactly them |
| OrderService.ReleaseLine | src/main/java/com/ecommerce/project/service/OrderImplementation.java:91-99 | one line's product loses that line's quantity of stock, and the line is removed from the cart |
| OrderService.ReleaseCart | src/main/java/com/ecommerce/project/service/OrderImplementation.java:91-100 | after the loop the stock is StockAfter the cart's lines and the cart is Emptied, total left as deleteProductFromCart leaves it |
| OrderService.CommitOrder | src/main/java/com/ecommerce/project/service/OrderImplementation.java:57-100 | the writes of a checkout: order, payment, order lines, stock and cart as NewOrder, StockAfter and Emptied give them |
| OrderService.PlaceOrder | src/main/java/com/ecommerce/project/service/OrderImplementation.java:44-107 | no cart, unknown address, a payment method Payment's constraints refuse, and empty cart fail in that order and change nothing; otherwise the result and every table are as CommitOrder states, and the invariants are kept |
| Listing.SortFor | src/main/java/com/ecommerce/project/service/ProductServiceImplementation.java:76-78 | ascending exactly when sortOrder equals "asc" ignoring case |
| Listing.SortForExamples | src/main/java/com/ecommerce/project/service/CategoryServiceImplementation.java:32-34 | "asc", "ASC" and "aSc" sort ascending; "desc", "ascending", "as" and "" sort descending |
| Listing.Respond | src/main/java/com/ecommerce/project/service/CategoryServiceImplementation.java:49-55 | the response carries the page's content in order and its number, size, element count, page count and last-page flag |
| Text.EqualsIgnoreCase | src/main/java/com/ecommerce/project/controller/CartController.java:58 | true exactly when both strings have the same length and agree position by position once letters are lowered |
| Listing.ListPage | src/main/java/com/ecommerce/project/service/CategoryServiceImplementation.java:36-55 | the listing fails with the given error exactly when the requested page is empty; otherwise it copies the content, number, size, element and page counts and last flag |
| ProductModel.GetAllProducts | src/main/java/com/ecommerce/project/service/ProductServiceImplementation.java:74-91 | EmptyReturnList("Product List is Empty") exactly when the page is empty, else the page's content |
| ProductModel.SearchByCategory | src/main/java/com/ecommerce/project/service/ProductServiceImplementation.java:94-113 | an unknown category is ResourceNotFound; an empty page is an APIException naming the category; else the page's content |
| ProductModel.SearchProductByKeyword | src/main/java/com/ecommerce/project/service/ProductServiceImplementation.java:116-133 | the query gets "%" + keyword + "%"; an empty page is an APIException naming the keyword |
| ProductModel.SpecialPriceOf | src/main/java/com/ecommerce/project/service/ProductServiceImplementation.java:66-67 | between 0 and the price for a non-negative price and a discount from 0 to 100; the price itself at discount 0 |
| ProductModel.DiscountAmountBounds | src/main/java/com/ecommerce/project/service/ProductServiceImplementation.java:66 | the amount a discount from 0 to 100 percent takes off a non-negative price lies between 0 and the price |
| Validation.NotBlank | src/main/java/com/ecommerce/project/model/Product.java:19 | @NotBlank: a blank answer implies a non-empty string, and a non-empty string whose first or last character is above U+0020 (what trim keeps) is never blank |
| Validation.Filled | src/main/java/com/ecommerce/project/model/Product.java:19-20 | @NotBlank with @Size(min = n): a string that passes is non-empty and has at least n characters |
| Validation.ValidProductText | src/main/java/com/ecommerce/project/model/Product.java:19-27 | a valid product has a name of at least 3 and a description of at least 6 characters, neither blank; a violation fails the save with ConstraintViolation ("ConstraintViolationException") |
| Validation.ValidAddressText | src/main/java/com/ecommerce/project/model/Address.java:24-46 | a valid address has street, building name, city, state, country and zip code each of at least 5 characters; a violation fails the save with ConstraintViolation |
| Validation.ValidPaymentMethod | src/main/java/com/ecommerce/project/model/Payment.java:22-24 | a payment method under 4 characters is refused, and one of at least 4 characters starting above U+0020 is accepted; a refusal fails the save with ConstraintViolation |
| Validation.FilledCases | src/main/java/com/ecommerce/project/model/Payment.java:22-23 | under @NotBlank with a minimum size, a string of characters up to U+0020 fails whatever its length and a shorter string fails; "COD" and four spaces fail as payment methods, "CARD" passes |
| ProductModel.NewProduct | src/main/java/com/ecommerce/project/service/ProductServiceImplementation.java:65-68 | keeps the given id and category, image "default.png", copies name, description, stock, price and discount from the request; its special price lies between 0 and the price for a discount from 0 to 100 |
| ProductModel.UpdatedProduct | src/main/java/com/ecommerce/project/service/ProductServiceImplementation.java:138-146 | keeps the product's id, image and category; takes name, description, stock, price, discount and special price as the request gives them, without recomputing the special price |
| ProductModel.SpecialPriceBounds | src/main/java/com/ecommerce/project/service/ProductServiceImplementation.java:66-67 | the special price is price times (100 - discount) / 100: between 0 and the price for a discount from 0 to 100, the price at 0 and 0 at 100 |
| ProductModel.NameTaken | src/main/java/com/ecommerce/project/service/ProductServiceImplementation.java:57-63 | true whenever a product of the category already has the name, never in an empty catalog |
| ProductModel.NewProductKeepsNamesUnique | src/main/java/com/ecommerce/project/service/ProductServiceImplementation.java:57-69 | a product added under a name its category does not hold keeps names unique per category |
| ProductModel.UpdateCanDuplicateName | src/main/java/com/ecommerce/project/service/ProductServiceImplementation.java:138-146 | for any two products of one category, updating one with the other's name breaks unique names per category |
| ProductModel.UpdateKeepsGivenSpecialPrice | src/main/java/com/ecommerce/project/service/ProductServiceImplementation.java:144-146 | example: a product updated with price 10, discount 50 and special price 9 stores 9, although price less discount is 5 |
| ProductModel.Holding | src/main/java/com/ecommerce/project/repository/CartRepository.java:37-38 | the carts found are exactly the stored carts with a line for the product |
| ProductModel.Repriced | src/main/java/com/ecommerce/project/service/ProductServiceImplementation.java:150-165 | the same carts remain, none added or dropped; RepricedHolding states which of them change |
| ProductModel.Stripped | src/main/java/com/ecommerce/project/service/ProductServiceImplementation.java:171-178 | the same carts remain, none added or dropped; StrippedClears states that none holds the product afterwards |
| ProductModel.RepricedHolding | src/main/java/com/ecommerce/project/service/ProductServiceImplementation.java:150-165 | re-pricing every cart found re-prices exactly those carts and leaves every other cart as it was |
| ProductModel.UpdateProductCart | src/main/java/com/ecommerce/project/service/ProductServiceImplementation.java:136-165 | one cart after the update: one line per product, and its total is off by the re-pricing drift, or unchanged when it does not hold the product |
| ProductModel.UpdateProductCarts | src/main/java/com/ecommerce/project/service/ProductServiceImplementation.java:136-165 | after the update every cart keeps its id, owner and one line per product, and the carts that do not hold the product are unchanged with correct totals |
| ProductModel.WithoutProductGone | src/main/java/com/ecommerce/project/service/CartServiceImplementation.java:150 | after the removal the cart holds no line for the product |
| ProductModel.StrippedClears | src/main/java/com/ecommerce/project/service/ProductServiceImplementation.java:175-176 | after deleteProductFromCart on every cart found, no cart holds the product |
| ProductModel.DeleteProductCart | src/main/java/com/ecommerce/project/service/ProductServiceImplementation.java:171-178 | a cart with a correct total keeps it correct once the product's line is removed and the product is gone |
| ProductModel.DeleteProductCarts | src/main/java/com/ecommerce/project/service/ProductServiceImplementation.java:171-178 | after the delete no cart holds the product, every cart keeps one line per product, and correct totals stay correct without the product |
| ProductService.AddProduct | src/main/java/com/ecommerce/project/service/ProductServiceImplementation.java:51-71 | unknown category is ResourceNotFound, a name the category already holds an APIException, and a name under 3 or a description under 6 characters or a blank one the ConstraintViolationException of the save, each changing nothing; otherwise NewProduct (computed special price, "default.png") is saved under a fresh id |
| ProductService.UpdateProduct | src/main/java/com/ecommerce/project/service/ProductServiceImplementation.java:136-168 | an unknown id fails, and a name or description Product's constraints refuse fails the save, both changing nothing; otherwise the six fields are overwritten and every cart holding the product is re-priced by updateProductInCarts, other carts unchanged |
| ProductService.DeleteProduct | src/main/java/com/ecommerce/project/service/ProductServiceImplementation.java:171-180 | an unknown id fails and changes nothing; otherwise the product's line is removed from every cart holding it, then the product is deleted and returned, unless a saved order line still refers to it: then the database refuses the delete, the product stays and the carts stay stripped |
| ProductService.Ordered | src/main/java/com/ecommerce/project/model/OrderItem.java:21-23 | true whenever a saved order line refers to the product, never with no order lines; a product so referred to makes the delete at ProductServiceImplementation.java:178 fail with ProductStillOrdered |
| ProductService.DropProduct | src/main/java/com/ecommerce/project/service/ProductServiceImplementation.java:178 | once no cart holds the product, exactly that product is removed from the catalog and the stores stay consistent |
| CategoryService.NameInUse | src/main/java/com/ecommerce/project/service/CategoryServiceImplementation.java:63 | true whenever some stored category has the name, never with no categories |
| CategoryService.CreateCategory | src/main/java/com/ecommerce/project/service/CategoryServiceImplementation.java:60-69 | fails exactly when the name is in use, with the message naming the found category and nothing changed; otherwise a category with that name is saved under a fresh id |
| CategoryService.DeleteCategory | src/main/java/com/ecommerce/project/service/CategoryServiceImplementation.java:71-77 | an unknown id is ResourceNotFound; otherwise exactly that category is removed and returned |
| CategoryService.UpdateCategory | src/main/java/com/ecommerce/project/service/CategoryServiceImplementation.java:79-88 | an unknown id is ResourceNotFound; otherwise the given name is stored under the id, with no duplicate check |
| CategoryService.GetAllCategories | src/main/java/com/ecommerce/project/service/CategoryServiceImplementation.java:29-58 | EmptyReturnList("Category List is Empty") exactly when the page is empty; otherwise the response copies the page's content and metadata |
| CategoryService.CreateKeepsNamesUnique | src/main/java/com/ecommerce/project/service/CategoryServiceImplementation.java:63-67 | create keeps category names unique |
| CategoryService.DeleteKeepsNamesUnique | src/main/java/com/ecommerce/project/service/CategoryServiceImplementation.java:71-77 | delete keeps category names unique |
| CategoryService.UpdateCanDuplicateCategoryName | src/main/java/com/ecommerce/project/service/CategoryServiceImplementation.java:79-88 | for any two stored categories, renaming one to the other's name, as UpdateCategory stores it, breaks unique category names |
| AddressService.NewAddress | src/main/java/com/ecommerce/project/service/AddressServiceImplementation.java:28-34 | the new address carries the request's six fields, the new id and the owner |
| AddressService.UpdatedAddress | src/main/java/com/ecommerce/project/service/AddressServiceImplementation.java:84-90 | the six fields become the request's, id and owner are kept, and an update with the same fields changes nothing |
| AddressService.RemoveById | src/main/java/com/ecommerce/project/service/AddressServiceImplementation.java:95 | no entry with the id remains and the list does not grow |
| AddressService.RemoveByIdMembers | src/main/java/com/ecommerce/project/service/AddressServiceImplementation.java:95 | an address stays in the list exactly when it was there and has another id |
| AddressService.RemoveByIdAppend | src/main/java/com/ecommerce/project/service/AddressServiceImplementation.java:95 | removeIf works entry by entry, so the other entries keep their relative order |
| AddressService.RemoveByIdAbsent | src/main/java/com/ecommerce/project/service/AddressServiceImplementation.java:109 | a list without the id is left unchanged |
| AddressService.GetAllAddresses | src/main/java/com/ecommerce/project/service/AddressServiceImplementation.java:40-50 | "No addresses found" exactly when the store is empty; otherwise exactly the stored addresses |
| AddressService.GetAddressById | src/main/java/com/ecommerce/project/service/AddressServiceImplementation.java:52-59 | "No address found with id: " + id exactly when the id is unknown; otherwise the stored address |
| AddressService.GetAddressByUser | src/main/java/com/ecommerce/project/service/AddressServiceImplementation.java:61-76 | an unknown user and an empty list fail with their messages; otherwise the user's list in order |
| AddressService.ListedAreOwned | src/main/java/com/ecommerce/project/service/AddressServiceImplementation.java:30-34 | in a consistent book every address a user lists is stored under its id and owned by that user |
| AddressService.CreateKeepsBook | src/main/java/com/ecommerce/project/service/AddressServiceImplementation.java:28-35 | appending a fresh address to its owner's list keeps the address book consistent |
| AddressService.UpdateKeepsBook | src/main/java/com/ecommerce/project/service/AddressServiceImplementation.java:78-97 | removing the old entries and appending the updated address keeps the book consistent |
| AddressService.DeleteKeepsBook | src/main/java/com/ecommerce/project/service/AddressServiceImplementation.java:102-114 | removing the entries from the owner's list and deleting the address keeps the book consistent |
| AddressService.CreateAddress | src/main/java/com/ecommerce/project/service/AddressServiceImplementation.java:27-38 | fails with the save's ConstraintViolationException, changing nothing, exactly when one of the six fields is under 5 characters or blank; otherwise the address is saved under a fresh id, owned by the user and appended at the end of the user's list; the invariants are kept |
| AddressService.UpdateAddressById | src/main/java/com/ecommerce/project/service/AddressServiceImplementation.java:78-100 | an unknown id fails, and fields Address's constraints refuse fail the save, both changing nothing; otherwise the updated address is stored and the owner's list becomes RemoveById of it plus the updated address |
| AddressService.DeleteAddressById | src/main/java/com/ecommerce/project/service/AddressServiceImplementation.java:102-117 | an unknown id fails with "Address Not Found with " + id and changes nothing; otherwise the owner's list loses the id's entries and the address is deleted |
| AuthController.LookedUp | src/main/java/com/ecommerce/project/controller/AuthController.java:133-147 | "admin" looks up ROLE_ADMIN, "seller" ROLE_SELLER, every other name ROLE_USER |
| AuthController.RolesFor | src/main/java/com/ecommerce/project/controller/AuthController.java:116-150 | every failure is RoleNotFound; with no names requested it succeeds exactly when the user role exists, with names exactly when every name's role exists; a success for requested names is {admin role} when "admin" is among them and empty otherwise |
| AuthController.RolesForCases | src/main/java/com/ecommerce/project/controller/AuthController.java:116-150 | no requested names gives {ROLE_USER}; requested names give {ROLE_ADMIN} exactly when "admin" is among them, else nothing; ROLE_SELLER is never granted; every failure is "Error: Role Not Found!" |
| AuthController.MissingRoleFails | src/main/java/com/ecommerce/project/controller/AuthController.java:132-149 | one requested name whose role is missing fails the sign-up |
| AuthController.SellerGrantsNothing | src/main/java/com/ecommerce/project/controller/AuthController.java:140-143 | requesting "seller" grants an empty role set even when the seller role exists |
| AuthController.BuildRoles | src/main/java/com/ecommerce/project/controller/AuthController.java:116-150 | the loop over the requested names computes RolesFor |
| AuthController.NewUser | src/main/java/com/ecommerce/project/controller/AuthController.java:103-104 | the new user is enabled, with the encoded password, the computed roles and no addresses |
| AuthController.RegisterKeepsBook | src/main/java/com/ecommerce/project/controller/AuthController.java:152-153 | saving a user under a fresh id with an unused name keeps usernames unique and the address book consistent |
| AuthController.RegisterKeepsEmailsUnique | src/main/java/com/ecommerce/project/controller/AuthController.java:99-101 | the email check keeps emails unique |
| AuthController.UserNameTaken | src/main/java/com/ecommerce/project/controller/AuthController.java:95 | existsByUserName: never true with no users |
| AuthController.EmailTaken | src/main/java/com/ecommerce/project/controller/AuthController.java:99 | existsByEmail: never true with no users |
| AuthController.StoredUserTaken | src/main/java/com/ecommerce/project/controller/AuthController.java:95-101 | a stored user's name and email both count as taken, so a second sign-up with either is refused |
| AuthController.RegisterUser | src/main/java/com/ecommerce/project/controller/AuthController.java:94-156 | a taken username, then a taken email, answers 400 with its message; a missing role raises "Error: Role Not Found!"; only success saves the new user under a fresh id and advances the id counter, every other outcome leaves users and counter as they were |
| AuthController.CurrentUserName | src/main/java/com/ecommerce/project/controller/AuthController.java:158-166 | the principal's name, or "" without an authentication |
| Jwt.GetJwtFromHeader | src/main/java/com/ecommerce/project/security/jwt/JwtUtils.java:38-46 | a token exactly when the "Authentication" header exists and starts with "Bearer "; the header is then "Bearer " followed by the token |
| Jwt.BearerRoundTrip | src/main/java/com/ecommerce/project/security/jwt/JwtUtils.java:42-43 | "Bearer " + t gives back t for every t |
| Jwt.HeaderRejections | src/main/java/com/ecommerce/project/security/jwt/JwtUtils.java:42-45 | "bearer x", "Bearer" and a missing header give null |
| Jwt.GetJwtFromCookies | src/main/java/com/ecommerce/project/security/jwt/JwtUtils.java:49-58 | a value exactly when some cookie has the configured name |
| Jwt.CookieIsFirstMatch | src/main/java/com/ecommerce/project/security/jwt/JwtUtils.java:50-53 | the value is that of the first cookie with the name |
| Jwt.GenerateJwtCookie | src/main/java/com/ecommerce/project/security/jwt/JwtUtils.java:60-66 | the login cookie has the token, path "/api", max age 86400 seconds and httpOnly false |
| Jwt.GetCleanJwtCookie | src/main/java/com/ecommerce/project/security/jwt/JwtUtils.java:68-72 | the clean cookie has a null value, path "/api" and the builder's defaults |
| Jwt.CleanCookieReplacesLogin | src/main/java/com/ecommerce/project/security/jwt/JwtUtils.java:60-72 | the clean cookie has the login cookie's name and path and no token |
| SecurityConfig.FindOrCreateRole | src/main/java/com/ecommerce/project/security/WebSecurityConfig.java:185-189 | an existing role is reused with nothing changed; a missing one is saved under a fresh id |
| SecurityConfig.CreateIfAbsent | src/main/java/com/ecommerce/project/security/WebSecurityConfig.java:209-212 | afterwards the name is taken; an existing user of that name means nothing changes |
| SecurityConfig.AssignRoles | src/main/java/com/ecommerce/project/security/WebSecurityConfig.java:225-228 | the users with the name get the role set; every other user and every key is kept |
| SecurityConfig.SeedRoles | src/main/java/com/ecommerce/project/security/WebSecurityConfig.java:185-201 | afterwards the three roles exist, existing ones unchanged, users untouched |
| SecurityConfig.SeedUsers | src/main/java/com/ecommerce/project/security/WebSecurityConfig.java:209-222 | the roles are untouched, no user is removed, and afterwards the name "admin" is taken |
| SecurityConfig.AssignSeedRoles | src/main/java/com/ecommerce/project/security/WebSecurityConfig.java:203-238 | the roles, the id counter and the set of users are unchanged |
| SecurityConfig.InitData | src/main/java/com/ecommerce/project/security/WebSecurityConfig.java:185-238 | afterwards the user, seller and admin roles exist, every role that existed is unchanged, and no user is removed |
| SecurityConfig.SeedUsersResult | src/main/java/com/ecommerce/project/security/WebSecurityConfig.java:209-222 | existing users are kept, only user1, seller1 or admin are added, and all three names are taken |
| SecurityConfig.AssignSeedRolesResult | src/main/java/com/ecommerce/project/security/WebSecurityConfig.java:203-238 | user1 gets {USER}, seller1 {SELLER} and admin {USER, SELLER, ADMIN}, overwriting what they had; other users are unchanged |
| SecurityConfig.InitDataResult | src/main/java/com/ecommerce/project/security/WebSecurityConfig.java:185-238 | after initData the three roles exist (existing ones reused), the three users exist with their role sets, and every other user is as it was |
| SecurityConfig.AssignRolesNoop | src/main/java/com/ecommerce/project/security/WebSecurityConfig.java:225-238 | assigning a set the named users already have changes nothing |
| SecurityConfig.InitDataIdempotent | src/main/java/com/ecommerce/project/security/WebSecurityConfig.java:185-238 | running initData twice leaves the same roles, users and counter as running it once |
| SecurityConfig.AssignKeepsValid | src/main/java/com/ecommerce/project/security/WebSecurityConfig.java:225-238 | a role assignment keeps usernames unique and the address book consistent |
| SecurityConfig.FindOrCreateRoleIn | src/main/java/com/ecommerce/project/security/WebSecurityConfig.java:185-189 | on the account store, one find-or-create step is FindOrCreateRole |
| SecurityConfig.CreateIfAbsentIn | src/main/java/com/ecommerce/project/security/WebSecurityConfig.java:209-212 | on the account store, one create-if-absent step is CreateIfAbsent |
| SecurityConfig.AssignRolesIn | src/main/java/com/ecommerce/project/security/WebSecurityConfig.java:225-228 | on the account store, one assignment step is AssignRoles |
| SecurityConfig.RunInitData | src/main/java/com/ecommerce/project/security/WebSecurityConfig.java:182-240 | the start-up runner leaves the roles, users and counter as InitData gives them and keeps the invariants |
| UserDetails.Build | src/main/java/com/ecommerce/project/security/services/UserDetailsImplementation.java:43-58 | id, username, email and password are copied; one authority per role, each the name of one of the user's roles, and every role's name present |
| UserDetails.AuthoritiesDistinct | src/main/java/com/ecommerce/project/security/services/UserDetailsImplementation.java:45-48 | roles with distinct names give authorities with no repeats |
| UserDetails.IsAccountNonExpired | src/main/java/com/ecommerce/project/security/services/UserDetailsImplementation.java:75-78 | every principal's account is unexpired |
| UserDetails.IsAccountNonLocked | src/main/java/com/ecommerce/project/security/services/UserDetailsImplementation.java:80-83 | every principal's account is unlocked |
| UserDetails.IsCredentialsNonExpired | src/main/java/com/ecommerce/project/security/services/UserDetailsImplementation.java:85-88 | every principal's credentials are unexpired |
| UserDetails.IsEnabled | src/main/java/com/ecommerce/project/security/services/UserDetailsImplementation.java:90-93 | every principal is enabled, whatever the stored user's flag |
| UserDetails.FlagsIgnoreStoredEnabled | src/main/java/com/ecommerce/project/security/services/UserDetailsImplementation.java:75-93 | a user stored as disabled still gets a principal that is enabled, unlocked and unexpired |
| UserDetails.Equals | src/main/java/com/ecommerce/project/security/services/UserDetailsImplementation.java:95-106 | true for the same reference, false for null or another class, otherwise whether the ids are equal |
| UserDetails.EqualsComparesIds | src/main/java/com/ecommerce/project/security/services/UserDetailsImplementation.java:104-105 | between distinct principals, equality is id equality, symmetric and transitive, whatever the other fields |

## Left out

- HTTP routing, `ResponseEntity` plumbing, the security filter chain and the exception handler's
  rendering. Errors are the `Domain.Error` datatype, whose kinds follow the handler's exception
  classes.
- `RuntimeFailure` covers the `RuntimeException` for a missing role. It also covers the
  NullPointerException of updateProductQuantityInCart for a user without a cart, the
  ConstraintViolationException of an entity that breaks its constraints when saved
  (`Validation.ConstraintViolation`), and the refused delete of a product that order lines still
  refer to. Only the exception class is kept, not the violation messages.
- Request-body validation by `@Valid` in the controllers runs before the services and is not
  modelled. A CategoryDTO name under 5 characters is answered with 400 before createCategory or
  updateCategory runs. ProductDTO and SignupRequest are not part of this model.
- AuthController.RegisterUser: the constraints of the Users entity are not checked. These are a
  non-blank username of at most 20 characters, a non-blank well-formed email of at most 50, and a
  non-blank password of at most 120. The email format of `@Email` is beyond the model.
- The `@Email` on an order's email is not checked. The email is the logged-in user's own.
- The entity constraints count characters, where Java counts UTF-16 code units.
- JWT signing, parsing and validation, and the authentication manager. These are library calls with
  keys and the clock. The token a login cookie carries is a parameter.
- The header lookup is a parameter, so the servlet's case-insensitive header names are not modelled.
- BCrypt: `passwordEncoder.encode` is the parameter `encode`.
- Image upload and updateProductImage: file-system I/O and random names.
- ModelMapper DTO mapping. The services return the stored entities.
- An id set in an incoming DTO for addProduct, createCategory or createAddress is ignored here. The
  store always assigns the next identity value.
- Spring Data paging, sorting and slicing. A paged query is a function from page request to page,
  and only the sort direction, the request and the empty-page rule are modelled.
- The extra price ordering of findByCategoryOrderByPriceAsc is part of that query.
- The three cart responses (`CartDTO` with per-line quantities) are not modelled, and neither is
  getAllCarts: it is DTO mapping over findAll.
- getCart's rewrite of the loaded products' quantities feeds only the DTO, with no save.
  `CartService.GetCart` models the lookup and its not-found error.
- Identity generation: each store class has one counter shared by its tables, where the database
  keeps one sequence per table. Only freshness matters to the model.
- Concurrency and transaction isolation. Each service method is one atomic step.
- A failed transactional method (`placeOrder`, `deleteProductFromCart`,
  `updateProductQuantityInCart`) keeps nothing: every check comes before the first write.
- Floating point: prices and totals are `real`, and `Money.Times` is price times quantity by
  repeated addition. IEEE rounding is not modelled.
- `LocalDate.now()` is the parameter `today`.
- ORM cascades and orphan removal are not modelled:
  - deleting a category does not delete its products here;
  - deleting an address does not touch orders that name it;
  - updating a product does not touch order lines.
- Iteration order of hash sets and `findAll` is not modelled:
  - getAllAddresses returns a set;
  - `UserDetails.Build` takes the role order as a parameter;
  - the loops over a set of carts, names or products pick their next element arbitrarily;
  - every order gives the same final state.
- The saveAll of order lines is merged into the loop that builds them. The ids are handed out in
  line order either way.
- CartService.UpdateProductQuantityInCart: requires a delta other than 0, which is all the
  controller passes. When the quantity reaches 0 the line is bulk-deleted; the later save of the
  still-managed line (CartServiceImplementation.java:204) then has nothing to write, and the
  deleteById after it (:206-207) needs a saved quantity of 0. That never happens for a delta other
  than 0: on the removal path the line keeps its old quantity, which equals minus the delta and so is not 0, and otherwise the
  saved quantity is the new, non-zero one. So the model's single removal is the whole effect.
- createCategory's findByCategoryName with several categories of the same name (possible after
  updateCategory) raises a non-unique-result error. The model reports the name as in use instead.
- CartModel.AddLine: stock and line quantities are unbounded integers, so the 32-bit wrap-around
  of Java's `Integer` stock less the quantity (CartServiceImplementation.java:74) is not modelled.
  A quantity of -2147483647 against stock 5 passes the checks; Java stores the wrapped stock
  -2147483644 where the model has 2147483652.
- CartModel.TakeStock: the same stock subtraction as AddLine, without the 32-bit wrap-around.
- CartModel.ChangeQuantity: the line quantity plus the delta (CartServiceImplementation.java:185
  and 196) does not wrap at 32 bits. With the controller's delta of 1 this differs from Java only
  for a line quantity of 2147483647.
- OrderModel.StockAfter: the stock less each line's quantity (OrderImplementation.java:95) does not
  wrap at 32 bits, so a stock driven below -2147483648 keeps going down here.
- Text.EqualsIgnoreCase folds ASCII letters only. Java also folds other Unicode letters.
- AddressService.CreateAddress: requires the owner to be a stored user. The source receives the
  logged-in user's entity.
- The unique constraint on emails is not part of `Store.Accounts.Valid`. The seed users'
  fixed emails could collide with a registered user's. `AuthController.RegisterUser` keeps
  uniqueness when it held before.
