/** Entities of the shop and the errors its services raise. */
module Domain {

  datatype Option<T> = None | Some(value: T)

  /** The value a ResourceNotFoundException reports for the field it looked up. */
  datatype FieldValue = IdValue(id: int) | TextValue(text: string)

  /** What a service call can throw. The first three are the exception classes the global handler
      turns into responses; RuntimeFailure stands for the exceptions it does not handle
      (a NullPointerException, a bare RuntimeException), which surface as server errors. */
  datatype Error =
    | APIException(message: string)
    | ResourceNotFound(resourceName: string, fieldName: string, fieldValue: FieldValue)
    | EmptyReturnList(message: string)
    | RuntimeFailure(message: string)

  datatype Result<T> = Ok(value: T) | Err(error: Error)

  /** The calendar date an order is stamped with. */
  datatype LocalDate = LocalDate(year: int, month: int, day: int)

  datatype Product = Product(
    productId: int,
    productName: string,
    image: string,
    description: string,
    quantity: int,        // stock; nothing keeps it from going negative
    price: real,
    discount: real,       // a percentage
    specialPrice: real,   // stored, never recomputed on read
    categoryId: int)

  /** The fields of a product request body that the services copy. */
  datatype ProductInput = ProductInput(
    productName: string,
    description: string,
    quantity: int,
    price: real,
    discount: real,
    specialPrice: real)

  datatype Category = Category(categoryId: int, categoryName: string)

  /** A cart line. It belongs to the cart that holds it and is addressed by its product id. */
  datatype CartItem = CartItem(productId: int, quantity: int, discount: real, productPrice: real)

  /** A user's cart: owner email, cached total and its items in insertion order. */
  datatype Cart = Cart(cartId: int, email: string, totalPrice: real, items: seq<CartItem>)

  datatype Address = Address(
    id: int,
    street: string,
    buildingName: string,
    city: string,
    state: string,
    country: string,
    zipCode: string,
    userId: int)         // the owning user

  /** The six text fields of an address request body. */
  datatype AddressInput = AddressInput(
    street: string,
    buildingName: string,
    city: string,
    state: string,
    country: string,
    zipCode: string)

  datatype Payment = Payment(
    paymentId: int,
    orderId: int,
    paymentMethod: string,
    pgPaymentId: string,
    pgStatus: string,
    pgResponseMessage: string,
    pgName: string)

  datatype Order = Order(
    orderId: int,
    email: string,
    orderDate: LocalDate,
    totalAmount: real,
    orderStatus: string,
    addressId: int,
    paymentId: int)

  datatype OrderItem = OrderItem(
    orderItemId: int,
    orderId: int,
    productId: int,
    quantity: int,
    discount: real,
    orderedProductPrice: real)

  datatype AppRole = ROLE_USER | ROLE_SELLER | ROLE_ADMIN

  datatype Role = Role(roleId: int, roleName: AppRole)

  datatype User = User(
    id: int,
    userName: string,
    email: string,
    password: string,    // already encoded
    enabled: bool,
    roles: set<Role>,
    addresses: seq<Address>)
}
