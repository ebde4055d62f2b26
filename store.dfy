/** The repositories the services read and write. Each group of tables that one service owns is
    a mutable store object with its own identity generator; the tables are maps keyed by id. */
module Store {
  import opened Domain

  ghost predicate KeysBelow<V>(m: map<int, V>, bound: int) {
    forall k :: k in m ==> k < bound
  }

  /** A non-empty set of ids has a member to take next. */
  lemma NonEmptyHasMember(s: set<int>)
    requires s != {}
    ensures exists x :: x in s
  {
    if forall x :: x !in s {
      assert false;
    }
  }

  /** Taking c out of the ids still to visit adds it to the ids visited. */
  lemma VisitOne(all: set<int>, remaining: set<int>, c: int)
    requires c in remaining && remaining <= all
    ensures remaining - {c} <= all
    ensures (all - remaining) + {c} == all - (remaining - {c})
  {
  }

  /** No two items of one cart are for the same product. */
  ghost predicate DistinctProducts(items: seq<CartItem>) {
    forall i, j :: 0 <= i < j < |items| ==> items[i].productId != items[j].productId
  }

  ghost predicate ProductsKnown(items: seq<CartItem>, products: map<int, Product>) {
    forall k :: 0 <= k < |items| ==> items[k].productId in products
  }

  /** Carts are keyed by their id, each user email owns at most one cart (cartOf is the user's cart
      link) and a cart holds at most one item per product. */
  ghost predicate CartsWellFormed(carts: map<int, Cart>, cartOf: map<string, int>) {
    && (forall c :: c in carts ==> carts[c].cartId == c)
    && (forall e :: e in cartOf ==> cartOf[e] in carts && carts[cartOf[e]].email == e)
    && (forall c :: c in carts ==> carts[c].email in cartOf && cartOf[carts[c].email] == c)
    && (forall c :: c in carts ==> DistinctProducts(carts[c].items))
  }

  /** Every item of every cart refers to a stored product. */
  ghost predicate CartItemsKnown(carts: map<int, Cart>, products: map<int, Product>) {
    forall c :: c in carts ==> ProductsKnown(carts[c].items, products)
  }

  /** Every stored address has a stored owner, and each user's address list holds only that user's
      addresses, each equal to its stored version. */
  ghost predicate AddressBookConsistent(users: map<int, User>, addresses: map<int, Address>) {
    && (forall a :: a in addresses ==> addresses[a].id == a && addresses[a].userId in users)
    && (forall u :: u in users ==> OwnsItsList(users[u], addresses))
  }

  ghost predicate OwnsItsList(user: User, addresses: map<int, Address>) {
    forall k :: 0 <= k < |user.addresses| ==>
      var a := user.addresses[k];
      a.userId == user.id && a.id in addresses && addresses[a.id] == a
  }

  /** The unique constraint on usernames. */
  ghost predicate UniqueUserNames(users: map<int, User>) {
    forall u, v :: u in users && v in users && users[u].userName == users[v].userName ==> u == v
  }

  /** ProductRepository and CategoryRepository. */
  class Catalog {
    var products: map<int, Product>
    var categories: map<int, Category>
    var nextId: int     // the next generated identity value

    ghost predicate Valid()
      reads this
    {
      && 0 < nextId
      && KeysBelow(products, nextId) && KeysBelow(categories, nextId)
      && (forall k :: k in products ==> products[k].productId == k)
      && (forall k :: k in categories ==> categories[k].categoryId == k)
    }

    constructor ()
      ensures Valid() && products == map[] && categories == map[]
    {
      products, categories, nextId := map[], map[], 1;
    }

    /** The identity generator: hands out a value no table uses yet. */
    method NewId() returns (id: int)
      requires Valid()
      modifies this`nextId
      ensures Valid()
      ensures id == old(nextId) && nextId == id + 1
    {
      id := nextId;
      nextId := nextId + 1;
    }
  }

  /** CartRepository and CartItemRepository: the carts with their items, and the user-to-cart link. */
  class CartStore {
    var carts: map<int, Cart>
    var cartOf: map<string, int>
    var nextId: int

    ghost predicate Valid()
      reads this
    {
      0 < nextId && KeysBelow(carts, nextId) && CartsWellFormed(carts, cartOf)
    }

    constructor ()
      ensures Valid() && carts == map[] && cartOf == map[]
    {
      carts, cartOf, nextId := map[], map[], 1;
    }

    method NewId() returns (id: int)
      requires Valid()
      modifies this`nextId
      ensures Valid()
      ensures id == old(nextId) && nextId == id + 1
    {
      id := nextId;
      nextId := nextId + 1;
    }
  }

  /** UserRepository, RoleRepository and AddressRepository. */
  class Accounts {
    var users: map<int, User>
    var roles: map<AppRole, Role>     // findByRoleName is the only lookup
    var addresses: map<int, Address>
    var nextId: int

    ghost predicate Valid()
      reads this
    {
      && 0 < nextId
      && KeysBelow(addresses, nextId) && KeysBelow(users, nextId)
      && (forall n :: n in roles ==> roles[n].roleName == n && roles[n].roleId < nextId)
      && (forall k :: k in users ==> users[k].id == k)
      && UniqueUserNames(users)
      && AddressBookConsistent(users, addresses)
    }

    constructor ()
      ensures Valid() && users == map[] && roles == map[] && addresses == map[]
    {
      users, roles, addresses, nextId := map[], map[], map[], 1;
    }

    method NewId() returns (id: int)
      requires Valid()
      modifies this`nextId
      ensures Valid()
      ensures id == old(nextId) && nextId == id + 1
    {
      id := nextId;
      nextId := nextId + 1;
    }
  }

  /** OrderRepository, PaymentRepository and OrderItemRepository. */
  class OrderBook {
    var orders: map<int, Order>
    var payments: map<int, Payment>
    var orderItems: map<int, OrderItem>
    var nextId: int

    ghost predicate Valid()
      reads this
    {
      && 0 < nextId
      && KeysBelow(orders, nextId) && KeysBelow(payments, nextId) && KeysBelow(orderItems, nextId)
      && (forall k :: k in orders ==> orders[k].orderId == k)
      && (forall k :: k in payments ==> payments[k].paymentId == k)
      && (forall k :: k in orderItems ==> orderItems[k].orderItemId == k)
    }

    constructor ()
      ensures Valid() && orders == map[] && payments == map[] && orderItems == map[]
    {
      orders, payments, orderItems, nextId := map[], map[], map[], 1;
    }

    method NewId() returns (id: int)
      requires Valid()
      modifies this`nextId
      ensures Valid()
      ensures id == old(nextId) && nextId == id + 1
    {
      id := nextId;
      nextId := nextId + 1;
    }
  }
}
