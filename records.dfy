/**
  The four stored entities (the schemas under backend/models) as the storefront receives
  them in JSON. The database identity `_id` is named `dbId`. Money is `real`,
  counts and timestamps (milliseconds) are `int`, and a field the JSON may
  lack is an `Option`.
*/
module Records {
  import opened Util

  /** One line of a stored order: a snapshot of what was bought, not a reference to the catalog. */
  datatype OrderItem = OrderItem(
    name: string,
    size: Option<string>,
    extras: seq<string>,
    quantity: int,
    price: real,
    image: string)

  datatype Order = Order(
    dbId: string,
    customerName: string,
    customerPhone: string,
    customerEmail: Option<string>,
    address: string,
    area: Option<string>,
    items: seq<OrderItem>,
    subtotal: real,
    deliveryFee: real,
    tax: real,
    total: real,
    status: string,
    paymentMethod: string,
    createdAt: int)

  /**
    The body a storefront page posts to create an order. A field the page
    does not send is None; `orderTime` is the clock reading the page formats.
  */
  datatype OrderPayload = OrderPayload(
    customerName: string,
    customerPhone: string,
    customerEmail: Option<string>,
    address: string,
    area: Option<string>,
    items: seq<OrderItem>,
    subtotal: real,
    deliveryFee: real,
    tax: real,
    total: real,
    status: string,
    paymentMethod: string,
    specialInstructions: string,
    orderTime: Option<string>,
    estimatedDelivery: Option<string>)

  /**
    A catalog entry. `idKey` is the JSON key `id`, which the schema does not
    declare and the serialised document does not carry (None); `size` is a key
    the menu reads and the schema does not declare either.
  */
  datatype Pizza = Pizza(
    dbId: string,
    idKey: Option<string>,
    name: string,
    description: string,
    price: real,
    image: string,
    category: string,
    isVeg: bool,
    isSpicy: bool,
    isAvailable: bool,
    rating: real,
    ingredients: seq<string>,
    featured: bool,
    size: Option<string>)

  /** A delivery zone. */
  datatype Area = Area(
    dbId: string,
    name: string,
    deliveryFee: real,
    deliveryTime: string,
    isActive: bool,
    postalCodes: seq<string>,
    orderCount: int)

  /**
    A customer or staff account; `totalSpent` may be missing, which the pages
    read as 0. `idKey` is the JSON key `id`, which, as for pizzas, the schema
    does not declare and the served document does not carry (None).
  */
  datatype User = User(
    dbId: string,
    idKey: Option<string>,
    name: string,
    email: string,
    phone: string,
    role: string,
    status: string,
    permissions: seq<string>,
    totalOrders: int,
    totalSpent: Option<real>)

  /** The roles the user schema admits. */
  const Roles: seq<string> := ["customer", "staff", "manager", "super_admin"]

  /** The account states the user schema admits. */
  const UserStatuses: seq<string> := ["active", "inactive"]

  /** `u.status === "active"`, the test of the overview route and of the users page. */
  predicate IsActiveUser(u: User) {
    u.status == "active"
  }

  /** `users.filter(u => u.status === "active").length`. */
  function ActiveCount(users: seq<User>): (r: nat)
    ensures r <= |users|
  {
    |Filter(users, IsActiveUser)|
  }

  /** The order states the admin order page offers, in its order. */
  const OrderStatuses: seq<string> := ["pending", "preparing", "out_for_delivery", "delivered", "cancelled"]
}
