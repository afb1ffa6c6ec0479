/** The rows of the shop's tables, as the controllers read and write them, and the
    constants they compare against. Money is held in integer cents (the columns are
    NUMERIC(10, 2)); timestamps are not modelled. */
module Records {

  datatype Option<T> = None | Some(value: T)
  {
    function GetOr(default: T): T
    {
      match this
      case Some(v) => v
      case None => default
    }
  }

  /** A catalogue entry. `price` is in cents; `sales` counts units sold. */
  datatype Product = Product(
    name: string,
    description: Option<string>,
    price: int,
    stock: int,
    sales: int,
    categoryId: nat,
    imagePath: Option<string>)

  datatype Category = Category(name: string, description: Option<string>)

  /** One line of a user's cart: a product and how many units of it. */
  datatype CartLine = CartLine(userId: nat, productId: nat, quantity: int)

  /** An order; `total` (cents) is fixed when the order is created. */
  datatype Order = Order(userId: nat, shippingAddress: string, status: string, total: int)

  /** A line of an order; `price` is the product's price when the order was placed. */
  datatype OrderItem = OrderItem(orderId: nat, productId: nat, quantity: int, price: int)

  datatype Payment = Payment(
    orderId: nat,
    amount: int,
    paymentMethod: string,
    cardLastFour: string,
    status: string,
    transactionId: string)

  /** A user; `password` holds the hash, never the clear text. */
  datatype User = User(
    email: string,
    password: string,
    name: string,
    role: string,
    address: Option<string>,
    phone: Option<string>)

  // Order statuses as the order and payment controllers write them.
  const Pending := "pending"
  const Paid := "paid"
  const Processing := "processing"
  const Shipped := "shipped"
  const Delivered := "delivered"
  const Cancelled := "cancelled"

  const RoleUser := "ROLE_USER"
  const RoleAdmin := "ROLE_ADMIN"

  // HTTP status codes the handlers answer with.
  const Ok := 200
  const Created := 201
  const BadRequest := 400
  const Forbidden := 403
  const NotFound := 404
  const Conflict := 409
  const ServerError := 500
  const NotImplemented := 501

  // Exit codes of a console command.
  const CommandSuccess := 0
  const CommandFailure := 1

  /** PHP truthiness of an optional string parameter: absent, "" and "0" are false. */
  predicate Truthy(s: Option<string>)
  {
    s.Some? && s.value != "" && s.value != "0"
  }

  /** PHP's `max(1, $n)`, used to clamp requested cart quantities. */
  function AtLeastOne(n: int): (r: int)
    ensures r >= 1
    ensures r == n || (n < 1 && r == 1)
  {
    if n < 1 then 1 else n
  }
}
