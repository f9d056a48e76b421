/**
 * The entities of the storefront (src/lib/types.ts). Prices and amounts are
 * integers in paise, so ₹59.99 is 5999 and every sum is exact.
 */
module Types {
  import opened Wrappers

  datatype Platform = PC | PS | Xbox

  datatype SystemRequirements = SystemRequirements(
    os: string, processor: string, memory: string, graphics: string, storage: string)

  /** A catalog entry. */
  datatype Game = Game(
    id: string,
    slug: string,
    title: string,
    platform: Platform,
    shortDescription: string,
    description: string,
    price: int,
    imageUrl: string,
    bannerUrl: string,
    tags: seq<string>,
    rating: Option<real>,
    systemRequirements: Option<SystemRequirements>)

  /** One line of an order: a frozen copy of the cart item's game, price and quantity. */
  datatype OrderItem = OrderItem(gameId: string, title: string, price: int, quantity: int)

  /** The status the type declares. Checkout writes a boolean instead; see the Checkout module. */
  datatype Status = Pending | Delivered

  datatype Order = Order(
    id: string,
    userId: string,
    userEmail: string,
    items: seq<OrderItem>,
    totalAmount: int,
    status: Status,
    createdAt: int)

  /** The stored user profile; `None` stands for both `null` and a missing field. */
  datatype UserProfile = UserProfile(
    uid: string,
    email: Option<string>,
    displayName: Option<string>,
    username: Option<string>,
    phoneNumber: Option<string>,
    photoURL: Option<string>,
    isAdmin: Option<bool>)

  datatype PaymentConfig = PaymentConfig(qrCodeUrl: string)

  /** The public attributes of the signed-in identity the auth provider reports. */
  datatype AuthUser = AuthUser(
    uid: string, email: Option<string>, displayName: Option<string>, photoURL: Option<string>)

  /** The sum of price × quantity over an order's lines, first line first. */
  function ItemsTotal(items: seq<OrderItem>): int
    decreases |items|
  {
    if |items| == 0 then 0 else items[0].price * items[0].quantity + ItemsTotal(items[1..])
  }

  /** An order is consistent when its recorded total is the sum over its lines. */
  predicate ConsistentTotal(o: Order)
  {
    o.totalAmount == ItemsTotal(o.items)
  }
}
