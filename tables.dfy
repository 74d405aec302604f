/** The rows of the marketplace's SQLite tables and the outcomes of its request handlers,
    shared by server.js and by its older copy database.js. */
module Tables {
  import opened Optional

  type Id = string

  /** The failure a handler answers with; the comment gives the HTTP status. */
  datatype Error =
    | Unauthorized       // 401: no caller id, or no user with that id
    | Forbidden          // 403: role or ownership check failed
    | NotFound           // 404: product, category or event missing
    | InvalidInput       // 400: missing or malformed request field
    | NotAuction         // 400: bid on a fixed-price listing
    | AuctionEnded       // 400: bid after the auction's end time
    | BidTooLow          // 400: bid not above the current bid
    | SelfBid            // 400: the seller bids on the own listing
    | InsufficientStock  // 400: "Not enough stock"
    | EventFull          // 400: the event is at capacity
    | CategoryInUse      // 400: delete of a category that products still use
    | AlreadyRegistered  // 409: duplicate (event, user) registration
    | Conflict           // 409: duplicate category name or id
    | Internal           // 500: any other failure (a thrown TypeError, a primary-key clash)

  datatype Result<+T> = Ok(value: T) | Err(error: Error)

  /** A middleware or validation step: the request either proceeds or is answered with an error. */
  datatype Outcome = Pass | Fail(error: Error)

  const ADMIN_EMAIL: string := "admin@kardz.com"

  /** The `role` column: 'admin', 'manager' or 'user'. */
  datatype Role = AdminRole | ManagerRole | UserRole

  datatype UserRow = UserRow(id: Id, email: string, role: Role)

  /** The `listingType` column: 'Fixed Price' or 'Auction'. */
  datatype ListingType = FixedPrice | Auction

  /** A `products` row. Absent image columns and nullable auction columns are `None`. */
  datatype Product = Product(
    id: Id, name: string, description: string, price: real, amount: int,
    imageUrl1: Option<string>, imageUrl2: Option<string>, imageUrl3: Option<string>,
    category: string, condition: string, rarity: string, cardNumber: string,
    sellerId: Id, createdAt: int, listingType: ListingType,
    startingPrice: Option<real>, currentBid: Option<real>, auctionEndDate: Option<int>,
    isHidden: int)

  datatype Bid = Bid(id: Id, productId: Id, userId: Id, userEmail: string, amount: real, createdAt: int)

  datatype Category = Category(id: Id, name: string, imageUrl: Option<string>)

  /** The `paymentMethod` column ('Card' or 'Bit') and the `status` column ('Completed' or 'Pending Payment'). */
  datatype PaymentMethod = Card | Bit
  datatype OrderStatus = Completed | PendingPayment

  datatype Order = Order(id: Id, userId: Id, total: real, date: int, paymentMethod: PaymentMethod, status: OrderStatus)

  /** An `order_items` row: a copy of the cart line taken when the order is placed. */
  datatype OrderItem = OrderItem(
    orderId: Id, productId: Id, sellerId: Id, quantity: int, price: real,
    name: string, imageUrl: Option<string>, cardNumber: Option<string>)

  /** An `events` row; a null or zero `maxParticipants` means no limit. */
  datatype Event = Event(id: Id, organizerId: Id, maxParticipants: Option<int>, date: int)

  /** An `event_participants` row is keyed by (eventId, userId) and holds `registeredAt`. */
  type ParticipantKey = (Id, Id)

  /** A cart line as the client sends it; the order snapshot copies these client-side fields. */
  datatype CartProduct = CartProduct(id: Id, name: string, price: real, sellerId: Id, imageUrls: seq<string>, cardNumber: string)
  datatype CartLine = CartLine(product: CartProduct, quantity: int)

  /** The fields a client sends to create or edit a listing. */
  datatype ProductInput = ProductInput(
    listingType: ListingType, name: string, description: string, price: real, amount: int,
    startingPrice: Option<real>, auctionEndDate: Option<int>, imageUrls: seq<string>,
    category: string, condition: string, rarity: string, cardNumber: string, sellerId: Id)

  /** Primary keys agree with map keys, and `email` is UNIQUE. */
  ghost predicate UsersWellFormed(users: map<Id, UserRow>) {
    && (forall id :: id in users ==> users[id].id == id)
    && (forall a, b :: a in users && b in users && users[a].email == users[b].email ==> a == b)
  }

  /** Primary keys agree with map keys, and `isHidden` is 0 or 1. */
  ghost predicate ProductsWellFormed(products: map<Id, Product>) {
    forall id :: id in products ==> products[id].id == id && 0 <= products[id].isHidden <= 1
  }

  /** Primary keys agree with map keys, and `name` is UNIQUE. */
  ghost predicate CategoriesWellFormed(categories: map<Id, Category>) {
    && (forall id :: id in categories ==> categories[id].id == id)
    && (forall a, b :: a in categories && b in categories && categories[a].name == categories[b].name ==> a == b)
  }

  ghost predicate BidsWellFormed(bids: map<Id, Bid>) {
    forall id :: id in bids ==> bids[id].id == id
  }

  ghost predicate OrdersWellFormed(orders: map<Id, Order>) {
    forall id :: id in orders ==> orders[id].id == id
  }

  ghost predicate EventsWellFormed(events: map<Id, Event>) {
    forall id :: id in events ==> events[id].id == id
  }
}
