/** server.js: the marketplace store and its request handlers. The SQLite tables are the fields of
    `Store`; each handler is one atomic method that either answers with an error and leaves every
    table as it was (the handler's ROLLBACK, or no write at all), or writes and answers with a
    result. Ids and timestamps the handler derives from `Date.now()` are parameters. */
module Server {
  import opened Optional
  import opened Tables
  import opened Rows
  import Access
  import Bidding
  import Checkout
  import Catalog
  import Registration
  import Settlement

  /** Every table of the store, as one value. */
  datatype Db = Db(
    users: map<Id, UserRow>, products: map<Id, Product>, bids: map<Id, Bid>,
    categories: map<Id, Category>, orders: map<Id, Order>, orderItems: seq<OrderItem>,
    events: map<Id, Event>, participants: map<ParticipantKey, int>)

  /** The role login assigns: `email === ADMIN_EMAIL ? 'admin' : (user?.role || 'user')`. */
  function LoginRole(email: string, stored: Option<Role>): (r: Role)
    ensures r == AdminRole <==> email == ADMIN_EMAIL || stored == Some(AdminRole)
    ensures email != ADMIN_EMAIL && stored.Some? ==> r == stored.value
    ensures email != ADMIN_EMAIL && stored.None? ==> r == UserRole
  {
    if email == ADMIN_EMAIL then AdminRole else if stored.Some? then stored.value else UserRole
  }

  /** `['admin', 'manager', 'user'].includes(role)`. */
  function ParseRole(s: string): (r: Option<Role>)
    ensures r.Some? <==> s == "admin" || s == "manager" || s == "user"
    ensures r == Some(AdminRole) <==> s == "admin"
  {
    if s == "admin" then Some(AdminRole)
    else if s == "manager" then Some(ManagerRole)
    else if s == "user" then Some(UserRole)
    else None
  }

  /** Image column `i` when a listing is added: `imageUrls.map(url => url || null)`, destructured. */
  function AddedImage(urls: seq<string>, i: nat): (u: Option<string>)
    ensures u.Some? <==> i < |urls| && urls[i] != ""
    ensures u.Some? ==> u.value == urls[i]
  {
    if i < |urls| && urls[i] != "" then Some(urls[i]) else None
  }

  /** Image column `i` when a listing is edited: `[...imageUrls, null, null, null]`, destructured;
      an empty string is stored as it is. */
  function EditedImage(urls: seq<string>, i: nat): (u: Option<string>)
    ensures u.Some? <==> i < |urls|
    ensures u.Some? ==> u.value == urls[i]
  {
    if i < |urls| then Some(urls[i]) else None
  }

  /** The row `POST /api/products` inserts: visible, seller taken from the request body, and for an
      auction the current bid starts at the starting price. */
  function NewListing(input: ProductInput, id: Id, now: int): (p: Product)
    ensures p.id == id && p.sellerId == input.sellerId && p.createdAt == now && p.isHidden == 0
    ensures p.listingType == input.listingType && p.amount == input.amount
    ensures p.currentBid == (if input.listingType == Auction then input.startingPrice else None)
  {
    Product(id, input.name, input.description, input.price, input.amount,
            AddedImage(input.imageUrls, 0), AddedImage(input.imageUrls, 1), AddedImage(input.imageUrls, 2),
            input.category, input.condition, input.rarity, input.cardNumber,
            input.sellerId, now, input.listingType,
            input.startingPrice, if input.listingType == Auction then input.startingPrice else None,
            input.auctionEndDate, 0)
  }

  /** The row `PUT /api/products/:id` leaves: id, seller, creation time and visibility are kept; an
      auction keeps a truthy current bid and otherwise restarts at the starting price; a fixed-price
      listing has no current bid. */
  function RevisedListing(stored: Product, input: ProductInput): (p: Product)
    ensures p.id == stored.id && p.sellerId == stored.sellerId
    ensures p.createdAt == stored.createdAt && p.isHidden == stored.isHidden
    ensures p.listingType == input.listingType && p.amount == input.amount && p.category == input.category
    ensures input.listingType == Auction ==>
      p.currentBid == (if stored.currentBid.Some? && stored.currentBid.value != 0.0 then stored.currentBid else input.startingPrice)
    ensures input.listingType == FixedPrice ==> p.currentBid.None?
  {
    var bid := if input.listingType != Auction then None
               else if stored.currentBid.Some? && stored.currentBid.value != 0.0 then stored.currentBid
               else input.startingPrice;
    stored.(name := input.name, description := input.description, price := input.price, amount := input.amount,
            startingPrice := input.startingPrice, auctionEndDate := input.auctionEndDate,
            imageUrl1 := EditedImage(input.imageUrls, 0), imageUrl2 := EditedImage(input.imageUrls, 1),
            imageUrl3 := EditedImage(input.imageUrls, 2),
            category := input.category, condition := input.condition, listingType := input.listingType,
            currentBid := bid, rarity := input.rarity, cardNumber := input.cardNumber)
  }

  /** The non-empty strings of `urls`, in order. */
  function NonEmpty(urls: seq<string>): seq<string>
    decreases |urls|
  {
    if urls == [] then [] else (if urls[0] != "" then [urls[0]] else []) + NonEmpty(urls[1..])
  }

  /** The URLs destructuring into the three image columns reaches: at most the first three. */
  function FirstThree(urls: seq<string>): seq<string> {
    if |urls| <= 3 then urls else urls[..3]
  }

  /** The three added image columns, folded by the row mapper, are the non-empty URLs among the first three. */
  lemma {:induction false} AddedImagesShown(urls: seq<string>)
    ensures Kept(AddedImage(urls, 0)) + Kept(AddedImage(urls, 1)) + Kept(AddedImage(urls, 2)) == NonEmpty(FirstThree(urls))
  {
    var t := FirstThree(urls);
    if |t| == 0 {
    } else if |t| == 1 {
      assert NonEmpty(t) == Kept(AddedImage(urls, 0)) + NonEmpty(t[1..]);
    } else if |t| == 2 {
      var t1 := t[1..];
      assert NonEmpty(t1) == Kept(AddedImage(urls, 1)) + NonEmpty(t1[1..]);
      assert NonEmpty(t) == Kept(AddedImage(urls, 0)) + NonEmpty(t1);
    } else {
      var t1, t2 := t[1..], t[2..];
      assert t1[1..] == t2;
      assert NonEmpty(t2) == Kept(AddedImage(urls, 2)) + NonEmpty(t2[1..]);
      assert NonEmpty(t1) == Kept(AddedImage(urls, 1)) + NonEmpty(t2);
      assert NonEmpty(t) == Kept(AddedImage(urls, 0)) + NonEmpty(t1);
    }
  }

  /** A new listing is shown visible, with exactly the non-empty URLs among the first three it was
      given, in their order; further URLs are dropped by the destructuring. */
  lemma NewListingShowsGivenImages(input: ProductInput, id: Id, now: int)
    ensures var v := View(NewListing(input, id, now));
      && !v.isHidden
      && v.imageUrls == NonEmpty(FirstThree(input.imageUrls))
      && (|input.imageUrls| <= 3 ==> v.imageUrls == NonEmpty(input.imageUrls))
  {
    AddedImagesShown(input.imageUrls);
  }

  /** `createOrder`: the stock step over the cart, then one order row and one snapshot per line.
      Any failure leaves the store as it was. */
  function PlaceOrder(db: Db, userId: Id, cart: seq<CartLine>, total: real, payment: PaymentMethod,
                      status: OrderStatus, orderId: Id, date: int): (out: (Result<Order>, Db))
    ensures out.0.Err? ==> out.1 == db
    ensures out.0.Ok? ==> && orderId !in db.orders
                          && Checkout.StockAfter(db.products, cart) == Ok(out.1.products)
                          && out.0.value == Order(orderId, userId, total, date, payment, status)
  {
    match Checkout.StockAfter(db.products, cart)
    case Err(e) => (Err(e), db)
    case Ok(stock) =>
      if orderId in db.orders then (Err(Internal), db)
      else
        var order := Order(orderId, userId, total, date, payment, status);
        (Ok(order), db.(products := stock, orders := db.orders[orderId := order],
                        orderItems := db.orderItems + Checkout.Snapshots(orderId, cart, true)))
  }

  /** A placed order: exactly one new order row, one snapshot per cart line in cart order, each
      non-auction product down by the quantity the cart asks of it, auction products untouched, and
      no other table changed. */
  lemma PlacedOrderEffects(db: Db, userId: Id, cart: seq<CartLine>, total: real, payment: PaymentMethod,
                           status: OrderStatus, orderId: Id, date: int)
    requires PlaceOrder(db, userId, cart, total, payment, status, orderId, date).0.Ok?
    ensures var after := PlaceOrder(db, userId, cart, total, payment, status, orderId, date).1;
      && after.orders == db.orders[orderId := Order(orderId, userId, total, date, payment, status)]
      && after.orderItems[..|db.orderItems|] == db.orderItems
      && |after.orderItems| == |db.orderItems| + |cart|
      && (forall i :: 0 <= i < |cart| ==> after.orderItems[|db.orderItems| + i] == Checkout.Snapshot(orderId, cart[i], true))
      && after.products.Keys == db.products.Keys
      && (forall id :: id in db.products ==>
            after.products[id].amount ==
              if db.products[id].listingType == Auction then db.products[id].amount
              else db.products[id].amount - Checkout.Demand(cart, id))
      && after.users == db.users && after.bids == db.bids && after.categories == db.categories
      && after.events == db.events && after.participants == db.participants
  {
    Checkout.StockFallsByDemand(db.products, cart);
  }

  /** When a non-auction line finds too little stock, the whole order fails with InsufficientStock
      and the decrements of earlier lines are gone with it. */
  lemma ShortLineRollsBack(db: Db, userId: Id, cart: seq<CartLine>, total: real, payment: PaymentMethod,
                           status: OrderStatus, orderId: Id, date: int)
    requires Checkout.StockAfter(db.products, cart) == Err(InsufficientStock)
    ensures PlaceOrder(db, userId, cart, total, payment, status, orderId, date) == (Err(InsufficientStock), db)
  {
  }

  /** Two checkouts each wanting the last unit: the second one fails and the amount stays at 0. */
  lemma LastUnitSoldOnce(db: Db, line: CartLine, o1: Id, o2: Id, userId: Id, total: real, date: int)
    requires line.product.id in db.products && db.products[line.product.id].listingType == FixedPrice
    requires db.products[line.product.id].amount == 1 && line.quantity == 1
    requires o1 !in db.orders
    ensures var first := PlaceOrder(db, userId, [line], total, Card, Completed, o1, date);
      && first.0.Ok? && first.1.products[line.product.id].amount == 0
      && PlaceOrder(first.1, userId, [line], total, Card, Completed, o2, date) == (Err(InsufficientStock), first.1)
  {
    var next := Checkout.Next(db.products, line);
    assert Checkout.StockAfter(db.products, [line]) == Checkout.StockAfter(next, []);
  }

  class Store {
    var users: map<Id, UserRow>
    var products: map<Id, Product>
    var bids: map<Id, Bid>
    var categories: map<Id, Category>
    var orders: map<Id, Order>
    var orderItems: seq<OrderItem>
    var events: map<Id, Event>
    var participants: map<ParticipantKey, int>

    function State(): Db
      reads this
    {
      Db(users, products, bids, categories, orders, orderItems, events, participants)
    }

    /** The constraints SQLite enforces on these tables: primary keys, UNIQUE emails and category
        names, and `isHidden` in {0, 1}. */
    ghost predicate Valid()
      reads this
    {
      && UsersWellFormed(users) && ProductsWellFormed(products) && BidsWellFormed(bids)
      && CategoriesWellFormed(categories) && OrdersWellFormed(orders) && EventsWellFormed(events)
    }

    constructor ()
      ensures Valid()
      ensures State() == Db(map[], map[], map[], map[], map[], [], map[], map[])
    {
      users, products, bids, categories := map[], map[], map[], map[];
      orders, orderItems, events, participants := map[], [], map[], map[];
    }

    /** `POST /api/login`: an unknown email gets a new user; a known email gets its own row back,
        promoted to admin when it is the admin email. */
    method Login(email: string, newUserId: Id) returns (r: Result<UserRow>)
      requires Valid()
      modifies this
      ensures Valid()
      ensures r.Ok? ==> r.value.email == email && r.value.id in users && users[r.value.id] == r.value
      ensures email == "" ==> r == Err(InvalidInput) && State() == old(State())
      ensures forall id :: email != "" && id in old(users) && old(users)[id].email == email ==>
        && r == Ok(old(users)[id].(role := LoginRole(email, Some(old(users)[id].role))))
        && State() == old(State()).(users := old(users)[id := r.value])
      ensures email != "" && (forall id :: id in old(users) ==> old(users)[id].email != email) ==>
        if newUserId in old(users) then r == Err(Internal) && State() == old(State())
        else && r == Ok(UserRow(newUserId, email, LoginRole(email, None)))
             && State() == old(State()).(users := old(users)[newUserId := r.value])
    {
      if email == "" {
        return Err(InvalidInput);
      }
      if exists id :: id in users && users[id].email == email {
        var id :| id in users && users[id].email == email;
        var user := users[id];
        if email == ADMIN_EMAIL && user.role != AdminRole {
          users := users[id := user.(role := AdminRole)];
        }
        r := Ok(user.(role := LoginRole(email, Some(user.role))));
        assert users == old(users)[id := r.value];
      } else {
        if newUserId in users {
          return Err(Internal);
        }
        var user := UserRow(newUserId, email, LoginRole(email, None));
        users := users[newUserId := user];
        r := Ok(user);
      }
    }

    /** `POST /api/products`: the caller must be a user; the row is inserted under the fresh id. */
    method AddProduct(callerId: Id, input: ProductInput, id: Id, now: int) returns (r: Result<ProductView>)
      requires Valid()
      modifies this
      ensures Valid()
      ensures Access.IsAuthenticated(old(users), callerId).Fail? ==> r == Err(Unauthorized) && State() == old(State())
      ensures Access.IsAuthenticated(old(users), callerId).Pass? ==>
        if id in old(products) then r == Err(Internal) && State() == old(State())
        else && r == Ok(View(NewListing(input, id, now)))
             && State() == old(State()).(products := old(products)[id := NewListing(input, id, now)])
    {
      if Access.IsAuthenticated(users, callerId).Fail? {
        return Err(Unauthorized);
      }
      if id in products {
        return Err(Internal);
      }
      var p := NewListing(input, id, now);
      products := products[id := p];
      r := Ok(View(p));
    }

    /** `PUT /api/products/:id`, behind `canManageProduct`. */
    method UpdateProduct(callerId: Id, productId: Id, input: ProductInput) returns (r: Result<ProductView>)
      requires Valid()
      modifies this
      ensures Valid()
      ensures var gate := Access.CanManageProduct(old(users), old(products), callerId, productId);
        if gate.Fail? then r == Err(gate.error) && State() == old(State())
        else && r == Ok(View(RevisedListing(old(products)[productId], input)))
             && State() == old(State()).(products := old(products)[productId := RevisedListing(old(products)[productId], input)])
    {
      var gate := Access.CanManageProduct(users, products, callerId, productId);
      if gate.Fail? {
        return Err(gate.error);
      }
      var p := RevisedListing(products[productId], input);
      products := products[productId := p];
      r := Ok(View(p));
    }

    /** `DELETE /api/products/:id`, behind `canManageProduct` (which already answers 404 for a missing row). */
    method DeleteProduct(callerId: Id, productId: Id) returns (r: Result<()>)
      requires Valid()
      modifies this
      ensures Valid()
      ensures var gate := Access.CanManageProduct(old(users), old(products), callerId, productId);
        if gate.Fail? then r == Err(gate.error) && State() == old(State())
        else r == Ok(()) && State() == old(State()).(products := old(products) - {productId})
    {
      var gate := Access.CanManageProduct(users, products, callerId, productId);
      if gate.Fail? {
        return Err(gate.error);
      }
      products := products - {productId};
      r := Ok(());
    }

    /** `PATCH /api/products/:id/toggle-visibility`, behind `canManageProduct`. */
    method ToggleVisibility(callerId: Id, productId: Id) returns (r: Result<ProductView>)
      requires Valid()
      modifies this
      ensures Valid()
      ensures var gate := Access.CanManageProduct(old(users), old(products), callerId, productId);
        if gate.Fail? then r == Err(gate.error) && State() == old(State())
        else && r == Ok(View(Toggled(old(products)[productId])))
             && r.value.isHidden == !View(old(products)[productId]).isHidden
             && State() == old(State()).(products := old(products)[productId := Toggled(old(products)[productId])])
    {
      var gate := Access.CanManageProduct(users, products, callerId, productId);
      if gate.Fail? {
        return Err(gate.error);
      }
      var p := Toggled(products[productId]);
      products := products[productId := p];
      r := Ok(View(p));
    }

    /** `POST /api/products/:productId/bid`. A refused bid changes nothing; an accepted one adds
        exactly one bid row and moves that product's current bid, strictly upwards, to the amount. */
    method PlaceBid(productId: Id, callerId: Id, callerEmail: string, amount: Option<real>, now: int, bidId: Id)
      returns (r: Result<ProductView>)
      requires Valid()
      modifies this
      ensures Valid()
      ensures var verdict := Bidding.BidVerdict(old(users), old(products), productId, callerId, amount, now);
        if verdict.Fail? then r == Err(verdict.error) && State() == old(State())
        else if bidId in old(bids) then r == Err(Internal) && State() == old(State())
        else
          && (old(products)[productId].currentBid.Some? ==> amount.value > old(products)[productId].currentBid.value)
          && r == Ok(View(old(products)[productId].(currentBid := Some(amount.value))))
          && State() == old(State()).(
               bids := old(bids)[bidId := Bid(bidId, productId, callerId, callerEmail, amount.value, now)],
               products := old(products)[productId := old(products)[productId].(currentBid := Some(amount.value))])
    {
      var verdict := Bidding.BidVerdict(users, products, productId, callerId, amount, now);
      if verdict.Fail? {
        return Err(verdict.error);
      }
      if bidId in bids {
        return Err(Internal);   // the INSERT violates the primary key; the handler rolls back
      }
      bids := bids[bidId := Bid(bidId, productId, callerId, callerEmail, amount.value, now)];
      products := products[productId := products[productId].(currentBid := Some(amount.value))];
      r := Ok(View(products[productId]));
    }

    /** `POST /api/categories`, admin only. The UNIQUE name (and the primary key) make a clash a 409. */
    method AddCategory(callerId: Id, name: string, imageUrl: Option<string>, id: Id) returns (r: Result<Category>)
      requires Valid()
      modifies this
      ensures Valid()
      ensures r.Err? ==> State() == old(State())
      ensures Access.IsAdmin(old(users), callerId).Fail? ==> r == Err(Access.IsAdmin(old(users), callerId).error)
      ensures Access.IsAdmin(old(users), callerId).Pass? && name == "" ==> r == Err(InvalidInput)
      ensures Access.IsAdmin(old(users), callerId).Pass? && name != "" ==>
        if id in old(categories) || Catalog.NameTaken(old(categories), name, None) then r == Err(Conflict)
        else && r == Ok(Category(id, name, imageUrl))
             && State() == old(State()).(categories := old(categories)[id := r.value])
    {
      var gate := Access.IsAdmin(users, callerId);
      if gate.Fail? {
        return Err(gate.error);
      }
      if name == "" {
        return Err(InvalidInput);
      }
      if id in categories || Catalog.NameTaken(categories, name, None) {
        return Err(Conflict);
      }
      r := Ok(Category(id, name, imageUrl));
      categories := categories[id := r.value];
    }

    /** `PUT /api/categories/:id`, admin only: rename the category and, in the same transaction,
        every product filed under its old name. */
    method UpdateCategory(callerId: Id, id: Id, newName: string, imageUrl: Option<string>) returns (r: Result<()>)
      requires Valid()
      modifies this
      ensures Valid()
      ensures r.Err? ==> State() == old(State())
      ensures Access.IsAdmin(old(users), callerId).Fail? ==> r == Err(Access.IsAdmin(old(users), callerId).error)
      ensures Access.IsAdmin(old(users), callerId).Pass? && newName == "" ==> r == Err(InvalidInput)
      ensures Access.IsAdmin(old(users), callerId).Pass? && newName != "" ==>
        if id !in old(categories) then r == Err(NotFound)
        else if Catalog.NameTaken(old(categories), newName, Some(id)) then r == Err(Conflict)
        else && r == Ok(())
             && State() == old(State()).(
                  categories := old(categories)[id := Category(id, newName, imageUrl)],
                  products := Catalog.Renamed(old(products), old(categories)[id].name, newName))
    {
      var gate := Access.IsAdmin(users, callerId);
      if gate.Fail? {
        return Err(gate.error);
      }
      if newName == "" {
        return Err(InvalidInput);
      }
      if id !in categories {
        return Err(NotFound);
      }
      if Catalog.NameTaken(categories, newName, Some(id)) {
        return Err(Conflict);
      }
      var oldName := categories[id].name;
      Catalog.RenameKeepsNamesUnique(categories, id, newName, imageUrl);
      Catalog.RenameMovesExactlyTheOldMembers(products, oldName, newName);
      categories := categories[id := Category(id, newName, imageUrl)];
      products := Catalog.Renamed(products, oldName, newName);
      r := Ok(());
    }

    /** `DELETE /api/categories/:id`, admin only; refused while any product is filed under it. */
    method DeleteCategory(callerId: Id, id: Id) returns (r: Result<()>)
      requires Valid()
      modifies this
      ensures Valid()
      ensures r.Err? ==> State() == old(State())
      ensures Access.IsAdmin(old(users), callerId).Fail? ==> r == Err(Access.IsAdmin(old(users), callerId).error)
      ensures Access.IsAdmin(old(users), callerId).Pass? ==>
        if id !in old(categories) then r == Err(NotFound)
        else if Catalog.InUse(old(products), old(categories)[id].name) then r == Err(CategoryInUse)
        else r == Ok(()) && State() == old(State()).(categories := old(categories) - {id})
    {
      var gate := Access.IsAdmin(users, callerId);
      if gate.Fail? {
        return Err(gate.error);
      }
      if id !in categories {
        return Err(NotFound);
      }
      if Catalog.InUse(products, categories[id].name) {
        return Err(CategoryInUse);
      }
      categories := categories - {id};
      r := Ok(());
    }

    /** `createOrder`: the stock loop works on the transaction's copy of the products table, and
        only a call that gets through every line and both inserts commits it. */
    method CreateOrder(userId: Id, cart: seq<CartLine>, total: real, payment: PaymentMethod,
                       status: OrderStatus, orderId: Id, date: int) returns (r: Result<Order>)
      requires Valid()
      modifies this
      ensures Valid()
      ensures (r, State()) == PlaceOrder(old(State()), userId, cart, total, payment, status, orderId, date)
    {
      var stock := Checkout.ReserveStock(products, cart);
      if stock.Err? {
        return Err(stock.error);
      }
      if orderId in orders {
        return Err(Internal);   // the order INSERT violates the primary key
      }
      Checkout.StockKeepsProductsWellFormed(products, cart);
      var order := Order(orderId, userId, total, date, payment, status);
      var items := Checkout.AppendSnapshots(orderItems, orderId, cart, true);
      products, orders, orderItems := stock.value, orders[orderId := order], items;
      r := Ok(order);
    }

    /** `POST /api/checkout`: a card order, completed at once. */
    method CardCheckout(callerId: Id, userId: Id, cart: seq<CartLine>, total: real, orderId: Id, date: int)
      returns (r: Result<Order>)
      requires Valid()
      modifies this
      ensures Valid()
      ensures Access.IsAuthenticated(old(users), callerId).Fail? ==> r == Err(Unauthorized) && State() == old(State())
      ensures Access.IsAuthenticated(old(users), callerId).Pass? ==>
        (r, State()) == PlaceOrder(old(State()), userId, cart, total, Card, Completed, orderId, date)
      ensures r.Ok? ==> r.value.paymentMethod == Card && r.value.status == Completed
    {
      if Access.IsAuthenticated(users, callerId).Fail? {
        return Err(Unauthorized);
      }
      r := CreateOrder(userId, cart, total, Card, Completed, orderId, date);
    }

    /** `POST /api/bit-checkout`: a Bit order, pending until the settlement pass confirms it. */
    method BitCheckout(callerId: Id, userId: Id, cart: seq<CartLine>, total: real, orderId: Id, date: int)
      returns (r: Result<Order>)
      requires Valid()
      modifies this
      ensures Valid()
      ensures Access.IsAuthenticated(old(users), callerId).Fail? ==> r == Err(Unauthorized) && State() == old(State())
      ensures Access.IsAuthenticated(old(users), callerId).Pass? ==>
        (r, State()) == PlaceOrder(old(State()), userId, cart, total, Bit, PendingPayment, orderId, date)
      ensures r.Ok? ==> r.value.paymentMethod == Bit && r.value.status == PendingPayment
    {
      if Access.IsAuthenticated(users, callerId).Fail? {
        return Err(Unauthorized);
      }
      r := CreateOrder(userId, cart, total, Bit, PendingPayment, orderId, date);
    }

    /** `PUT /api/admin/users/:userId/role`, admin only. The primary admin account cannot be demoted;
        an unknown target id updates nothing and answers with no user. */
    method UpdateUserRole(callerId: Id, userId: Id, role: string) returns (r: Result<Option<UserRow>>)
      requires Valid()
      modifies this
      ensures Valid()
      ensures r.Err? ==> State() == old(State())
      ensures Access.IsAdmin(old(users), callerId).Fail? ==> r == Err(Access.IsAdmin(old(users), callerId).error)
      ensures Access.IsAdmin(old(users), callerId).Pass? && ParseRole(role).None? ==> r == Err(InvalidInput)
      ensures Access.IsAdmin(old(users), callerId).Pass? && ParseRole(role).Some? ==>
        if userId in old(users) && old(users)[userId].email == ADMIN_EMAIL && role != "admin" then r == Err(Forbidden)
        else if userId !in old(users) then r == Ok(None) && State() == old(State())
        else && r == Ok(Some(old(users)[userId].(role := ParseRole(role).value)))
             && State() == old(State()).(users := old(users)[userId := r.value.value])
    {
      var gate := Access.IsAdmin(users, callerId);
      if gate.Fail? {
        return Err(gate.error);
      }
      var parsed := ParseRole(role);
      if parsed.None? {
        return Err(InvalidInput);
      }
      if userId in users && users[userId].email == ADMIN_EMAIL && role != "admin" {
        return Err(Forbidden);
      }
      if userId !in users {
        return Ok(None);
      }
      var user := users[userId].(role := parsed.value);
      users := users[userId := user];
      r := Ok(Some(user));
    }

    /** `POST /api/events/:eventId/register`. */
    method Register(eventId: Id, callerId: Id, now: int) returns (r: Result<Event>)
      requires Valid()
      modifies this
      ensures Valid()
      ensures var verdict := Registration.RegisterVerdict(old(users), old(events), old(participants), eventId, callerId);
        if verdict.Fail? then r == Err(verdict.error) && State() == old(State())
        else
          && r == Ok(old(events)[eventId])
          && State() == old(State()).(participants := old(participants)[(eventId, callerId) := now])
          && Registration.Count(participants, eventId) == Registration.Count(old(participants), eventId) + 1
          && (Registration.Capped(events[eventId]) ==>
                Registration.Count(participants, eventId) <= events[eventId].maxParticipants.value)
    {
      var verdict := Registration.RegisterVerdict(users, events, participants, eventId, callerId);
      if verdict.Fail? {
        return Err(verdict.error);
      }
      Registration.RegistrationRespectsCapacity(users, events, participants, eventId, callerId, now);
      participants := participants[(eventId, callerId) := now];
      r := Ok(events[eventId]);
    }

    /** `DELETE /api/events/:eventId/register`: deletes the caller's pair if there is one and answers
        with the event (none when the event does not exist) either way. */
    method Unregister(eventId: Id, callerId: Id) returns (r: Result<Option<Event>>)
      requires Valid()
      modifies this
      ensures Valid()
      ensures Access.IsAuthenticated(old(users), callerId).Fail? ==> r == Err(Unauthorized) && State() == old(State())
      ensures Access.IsAuthenticated(old(users), callerId).Pass? ==>
        && r == Ok(if eventId in old(events) then Some(old(events)[eventId]) else None)
        && State() == old(State()).(participants := old(participants) - {(eventId, callerId)})
        && ((eventId, callerId) !in old(participants) ==> State() == old(State()))
    {
      if Access.IsAuthenticated(users, callerId).Fail? {
        return Err(Unauthorized);
      }
      Registration.CountAfterDelete(participants, (eventId, callerId));
      participants := participants - {(eventId, callerId)};
      r := Ok(if eventId in events then Some(events[eventId]) else None);
    }

    /** `confirmPendingPayments`: visits every order awaiting a Bit payment and completes those in
        `confirm` (the decisions `Math.random() > 0.3` makes). */
    method ConfirmPendingPayments(confirm: set<Id>)
      requires Valid()
      modifies this
      ensures Valid()
      ensures State() == old(State()).(orders := Settlement.Settled(old(orders), confirm))
    {
      var pending := set id | id in orders && Settlement.AwaitingBit(orders[id]);
      var remaining := pending;
      var settled := orders;
      while remaining != {}
        invariant remaining <= pending
        invariant settled == Settlement.Settled(old(orders), confirm - remaining)
        modifies {}
        decreases remaining
      {
        var id :| id in remaining;
        if id in confirm {
          assert confirm - (remaining - {id}) == (confirm - remaining) + {id};
          Settlement.ConfirmOneMore(old(orders), confirm - remaining, id);
          settled := settled[id := settled[id].(status := Completed)];
        } else {
          assert confirm - (remaining - {id}) == confirm - remaining;
        }
        remaining := remaining - {id};
      }
      assert confirm - remaining == confirm;
      Settlement.SettledKeepsOrdersWellFormed(orders, confirm);
      orders := settled;
    }
  }

  /** Logging in twice with the same email gives the same user id, whatever fresh id each call was offered. */
  method LoginIsStable(store: Store, email: string, firstId: Id, secondId: Id)
    returns (first: Result<UserRow>, second: Result<UserRow>)
    requires store.Valid()
    modifies store
    ensures first.Ok? ==> second.Ok? && second.value.id == first.value.id
  {
    first := store.Login(email, firstId);
    second := store.Login(email, secondId);
  }
}
