/** database.js: the older copy of the marketplace server. Bidding, categories, visibility and the
    authorization checks follow the same rules as server.js; it differs in three places: login
    resets the stored role on every call, listings carry no amount, rarity or card number, and
    `createOrder` writes the order without looking at stock. There are no events and no role
    administration. */
module Legacy {
  import opened Optional
  import opened Tables
  import opened Rows
  import Access
  import Bidding
  import Checkout
  import Catalog
  import Settlement
  import Server

  /** Every table of the older store, as one value. */
  datatype LegacyDb = LegacyDb(
    users: map<Id, UserRow>, products: map<Id, Product>, bids: map<Id, Bid>,
    categories: map<Id, Category>, orders: map<Id, Order>, orderItems: seq<OrderItem>)

  /** The role this login assigns: admin exactly for the admin email, whatever was stored. */
  function LegacyRole(email: string): (r: Role)
    ensures r == AdminRole <==> email == ADMIN_EMAIL
    ensures r != ManagerRole
  {
    if email == ADMIN_EMAIL then AdminRole else UserRole
  }

  /** The row the older `POST /api/products` inserts: the columns it does not name (amount, rarity,
      card number) are left empty. */
  function LegacyListing(input: ProductInput, id: Id, now: int): (p: Product)
    ensures p.id == id && p.sellerId == input.sellerId && p.createdAt == now && p.isHidden == 0
    ensures p.amount == 0 && p.rarity == "" && p.cardNumber == ""
    ensures p.currentBid == (if input.listingType == Auction then input.startingPrice else None)
    ensures p.imageUrl1 == Server.AddedImage(input.imageUrls, 0)
  {
    Server.NewListing(input, id, now).(amount := 0, rarity := "", cardNumber := "")
  }

  /** The row the older `PUT /api/products/:id` leaves: as in server.js, but amount, rarity and card
      number are not written. */
  function LegacyRevision(stored: Product, input: ProductInput): (p: Product)
    ensures p.id == stored.id && p.sellerId == stored.sellerId
    ensures p.createdAt == stored.createdAt && p.isHidden == stored.isHidden
    ensures p.amount == stored.amount && p.rarity == stored.rarity && p.cardNumber == stored.cardNumber
    ensures input.listingType == Auction ==>
      p.currentBid == (if stored.currentBid.Some? && stored.currentBid.value != 0.0 then stored.currentBid else input.startingPrice)
    ensures input.listingType == FixedPrice ==> p.currentBid.None?
  {
    Server.RevisedListing(stored, input).(amount := stored.amount, rarity := stored.rarity, cardNumber := stored.cardNumber)
  }

  class LegacyStore {
    var users: map<Id, UserRow>
    var products: map<Id, Product>
    var bids: map<Id, Bid>
    var categories: map<Id, Category>
    var orders: map<Id, Order>
    var orderItems: seq<OrderItem>

    function State(): LegacyDb
      reads this
    {
      LegacyDb(users, products, bids, categories, orders, orderItems)
    }

    /** Primary keys, UNIQUE emails and category names, and `isHidden` in {0, 1}. */
    ghost predicate Valid()
      reads this
    {
      && UsersWellFormed(users) && ProductsWellFormed(products) && BidsWellFormed(bids)
      && CategoriesWellFormed(categories) && OrdersWellFormed(orders)
    }

    constructor ()
      ensures Valid()
      ensures State() == LegacyDb(map[], map[], map[], map[], map[], [])
    {
      users, products, bids, categories, orders, orderItems := map[], map[], map[], map[], map[], [];
    }

    /** `POST /api/login`: a known email gets its own row back with the role overwritten to
        `LegacyRole(email)`; an unknown one gets a new row. */
    method Login(email: string, newUserId: Id) returns (r: Result<UserRow>)
      requires Valid()
      modifies this
      ensures Valid()
      ensures r.Ok? ==> r.value.email == email && r.value.role == LegacyRole(email)
      ensures r.Ok? ==> r.value.id in users && users[r.value.id] == r.value
      ensures email == "" ==> r == Err(InvalidInput) && State() == old(State())
      ensures forall id :: email != "" && id in old(users) && old(users)[id].email == email ==>
        && r == Ok(old(users)[id].(role := LegacyRole(email)))
        && State() == old(State()).(users := old(users)[id := r.value])
      ensures email != "" && (forall id :: id in old(users) ==> old(users)[id].email != email) ==>
        if newUserId in old(users) then r == Err(Internal) && State() == old(State())
        else && r == Ok(UserRow(newUserId, email, LegacyRole(email)))
             && State() == old(State()).(users := old(users)[newUserId := r.value])
    {
      if email == "" {
        return Err(InvalidInput);
      }
      var role := LegacyRole(email);
      if exists id :: id in users && users[id].email == email {
        var id :| id in users && users[id].email == email;
        var user := users[id];
        if user.role != role {
          users := users[id := user.(role := role)];
        }
        r := Ok(user.(role := role));
        assert users == old(users)[id := r.value];
      } else {
        if newUserId in users {
          return Err(Internal);
        }
        var user := UserRow(newUserId, email, role);
        users := users[newUserId := user];
        r := Ok(user);
      }
    }

    /** `POST /api/products`. */
    method AddProduct(callerId: Id, input: ProductInput, id: Id, now: int) returns (r: Result<ProductView>)
      requires Valid()
      modifies this
      ensures Valid()
      ensures Access.IsAuthenticated(old(users), callerId).Fail? ==> r == Err(Unauthorized) && State() == old(State())
      ensures Access.IsAuthenticated(old(users), callerId).Pass? ==>
        if id in old(products) then r == Err(Internal) && State() == old(State())
        else && r == Ok(View(LegacyListing(input, id, now)))
             && State() == old(State()).(products := old(products)[id := LegacyListing(input, id, now)])
    {
      if Access.IsAuthenticated(users, callerId).Fail? {
        return Err(Unauthorized);
      }
      if id in products {
        return Err(Internal);
      }
      var p := LegacyListing(input, id, now);
      products := products[id := p];
      r := Ok(View(p));
    }

    /** `PUT /api/products/:id`, behind `canManageProduct`. */
    method UpdateProduct(callerId: Id, productId: Id, input: ProductInput) returns (r: Result<ProductView>)
      requires Valid()
      modifies this
      ensures Valid()
      ensures var gate := Access.CanManageProduct(old(users), old(products), callerId, productId);
        if gate.Fail? then r == Err(gate.error) && State() == old(State())
        else && r == Ok(View(LegacyRevision(old(products)[productId], input)))
             && State() == old(State()).(products := old(products)[productId := LegacyRevision(old(products)[productId], input)])
    {
      var gate := Access.CanManageProduct(users, products, callerId, productId);
      if gate.Fail? {
        return Err(gate.error);
      }
      var p := LegacyRevision(products[productId], input);
      products := products[productId := p];
      r := Ok(View(p));
    }

    /** `DELETE /api/products/:id`, behind `canManageProduct`. */
    method DeleteProduct(callerId: Id, productId: Id) returns (r: Result<()>)
      requires Valid()
      modifies this
      ensures Valid()
      ensures var gate := Access.CanManageProduct(old(users), old(products), callerId, productId);
        if gate.Fail? then r == Err(gate.error) && State() == old(State())
        else r == Ok(()) && State() == old(State()).(products := old(products) - {productId})
    {
      var gate := Access.CanManageProduct(users, products, callerId, productId);
      if gate.Fail? {
        return Err(gate.error);
      }
      products := products - {productId};
      r := Ok(());
    }

    /** `PATCH /api/products/:id/toggle-visibility`, behind `canManageProduct`. */
    method ToggleVisibility(callerId: Id, productId: Id) returns (r: Result<ProductView>)
      requires Valid()
      modifies this
      ensures Valid()
      ensures var gate := Access.CanManageProduct(old(users), old(products), callerId, productId);
        if gate.Fail? then r == Err(gate.error) && State() == old(State())
        else && r == Ok(View(Toggled(old(products)[productId])))
             && r.value.isHidden == !View(old(products)[productId]).isHidden
             && State() == old(State()).(products := old(products)[productId := Toggled(old(products)[productId])])
    {
      var gate := Access.CanManageProduct(users, products, callerId, productId);
      if gate.Fail? {
        return Err(gate.error);
      }
      var p := Toggled(products[productId]);
      products := products[productId := p];
      r := Ok(View(p));
    }

    /** `POST /api/products/:productId/bid`: the same checks, in the same order, as server.js. */
    method PlaceBid(productId: Id, callerId: Id, callerEmail: string, amount: Option<real>, now: int, bidId: Id)
      returns (r: Result<ProductView>)
      requires Valid()
      modifies this
      ensures Valid()
      ensures var verdict := Bidding.BidVerdict(old(users), old(products), productId, callerId, amount, now);
        if verdict.Fail? then r == Err(verdict.error) && State() == old(State())
        else if bidId in old(bids) then r == Err(Internal) && State() == old(State())
        else
          && (old(products)[productId].currentBid.Some? ==> amount.value > old(products)[productId].currentBid.value)
          && r == Ok(View(old(products)[productId].(currentBid := Some(amount.value))))
          && State() == old(State()).(
               bids := old(bids)[bidId := Bid(bidId, productId, callerId, callerEmail, amount.value, now)],
               products := old(products)[productId := old(products)[productId].(currentBid := Some(amount.value))])
    {
      var verdict := Bidding.BidVerdict(users, products, productId, callerId, amount, now);
      if verdict.Fail? {
        return Err(verdict.error);
      }
      if bidId in bids {
        return Err(Internal);
      }
      bids := bids[bidId := Bid(bidId, productId, callerId, callerEmail, amount.value, now)];
      products := products[productId := products[productId].(currentBid := Some(amount.value))];
      r := Ok(View(products[productId]));
    }

    /** `POST /api/categories`, admin only. */
    method AddCategory(callerId: Id, name: string, imageUrl: Option<string>, id: Id) returns (r: Result<Category>)
      requires Valid()
      modifies this
      ensures Valid()
      ensures r.Err? ==> State() == old(State())
      ensures Access.IsAdmin(old(users), callerId).Fail? ==> r == Err(Access.IsAdmin(old(users), callerId).error)
      ensures Access.IsAdmin(old(users), callerId).Pass? && name == "" ==> r == Err(InvalidInput)
      ensures Access.IsAdmin(old(users), callerId).Pass? && name != "" ==>
        if id in old(categories) || Catalog.NameTaken(old(categories), name, None) then r == Err(Conflict)
        else && r == Ok(Category(id, name, imageUrl))
             && State() == old(State()).(categories := old(categories)[id := r.value])
    {
      var gate := Access.IsAdmin(users, callerId);
      if gate.Fail? {
        return Err(gate.error);
      }
      if name == "" {
        return Err(InvalidInput);
      }
      if id in categories || Catalog.NameTaken(categories, name, None) {
        return Err(Conflict);
      }
      r := Ok(Category(id, name, imageUrl));
      categories := categories[id := r.value];
    }

    /** `PUT /api/categories/:id`, admin only, with the rename cascade onto products. */
    method UpdateCategory(callerId: Id, id: Id, newName: string, imageUrl: Option<string>) returns (r: Result<()>)
      requires Valid()
      modifies this
      ensures Valid()
      ensures r.Err? ==> State() == old(State())
      ensures Access.IsAdmin(old(users), callerId).Fail? ==> r == Err(Access.IsAdmin(old(users), callerId).error)
      ensures Access.IsAdmin(old(users), callerId).Pass? && newName == "" ==> r == Err(InvalidInput)
      ensures Access.IsAdmin(old(users), callerId).Pass? && newName != "" ==>
        if id !in old(categories) then r == Err(NotFound)
        else if Catalog.NameTaken(old(categories), newName, Some(id)) then r == Err(Conflict)
        else && r == Ok(())
             && State() == old(State()).(
                  categories := old(categories)[id := Category(id, newName, imageUrl)],
                  products := Catalog.Renamed(old(products), old(categories)[id].name, newName))
    {
      var gate := Access.IsAdmin(users, callerId);
      if gate.Fail? {
        return Err(gate.error);
      }
      if newName == "" {
        return Err(InvalidInput);
      }
      if id !in categories {
        return Err(NotFound);
      }
      if Catalog.NameTaken(categories, newName, Some(id)) {
        return Err(Conflict);
      }
      var oldName := categories[id].name;
      Catalog.RenameKeepsNamesUnique(categories, id, newName, imageUrl);
      Catalog.RenameMovesExactlyTheOldMembers(products, oldName, newName);
      categories := categories[id := Category(id, newName, imageUrl)];
      products := Catalog.Renamed(products, oldName, newName);
      r := Ok(());
    }

    /** `DELETE /api/categories/:id`, admin only, refused while the category is in use. */
    method DeleteCategory(callerId: Id, id: Id) returns (r: Result<()>)
      requires Valid()
      modifies this
      ensures Valid()
      ensures r.Err? ==> State() == old(State())
      ensures Access.IsAdmin(old(users), callerId).Fail? ==> r == Err(Access.IsAdmin(old(users), callerId).error)
      ensures Access.IsAdmin(old(users), callerId).Pass? ==>
        if id !in old(categories) then r == Err(NotFound)
        else if Catalog.InUse(old(products), old(categories)[id].name) then r == Err(CategoryInUse)
        else r == Ok(()) && State() == old(State()).(categories := old(categories) - {id})
    {
      var gate := Access.IsAdmin(users, callerId);
      if gate.Fail? {
        return Err(gate.error);
      }
      if id !in categories {
        return Err(NotFound);
      }
      if Catalog.InUse(products, categories[id].name) {
        return Err(CategoryInUse);
      }
      categories := categories - {id};
      r := Ok(());
    }

    /** The older `createOrder`: no stock is read or written; one order row and one snapshot per
        cart line (without card numbers), or nothing when the order insert fails. */
    method CreateOrder(userId: Id, cart: seq<CartLine>, total: real, payment: PaymentMethod,
                       status: OrderStatus, orderId: Id, date: int) returns (r: Result<Order>)
      requires Valid()
      modifies this
      ensures Valid()
      ensures products == old(products)
      ensures orderId in old(orders) ==> r == Err(Internal) && State() == old(State())
      ensures orderId !in old(orders) ==>
        && r == Ok(Order(orderId, userId, total, date, payment, status))
        && State() == old(State()).(orders := old(orders)[orderId := r.value],
                                    orderItems := old(orderItems) + Checkout.Snapshots(orderId, cart, false))
    {
      if orderId in orders {
        return Err(Internal);
      }
      var order := Order(orderId, userId, total, date, payment, status);
      var items := Checkout.AppendSnapshots(orderItems, orderId, cart, false);
      orders, orderItems := orders[orderId := order], items;
      r := Ok(order);
    }

    /** `POST /api/checkout`: a card order, completed at once. */
    method CardCheckout(callerId: Id, userId: Id, cart: seq<CartLine>, total: real, orderId: Id, date: int)
      returns (r: Result<Order>)
      requires Valid()
      modifies this
      ensures Valid()
      ensures products == old(products)
      ensures r.Err? ==> State() == old(State())
      ensures Access.IsAuthenticated(old(users), callerId).Fail? ==> r == Err(Unauthorized)
      ensures Access.IsAuthenticated(old(users), callerId).Pass? && orderId in old(orders) ==> r == Err(Internal)
      ensures Access.IsAuthenticated(old(users), callerId).Pass? && orderId !in old(orders) ==>
        && r == Ok(Order(orderId, userId, total, date, Card, Completed))
        && State() == old(State()).(orders := old(orders)[orderId := r.value],
                                    orderItems := old(orderItems) + Checkout.Snapshots(orderId, cart, false))
    {
      if Access.IsAuthenticated(users, callerId).Fail? {
        return Err(Unauthorized);
      }
      r := CreateOrder(userId, cart, total, Card, Completed, orderId, date);
    }

    /** `POST /api/bit-checkout`: a Bit order, pending until the settlement pass confirms it. */
    method BitCheckout(callerId: Id, userId: Id, cart: seq<CartLine>, total: real, orderId: Id, date: int)
      returns (r: Result<Order>)
      requires Valid()
      modifies this
      ensures Valid()
      ensures products == old(products)
      ensures r.Err? ==> State() == old(State())
      ensures Access.IsAuthenticated(old(users), callerId).Fail? ==> r == Err(Unauthorized)
      ensures Access.IsAuthenticated(old(users), callerId).Pass? && orderId in old(orders) ==> r == Err(Internal)
      ensures Access.IsAuthenticated(old(users), callerId).Pass? && orderId !in old(orders) ==>
        && r == Ok(Order(orderId, userId, total, date, Bit, PendingPayment))
        && State() == old(State()).(orders := old(orders)[orderId := r.value],
                                    orderItems := old(orderItems) + Checkout.Snapshots(orderId, cart, false))
    {
      if Access.IsAuthenticated(users, callerId).Fail? {
        return Err(Unauthorized);
      }
      r := CreateOrder(userId, cart, total, Bit, PendingPayment, orderId, date);
    }

    /** `confirmPendingPayments`, as in server.js. */
    method ConfirmPendingPayments(confirm: set<Id>)
      requires Valid()
      modifies this
      ensures Valid()
      ensures State() == old(State()).(orders := Settlement.Settled(old(orders), confirm))
    {
      var pending := set id | id in orders && Settlement.AwaitingBit(orders[id]);
      var remaining := pending;
      var settled := orders;
      while remaining != {}
        invariant remaining <= pending
        invariant settled == Settlement.Settled(old(orders), confirm - remaining)
        modifies {}
        decreases remaining
      {
        var id :| id in remaining;
        if id in confirm {
          assert confirm - (remaining - {id}) == (confirm - remaining) + {id};
          Settlement.ConfirmOneMore(old(orders), confirm - remaining, id);
          settled := settled[id := settled[id].(status := Completed)];
        } else {
          assert confirm - (remaining - {id}) == confirm - remaining;
        }
        remaining := remaining - {id};
      }
      assert confirm - remaining == confirm;
      Settlement.SettledKeepsOrdersWellFormed(orders, confirm);
      orders := settled;
    }
  }

  /** A second login with the same email returns the same user id, and the stored role ends up as
      `LegacyRole(email)` whatever it was before. */
  method SecondLoginSameUser(store: LegacyStore, email: string, firstId: Id, secondId: Id)
    returns (first: Result<UserRow>, second: Result<UserRow>)
    requires store.Valid()
    modifies store
    ensures first.Ok? ==> second.Ok? && second.value.id == first.value.id
    ensures second.Ok? ==> second.value.id in store.users && store.users[second.value.id].role == LegacyRole(email)
  {
    first := store.Login(email, firstId);
    second := store.Login(email, secondId);
  }
}
