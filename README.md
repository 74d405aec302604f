# card_shop_back, modelled in Dafny

A model of the marketplace backend of card_shop_back: the Express/SQLite server (`server.js`), its
older copy (`database.js`), the card-price report of the command-line tool (`yugiohMarketCLI.js`)
and the migration runner with its seed data (`migration.js`).

The server's SQLite tables (users, products, bids, categories, orders, order_items, events,
event_participants) are maps, and order_items a sequence, held as fields of one class,
`Server.Store`. Each request handler is one atomic method with `modifies this`. The caller's id,
`Date.now()` and every id the handler derives from it are parameters. A handler either fails with an
`Error` (Unauthorized, Forbidden, NotFound, InvalidInput, NotAuction, AuctionEnded, BidTooLow,
SelfBid, InsufficientStock, EventFull, AlreadyRegistered, Conflict, CategoryInUse, Internal) and
leaves every table as it was, or writes and answers. Every handler keeps the SQLite constraints
(`Valid`: primary keys, UNIQUE email and category name, `isHidden` in {0, 1}). The checks that both
servers share are pure functions in their own modules, each with its partner lemmas:

- `Access`: the auth middleware.
- `Bidding`: the bid checks in the handler's order.
- `Checkout`: the stock step and the order-item snapshots of `createOrder`.
- `Catalog`: the category rename cascade and delete guard.
- `Registration`: event capacity and the (event, user) key.
- `Settlement`: the Bit payment pass.
- `Rows`: the `processDbProduct` row mapper.

`database.js` gets its own class, `Legacy.LegacyStore`. Its differences are kept: login rewrites the
stored role, the listing columns it does not name stay empty, and `createOrder` does no stock step.

The CLI's `buildRows` is a method with the source's loop and its `seen` set. It is proved equal to a
specification: the first printing of each set code, priced, then sorted by TCG price descending.
Lemmas about that specification give one row per code, sorted output and a permutation of the
deduplicated rows. The page cursor is a small class, `Paging.Pager`. The migration runner is a class
whose `applied` field is the `migrations` table. It is proved against a recursive `Run` function
that carries the ordering, uniqueness, stop-at-first-failure and idempotence lemmas.

Where the code and the design description differ, the model follows the code:

- The settlement pass's `try` wraps the whole loop, so one failing UPDATE would end the pass. The
  description says the pass should log and continue.
- The description asks that `currentBid` stay at or above `startingPrice`. A product update keeps a
  truthy current bid even when the starting price is raised above it (`RevisedListing`).
- `database.js` checks no stock at checkout.
- `isAdmin` and `isManager` answer 403, not 401, for an id that is not in the users table.
- A bid not above a null current bid makes the handler's message call `toFixed` on null, so the
  answer is a server error rather than BidTooLow.

## Model

| member | source | states |
|---|---|---|
| Rows.Kept | server.js:28 | an image column survives `filter(Boolean)` exactly when it is present and non-empty |
| Rows.ProcessDbProduct | server.js:23-31 | null maps to null; otherwise every other column is copied, `imageUrls` holds the non-empty image columns in column order (at most 3, none empty) and `isHidden` is true iff the column is 1; database.js:23-31 has the same mapper |
| Rows.View | server.js:23-31 | a stored row's view copies every other column, lists the non-empty image columns in column order and shows `isHidden` as true iff the column is 1 |
| Rows.Toggled | server.js:299 | `1 - isHidden` changes only `isHidden`, and for a 0/1 value flips it to the other 0/1 value |
| Rows.ToggleTwiceRestores | database.js:250 | two toggles restore the row, and each toggle inverts the visible `isHidden` flag |
| Access.IsAuthenticated | server.js:35-46 | passes iff an id is given and is in the users table; otherwise 401 |
| Access.IsAdmin | server.js:48-63 | passes iff the id is given, known and has role admin; a missing id is 401 and anything else 403; database.js:47-62 decides the same |
| Access.IsManager | server.js:65-78 | passes iff the id is given, known and admin or manager; a missing id is 401 and anything else 403 |
| Access.CanManageProduct | server.js:80-106 | passes iff the caller is known and is admin or the seller; the failures, in order: no id 401, no product 404, unknown user 401, otherwise 403; database.js:64-90 decides the same |
| Access.CanManageEvent | server.js:108-127 | passes iff the caller is known and is admin or the organizer; no id 401, no event 404, unknown user 401, otherwise 403 |
| Access.AdminPassesEveryCheck | server.js:48-127 | whoever passes `isAdmin` passes `isManager`, `isAuthenticated`, and may manage every existing product and event |
| Access.ManagerOfProductIsAuthenticated | server.js:80-106 | whoever passes `canManageProduct` passes `isAuthenticated` |
| Server.LoginRole | server.js:203 | the role is admin iff the email is the admin email or the stored role is admin; otherwise the stored role, or user for a new account |
| Server.Store.Login | server.js:195-220 | no email is 400 with no change; a known email gets its own row back, promoted to admin for the admin email, and only that row changes; an unknown email gets exactly one new row; the answer is the stored row |
| Server.LoginIsStable | server.js:201-212 | two logins with one email give the same user id whatever fresh id each was offered |
| Server.AddedImage | server.js:245 | image column `i` holds the i-th URL when it exists and is non-empty, and is null otherwise |
| Server.NewListing | server.js:238-257 | the inserted row has the fresh id, the seller, time `now`, is visible, and an auction's current bid starts at the starting price (none for fixed price) |
| Server.AddedImagesShown | server.js:245 | the three added image columns, as the row mapper folds them, are the non-empty URLs among the first three given, in order |
| Server.NewListingShowsGivenImages | server.js:245-250 | a new listing of any number of URLs is shown visible with exactly the non-empty URLs among the first three, in their order; with at most three URLs, exactly its non-empty URLs |
| Server.Store.AddProduct | server.js:238-257 | an unauthenticated caller gets 401 with no change; otherwise exactly one row is inserted under the fresh id and its view returned (an id clash is a server error with no change) |
| Server.EditedImage | server.js:266 | image column `i` holds the i-th URL whenever it exists, an empty string included, and is null otherwise |
| Server.RevisedListing | server.js:260-279 | id, seller, creation time and visibility are kept; an auction keeps a truthy current bid and otherwise restarts at the starting price; a fixed-price listing has no current bid |
| Server.Store.UpdateProduct | server.js:260-279 | a refused `canManageProduct` changes nothing; otherwise only that product's row becomes the revised row |
| Server.Store.DeleteProduct | server.js:282-293 | a refused `canManageProduct` changes nothing; otherwise exactly that product is removed |
| Server.Store.ToggleVisibility | server.js:296-308 | a refused `canManageProduct` changes nothing; otherwise only that product's `isHidden` is flipped and the answer shows the inverted flag |
| Bidding.BidVerdict | server.js:333-362 | a bid passes iff the caller is known, the amount is a non-zero number, the product exists, is an auction, is not past its end, the amount is above the current bid (null counts as 0) and the bidder is not the seller; the first check that fails decides the answer: 401, 400, 404, not an auction, ended, too low (a server error when the current bid is null) and self-bid |
| Bidding.AcceptedBidRaisesWatermark | server.js:355 | an accepted bid is strictly above the current bid, or above 0 when there is none |
| Bidding.EqualBidIsTooLow | server.js:355-358 | a bid equal to the current bid is refused as too low |
| Bidding.LateBidIsRefusedAsEnded | server.js:351-354 | after the end time a bid is refused as ended, whatever its amount or bidder |
| Bidding.BidAtEndTimeIsInTime | server.js:351 | a bid exactly at the end time passes the time check |
| Bidding.SelfBidCheckedAfterAmount | server.js:355-362 | the seller's own too-low bid is answered as too low, not as a self-bid |
| Server.Store.PlaceBid | server.js:333-384 | a refused bid leaves every table unchanged; an accepted one adds exactly one bid row for (product, bidder, amount), raises that product's current bid strictly to the amount and changes nothing else |
| Legacy.LegacyStore.PlaceBid | database.js:284-335 | the older copy places bids by the same verdict with the same effects |
| Catalog.Renamed | server.js:417 | the rename cascade changes the category of exactly the products filed under the old name and nothing else |
| Catalog.RenameMovesExactlyTheOldMembers | database.js:366-369 | after a rename a product is in the new category iff it was in the old or the new one, none is left in the old one, and the table stays well formed |
| Catalog.RenameKeepsNamesUnique | server.js:416 | renaming to a name no other category has keeps category names unique |
| Server.Store.AddCategory | server.js:387-401 | non-admins are refused by `isAdmin`; an empty name is 400; a clashing id or name is 409; otherwise exactly one category is added; any failure changes nothing |
| Server.Store.UpdateCategory | server.js:404-432 | non-admins refused; empty name 400; unknown id 404; a name used by another category 409; otherwise the category and, in the same step, its products move to the new name; failures change nothing |
| Server.Store.DeleteCategory | server.js:435-451 | non-admins refused; unknown id 404; refused while any product uses the name; otherwise exactly that category is removed |
| Legacy.LegacyStore.AddCategory | database.js:338-351 | the older copy adds categories with the same checks and effect |
| Legacy.LegacyStore.UpdateCategory | database.js:355-383 | the older copy renames with the same checks and the same product cascade |
| Legacy.LegacyStore.DeleteCategory | database.js:386-402 | the older copy refuses to delete a category any product uses |
| Checkout.Next | server.js:562-563 | a passing line keeps the set of products |
| Checkout.StockAfter | server.js:555-565 | the stock step keeps the set of products, and fails only with InsufficientStock or a server error |
| Checkout.StockKeepsRows | server.js:555-565 | the stock step changes no column of any product other than `amount` |
| Checkout.StockKeepsProductsWellFormed | server.js:562-563 | the stock step keeps every product under its own id with `isHidden` in {0, 1} |
| Checkout.ReserveStock | server.js:555-565 | the stock loop stops at the first missing or short line and otherwise yields the stock step's table |
| Checkout.StockFallsByDemand | server.js:555-565 | on success each non-auction product's amount falls by the total quantity the cart asks of it, and auction amounts are untouched |
| Checkout.StockNeverNegative | server.js:558-563 | on success no requested non-auction product is left with a negative amount |
| Checkout.StockSucceedsIff | server.js:555-565 | with non-negative quantities and known products, the stock step succeeds iff every non-auction product has at least the cart's total demand for it, although lines are checked one at a time against decremented stock |
| Checkout.CoversStep | server.js:555-565 | after one line passes, covering the rest of the cart in the new stock is the same as covering the whole cart in the old |
| Checkout.DemandOfAbsent | server.js:555-565 | a product no line asks for has demand 0 |
| Checkout.DemandNonNegative | server.js:555-565 | with non-negative quantities every demand is non-negative |
| Checkout.DemandSplit | server.js:555-565 | a cart's demand is its first line's share plus the rest's |
| Checkout.Snapshots | server.js:572-575 | one order item per cart line, in cart order, copied from the client's line |
| Checkout.AppendSnapshots | server.js:572-575 | the item loop keeps the existing items and appends exactly one snapshot per cart line in cart order |
| Server.PlaceOrder | server.js:547-587 | a failure returns the store unchanged; a success writes the order with the given user, total, method and status, and the stock step's table |
| Server.PlacedOrderEffects | server.js:555-576 | a placed order adds exactly one order row and one snapshot per cart line in order, lowers each non-auction product by its demand, and changes no other table |
| Server.ShortLineRollsBack | server.js:558-560 | when a line is short the order fails with InsufficientStock and the store is as before, earlier decrements included |
| Server.LastUnitSoldOnce | server.js:555-565 | of two orders for the last unit the first leaves 0 and the second fails with InsufficientStock and changes nothing |
| Server.Store.CreateOrder | server.js:547-587 | the handler's result and new tables are exactly those of `PlaceOrder` |
| Server.Store.CardCheckout | server.js:590-600 | an unauthenticated caller gets 401 with no change; otherwise a `PlaceOrder` with Card and Completed |
| Server.Store.BitCheckout | server.js:603-617 | an unauthenticated caller gets 401 with no change; otherwise a `PlaceOrder` with Bit and Pending Payment |
| Server.ParseRole | server.js:632 | a role is accepted iff it is admin, manager or user |
| Server.Store.UpdateUserRole | server.js:629-647 | non-admins refused; an unknown role 400; demoting the admin email 403; an unknown user changes nothing; otherwise only that user's role changes |
| Registration.RegisterVerdict | server.js:723-751 | registration passes iff the caller is known, the event exists, it is not full (a truthy capacity and count at or above it) and the pair is not registered; the first check that fails decides the answer: 401, 404, event full (400), already registered (409) |
| Registration.CountAfterInsert | server.js:740 | inserting a new pair adds one to that event's count and leaves every other event's count |
| Registration.CountAfterDelete | server.js:757 | deleting a pair takes one from that event's count; deleting a missing pair changes nothing |
| Registration.RegistrationRespectsCapacity | server.js:733-740 | a passing registration adds one to the count and never takes it above capacity |
| Registration.ReRegisterAfterUnregister | server.js:745-757 | after unregistering, a user of an event within capacity may register again |
| Registration.LastSeat | server.js:733-738 | with capacity n, a count of n-1 admits one more and a count of n is full |
| Server.Store.Register | server.js:723-751 | a refused registration changes nothing; an accepted one adds exactly the (event, user) pair, the count rises by one and stays within capacity |
| Server.Store.Unregister | server.js:753-763 | removes only the caller's pair for that event and succeeds whether or not it existed, in which case nothing changes |
| Settlement.Settled | server.js:769-775 | the pass keeps every order and completes exactly the confirmed orders awaiting a Bit payment |
| Settlement.OnlyPendingBitOrdersComplete | server.js:769-775 | the only change is Pending Payment to Completed on a Bit order; card orders and completed orders are untouched |
| Settlement.PassesCompose | server.js:767-782 | two passes equal one pass with both decisions, and repeating a pass changes nothing more |
| Settlement.ConfirmOneMore | server.js:774 | confirming one more awaiting order changes exactly that order's row |
| Settlement.SettledKeepsOrdersWellFormed | server.js:774 | a pass keeps every order under its own id |
| Server.Store.ConfirmPendingPayments | server.js:767-782 | the pass changes only the orders table, to the settled table for the given decisions |
| Legacy.LegacyStore.ConfirmPendingPayments | database.js:549-564 | the older copy's pass has the same effect |
| Legacy.LegacyRole | database.js:154 | the role is admin iff the email is the admin email, and never manager |
| Legacy.LegacyStore.Login | database.js:146-171 | as in server.js, except that a known user's stored role is overwritten to the email's role |
| Legacy.SecondLoginSameUser | database.js:152-163 | a second login with the same email returns the same id and leaves the stored role at the email's role |
| Legacy.LegacyListing | database.js:189-208 | the older insert leaves amount 0 and rarity and card number empty; otherwise as in server.js |
| Legacy.LegacyStore.AddProduct | database.js:189-208 | an unauthenticated caller gets 401 with no change; otherwise exactly one row is inserted |
| Legacy.LegacyRevision | database.js:211-230 | the older update keeps amount, rarity and card number; otherwise as in server.js |
| Legacy.LegacyStore.UpdateProduct | database.js:211-230 | a refused ownership check changes nothing; otherwise only that row is revised |
| Legacy.LegacyStore.DeleteProduct | database.js:233-244 | a refused ownership check changes nothing; otherwise exactly that product is removed |
| Legacy.LegacyStore.ToggleVisibility | database.js:247-259 | a refused ownership check changes nothing; otherwise only that product's `isHidden` flips |
| Legacy.LegacyStore.CreateOrder | database.js:495-522 | no product is read or changed; an id clash changes nothing; otherwise one order row and one item per cart line in order |
| Legacy.LegacyStore.CardCheckout | database.js:525-533 | an unauthenticated caller gets 401 with no change; an order id already taken is a server error with no change; otherwise exactly one completed card order row and one snapshot per cart line, in cart order, are written, stock is never touched and nothing else changes |
| Legacy.LegacyStore.BitCheckout | database.js:535-546 | an unauthenticated caller gets 401 with no change; an order id already taken is a server error with no change; otherwise exactly one pending Bit order row and one snapshot per cart line, in cart order, are written, stock is never touched and nothing else changes |
| CardPrices.Pct | yugiohMarketCLI.js:20 | null iff the previous price is absent or 0; otherwise the percentage change from previous to now |
| CardPrices.PctSign | yugiohMarketCLI.js:20 | for a positive previous price the change is positive iff the price rose and zero iff unchanged |
| CardPrices.PrevPrice | yugiohMarketCLI.js:80 | the previous price is null iff the cache has none for the code or has 0 |
| CardPrices.Positives | yugiohMarketCLI.js:86 | keeps exactly the strictly positive prices, each as many times as it occurs, and drops every other value |
| CardPrices.AverageZeroIff | yugiohMarketCLI.js:86-87 | the average is never negative and is 0 iff no price is positive |
| CardPrices.PositiveQuotient | yugiohMarketCLI.js:87 | a positive total over a positive count is positive |
| CardPrices.AverageBetween | yugiohMarketCLI.js:86-87 | when some price is positive the average lies between any bounds of the positive prices |
| CardPrices.MeanBetween | yugiohMarketCLI.js:87 | the mean of a non-empty list lies between any bounds of its values |
| CardPrices.SumBounds | yugiohMarketCLI.js:87 | a sum of values within bounds lies within count times the bounds |
| CardPrices.SumPositive | yugiohMarketCLI.js:87 | a sum of positive values is positive |
| CardPrices.QuotientBounds | yugiohMarketCLI.js:87 | dividing a bounded total by its count stays within the bounds |
| CardPrices.FirstIndex | yugiohMarketCLI.js:74-77 | the first position at which a code occurs |
| CardPrices.FirstPrintingsFromDistinct | yugiohMarketCLI.js:74-77 | the rows kept against a `seen` set have distinct codes, none of them seen before |
| CardPrices.FirstPrintingsFromAreFirst | yugiohMarketCLI.js:74-77 | every kept printing is the first one in the list with its code |
| CardPrices.OnePrintingPerCode | yugiohMarketCLI.js:74-77 | the kept printings are exactly one per code, each the first occurrence |
| CardPrices.RowOf | yugiohMarketCLI.js:72-100 | a row carries the printing's code and price, the cached previous price, the vendor prices of the first bundle, the average of the positive prices, and each text field as given or, when empty, its non-empty default |
| CardPrices.PriceList | yugiohMarketCLI.js:86 | the four prices averaged, TCG price first |
| CardPrices.RowsOf | yugiohMarketCLI.js:89-100 | one row per printing, in order |
| CardPrices.InsertPermutes | yugiohMarketCLI.js:104 | inserting a row adds exactly that row |
| CardPrices.InsertSorted | yugiohMarketCLI.js:104 | inserting into a descending list keeps it descending |
| CardPrices.InsertBelow | yugiohMarketCLI.js:104 | inserting a row into rows priced at most a bound keeps every row at most that bound |
| CardPrices.ConsSorted | yugiohMarketCLI.js:104 | a row priced at least as high as a descending list can head it |
| CardPrices.SortByPriceDesc | yugiohMarketCLI.js:104 | the sorted rows are in descending TCG price and a permutation of the input |
| CardPrices.FirstPrintingsStep | yugiohMarketCLI.js:74-77 | one loop step of the `seen` filter either skips the printing or keeps it and records its code |
| CardPrices.RowsOfAppend | yugiohMarketCLI.js:89 | pushing a row extends the rows by that printing's row |
| CardPrices.BuildRows | yugiohMarketCLI.js:69-105 | the loop with its `seen` set returns the first printings' rows sorted by price descending |
| CardPrices.ReportCoversEveryCodeOnce | yugiohMarketCLI.js:69-105 | the report is sorted, has a row for every set code of the card and no code twice |
| CardPrices.RowCodesOfRowsOf | yugiohMarketCLI.js:89-100 | the rows carry exactly the printings' codes |
| CardPrices.SortKeepsRowCodes | yugiohMarketCLI.js:104 | sorting loses no code |
| CardPrices.ConsKeepsCodesDistinct | yugiohMarketCLI.js:104 | prefixing a row with a new code keeps codes distinct |
| CardPrices.InsertKeepsCodesDistinct | yugiohMarketCLI.js:104 | inserting a row with a new code keeps codes distinct |
| CardPrices.SortKeepsCodesDistinct | yugiohMarketCLI.js:104 | sorting keeps codes distinct |
| PriceCache.LexLeReflexive | yugiohMarketCLI.js:46 | the key order is reflexive |
| PriceCache.LexLeTotal | yugiohMarketCLI.js:46 | any two keys are ordered one way or the other |
| PriceCache.LexLeAntisymmetric | yugiohMarketCLI.js:46 | keys ordered both ways are equal |
| PriceCache.LexLeTransitive | yugiohMarketCLI.js:46 | the key order is transitive |
| PriceCache.GreatestExists | yugiohMarketCLI.js:46 | a non-empty set of keys has a greatest key |
| PriceCache.LatestKey | yugiohMarketCLI.js:46 | `sort().pop()` picks a key at or above every other key |
| PriceCache.LoadPrevPrices | yugiohMarketCLI.js:43-48 | no cache, or an empty one, gives no prices; otherwise the prices under the greatest key |
| PriceCache.SavedPricesAreLoaded | yugiohMarketCLI.js:50-55 | prices saved under a date at or after every cached date are the ones loaded back |
| Paging.TotalPages | yugiohMarketCLI.js:217 | the ceiling of rows over page size: enough pages for every row and no empty last page |
| Paging.PageWindow | yugiohMarketCLI.js:158-159 | the window starts at page times page size and ends at the next page or the last row |
| Paging.WindowInBounds | yugiohMarketCLI.js:158-160 | for a page below the total the window is non-empty, within the rows and at most a page long |
| Paging.PageRows | yugiohMarketCLI.js:160 | a page is at most a page size of rows, the window's slice, and empty past the last page |
| Paging.FirstPagesArePrefix | yugiohMarketCLI.js:157-160 | the first k pages together are the first k pages' worth of rows |
| Paging.PagesCoverRows | yugiohMarketCLI.js:157-160 | all pages together are exactly the rows, in order |
| Paging.NextPage | yugiohMarketCLI.js:238-244 | a key moves the page by at most one, down only below the last page, up only above the first, and keeps it in range |
| Paging.DownsStopAtLastPage | yugiohMarketCLI.js:241-243 | repeated down presses stop at the last page |
| Paging.UpUndoesDown | yugiohMarketCLI.js:238-244 | up after a down that moved returns to the same page |
| Paging.Pager.constructor | yugiohMarketCLI.js:216-223 | the cursor starts on the first page |
| Paging.Pager.Shown | yugiohMarketCLI.js:157-160 | the rows shown are the current page's window, non-empty when paging is interactive |
| Paging.Pager.OnKey | yugiohMarketCLI.js:216-246 | paging is interactive only for more than a page of rows; q or escape quits, up and down move the cursor within range, and other keys do nothing |
| Migration.Unapplied | migration.js:140-141 | a name is pending iff the list holds it and it was not recorded when the run began |
| Migration.UnappliedCounts | migration.js:140-141 | each pending name occurs as many times as the list holds it, and no recorded name occurs |
| Migration.UnappliedKeepsOrder | migration.js:140-141 | the pending migrations keep the list's order: those of a prefix of the list come before those of the rest |
| Migration.RunKeepsNamesUnique | migration.js:129 | a run never records a name twice |
| Migration.CompletedRunAppliesAllPending | migration.js:140-158 | a completed run has recorded every unapplied migration in list order and nothing else |
| Migration.FailedRunStopsAt | migration.js:153-157 | a failed run names an unapplied migration and has recorded only the ones before it |
| Migration.FailedRunStops | migration.js:153-157 | a failed run stops at some unapplied migration and no later migration is attempted |
| Migration.FailedMigrationIsNotRecorded | migration.js:150-157 | the migration that failed is rolled back and its name is not recorded |
| Migration.NothingPendingIsNoOp | migration.js:140-141 | with every name already recorded a run changes nothing |
| Migration.SecondRunIsNoOp | migration.js:135-141 | a second run after a completed one changes nothing, even if some `up` would now fail |
| Migration.MigrationDb.Migrate | migration.js:116-171 | the loop over the migrations leaves the table and outcome that `Run` gives for the names recorded at the start |
| Migration.CleanRunRecordsAll | migration.js:139-160 | with nothing failing, a duplicate-free list of unrecorded names completes and records every name in list order |
| Migration.MigrateTwice | migration.js:116-171 | on a fresh database with nothing failing, the first run completes and records `MIGRATIONS` once, and the second run completes and changes nothing |
| Migration.SeedCategories | migration.js:90-97 | six seeded categories with pairwise distinct ids and names, as the UNIQUE column demands |
| Migration.SeedCategoryNames | migration.js:90-97 | the set of the seeded category names |
| Migration.MockProducts | migration.js:7-16 | eight listings with ids "1" to "8"; the auction's current bid is its starting price and it ends three days on; fixed-price listings have no auction fields |
| Migration.SeedIdsDistinct | migration.js:7-16 | the seeded listing ids are distinct |
| Migration.SeedProductsUseSeedCategories | migration.js:7-16 | every seeded listing is filed under a seeded category |

## Left out

- Express routing, middleware chaining, HTTP status plumbing, JSON shaping and logging. Outcomes are the `Error` datatype.
- SQL text, SQLite I/O and the isolation between concurrent requests. Each handler is one atomic step, and concurrent races are not modelled.
- The `FOR UPDATE` clause of the stock query. SQLite does not accept it; the model follows the per-line logic.
- `Math.random()` in the settlement pass. The caller supplies the set of order ids to confirm.
- The `setInterval` schedule of the settlement pass, and the `try` around its loop. An UPDATE of an existing row never fails in the model, so an error that ends the pass early is not represented.
- `Date.now()` ids and timestamps. They are parameters; an id clash is answered as a server error with no change.
- Request bodies arrive parsed, and the model assumes a bid amount arrives as a JSON number (`None` when missing or not a number).
- Bidding.BidVerdict: the 400 check of server.js:337 is `!amount` on the raw value, so the string "0" passes it and is then answered as too low, or as a server error when there is no current bid; the model answers `InvalidInput` for every zero amount.
- Server.Store.PlaceBid: server.js:365-370 writes the raw `amount` into both the bid row and `products.currentBid`; the model writes the parsed number. A string such as "150abc" would be stored as TEXT, and since every later `parseFloat(x) <= "150abc"` is false, the program's current bid could then fall; the model's cannot.
- Legacy.LegacyStore.PlaceBid: the same raw-amount behaviour of database.js is not modelled, for the same reason.
- `amount` and `total` are reals. JavaScript float rounding and `toFixed` messages are not modelled.
- The database backup download, `/api/data`, the listing GETs, `/api/admin/users`, profile updates, admin and "my" product lists, and event create, update and delete. These are plain reads and writes with none of the rules modelled here.
- `getFullEvent` and `getOrderItems`. Register and unregister answer with the event row, checkout with the order row, and a bid with the product view without its bid list. The category update answers without its product and category lists.
- The bids and participants of a deleted product or event. No cascade is modelled.
- The event-participant table is created outside these files. Its unique (event, user) key is the map key.
- The older copy's product insert leaves amount, rarity and card number unset. The model stores them as 0 and empty text.
- `listingType` has two values. A request naming any other type is not represented.
- The CLI's `axios` fetches, cache file reads and writes, chalk and table printing, raw-mode `readline`, `process.exit`, `fmt`, and its Express API. The cache is an optional map, and a quit key is the `quit` answer of `OnKey`.
- CardPrices.SortByPriceDesc: states sorted and a permutation but not that `Array.prototype.sort` keeps equal prices in input order.
- PriceCache.LexLe: compares strings by character code; JavaScript compares UTF-16 code units, which differs only outside the Basic Multilingual Plane.
- Migration.MockProducts: keeps each seed listing's number of image URLs and leaves out the description text and the URLs.
- The migration's `up` functions and the schema they create. The migrations whose `up` throws are a caller-supplied set, and `applied_at` is not stored.
