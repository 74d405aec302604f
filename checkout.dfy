/** The stock step of `createOrder` in server.js: lines are taken in cart order; an auction line is
    not checked; any other line needs `amount >= quantity` in the stock as the earlier lines left it,
    and then takes `quantity` away. A line whose product is missing reads `listingType` of undefined,
    which throws, so the order fails as a server error. */
module Checkout {
  import opened Optional
  import opened Tables

  /** The stock after one line that passed its check: a non-auction product loses `quantity`. */
  function Next(stock: map<Id, Product>, line: CartLine): (r: map<Id, Product>)
    requires line.product.id in stock
    ensures r.Keys == stock.Keys
  {
    var pid := line.product.id;
    if stock[pid].listingType == Auction then stock
    else stock[pid := stock[pid].(amount := stock[pid].amount - line.quantity)]
  }

  /** The line's product is not an auction and has fewer units than the line asks for. */
  predicate Short(stock: map<Id, Product>, line: CartLine)
    requires line.product.id in stock
  {
    stock[line.product.id].listingType != Auction && stock[line.product.id].amount < line.quantity
  }

  function StockAfter(stock: map<Id, Product>, cart: seq<CartLine>): (r: Result<map<Id, Product>>)
    ensures r.Ok? ==> r.value.Keys == stock.Keys
    ensures r.Err? ==> r.error == InsufficientStock || r.error == Internal
    decreases |cart|
  {
    if cart == [] then Ok(stock)
    else if cart[0].product.id !in stock then Err(Internal)
    else if Short(stock, cart[0]) then Err(InsufficientStock)
    else StockAfter(Next(stock, cart[0]), cart[1..])
  }

  /** The stock step changes no column of any product other than `amount`. */
  lemma {:induction false} StockKeepsRows(stock: map<Id, Product>, cart: seq<CartLine>)
    requires StockAfter(stock, cart).Ok?
    ensures forall id :: id in stock ==>
      StockAfter(stock, cart).value[id] == stock[id].(amount := StockAfter(stock, cart).value[id].amount)
    decreases |cart|
  {
    if cart != [] {
      StockKeepsRows(Next(stock, cart[0]), cart[1..]);
    }
  }

  /** The total quantity the cart asks of product `id`. */
  function Demand(cart: seq<CartLine>, id: Id): int
    decreases |cart|
  {
    if cart == [] then 0
    else (if cart[0].product.id == id then cart[0].quantity else 0) + Demand(cart[1..], id)
  }

  /** Some line of the cart is for product `id`. */
  predicate Requested(cart: seq<CartLine>, id: Id) {
    exists i :: 0 <= i < |cart| && cart[i].product.id == id
  }

  /** Every non-auction product of the cart has at least the total quantity the cart asks of it. */
  ghost predicate Covers(stock: map<Id, Product>, cart: seq<CartLine>) {
    forall i :: 0 <= i < |cart| && cart[i].product.id in stock && stock[cart[i].product.id].listingType != Auction
      ==> Demand(cart, cart[i].product.id) <= stock[cart[i].product.id].amount
  }

  lemma {:induction false} DemandOfAbsent(cart: seq<CartLine>, id: Id)
    requires !Requested(cart, id)
    ensures Demand(cart, id) == 0
    decreases |cart|
  {
    if cart != [] {
      assert !Requested(cart[1..], id) by {
        forall i | 0 <= i < |cart[1..]| ensures cart[1..][i].product.id != id {
          assert cart[1..][i] == cart[i + 1];
        }
      }
      DemandOfAbsent(cart[1..], id);
    }
  }

  lemma {:induction false} DemandNonNegative(cart: seq<CartLine>, id: Id)
    requires forall i :: 0 <= i < |cart| ==> cart[i].quantity >= 0
    ensures Demand(cart, id) >= 0
    decreases |cart|
  {
    if cart != [] {
      DemandNonNegative(cart[1..], id);
    }
  }

  /** On success every non-auction product has lost exactly the total quantity the cart asks of it,
      and every auction product keeps its amount. */
  lemma {:induction false} StockFallsByDemand(stock: map<Id, Product>, cart: seq<CartLine>)
    requires StockAfter(stock, cart).Ok?
    ensures forall id :: id in stock ==>
      StockAfter(stock, cart).value[id].amount ==
        (if stock[id].listingType == Auction then stock[id].amount else stock[id].amount - Demand(cart, id))
    decreases |cart|
  {
    if cart != [] {
      StockFallsByDemand(Next(stock, cart[0]), cart[1..]);
    }
  }

  /** On success no product the cart asked for, other than an auction, is left with a negative amount:
      the last line that touched it left `amount - quantity` with `amount >= quantity`. */
  lemma {:induction false} StockNeverNegative(stock: map<Id, Product>, cart: seq<CartLine>, id: Id)
    requires StockAfter(stock, cart).Ok?
    requires id in stock && stock[id].listingType != Auction && Requested(cart, id)
    ensures StockAfter(stock, cart).value[id].amount >= 0
    decreases |cart|
  {
    var rest := cart[1..];
    var next := Next(stock, cart[0]);
    assert StockAfter(stock, cart) == StockAfter(next, rest);
    if Requested(rest, id) {
      StockNeverNegative(next, rest, id);
    } else {
      assert cart[0].product.id == id;
      StockFallsByDemand(next, rest);
      DemandOfAbsent(rest, id);
    }
  }

  /** Removing the first line: the demand splits into that line's share and the rest's. */
  lemma DemandSplit(cart: seq<CartLine>, id: Id)
    requires cart != []
    ensures Demand(cart, id) == (if cart[0].product.id == id then cart[0].quantity else 0) + Demand(cart[1..], id)
  {
  }

  /** After a line passes, covering the rest of the cart in the new stock is the same as covering the
      whole cart in the old stock. */
  lemma {:induction false} CoversStep(stock: map<Id, Product>, cart: seq<CartLine>)
    requires cart != [] && cart[0].product.id in stock && !Short(stock, cart[0])
    requires forall i :: 0 <= i < |cart| ==> cart[i].quantity >= 0
    ensures Covers(stock, cart) <==> Covers(Next(stock, cart[0]), cart[1..])
  {
    var l, rest, next := cart[0], cart[1..], Next(stock, cart[0]);
    var pid := l.product.id;
    if Covers(next, rest) {
      forall i | 0 <= i < |cart| && cart[i].product.id in stock && stock[cart[i].product.id].listingType != Auction
        ensures Demand(cart, cart[i].product.id) <= stock[cart[i].product.id].amount
      {
        var id := cart[i].product.id;
        DemandSplit(cart, id);
        if i > 0 {
          assert rest[i - 1] == cart[i];
        } else if Requested(rest, id) {
          var j :| 0 <= j < |rest| && rest[j].product.id == id;
        } else {
          DemandOfAbsent(rest, id);
        }
      }
    }
    if Covers(stock, cart) {
      forall i | 0 <= i < |rest| && rest[i].product.id in next && next[rest[i].product.id].listingType != Auction
        ensures Demand(rest, rest[i].product.id) <= next[rest[i].product.id].amount
      {
        assert cart[i + 1] == rest[i];
        DemandSplit(cart, rest[i].product.id);
      }
    }
  }

  /** With non-negative quantities and every product present, the stock step succeeds exactly when
      each non-auction product of the cart has at least the total quantity asked of it. */
  lemma {:induction false} StockSucceedsIff(stock: map<Id, Product>, cart: seq<CartLine>)
    requires forall i :: 0 <= i < |cart| ==> cart[i].quantity >= 0
    requires forall i :: 0 <= i < |cart| ==> cart[i].product.id in stock
    ensures StockAfter(stock, cart).Ok? <==> Covers(stock, cart)
    decreases |cart|
  {
    if cart != [] {
      var l := cart[0];
      if Short(stock, l) {
        DemandSplit(cart, l.product.id);
        DemandNonNegative(cart[1..], l.product.id);
        assert !Covers(stock, cart) by {
          assert Demand(cart, l.product.id) > stock[l.product.id].amount;
        }
      } else {
        var rest := cart[1..];
        assert forall i :: 0 <= i < |rest| ==> rest[i] == cart[i + 1];
        StockSucceedsIff(Next(stock, l), rest);
        CoversStep(stock, cart);
      }
    }
  }

  /** The stock step changes amounts only, so it keeps the products table well formed. */
  lemma StockKeepsProductsWellFormed(stock: map<Id, Product>, cart: seq<CartLine>)
    requires ProductsWellFormed(stock) && StockAfter(stock, cart).Ok?
    ensures ProductsWellFormed(StockAfter(stock, cart).value)
  {
    StockKeepsRows(stock, cart);
  }

  /** The `order_items` row written for one cart line: a copy of the client's line, not of the live
      product. `imageUrls[0]` of an empty list is undefined and stored as NULL. */
  function Snapshot(orderId: Id, line: CartLine, withCardNumber: bool): OrderItem {
    OrderItem(orderId, line.product.id, line.product.sellerId, line.quantity, line.product.price,
              line.product.name,
              if |line.product.imageUrls| > 0 then Some(line.product.imageUrls[0]) else None,
              if withCardNumber then Some(line.product.cardNumber) else None)
  }

  /** One snapshot per cart line, in cart order. */
  function Snapshots(orderId: Id, cart: seq<CartLine>, withCardNumber: bool): (items: seq<OrderItem>)
    ensures |items| == |cart|
    ensures forall i :: 0 <= i < |cart| ==> items[i] == Snapshot(orderId, cart[i], withCardNumber)
  {
    seq(|cart|, i requires 0 <= i < |cart| => Snapshot(orderId, cart[i], withCardNumber))
  }

  /** The stock loop of `createOrder`, run on the transaction's copy of the products table: it stops
      at the first line that fails, and otherwise yields the table the commit writes. */
  method ReserveStock(products: map<Id, Product>, cart: seq<CartLine>) returns (r: Result<map<Id, Product>>)
    ensures r == StockAfter(products, cart)
  {
    var stock, rest := products, cart;
    while rest != []
      invariant StockAfter(products, cart) == StockAfter(stock, rest)
      decreases |rest|
    {
      var line := rest[0];
      if line.product.id !in stock {
        return Err(Internal);
      }
      var p := stock[line.product.id];
      if p.listingType != Auction {
        if p.amount < line.quantity {
          return Err(InsufficientStock);
        }
        stock := stock[line.product.id := p.(amount := p.amount - line.quantity)];
      }
      rest := rest[1..];
    }
    r := Ok(stock);
  }

  /** The item loop of `createOrder`: one snapshot row per cart line, appended in cart order. */
  method AppendSnapshots(items: seq<OrderItem>, orderId: Id, cart: seq<CartLine>, withCardNumber: bool)
    returns (out: seq<OrderItem>)
    ensures |out| == |items| + |cart|
    ensures out[..|items|] == items
    ensures forall i :: 0 <= i < |cart| ==> out[|items| + i] == Snapshot(orderId, cart[i], withCardNumber)
    ensures out == items + Snapshots(orderId, cart, withCardNumber)
  {
    out := items;
    var j := 0;
    while j < |cart|
      invariant 0 <= j <= |cart|
      invariant out == items + Snapshots(orderId, cart[..j], withCardNumber)
    {
      assert cart[..j + 1] == cart[..j] + [cart[j]];
      out := out + [Snapshot(orderId, cart[j], withCardNumber)];
      j := j + 1;
    }
    assert cart[..|cart|] == cart;
  }
}
