/** The checks of the place-bid handler, in the order the handler makes them. */
module Bidding {
  import opened Optional
  import opened Tables
  import Access

  /** `product.auctionEndDate && Date.now() > product.auctionEndDate`: a null or zero end date never
      closes the auction, and a bid exactly at the end time is still in time. */
  predicate Closed(p: Product, now: int) {
    p.auctionEndDate.Some? && p.auctionEndDate.value != 0 && now > p.auctionEndDate.value
  }

  /** `parseFloat(amount) <= product.currentBid`: JavaScript compares a null current bid as 0. */
  predicate AtMostCurrent(amount: real, current: Option<real>) {
    amount <= (if current.Some? then current.value else 0.0)
  }

  /** The caller is known and the amount is a non-zero number: the checks before the product lookup pass. */
  predicate Admissible(users: map<Id, UserRow>, callerId: Id, amount: Option<real>) {
    callerId != "" && callerId in users && amount.Some? && amount.value != 0.0
  }

  /** The verdict on a bid of `amount` (None: missing or not a number) by `callerId` at time `now`.
      Failures come in this order: unauthenticated, invalid amount, product missing, not an auction,
      auction ended, amount not above the current bid, bidder is the seller. When the current bid is
      null and the amount is not positive, building the "too low" message calls `toFixed` on null,
      which throws, so the answer is a server error. */
  function BidVerdict(users: map<Id, UserRow>, products: map<Id, Product>, productId: Id, callerId: Id,
                      amount: Option<real>, now: int): (o: Outcome)
    ensures o.Pass? <==>
      && callerId != "" && callerId in users
      && amount.Some? && amount.value != 0.0
      && productId in products
      && products[productId].listingType == Auction
      && !Closed(products[productId], now)
      && !AtMostCurrent(amount.value, products[productId].currentBid)
      && products[productId].sellerId != callerId
    ensures callerId == "" || callerId !in users ==> o == Fail(Unauthorized)
    ensures callerId != "" && callerId in users && (amount.None? || amount.value == 0.0) ==> o == Fail(InvalidInput)
    ensures Admissible(users, callerId, amount) && productId !in products ==> o == Fail(NotFound)
    ensures Admissible(users, callerId, amount) && productId in products
            ==> var p := products[productId];
                && (p.listingType != Auction ==> o == Fail(NotAuction))
                && (p.listingType == Auction && Closed(p, now) ==> o == Fail(AuctionEnded))
                && (p.listingType == Auction && !Closed(p, now) && AtMostCurrent(amount.value, p.currentBid)
                    ==> o == Fail(if p.currentBid.None? then Internal else BidTooLow))
                && ((p.listingType == Auction && !Closed(p, now) && !AtMostCurrent(amount.value, p.currentBid)
                     && p.sellerId == callerId) ==> o == Fail(SelfBid))
  {
    if Access.IsAuthenticated(users, callerId).Fail? then Fail(Unauthorized)
    else if amount.None? || amount.value == 0.0 then Fail(InvalidInput)
    else if productId !in products then Fail(NotFound)
    else
      var p := products[productId];
      if p.listingType != Auction then Fail(NotAuction)
      else if Closed(p, now) then Fail(AuctionEnded)
      else if AtMostCurrent(amount.value, p.currentBid) then Fail(if p.currentBid.None? then Internal else BidTooLow)
      else if p.sellerId == callerId then Fail(SelfBid)
      else Pass
  }

  /** An accepted bid is strictly above the current bid (above 0 when there is none): the current
      bid is a strictly increasing watermark. */
  lemma AcceptedBidRaisesWatermark(users: map<Id, UserRow>, products: map<Id, Product>, productId: Id, callerId: Id,
                                   amount: Option<real>, now: int)
    requires BidVerdict(users, products, productId, callerId, amount, now).Pass?
    ensures productId in products && amount.Some?
    ensures products[productId].currentBid.Some? ==> amount.value > products[productId].currentBid.value
    ensures products[productId].currentBid.None? ==> amount.value > 0.0
  {
  }

  /** A bid equal to the current bid is refused as too low, once the earlier checks have passed. */
  lemma EqualBidIsTooLow(users: map<Id, UserRow>, products: map<Id, Product>, productId: Id, callerId: Id,
                         bid: real, now: int)
    requires callerId != "" && callerId in users && bid != 0.0
    requires productId in products && products[productId].listingType == Auction
    requires !Closed(products[productId], now)
    requires products[productId].currentBid == Some(bid)
    ensures BidVerdict(users, products, productId, callerId, Some(bid), now) == Fail(BidTooLow)
  {
  }

  /** A late bid is refused as ended even if its amount would win and it is the seller's own. */
  lemma LateBidIsRefusedAsEnded(users: map<Id, UserRow>, products: map<Id, Product>, productId: Id, callerId: Id,
                                amount: Option<real>, now: int)
    requires callerId != "" && callerId in users && amount.Some? && amount.value != 0.0
    requires productId in products && products[productId].listingType == Auction
    requires Closed(products[productId], now)
    ensures BidVerdict(users, products, productId, callerId, amount, now) == Fail(AuctionEnded)
  {
  }

  /** A bid placed exactly at the end time passes the time check. */
  lemma BidAtEndTimeIsInTime(p: Product)
    requires p.auctionEndDate.Some?
    ensures !Closed(p, p.auctionEndDate.value)
  {
  }

  /** The self-bid check comes last: the seller is told the bid is too low before being told it is their own. */
  lemma SelfBidCheckedAfterAmount(users: map<Id, UserRow>, products: map<Id, Product>, productId: Id,
                                  bid: real, now: int)
    requires productId in products && products[productId].listingType == Auction
    requires !Closed(products[productId], now)
    requires products[productId].currentBid.Some? && 0.0 < bid <= products[productId].currentBid.value
    requires products[productId].sellerId in users && products[productId].sellerId != ""
    ensures BidVerdict(users, products, productId, products[productId].sellerId, Some(bid), now) == Fail(BidTooLow)
  {
  }
}
