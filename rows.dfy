/** `processDbProduct`: the shape a products row takes in every response. */
module Rows {
  import opened Optional
  import opened Tables

  /** A product as the API returns it: the three image columns folded into `imageUrls`
      and `isHidden` turned into a boolean. */
  datatype ProductView = ProductView(
    id: Id, name: string, description: string, price: real, amount: int,
    category: string, condition: string, rarity: string, cardNumber: string,
    sellerId: Id, createdAt: int, listingType: ListingType,
    startingPrice: Option<real>, currentBid: Option<real>, auctionEndDate: Option<int>,
    imageUrls: seq<string>, isHidden: bool)

  /** An image column survives `filter(Boolean)` when it is present and non-empty. */
  function Kept(url: Option<string>): (r: seq<string>)
    ensures |r| <= 1
    ensures r != [] <==> url.Some? && url.value != ""
    ensures r != [] ==> r[0] == url.value
  {
    if url.Some? && url.value != "" then [url.value] else []
  }

  /** The view carries every column of the row other than the image columns and `isHidden` unchanged. */
  predicate CopiesColumns(v: ProductView, p: Product) {
    && v.id == p.id && v.name == p.name && v.description == p.description
    && v.price == p.price && v.amount == p.amount && v.category == p.category
    && v.condition == p.condition && v.rarity == p.rarity && v.cardNumber == p.cardNumber
    && v.sellerId == p.sellerId && v.createdAt == p.createdAt && v.listingType == p.listingType
    && v.startingPrice == p.startingPrice && v.currentBid == p.currentBid
    && v.auctionEndDate == p.auctionEndDate
  }

  function ProcessDbProduct(row: Option<Product>): (v: Option<ProductView>)
    ensures v.None? <==> row.None?
    ensures v.Some? ==> CopiesColumns(v.value, row.value)
    ensures v.Some? ==> v.value.imageUrls == Kept(row.value.imageUrl1) + Kept(row.value.imageUrl2) + Kept(row.value.imageUrl3)
    ensures v.Some? ==> |v.value.imageUrls| <= 3
    ensures v.Some? ==> forall i :: 0 <= i < |v.value.imageUrls| ==> v.value.imageUrls[i] != ""
    ensures v.Some? ==> (v.value.isHidden <==> row.value.isHidden == 1)
  {
    match row
    case None => None
    case Some(p) =>
      Some(ProductView(
        p.id, p.name, p.description, p.price, p.amount,
        p.category, p.condition, p.rarity, p.cardNumber,
        p.sellerId, p.createdAt, p.listingType,
        p.startingPrice, p.currentBid, p.auctionEndDate,
        Kept(p.imageUrl1) + Kept(p.imageUrl2) + Kept(p.imageUrl3),
        p.isHidden == 1))
  }

  /** The view of a stored row; a row that exists always has one. */
  function View(p: Product): (v: ProductView)
    ensures CopiesColumns(v, p)
    ensures v.imageUrls == Kept(p.imageUrl1) + Kept(p.imageUrl2) + Kept(p.imageUrl3)
    ensures v.isHidden <==> p.isHidden == 1
  {
    ProcessDbProduct(Some(p)).value
  }

  /** `UPDATE products SET isHidden = 1 - isHidden`. */
  function Toggled(p: Product): (q: Product)
    ensures q == p.(isHidden := q.isHidden)
    ensures 0 <= p.isHidden <= 1 ==> 0 <= q.isHidden <= 1 && q.isHidden != p.isHidden
  {
    p.(isHidden := 1 - p.isHidden)
  }

  /** Toggling twice restores the row, and for a well-formed row each toggle flips the visible flag. */
  lemma ToggleTwiceRestores(p: Product)
    requires 0 <= p.isHidden <= 1
    ensures Toggled(Toggled(p)) == p
    ensures View(Toggled(p)).isHidden == !View(p).isHidden
  {
  }
}
