/**
 * The package detail page: which view shows after the fetch, the displayed
 * price and star count, the type and discount badges, and the
 * strike-through of the original price.
 */
module PackageDetail {
  import opened Wrappers

  /** The columns of a package row this page's rules read. */
  datatype Package = Package(id: int, title: string, kind: string, price: int, discountPrice: Option<int>, hotelMakkahStars: Option<int>)

  /** A nullable number read for truthiness: null and 0 are falsy. */
  predicate TruthyNumber(n: Option<int>) {
    n.Some? && n.value != 0
  }

  /** `hotel_makkah_stars || 5`. */
  function HotelStars(p: Package): (n: int)
    ensures TruthyNumber(p.hotelMakkahStars) ==> n == p.hotelMakkahStars.value
    ensures !TruthyNumber(p.hotelMakkahStars) ==> n == 5
    ensures n != 0
  {
    if TruthyNumber(p.hotelMakkahStars) then p.hotelMakkahStars.value else 5
  }

  /** `discount_price || price`. */
  function DisplayPrice(p: Package): (n: int)
    ensures TruthyNumber(p.discountPrice) ==> n == p.discountPrice.value
    ensures !TruthyNumber(p.discountPrice) ==> n == p.price
  {
    if TruthyNumber(p.discountPrice) then p.discountPrice.value else p.price
  }

  /** The original price is struck through exactly when a discount is shown. */
  function StrikeThrough(p: Package): (shown: bool)
    ensures shown <==> TruthyNumber(p.discountPrice)
  {
    match p.discountPrice
    case None => false
    case Some(d) => d != 0
  }

  /** The "DISKON" badge follows the same condition. */
  function DiscountBadge(p: Package): (shown: bool)
    ensures shown == StrikeThrough(p)
  {
    TruthyNumber(p.discountPrice)
  }

  /**
   * Whenever the original price is struck through, the price shown is the
   * discount price (which may equal the original); a zero discount shows the
   * original price unstruck.
   */
  lemma StruckMeansDiscountShown(p: Package)
    requires StrikeThrough(p)
    ensures DisplayPrice(p) == p.discountPrice.value
    ensures !StrikeThrough(p.(discountPrice := Some(0))) && DisplayPrice(p.(discountPrice := Some(0))) == p.price
  {
  }

  /** The type badge. */
  function TypeBadge(kind: string): (caption: string)
    ensures caption == "HAJI" <==> kind == "haji"
    ensures caption == "UMRAH" <==> kind != "haji"
  {
    if kind == "haji" then "HAJI" else "UMRAH"
  }

  /** An example of the caption rule: the "umroh-plus" variant reads like plain "umroh". */
  lemma UmrohPlusReadsUmrah()
    ensures TypeBadge("umroh-plus") == TypeBadge("umroh") == "UMRAH"
  {
  }

  /** The fetch's answer: whether it failed, and the row if one was found. */
  datatype FetchAnswer = FetchAnswer(failed: bool, data: Option<Package>)

  datatype View = Spinner | NotFound | Detail(pkg: Package)

  /** The page's view: the spinner until the fetch answers, then the package, or the not-found screen. */
  function PageView(answer: Option<FetchAnswer>): (v: View)
    ensures v == Spinner <==> answer.None?
    ensures v.Detail? <==> answer.Some? && !answer.value.failed && answer.value.data.Some?
    ensures v.Detail? ==> v.pkg == answer.value.data.value
  {
    match answer
    case None => Spinner
    case Some(a) =>
      if !a.failed && a.data.Some? then Detail(a.data.value) else NotFound
  }
}
