/**
 * The public catalogue's filter: a package is listed when its month matches
 * the selected month ("Semua" = all months) and its price lies in the
 * selected half-open band `[min, max)`, where a band may be unbounded above.
 */
module PackagesSection {
  import opened Wrappers
  import opened Seqs

  datatype Package = Package(id: int, title: string, kind: string, price: int, month: string)

  /** A price band `[min, max)`; `max == None` is the unbounded (`Infinity`) upper end. */
  datatype PriceRange = PriceRange(caption: string, min: int, max: Option<int>)

  const AllMonths: string := "Semua"

  const Months: seq<string> := ["Semua", "Agustus", "September", "Oktober", "Ramadhan", "Haji"]

  const PriceRanges: seq<PriceRange> := [
    PriceRange("Semua Harga", 0, None),
    PriceRange("< 30 Juta", 0, Some(30000000)),
    PriceRange("30 - 50 Juta", 30000000, Some(50000000)),
    PriceRange("> 50 Juta", 50000000, None)
  ]

  predicate InBand(price: int, range: PriceRange) {
    range.min <= price && (range.max.None? || price < range.max.value)
  }

  predicate Shown(p: Package, month: string, range: PriceRange) {
    (month == AllMonths || p.month == month) && InBand(p.price, range)
  }

  /** `filteredPackages`. */
  function FilteredPackages(catalogue: seq<Package>, month: string, range: PriceRange): (r: seq<Package>)
    ensures forall x :: x in r <==> x in catalogue && Shown(x, month, range)
    ensures SubsequenceOf(r, catalogue)
  {
    Filter(catalogue, (x: Package) => Shown(x, month, range))
  }

  /** The initial selection ("Semua", first band) lists exactly the packages with a non-negative price. */
  lemma InitialSelectionShowsAll(catalogue: seq<Package>)
    ensures forall x :: x in FilteredPackages(catalogue, Months[0], PriceRanges[0]) <==> x in catalogue && x.price >= 0
    ensures (forall i :: 0 <= i < |catalogue| ==> catalogue[i].price >= 0) ==>
      FilteredPackages(catalogue, Months[0], PriceRanges[0]) == catalogue
  {
    if forall i :: 0 <= i < |catalogue| ==> catalogue[i].price >= 0 {
      FilterAll(catalogue, (x: Package) => Shown(x, Months[0], PriceRanges[0]));
    }
  }

  /** Number of the three bounded bands that contain `price`. */
  function BandsContaining(price: int): nat {
    (if InBand(price, PriceRanges[1]) then 1 else 0)
    + (if InBand(price, PriceRanges[2]) then 1 else 0)
    + (if InBand(price, PriceRanges[3]) then 1 else 0)
  }

  /** Every non-negative price lies in exactly one of the three bands; a boundary price goes to the upper band. */
  lemma BandsPartition(price: int)
    requires price >= 0
    ensures BandsContaining(price) == 1
    ensures price == 30000000 ==> InBand(price, PriceRanges[2])
    ensures price == 50000000 ==> InBand(price, PriceRanges[3])
  {
  }

  /** The "no package matches" message is shown exactly when no package satisfies the filter. */
  lemma EmptyMessageIff(catalogue: seq<Package>, month: string, range: PriceRange)
    ensures |FilteredPackages(catalogue, month, range)| == 0 <==>
      forall i :: 0 <= i < |catalogue| ==> !Shown(catalogue[i], month, range)
  {
    FilterEmptyIff(catalogue, (x: Package) => Shown(x, month, range));
  }
}
