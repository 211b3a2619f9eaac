/**
 * The admin package editor: the add/edit dialog's prefill, the save guard
 * and the normalisation of what is written, the highlights text area
 * (one highlight per line), the discount percentage, the active toggle and
 * the delete.
 */
module PackageManagement {
  import opened Wrappers
  import opened Text
  import opened Seqs

  /** A row of the `packages` table. */
  datatype PackageRow = PackageRow(
    id: int,
    title: string,
    kind: string,
    price: int,
    discountPrice: Option<int>,
    duration: string,
    departureDate: string,
    quota: int,
    availableQuota: int,
    hotelMakkah: Option<string>,
    hotelMakkahStars: Option<int>,
    hotelMadinah: Option<string>,
    hotelMadinahStars: Option<int>,
    highlights: Option<seq<string>>,
    imageUrl: Option<string>,
    isActive: bool,
    createdAt: string)

  /** The dialog's form state. */
  datatype PackageForm = PackageForm(
    title: string,
    kind: string,
    price: int,
    discountPrice: Option<int>,
    duration: string,
    departureDate: string,
    quota: int,
    availableQuota: int,
    hotelMakkah: string,
    hotelMakkahStars: int,
    hotelMadinah: string,
    hotelMadinahStars: int,
    highlights: seq<string>,
    imageUrl: string,
    isActive: bool)

  /** What an insert or update writes. */
  datatype PackageWrite = PackageWrite(
    title: string,
    kind: string,
    price: int,
    discountPrice: Option<int>,
    duration: string,
    departureDate: string,
    quota: int,
    availableQuota: int,
    hotelMakkah: Option<string>,
    hotelMakkahStars: int,
    hotelMadinah: Option<string>,
    hotelMadinahStars: int,
    highlights: seq<string>,
    imageUrl: Option<string>,
    isActive: bool)

  /** The open dialog: the package being edited (`None` when adding), the form, the highlights text. */
  datatype Dialog = Dialog(editing: Option<PackageRow>, form: PackageForm, highlightsText: string)

  /** Save refused (nothing written), an insert, or an update of the edited id. */
  datatype SaveAction = Rejected | Insert(row: PackageWrite) | Update(id: int, row: PackageWrite)

  const DefaultStars: int := 5
  const DefaultQuota: int := 45

  const EmptyPackage: PackageForm := PackageForm(
    "", "umroh", 0, None, "", "", DefaultQuota, DefaultQuota, "", DefaultStars, "", DefaultStars, [], "", true)

  /** `openAddDialog`: a fresh form with the fixed defaults. */
  function OpenAddDialog(): (d: Dialog)
    ensures d.editing.None? && d.highlightsText == ""
    ensures d.form.kind == "umroh" && d.form.quota == 45 && d.form.availableQuota == 45
    ensures d.form.hotelMakkahStars == 5 && d.form.hotelMadinahStars == 5 && d.form.isActive
    ensures d.form.title == "" && d.form.price == 0
  {
    Dialog(None, EmptyPackage, "")
  }

  /** `x || ''` on a nullable text column. */
  function TextOrEmpty(s: Option<string>): (r: string)
    ensures s.None? ==> r == ""
    ensures s.Some? ==> r == s.value
  {
    s.GetOr("")
  }

  /** `x || 5` on a nullable star rating: null and 0 become 5. */
  function StarsOrDefault(stars: Option<int>): (r: int)
    ensures r != 0
    ensures stars.Some? && stars.value != 0 ==> r == stars.value
    ensures stars.None? || stars.value == 0 ==> r == DefaultStars
  {
    if stars.None? || stars.value == 0 then DefaultStars else stars.value
  }

  /** `openEditDialog(pkg)`. */
  function OpenEditDialog(pkg: PackageRow): (d: Dialog)
    ensures d.editing == Some(pkg)
    ensures d.form.title == pkg.title && d.form.kind == pkg.kind && d.form.price == pkg.price
    ensures d.form.discountPrice == pkg.discountPrice && d.form.isActive == pkg.isActive
    ensures d.form.duration == pkg.duration && d.form.departureDate == pkg.departureDate
    ensures d.form.quota == pkg.quota && d.form.availableQuota == pkg.availableQuota
    ensures d.form.hotelMakkah == TextOrEmpty(pkg.hotelMakkah) && d.form.hotelMadinah == TextOrEmpty(pkg.hotelMadinah)
    ensures d.form.imageUrl == TextOrEmpty(pkg.imageUrl)
    ensures d.form.hotelMakkahStars == StarsOrDefault(pkg.hotelMakkahStars)
    ensures d.form.hotelMadinahStars == StarsOrDefault(pkg.hotelMadinahStars)
    ensures pkg.highlights.None? ==> d.form.highlights == [] && d.highlightsText == ""
    ensures pkg.highlights.Some? ==>
      d.form.highlights == pkg.highlights.value && d.highlightsText == Join(pkg.highlights.value, '\n')
  {
    var hs := pkg.highlights.GetOr([]);
    Dialog(
      Some(pkg),
      PackageForm(pkg.title, pkg.kind, pkg.price, pkg.discountPrice, pkg.duration, pkg.departureDate,
                  pkg.quota, pkg.availableQuota, TextOrEmpty(pkg.hotelMakkah), StarsOrDefault(pkg.hotelMakkahStars),
                  TextOrEmpty(pkg.hotelMadinah), StarsOrDefault(pkg.hotelMadinahStars), hs,
                  TextOrEmpty(pkg.imageUrl), pkg.isActive),
      Join(hs, '\n'))
  }

  predicate Blank(line: string) {
    Trim(line) == ""
  }

  /** `text.split('\n').filter(h => h.trim() !== '')`: the non-blank lines, untrimmed and in order. */
  function ParseHighlights(text: string): (hs: seq<string>)
    ensures forall i :: 0 <= i < |hs| ==> !Blank(hs[i]) && '\n' !in hs[i]
    ensures SubsequenceOf(hs, Split(text, '\n'))
    ensures forall line :: line in Split(text, '\n') && !Blank(line) ==> line in hs
    ensures forall line :: multiset(hs)[line] == if Blank(line) then 0 else multiset(Split(text, '\n'))[line]
  {
    Filter(Split(text, '\n'), (line: string) => !Blank(line))
  }

  /** Round trip: joining highlights with newlines and parsing them back gives the same list. */
  lemma HighlightsRoundTrip(hs: seq<string>)
    requires forall i :: 0 <= i < |hs| ==> !Blank(hs[i]) && '\n' !in hs[i]
    ensures ParseHighlights(Join(hs, '\n')) == hs
  {
    if |hs| == 0 {
      assert Split("", '\n') == [""];
      assert Blank("");
    } else {
      SplitJoin(hs, '\n');
      FilterAll(hs, (line: string) => !Blank(line));
    }
  }

  /**
   * Opening a stored package whose highlights are non-blank single lines puts
   * text in the area that parses back to exactly those highlights.
   */
  lemma EditDialogTextParsesBack(pkg: PackageRow)
    requires pkg.highlights.Some?
    requires forall i :: 0 <= i < |pkg.highlights.value| ==>
      !Blank(pkg.highlights.value[i]) && '\n' !in pkg.highlights.value[i]
    ensures ParseHighlights(OpenEditDialog(pkg).highlightsText) == OpenEditDialog(pkg).form.highlights
  {
    HighlightsRoundTrip(pkg.highlights.value);
  }

  /** A blank line, or an all-whitespace one, in the text adds no highlight. */
  lemma BlankLinesDropped(hs: seq<string>, blank: string)
    requires forall i :: 0 <= i < |hs| ==> !Blank(hs[i]) && '\n' !in hs[i]
    requires |hs| > 0 && '\n' !in blank && Blank(blank)
    ensures ParseHighlights(blank + "\n" + Join(hs, '\n')) == hs
  {
    SplitCons(blank, '\n', Join(hs, '\n'));
    SplitJoin(hs, '\n');
    assert blank + "\n" + Join(hs, '\n') == blank + ['\n'] + Join(hs, '\n');
    var parts := [blank] + hs;
    assert parts[1..] == hs;
    FilterAll(hs, (line: string) => !Blank(line));
  }

  /** `x || null`: the empty string becomes null. */
  function NullIfEmpty(s: string): (r: Option<string>)
    ensures r.None? <==> s == ""
    ensures r.Some? ==> r.value == s
  {
    if s == "" then None else Some(s)
  }

  /** `discount_price || null`: 0 becomes null. */
  function NullIfZero(d: Option<int>): (r: Option<int>)
    ensures r.None? <==> d.None? || d.value == 0
    ensures r.Some? ==> r == d
  {
    if d.None? || d.value == 0 then None else d
  }

  /** The record `handleSave` writes for an accepted form. */
  function Normalise(f: PackageForm, highlightsText: string): (w: PackageWrite)
    ensures w.highlights == ParseHighlights(highlightsText)
    ensures w.discountPrice == NullIfZero(f.discountPrice)
    ensures w.hotelMakkah == NullIfEmpty(f.hotelMakkah) && w.hotelMadinah == NullIfEmpty(f.hotelMadinah)
    ensures w.imageUrl == NullIfEmpty(f.imageUrl)
    ensures w.title == f.title && w.kind == f.kind && w.price == f.price && w.duration == f.duration
    ensures w.departureDate == f.departureDate && w.quota == f.quota && w.availableQuota == f.availableQuota
    ensures w.hotelMakkahStars == f.hotelMakkahStars && w.hotelMadinahStars == f.hotelMadinahStars
    ensures w.isActive == f.isActive
  {
    PackageWrite(f.title, f.kind, f.price, NullIfZero(f.discountPrice), f.duration, f.departureDate,
                 f.quota, f.availableQuota, NullIfEmpty(f.hotelMakkah), f.hotelMakkahStars,
                 NullIfEmpty(f.hotelMadinah), f.hotelMadinahStars, ParseHighlights(highlightsText),
                 NullIfEmpty(f.imageUrl), f.isActive)
  }

  /** The save guard: title, price, duration and departure date must all be truthy. */
  predicate Complete(f: PackageForm) {
    f.title != "" && f.price != 0 && f.duration != "" && f.departureDate != ""
  }

  /** `handleSave`: refuse an incomplete form, else update the edited package or insert a new one. */
  function HandleSave(d: Dialog): (a: SaveAction)
    ensures a.Rejected? <==> !Complete(d.form)
    ensures a.Update? <==> Complete(d.form) && d.editing.Some?
    ensures a.Update? ==> a.id == d.editing.value.id
    ensures !a.Rejected? ==> a.row == Normalise(d.form, d.highlightsText)
  {
    if !Complete(d.form) then Rejected
    else
      var w := Normalise(d.form, d.highlightsText);
      match d.editing
      case Some(pkg) => Update(pkg.id, w)
      case None => Insert(w)
  }

  /** Editing a package and saving without changes writes its highlights back unchanged. */
  lemma EditSaveKeepsHighlights(pkg: PackageRow)
    requires pkg.highlights.Some?
    requires forall i :: 0 <= i < |pkg.highlights.value| ==> !Blank(pkg.highlights.value[i]) && '\n' !in pkg.highlights.value[i]
    requires Complete(OpenEditDialog(pkg).form)
    ensures HandleSave(OpenEditDialog(pkg)) == Update(pkg.id, HandleSave(OpenEditDialog(pkg)).row)
    ensures HandleSave(OpenEditDialog(pkg)).row.highlights == pkg.highlights.value
  {
    HighlightsRoundTrip(pkg.highlights.value);
  }

  /** A new package cannot be saved before its title, price, duration and date are filled in. */
  lemma FreshFormRejected()
    ensures HandleSave(OpenAddDialog()) == Rejected
  {
  }

  /** `floor(a / b)` for a non-zero divisor of either sign. */
  function FloorDiv(a: int, b: int): (q: int)
    requires b != 0
    ensures b > 0 ==> q * b <= a < (q + 1) * b
    ensures b < 0 ==> q * b >= a > (q + 1) * b
  {
    if b > 0 then a / b else (-a) / (-b)
  }

  /** `Math.round(a / b)`: the nearest integer, halves rounded up. */
  function RoundDiv(a: int, b: int): (r: int)
    requires b != 0
    ensures b > 0 ==> (2 * r - 1) * b <= 2 * a < (2 * r + 1) * b
  {
    var r := FloorDiv(2 * a + b, 2 * b);
    assert (2 * r - 1) * b == r * (2 * b) - b && (2 * r + 1) * b == (r + 1) * (2 * b) - b;
    r
  }

  /** The discount badge: none, a percentage, or the non-finite value a zero price produces. */
  datatype Discount = NoDiscount | Percent(value: int) | NonFinite

  /** `calculateDiscount(price, discountPrice)`. */
  function CalculateDiscount(price: int, discountPrice: Option<int>): (r: Discount)
    ensures r.NoDiscount? <==> discountPrice.None? || discountPrice.value == 0
    ensures r.NonFinite? <==> discountPrice.Some? && discountPrice.value != 0 && price == 0
    ensures r.Percent? && price > 0 ==>
      (2 * r.value - 1) * price <= 200 * (price - discountPrice.value) < (2 * r.value + 1) * price
  {
    if discountPrice.None? || discountPrice.value == 0 then NoDiscount
    else if price == 0 then NonFinite
    else Percent(RoundDiv(100 * (price - discountPrice.value), price))
  }

  /** A discount price in `(0, price]` gives a percentage between 0 and 100. */
  lemma DiscountInRange(price: int, discount: int)
    requires 0 < discount <= price
    ensures CalculateDiscount(price, Some(discount)).Percent?
    ensures 0 <= CalculateDiscount(price, Some(discount)).value <= 100
  {
    var v := CalculateDiscount(price, Some(discount)).value;
    var a := 200 * (price - discount);
    assert 0 <= a < 200 * price;
    assert (2 * v - 1) * price <= a < (2 * v + 1) * price;
  }

  /** `toggleActive(id, current)`: writes `is_active = !current` on the matching package and nothing else. */
  function ToggleActive(rows: seq<PackageRow>, id: int, current: bool): (r: seq<PackageRow>)
    ensures |r| == |rows|
    ensures forall i :: 0 <= i < |rows| && rows[i].id == id ==> r[i].isActive == !current && r[i].(isActive := rows[i].isActive) == rows[i]
    ensures forall i :: 0 <= i < |rows| && rows[i].id != id ==> r[i] == rows[i]
  {
    seq(|rows|, i requires 0 <= i < |rows| => if rows[i].id == id then rows[i].(isActive := !current) else rows[i])
  }

  /** Toggling with the displayed state twice restores the row. */
  lemma ToggleTwice(rows: seq<PackageRow>, id: int)
    ensures forall i :: 0 <= i < |rows| && rows[i].id == id ==>
      ToggleActive(ToggleActive(rows, id, rows[i].isActive), id, !rows[i].isActive)[i] == rows[i]
  {
  }

  /** `handleDelete(id)` after the browser confirmation: nothing changes unless confirmed. */
  function HandleDelete(rows: seq<PackageRow>, id: int, confirmed: bool): (r: seq<PackageRow>)
    ensures !confirmed ==> r == rows
    ensures confirmed ==> forall x :: x in r <==> x in rows && x.id != id
    ensures SubsequenceOf(r, rows)
  {
    if !confirmed then
      FilterAll(rows, (x: PackageRow) => true);
      rows
    else Filter(rows, (x: PackageRow) => x.id != id)
  }
}
