/**
 * The product feed built by `scripts/export-products.ts`: one row of fourteen
 * values per product, values joined by `,` and rows by a newline. The CMS
 * query, the console output and the file write are not modelled.
 * Prices are carried as integer hundredths of a lev, so `String(price)` is
 * modelled for prices with at most two decimals.
 */
module ExportProducts {
  import opened Wrappers
  import opened JsString
  import opened JsNumber

  /** The fields of a product document (queried at depth 3) that the export reads. */
  datatype Product = Product(
    id: int,
    title: string,
    shortDescription: string,
    slug: string,
    mediaUrls: Option<seq<Option<string>>>,  // `mediaArray`: the url of each image, when the array is present
    quantity: int,
    price: Option<int>,                      // hundredths; absent for event products
    priceRange: Option<string>,
    promoPrice: Option<int>,                 // hundredths
    categoryTitle: string,
    subCategoryTitle: string)

  const SITE_PRODUCT_PREFIX: string := "https://www.obichaite-se.com/produkt/"

  /**
   * `mediaArray?.[0].file` reads `.file` of `undefined`, a `TypeError`, when
   * the array is present but empty; nothing in the script catches it.
   */
  predicate ImageReadThrows(p: Product) {
    p.mediaUrls.Some? && |p.mediaUrls.value| == 0
  }

  /** `${x}` for a number given in hundredths, `undefined` when absent. */
  function NumberText(x: Option<int>): string {
    if x.Some? then HundredthsToString(x.value) else "undefined"
  }

  function PriceField(p: Product): string {
    if p.priceRange.Some? && p.priceRange.value != "" then p.priceRange.value + " BGN"
    else NumberText(p.price) + " BGN"
  }

  function SalePriceField(p: Product): string {
    if p.promoPrice.Some? && p.promoPrice.value != 0 then HundredthsToString(p.promoPrice.value) + " BGN" else ""
  }

  /** The first image's url; the empty gallery throws. */
  function ImageLink(p: Product): (r: Result<string, ()>)
    ensures r.Failure? <==> ImageReadThrows(p)
    ensures p.mediaUrls.None? ==> r == Success("")
  {
    match p.mediaUrls
    case None => Success("")
    case Some(urls) => if |urls| == 0 then Failure(()) else Success(urls[0].GetOr(""))
  }

  function AdditionalImageLink(p: Product): string {
    if p.mediaUrls.Some? && |p.mediaUrls.value| >= 2 then p.mediaUrls.value[1].GetOr("") else ""
  }

  /**
   * The values of the mapped object, in its key order (`null` and
   * `undefined` join as empty), or the `TypeError` of an empty gallery.
   */
  function Row(p: Product): (r: Result<seq<string>, ()>)
    ensures r.Failure? <==> ImageReadThrows(p)
    ensures r.Success? ==> (
      && |r.value| == 14
      && r.value[7] == "" && r.value[8] == "new" && r.value[10] == ""  // brand, condition, currency
      && r.value[3] == SITE_PRODUCT_PREFIX + p.slug
      && r.value[6] == (if p.priceRange.Some? && p.priceRange.value != "" then p.priceRange.value else NumberText(p.price)) + " BGN"
      && ((p.promoPrice.None? || p.promoPrice.value == 0) ==> r.value[9] == "")
      && ((p.mediaUrls.None? || |p.mediaUrls.value| < 2) ==> r.value[12] == ""))
  {
    match ImageLink(p)
    case Failure(e) => Failure(e)
    case Success(image) =>
      Success(
        [ IntToString(p.id),
          p.title,
          p.shortDescription,
          SITE_PRODUCT_PREFIX + p.slug,
          image,
          IntToString(p.quantity),
          PriceField(p),
          "",
          "new",
          SalePriceField(p),
          "",
          p.categoryTitle,
          AdditionalImageLink(p),
          p.subCategoryTitle ])
  }

  /** `Object.values(product).join(',')`: no quoting and no escaping. */
  function CsvLine(row: seq<string>): string {
    Join(row, ",")
  }

  /** A product's line, or the `TypeError` of its empty gallery. */
  function LineOf(p: Product): (r: Result<string, ()>)
    ensures r.Failure? <==> ImageReadThrows(p)
    ensures r.Success? ==> r.value == CsvLine(Row(p).value)
  {
    match Row(p)
    case Failure(e) => Failure(e)
    case Success(row) => Success(CsvLine(row))
  }

  /** `map` with a callback that may throw: every result, or the position of the first throw. */
  function MapUntilThrow<P, L>(ps: seq<P>, f: P -> Result<L, ()>): (r: Result<seq<L>, nat>)
    ensures r.Success? <==> forall i :: 0 <= i < |ps| ==> f(ps[i]).Success?
    ensures r.Success? ==> |r.value| == |ps| && forall i :: 0 <= i < |ps| ==> r.value[i] == f(ps[i]).value
    ensures r.Failure? ==> r.error < |ps| && f(ps[r.error]).Failure? && forall i :: 0 <= i < r.error ==> f(ps[i]).Success?
  {
    if ps == [] then Success([])
    else
      match f(ps[0])
      case Failure(_) => Failure(0)
      case Success(line) =>
        var tail := ps[1..];
        assert forall i :: 1 <= i < |ps| ==> ps[i] == tail[i - 1];
        match MapUntilThrow(tail, f)
        case Failure(k) => Failure(k + 1)
        case Success(rest) =>
          var lines := [line] + rest;
          assert forall i :: 1 <= i < |lines| ==> lines[i] == rest[i - 1];
          Success(lines)
  }

  /**
   * `products.docs.map(...)` then the per-row join: one line per product in
   * query order, or the `TypeError` of the first product with an empty
   * gallery, carrying that product's position.
   */
  function CsvLines(ps: seq<Product>): (r: Result<seq<string>, nat>)
    ensures r.Success? <==> forall i :: 0 <= i < |ps| ==> !ImageReadThrows(ps[i])
    ensures r.Success? ==> |r.value| == |ps| && forall i :: 0 <= i < |ps| ==> r.value[i] == CsvLine(Row(ps[i]).value)
    ensures r.Failure? ==> r.error < |ps| && ImageReadThrows(ps[r.error]) && forall i :: 0 <= i < r.error ==> !ImageReadThrows(ps[i])
  {
    MapUntilThrow(ps, LineOf)
  }

  /** The file contents: rows joined by newlines, no header, no trailing newline; nothing is written when a row throws. */
  function Csv(ps: seq<Product>): (r: Result<string, nat>)
    ensures r.Success? <==> CsvLines(ps).Success?
  {
    match CsvLines(ps)
    case Failure(k) => Failure(k)
    case Success(lines) => Success(Join(lines, "\n"))
  }

  /** One product with an empty gallery stops the whole export: no file is produced. */
  lemma {:induction false} EmptyGalleryStopsExport(ps: seq<Product>, k: nat)
    requires k < |ps| && ImageReadThrows(ps[k])
    ensures Csv(ps).Failure? && Csv(ps).error <= k
  {
    if k > 0 && !ImageReadThrows(ps[0]) {
      EmptyGalleryStopsExport(ps[1..], k - 1);
    }
  }

  predicate FreeOf(row: seq<string>, c: char) {
    forall i :: 0 <= i < |row| ==> c !in row[i]
  }

  /** An empty query gives an empty file. */
  lemma EmptyExport()
    ensures Csv([]) == Success("")
  {
  }

  lemma {:induction false} JoinFreeOf(xs: seq<string>, sep: string, c: char)
    requires FreeOf(xs, c) && c !in sep
    ensures c !in Join(xs, sep)
  {
    if |xs| > 1 {
      JoinFreeOf(xs[1..], sep, c);
    }
  }

  /**
   * When no value contains a newline, the file splits back into exactly one
   * line per product, in query order.
   */
  lemma OneLinePerProduct(ps: seq<Product>)
    requires |ps| >= 1
    requires forall i :: 0 <= i < |ps| ==> Row(ps[i]).Success? && FreeOf(Row(ps[i]).value, '\n')
    ensures Csv(ps).Success? && Split(Csv(ps).value, '\n') == CsvLines(ps).value
  {
    var lines := CsvLines(ps).value;
    forall i | 0 <= i < |lines| ensures '\n' !in lines[i] {
      JoinFreeOf(Row(ps[i]).value, ",", '\n');
    }
    SplitJoin(lines, '\n');
  }

  /** When no value contains a comma, a line splits back into the product's fourteen values. */
  lemma RowReadsBack(p: Product)
    requires Row(p).Success? && FreeOf(Row(p).value, ',')
    ensures Split(CsvLine(Row(p).value), ',') == Row(p).value
  {
    SplitJoin(Row(p).value, ',');
  }

  /** The total number of occurrences of `c` in the values. */
  function CountIn(row: seq<string>, c: char): nat {
    if row == [] then 0 else CountChar(row[0], c) + CountIn(row[1..], c)
  }

  lemma {:induction false} SplitCount(s: string, c: char)
    ensures |Split(s, c)| == CountChar(s, c) + 1
  {
    if s != [] {
      SplitCount(s[1..], c);
    }
  }

  lemma {:induction false} JoinCount(xs: seq<string>, c: char)
    requires |xs| >= 1
    ensures CountChar(Join(xs, [c]), c) == CountIn(xs, c) + |xs| - 1
  {
    if |xs| == 1 {
      assert xs[1..] == [];
    } else {
      JoinCount(xs[1..], c);
      CountCharConcat(xs[0] + [c], Join(xs[1..], [c]), c);
      CountCharConcat(xs[0], [c], c);
    }
  }

  /**
   * Values are not quoted (section 2 of RFC 4180 is not applied): every comma
   * inside a value adds a column, so a reader sees more than fourteen.
   */
  lemma CommasShiftColumns(p: Product)
    requires !ImageReadThrows(p)
    ensures |Split(CsvLine(Row(p).value), ',')| == 14 + CountIn(Row(p).value, ',')
  {
    SplitCount(CsvLine(Row(p).value), ',');
    JoinCount(Row(p).value, ',');
  }
}
