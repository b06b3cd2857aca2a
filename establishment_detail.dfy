/**
 * The establishment page: the establishment's prices and active offers, and
 * the list of products it sells joined from its price rows.
 */
module EstablishmentDetail {
  import opened Wrappers
  import opened Seqs
  import opened Entities
  import opened AdminUtils

  /** `establishmentPrices`: the price rows of establishment `id`, in order. */
  function EstablishmentPrices(prices: seq<Price>, id: int): (r: seq<Price>)
    ensures IsSubsequence(r, prices)
    ensures forall i :: 0 <= i < |r| ==> r[i].establecimientoId == id
    ensures forall i :: 0 <= i < |prices| && prices[i].establecimientoId == id ==> prices[i] in r
  {
    Filter(prices, (p: Price) => p.establecimientoId == id)
  }

  /** `establishmentOffers`: the active offers of establishment `id`, in order. */
  function EstablishmentOffers(offers: seq<Offer>, id: int): (r: seq<Offer>)
    ensures IsSubsequence(r, offers)
    ensures forall i :: 0 <= i < |r| ==> r[i].establecimientoId == id && r[i].activa
    ensures forall i :: 0 <= i < |offers| && offers[i].establecimientoId == id && offers[i].activa ==> offers[i] in r
  {
    Filter(offers, (o: Offer) => o.establecimientoId == id && o.activa)
  }

  /** One entry of `productsWithPrices`: the product's fields plus `price` and `lastUpdated`. */
  datatype ProductEntry = ProductEntry(product: Product, price: int, lastUpdated: string)

  /**
   * What one price row becomes: the product it names, spread together with its
   * amount and date, kept only if the result has a truthy `id` (a missing
   * product leaves no `id`, and product id 0 is falsy).
   */
  function Entry(price: Price, products: seq<Product>): (r: Option<ProductEntry>)
    ensures r.Some? <==> FindProduct(products, price.productoId).Some? && price.productoId != 0
    ensures r.Some? ==>
      && r.value.product == FindProduct(products, price.productoId).value
      && r.value.price == price.precio
      && r.value.lastUpdated == price.fechaActualizacion
  {
    match FindProduct(products, price.productoId)
    case None => None
    case Some(p) => if p.id != 0 then Some(ProductEntry(p, price.precio, price.fechaActualizacion)) else None
  }

  /** `productsWithPrices`: the map over the establishment's prices, then the filter on `id`. */
  function ProductsWithPrices(ps: seq<Price>, products: seq<Product>): (r: seq<ProductEntry>)
    ensures |r| <= |ps|
    ensures ps != [] && Entry(ps[0], products).Some? ==> r != [] && r[0] == Entry(ps[0], products).value
  {
    if ps == [] then []
    else
      var rest := ProductsWithPrices(ps[1..], products);
      match Entry(ps[0], products)
      case Some(e) => [e] + rest
      case None => rest
  }

  predicate Joins(products: seq<Product>, price: Price)
  {
    Entry(price, products).Some?
  }

  /**
   * There is one entry per price row whose product is found (and has a
   * non-zero id): the list is not deduplicated.
   */
  lemma {:induction false} ProductsWithPricesCount(ps: seq<Price>, products: seq<Product>)
    ensures |ProductsWithPrices(ps, products)| == |Filter(ps, p => Joins(products, p))|
  {
    if ps != [] {
      ProductsWithPricesCount(ps[1..], products);
    }
  }

  /** Every entry is the entry of one of the rows. */
  lemma {:induction false} ProductsWithPricesSound(ps: seq<Price>, products: seq<Product>, i: nat)
    requires i < |ProductsWithPrices(ps, products)|
    ensures exists j :: 0 <= j < |ps| && Entry(ps[j], products) == Some(ProductsWithPrices(ps, products)[i])
  {
    var r := ProductsWithPrices(ps, products);
    if Entry(ps[0], products).Some? && i == 0 {
      assert Entry(ps[0], products) == Some(r[i]);
    } else {
      var k := if Entry(ps[0], products).Some? then i - 1 else i;
      ProductsWithPricesSound(ps[1..], products, k);
      var j :| 0 <= j < |ps[1..]| && Entry(ps[1..][j], products) == Some(ProductsWithPrices(ps[1..], products)[k]);
      assert ps[1..][j] == ps[j + 1];
    }
  }

  /** Every row that joins a product contributes its entry. */
  lemma {:induction false} ProductsWithPricesComplete(ps: seq<Price>, products: seq<Product>, j: nat)
    requires j < |ps| && Entry(ps[j], products).Some?
    ensures Entry(ps[j], products).value in ProductsWithPrices(ps, products)
  {
    if j > 0 {
      ProductsWithPricesComplete(ps[1..], products, j - 1);
    }
  }

  /** What the establishment page shows. */
  datatype EstablishmentView =
    | NotFound
    | Found(establishment: Establishment, products: seq<ProductEntry>, offers: seq<Offer>,
            productCount: nat, offerCount: nat)

  function EstablishmentPage(id: int, establishments: seq<Establishment>, prices: seq<Price>,
                             products: seq<Product>, offers: seq<Offer>): EstablishmentView
  {
    match FindEstablishment(establishments, id)
    case None => NotFound
    case Some(e) =>
      var entries := ProductsWithPrices(EstablishmentPrices(prices, id), products);
      var own := EstablishmentOffers(offers, id);
      Found(e, entries, own, |entries|, |own|)
  }

  /**
   * The page is the not-found view exactly when no establishment has the id.
   * Otherwise the product count is the number of the establishment's price
   * rows that join a product, and every listed entry comes from such a row.
   */
  lemma EstablishmentPageOutcome(id: int, establishments: seq<Establishment>, prices: seq<Price>,
                                 products: seq<Product>, offers: seq<Offer>)
    ensures var v := EstablishmentPage(id, establishments, prices, products, offers);
      && (v.NotFound? <==> forall i :: 0 <= i < |establishments| ==> establishments[i].id != id)
      && (v.Found? ==>
            && v.establishment.id == id
            && v.productCount == |v.products|
               == |Filter(EstablishmentPrices(prices, id), p => Joins(products, p))|
            && v.offerCount == |v.offers|
            && (forall i :: 0 <= i < |v.products| ==>
                  exists j :: 0 <= j < |prices| && prices[j].establecimientoId == id
                              && Entry(prices[j], products) == Some(v.products[i])))
  {
    var own := EstablishmentPrices(prices, id);
    ProductsWithPricesCount(own, products);
    var v := EstablishmentPage(id, establishments, prices, products, offers);
    if v.Found? {
      forall i | 0 <= i < |v.products|
        ensures exists j :: 0 <= j < |prices| && prices[j].establecimientoId == id
                            && Entry(prices[j], products) == Some(v.products[i])
      {
        ProductsWithPricesSound(own, products, i);
        var k :| 0 <= k < |own| && Entry(own[k], products) == Some(v.products[i]);
        var j :| 0 <= j < |prices| && prices[j] == own[k];
      }
    }
  }

  /** Two price rows for the same product both produce an entry: the count does not deduplicate. */
  lemma CountsEveryRow(p: Product, a: Price, b: Price)
    requires p.id != 0 && a.productoId == p.id && b.productoId == p.id
    ensures |ProductsWithPrices([a, b], [p])| == 2
  {
    assert FindProduct([p], p.id) == Some(p);
    assert Entry(a, [p]).Some? && Entry(b, [p]).Some?;
    assert [a, b][1..] == [b];
    assert ProductsWithPrices([b], [p]) == [Entry(b, [p]).value];
  }
}
