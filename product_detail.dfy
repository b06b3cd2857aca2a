/**
 * The product page: the product's prices joined with their establishments,
 * cheapest first, and the statistics drawn from that list.
 */
module ProductDetail {
  import opened Wrappers
  import opened Seqs
  import opened Entities
  import opened AdminUtils
  import Search

  /** A price row together with the establishment it was found at. */
  datatype PricedAt = PricedAt(price: Price, establishment: Establishment)

  /**
   * Pairs each price with the first establishment carrying its
   * `establecimiento_id`, and drops the prices whose establishment is missing.
   */
  function WithEstablishments(ps: seq<Price>, es: seq<Establishment>): (r: seq<PricedAt>)
    ensures |r| <= |ps|
    ensures forall i :: 0 <= i < |r| ==> r[i].price in ps
    ensures forall i :: 0 <= i < |r| ==> FindEstablishment(es, r[i].price.establecimientoId) == Some(r[i].establishment)
  {
    if ps == [] then []
    else
      match FindEstablishment(es, ps[0].establecimientoId)
      case Some(e) => [PricedAt(ps[0], e)] + WithEstablishments(ps[1..], es)
      case None => WithEstablishments(ps[1..], es)
  }

  /** Every price whose establishment exists is kept, paired with that establishment. */
  lemma {:induction false} WithEstablishmentsComplete(ps: seq<Price>, es: seq<Establishment>, i: nat)
    requires i < |ps| && FindEstablishment(es, ps[i].establecimientoId).Some?
    ensures PricedAt(ps[i], FindEstablishment(es, ps[i].establecimientoId).value) in WithEstablishments(ps, es)
  {
    if i > 0 {
      WithEstablishmentsComplete(ps[1..], es, i - 1);
    }
  }

  function PrecioKey(x: PricedAt): int { x.price.precio }

  /** `sortedPrices`: the product's prices at existing establishments, by ascending amount. */
  function SortedPrices(id: int, prices: seq<Price>, es: seq<Establishment>): (r: seq<PricedAt>)
    ensures SortedBy(r, PrecioKey, false)
    ensures |r| <= |prices|
  {
    SortBy(WithEstablishments(Search.PricesOf(prices, id), es), PrecioKey, false)
  }

  /** `sortedPrices` is ordered by amount, and every entry is a price of the product at the establishment found for it. */
  lemma SortedPricesSound(id: int, prices: seq<Price>, es: seq<Establishment>)
    ensures var sp := SortedPrices(id, prices, es);
      && SortedBy(sp, PrecioKey, false)
      && (forall i :: 0 <= i < |sp| ==>
            && sp[i].price in prices && sp[i].price.productoId == id
            && FindEstablishment(es, sp[i].price.establecimientoId) == Some(sp[i].establishment))
  {
    var own := Search.PricesOf(prices, id);
    var joined := WithEstablishments(own, es);
    var sp := SortedPrices(id, prices, es);
    forall i | 0 <= i < |sp|
      ensures sp[i].price in prices && sp[i].price.productoId == id
      ensures FindEstablishment(es, sp[i].price.establecimientoId) == Some(sp[i].establishment)
    {
      assert sp[i] in multiset(joined);
      var k :| 0 <= k < |joined| && joined[k] == sp[i];
      var j :| 0 <= j < |own| && own[j] == joined[k].price;
    }
  }

  /** Every price of the product whose establishment exists is listed, with that establishment. */
  lemma SortedPricesComplete(id: int, prices: seq<Price>, es: seq<Establishment>, i: nat)
    requires i < |prices| && prices[i].productoId == id
    requires FindEstablishment(es, prices[i].establecimientoId).Some?
    ensures PricedAt(prices[i], FindEstablishment(es, prices[i].establecimientoId).value) in SortedPrices(id, prices, es)
  {
    var own := Search.PricesOf(prices, id);
    var joined := WithEstablishments(own, es);
    var j :| 0 <= j < |own| && own[j] == prices[i];
    WithEstablishmentsComplete(own, es, j);
    var x := PricedAt(prices[i], FindEstablishment(es, prices[i].establecimientoId).value);
    assert x in multiset(joined);
    assert x in multiset(SortedPrices(id, prices, es));
  }

  /**
   * A price of the product whose establishment is missing: the search result
   * lists it, the product page does not.
   */
  lemma OrphanPriceOnlyInSearch(p: Product, prices: seq<Price>, es: seq<Establishment>, i: nat)
    requires i < |prices| && prices[i].productoId == p.id
    requires forall k :: 0 <= k < |es| ==> es[k].id != prices[i].establecimientoId
    ensures prices[i] in Search.WithPrices(p, prices).prices
    ensures forall k :: 0 <= k < |SortedPrices(p.id, prices, es)| ==> SortedPrices(p.id, prices, es)[k].price != prices[i]
  {
    SortedPricesSound(p.id, prices, es);
    assert FindEstablishment(es, prices[i].establecimientoId).None?;
  }

  /** `minPrice`: the first listed amount, or 0 when the list is empty. */
  function MinShown(sp: seq<PricedAt>): int
  {
    if |sp| > 0 then sp[0].price.precio else 0
  }

  /** `maxPrice`: the last listed amount, or 0 when the list is empty. */
  function MaxShown(sp: seq<PricedAt>): int
  {
    if |sp| > 0 then sp[|sp| - 1].price.precio else 0
  }

  /** Over a list sorted by amount, the shown minimum is one of the amounts and no amount is below it; 0 for no amounts. */
  lemma MinShownIsLeast(sp: seq<PricedAt>)
    requires SortedBy(sp, PrecioKey, false)
    ensures forall i :: 0 <= i < |sp| ==> MinShown(sp) <= sp[i].price.precio
    ensures sp != [] ==> exists i :: 0 <= i < |sp| && MinShown(sp) == sp[i].price.precio
    ensures sp == [] ==> MinShown(sp) == 0
  {
    forall i | 0 < i < |sp| ensures MinShown(sp) <= sp[i].price.precio {
      assert InOrder(PrecioKey(sp[0]), PrecioKey(sp[i]), false);
    }
    if sp != [] {
      assert MinShown(sp) == sp[0].price.precio;
    }
  }

  /** Over a list sorted by amount, the shown maximum is one of the amounts and no amount is above it; 0 for no amounts. */
  lemma MaxShownIsGreatest(sp: seq<PricedAt>)
    requires SortedBy(sp, PrecioKey, false)
    ensures forall i :: 0 <= i < |sp| ==> sp[i].price.precio <= MaxShown(sp)
    ensures sp != [] ==> exists i :: 0 <= i < |sp| && MaxShown(sp) == sp[i].price.precio
    ensures sp == [] ==> MaxShown(sp) == 0
  {
    forall i | 0 <= i < |sp| - 1 ensures sp[i].price.precio <= MaxShown(sp) {
      assert InOrder(PrecioKey(sp[i]), PrecioKey(sp[|sp| - 1]), false);
    }
    if sp != [] {
      assert MaxShown(sp) == sp[|sp| - 1].price.precio;
    }
  }

  /** Over a list sorted by amount, every amount lies between the first and the last. */
  lemma MinMaxBound(sp: seq<PricedAt>)
    requires SortedBy(sp, PrecioKey, false)
    ensures forall i :: 0 <= i < |sp| ==> MinShown(sp) <= sp[i].price.precio <= MaxShown(sp)
    ensures MaxShown(sp) - MinShown(sp) >= 0
  {
    MinShownIsLeast(sp);
    MaxShownIsGreatest(sp);
  }

  /** One listed price: the "Mejor precio" badge, or the surcharge over the minimum. */
  datatype PriceLine = PriceLine(entry: PricedAt, best: bool, surcharge: Option<int>)

  /** The listed rows: the badge on row 0 only, the surcharge on every later row. */
  function Lines(sp: seq<PricedAt>): (r: seq<PriceLine>)
    ensures |r| == |sp|
    ensures forall i :: 0 <= i < |r| ==> r[i].entry == sp[i]
    ensures forall i :: 0 <= i < |r| ==> (r[i].best <==> i == 0) && (r[i].surcharge.Some? <==> i > 0)
    ensures forall i :: 0 < i < |r| ==> r[i].surcharge == Some(sp[i].price.precio - MinShown(sp))
  {
    seq(|sp|, i requires 0 <= i < |sp| =>
      PriceLine(sp[i], i == 0, if i > 0 then Some(sp[i].price.precio - MinShown(sp)) else None))
  }

  /** Over a list sorted by amount, no listed surcharge is negative. */
  lemma SurchargesNonNegative(sp: seq<PricedAt>)
    requires SortedBy(sp, PrecioKey, false)
    ensures forall i :: 0 < i < |sp| ==> Lines(sp)[i].surcharge.value >= 0
  {
    MinMaxBound(sp);
  }

  /**
   * The savings figure's operands (difference over maximum) when the maximum
   * is positive; none (shown as 0) otherwise. With the minimum between 0 and
   * the maximum, the difference lies between 0 and the maximum, so the
   * percentage shown lies between 0 and 100.
   */
  function Savings(minPrice: int, maxPrice: int): (r: Option<(int, int)>)
    ensures r.Some? <==> maxPrice > 0
    ensures r.Some? ==> r.value == (maxPrice - minPrice, maxPrice)
    ensures 0 <= minPrice <= maxPrice && r.Some? ==> 0 <= r.value.0 <= r.value.1 && r.value.1 > 0
  {
    if maxPrice > 0 then Some((maxPrice - minPrice, maxPrice)) else None
  }

  /** What the product page shows. */
  datatype ProductView =
    | NotFound
    | Found(product: Product, lines: seq<PriceLine>, minPrice: int, maxPrice: int, difference: int,
            savings: Option<(int, int)>)

  function ProductPage(id: int, products: seq<Product>, prices: seq<Price>, es: seq<Establishment>): ProductView
  {
    match FindProduct(products, id)
    case None => NotFound
    case Some(p) =>
      var sp := SortedPrices(id, prices, es);
      var lo, hi := MinShown(sp), MaxShown(sp);
      Found(p, Lines(sp), lo, hi, hi - lo, Savings(lo, hi))
  }

  /**
   * The page is the not-found view exactly when no product has the id. Otherwise
   * it shows the first product with the id, every listed amount lies between
   * the minimum and the maximum, the difference and every surcharge are
   * non-negative, both bounds are 0 when no price is listed, and when no
   * amount is negative the savings percentage lies between 0 and 100.
   */
  lemma ProductPageOutcome(id: int, products: seq<Product>, prices: seq<Price>, es: seq<Establishment>)
    ensures var v := ProductPage(id, products, prices, es);
      && (v.NotFound? <==> forall i :: 0 <= i < |products| ==> products[i].id != id)
      && (v.Found? ==>
            && v.product.id == id && v.product in products
            && v.difference >= 0
            && ((forall k :: 0 <= k < |prices| ==> prices[k].precio >= 0) && v.savings.Some? ==>
                  0 <= v.savings.value.0 <= v.savings.value.1 && v.savings.value.1 > 0)
            && (forall i :: 0 <= i < |v.lines| ==>
                  && v.minPrice <= v.lines[i].entry.price.precio <= v.maxPrice
                  && v.lines[i].entry.price.productoId == id
                  && (v.lines[i].surcharge.Some? ==> v.lines[i].surcharge.value >= 0))
            && (v.lines == [] ==> v.minPrice == 0 && v.maxPrice == 0))
  {
    var sp := SortedPrices(id, prices, es);
    SortedPricesSound(id, prices, es);
    MinMaxBound(sp);
    var v := ProductPage(id, products, prices, es);
    if v.Found? {
      var lo, hi := MinShown(sp), MaxShown(sp);
      assert v == Found(v.product, Lines(sp), lo, hi, hi - lo, Savings(lo, hi));
      if forall k :: 0 <= k < |prices| ==> prices[k].precio >= 0 {
        SavingsInRange(id, prices, es);
      }
    }
  }

  /** With no negative amount, the product page's savings operands lie in range. */
  lemma SavingsInRange(id: int, prices: seq<Price>, es: seq<Establishment>)
    requires forall k :: 0 <= k < |prices| ==> prices[k].precio >= 0
    ensures var sp := SortedPrices(id, prices, es);
      var sv := Savings(MinShown(sp), MaxShown(sp));
      sv.Some? ==> 0 <= sv.value.0 <= sv.value.1 && sv.value.1 > 0
  {
    var sp := SortedPrices(id, prices, es);
    SortedPricesSound(id, prices, es);
    MinMaxBound(sp);
    if sp != [] {
      assert sp[0].price in prices;
    }
  }
}
