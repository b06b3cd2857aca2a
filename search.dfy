/**
 * `searchProducts`: match the query against name and category, attach each
 * product's prices and lowest amount, apply the category, establishment and
 * price-range filters, then sort by that lowest amount.
 */
module Search {
  import opened Wrappers
  import opened Seqs
  import opened Text
  import opened Entities
  import opened AppReducer

  /** Name, or a category that is neither NULL nor empty, contains the query case-insensitively. */
  predicate MatchesQuery(p: Product, query: string)
  {
    ContainsIgnoringCase(p.nombre, query)
    || (Filled(p.categoria) && ContainsIgnoringCase(p.categoria.value, query))
  }

  function MatchingProducts(products: seq<Product>, query: string): seq<Product>
  {
    Filter(products, (p: Product) => MatchesQuery(p, query))
  }

  /** The price rows of one product, in stored order. */
  function PricesOf(prices: seq<Price>, productId: int): seq<Price>
  {
    Filter(prices, (pr: Price) => pr.productoId == productId)
  }

  /** `Math.min(...amounts)` over a non-empty list. */
  function MinPrecio(ps: seq<Price>): (m: int)
    requires ps != []
    ensures forall i :: 0 <= i < |ps| ==> m <= ps[i].precio
    ensures exists i :: 0 <= i < |ps| && m == ps[i].precio
  {
    if |ps| == 1 then ps[0].precio
    else
      var rest := MinPrecio(ps[1..]);
      assert forall i :: 1 <= i < |ps| ==> ps[i] == ps[1..][i - 1];
      if ps[0].precio <= rest then ps[0].precio else rest
  }

  /** The lowest amount, or 0 when the product has no prices. */
  function MinPriceOf(ps: seq<Price>): int
  {
    if |ps| > 0 then MinPrecio(ps) else 0
  }

  function WithPrices(p: Product, prices: seq<Price>): SearchResult
  {
    var ps := PricesOf(prices, p.id);
    SearchResult(p, ps, MinPriceOf(ps))
  }

  function AttachPrices(products: seq<Product>, prices: seq<Price>): (rs: seq<SearchResult>)
    ensures |rs| == |products|
    ensures forall i :: 0 <= i < |rs| ==> rs[i] == WithPrices(products[i], prices)
  {
    seq(|products|, i requires 0 <= i < |products| => WithPrices(products[i], prices))
  }

  predicate PassesCategory(r: SearchResult, f: Filters)
  {
    f.category != "" ==> r.product.categoria == Some(f.category)
  }

  predicate HasPriceAt(r: SearchResult, establishmentId: int)
  {
    exists i :: 0 <= i < |r.prices| && r.prices[i].establecimientoId == establishmentId
  }

  predicate PassesEstablishment(r: SearchResult, f: Filters)
  {
    f.establishment.Some? ==> HasPriceAt(r, f.establishment.value)
  }

  predicate InPriceRange(r: SearchResult, f: Filters)
  {
    f.priceRange.0 <= r.minPrice <= f.priceRange.1
  }

  /** The three filters, applied in the source's order. */
  function ApplyFilters(rs: seq<SearchResult>, f: Filters): seq<SearchResult>
  {
    var byCategory := if f.category != "" then Filter(rs, (r: SearchResult) => PassesCategory(r, f)) else rs;
    var byEstablishment := if f.establishment.Some? then Filter(byCategory, (r: SearchResult) => PassesEstablishment(r, f)) else byCategory;
    Filter(byEstablishment, (r: SearchResult) => InPriceRange(r, f))
  }

  /** An element passes all three filters. */
  predicate PassesFilters(r: SearchResult, f: Filters)
  {
    PassesCategory(r, f) && PassesEstablishment(r, f) && InPriceRange(r, f)
  }

  /**
   * The three filters applied in turn keep exactly what one filter on their
   * conjunction keeps, in the same order: a filter that is switched off keeps
   * everything.
   */
  lemma ApplyFiltersIsOneFilter(rs: seq<SearchResult>, f: Filters)
    ensures ApplyFilters(rs, f) == Filter(rs, (r: SearchResult) => PassesFilters(r, f))
  {
    var c := (r: SearchResult) => PassesCategory(r, f);
    var e := (r: SearchResult) => PassesEstablishment(r, f);
    var p := (r: SearchResult) => InPriceRange(r, f);
    var ce := (r: SearchResult) => PassesCategory(r, f) && PassesEstablishment(r, f);
    var all := (r: SearchResult) => PassesFilters(r, f);
    var byCategory := if f.category != "" then Filter(rs, c) else rs;
    if f.category == "" {
      FilterAll(rs, c);
    }
    assert byCategory == Filter(rs, c);
    var byEstablishment := if f.establishment.Some? then Filter(byCategory, e) else byCategory;
    if f.establishment.None? {
      FilterAll(byCategory, e);
    }
    assert byEstablishment == Filter(Filter(rs, c), e);
    FilterCompose(rs, c, e, ce);
    FilterCompose(rs, ce, p, all);
    assert ApplyFilters(rs, f) == Filter(byEstablishment, p);
  }

  /** The matching products: exactly the catalogue's products that match the query, in catalogue order. */
  lemma MatchingProductsExact(products: seq<Product>, query: string)
    ensures IsSubsequence(MatchingProducts(products, query), products)
    ensures forall i :: 0 <= i < |products| ==>
      (products[i] in MatchingProducts(products, query) <==> MatchesQuery(products[i], query))
  {
  }

  /** A product's prices: exactly the price rows naming it, in stored order. */
  lemma PricesOfExact(prices: seq<Price>, productId: int)
    ensures IsSubsequence(PricesOf(prices, productId), prices)
    ensures forall i :: 0 <= i < |prices| ==>
      (prices[i] in PricesOf(prices, productId) <==> prices[i].productoId == productId)
  {
  }

  function MinPriceKey(r: SearchResult): int { r.minPrice }

  /** 'price_desc' sorts descending; 'price_asc' and every other key sort ascending. */
  function SortResults(rs: seq<SearchResult>, sortBy: string): seq<SearchResult>
  {
    SortBy(rs, MinPriceKey, sortBy == "price_desc")
  }

  /** The results computed for a non-blank query. */
  function Results(products: seq<Product>, prices: seq<Price>, f: Filters, query: string): seq<SearchResult>
  {
    SortResults(ApplyFilters(AttachPrices(MatchingProducts(products, query), prices), f), f.sortBy)
  }

  /** `searchProducts(query)`: record the query, then the results (none for a blank query). */
  function SearchProducts(state: AppState, query: string): AppState
  {
    var recorded := Reduce(state, SetSearchQuery(query));
    if Trim(query) == "" then Reduce(recorded, SetSearchResults([]))
    else Reduce(recorded, SetSearchResults(Results(state.products, state.prices, state.filters, query)))
  }

  // ---------------------------------------------------------------- properties

  /** A blank query records the query and empties the results without looking at the products. */
  lemma BlankQueryClearsResults(state: AppState, query: string)
    requires Trim(query) == ""
    ensures SearchProducts(state, query) == state.(searchQuery := query, searchResults := [])
  {
  }

  /** Only the query and the results change; the catalogue, filters, loading flag and error are kept. */
  lemma SearchWritesQueryAndResults(state: AppState, query: string)
    ensures AgreeOutside(state, SearchProducts(state, query), {SearchQueryField, SearchResultsField})
  {
    var recorded := Reduce(state, SetSearchQuery(query));
    assert recorded == state.(searchQuery := query);
    var rs := if Trim(query) == "" then [] else Results(state.products, state.prices, state.filters, query);
    assert SearchProducts(state, query) == Reduce(recorded, SetSearchResults(rs));
  }

  /** Every computed result carries exactly its product's prices and their minimum (0 for none). */
  lemma MinPriceIsMinimum(r: SearchResult, prices: seq<Price>)
    requires r == WithPrices(r.product, prices)
    ensures r.prices == PricesOf(prices, r.product.id)
    ensures forall i :: 0 <= i < |r.prices| ==> r.prices[i].productoId == r.product.id
    ensures forall i :: 0 <= i < |prices| && prices[i].productoId == r.product.id ==> prices[i] in r.prices
    ensures r.prices == [] ==> r.minPrice == 0
    ensures r.prices != [] ==>
      && (forall i :: 0 <= i < |r.prices| ==> r.minPrice <= r.prices[i].precio)
      && (exists i :: 0 <= i < |r.prices| && r.minPrice == r.prices[i].precio)
  {
  }

  /** What every element surviving the filters satisfies. */
  lemma {:induction false} FiltersSound(rs: seq<SearchResult>, f: Filters, r: SearchResult)
    requires r in ApplyFilters(rs, f)
    ensures r in rs
    ensures PassesCategory(r, f) && PassesEstablishment(r, f) && InPriceRange(r, f)
  {
  }

  /** An element passing all three filters survives them. */
  lemma {:induction false} FiltersComplete(rs: seq<SearchResult>, f: Filters, r: SearchResult)
    requires r in rs
    requires PassesCategory(r, f) && PassesEstablishment(r, f) && InPriceRange(r, f)
    ensures r in ApplyFilters(rs, f)
  {
  }

  /** Soundness of the whole pipeline: what a non-blank search reports. */
  lemma {:induction false} ResultsSound(products: seq<Product>, prices: seq<Price>, f: Filters, query: string, r: SearchResult)
    requires r in Results(products, prices, f, query)
    ensures r.product in products && MatchesQuery(r.product, query)
    ensures r == WithPrices(r.product, prices)
    ensures PassesCategory(r, f) && PassesEstablishment(r, f) && InPriceRange(r, f)
  {
    var attached := AttachPrices(MatchingProducts(products, query), prices);
    var filtered := ApplyFilters(attached, f);
    assert r in multiset(SortResults(filtered, f.sortBy));
    assert r in filtered;
    FiltersSound(attached, f, r);
    var i :| 0 <= i < |attached| && attached[i] == r;
  }

  /** Completeness: every matching product that passes the filters is reported. */
  lemma {:induction false} ResultsComplete(products: seq<Product>, prices: seq<Price>, f: Filters, query: string, p: Product)
    requires p in products && MatchesQuery(p, query)
    requires var r := WithPrices(p, prices); PassesCategory(r, f) && PassesEstablishment(r, f) && InPriceRange(r, f)
    ensures WithPrices(p, prices) in Results(products, prices, f, query)
  {
    var matching := MatchingProducts(products, query);
    var k :| 0 <= k < |products| && products[k] == p;
    assert p in matching;
    var j :| 0 <= j < |matching| && matching[j] == p;
    var attached := AttachPrices(matching, prices);
    assert attached[j] == WithPrices(p, prices);
    FiltersComplete(attached, f, WithPrices(p, prices));
    var filtered := ApplyFilters(attached, f);
    assert WithPrices(p, prices) in multiset(filtered);
  }

  /** The results are sorted by lowest amount in the requested direction, and are a permutation of the filtered list. */
  lemma ResultsOrdered(products: seq<Product>, prices: seq<Price>, f: Filters, query: string)
    ensures var rs := Results(products, prices, f, query);
      var filtered := ApplyFilters(AttachPrices(MatchingProducts(products, query), prices), f);
      && multiset(rs) == multiset(filtered)
      && (f.sortBy == "price_desc" ==> forall i, j :: 0 <= i < j < |rs| ==> rs[i].minPrice >= rs[j].minPrice)
      && (f.sortBy != "price_desc" ==> forall i, j :: 0 <= i < j < |rs| ==> rs[i].minPrice <= rs[j].minPrice)
  {
  }

  /** Results with the same lowest amount keep the catalogue's order (the sort is stable). */
  lemma ResultsStable(products: seq<Product>, prices: seq<Price>, f: Filters, query: string, amount: int)
    ensures var filtered := ApplyFilters(AttachPrices(MatchingProducts(products, query), prices), f);
      WithKey(Results(products, prices, f, query), MinPriceKey, amount) == WithKey(filtered, MinPriceKey, amount)
  {
    var filtered := ApplyFilters(AttachPrices(MatchingProducts(products, query), prices), f);
    SortByStable(filtered, MinPriceKey, f.sortBy == "price_desc", amount);
  }

  /** Re-running the same search changes nothing: the search reads nothing it writes. */
  lemma SearchIdempotent(state: AppState, query: string)
    ensures SearchProducts(SearchProducts(state, query), query) == SearchProducts(state, query)
  {
  }
}
