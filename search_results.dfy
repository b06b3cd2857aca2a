/**
 * The search results page: the filter panel that edits the store's filters,
 * the effect that re-runs the search, and each result card's price list.
 */
module SearchResults {
  import opened Wrappers
  import opened Seqs
  import opened Entities
  import opened AdminUtils
  import opened AppReducer
  import opened CatalogStore
  import Text
  import Search

  /** What `handleFilterChange(filterType, value)` is called with: one filter key and its new value. */
  datatype FilterChange =
    | CategoryChange(category: string)
    | PriceRangeChange(range: (int, int))
    | EstablishmentChange(establishment: Option<int>)
    | SortByChange(sortBy: string)

  /** The number of keys a patch carries. */
  function KeyCount(patch: FilterPatch): nat
  {
    (if patch.category.Some? then 1 else 0) + (if patch.priceRange.Some? then 1 else 0)
    + (if patch.establishment.Some? then 1 else 0) + (if patch.sortBy.Some? then 1 else 0)
  }

  /** The SET_FILTERS payload `{ [filterType]: value }`: exactly one key, carrying the new value. */
  function Patch(c: FilterChange): (r: FilterPatch)
    ensures KeyCount(r) == 1
    ensures c.CategoryChange? ==> r.category == Some(c.category)
    ensures c.PriceRangeChange? ==> r.priceRange == Some(c.range)
    ensures c.EstablishmentChange? ==> r.establishment == Some(c.establishment)
    ensures c.SortByChange? ==> r.sortBy == Some(c.sortBy)
  {
    match c
    case CategoryChange(v) => FilterPatch(Some(v), None, None, None)
    case PriceRangeChange(v) => FilterPatch(None, Some(v), None, None)
    case EstablishmentChange(v) => FilterPatch(None, None, Some(v), None)
    case SortByChange(v) => FilterPatch(None, None, None, Some(v))
  }

  /** The price slider's change: the range always starts at 0 and ends at the slider's value. */
  function SliderChange(v: int): (r: FilterChange)
    ensures r.PriceRangeChange? && r.range.0 == 0 && r.range.1 == v
  {
    PriceRangeChange((0, v))
  }

  /**
   * Moving the slider to `v` sets the price range to 0..v and keeps the other
   * three filter keys, so the price filter then admits a result exactly when
   * its lowest amount lies in 0..v (a product with no prices, shown at 0,
   * always passes when `v` is not negative).
   */
  lemma SliderSetsRange(f: Filters, v: int, res: SearchResult)
    ensures var r := Merge(f, Patch(SliderChange(v)));
      && r.priceRange == (0, v)
      && r.category == f.category && r.establishment == f.establishment && r.sortBy == f.sortBy
      && (Search.InPriceRange(res, r) <==> 0 <= res.minPrice <= v)
  {
  }

  /**
   * A filter change rewrites the one filter key it names and nothing else in
   * the state: the other three filter keys and every other field keep their values.
   */
  lemma FilterChangeRewritesOneKey(state: AppState, c: FilterChange)
    ensures var r := Reduce(state, SetFilters(Patch(c)));
      && AgreeOutside(state, r, {FiltersField})
      && (if c.CategoryChange? then r.filters.category == c.category else r.filters.category == state.filters.category)
      && (if c.PriceRangeChange? then r.filters.priceRange == c.range else r.filters.priceRange == state.filters.priceRange)
      && (if c.EstablishmentChange? then r.filters.establishment == c.establishment
          else r.filters.establishment == state.filters.establishment)
      && (if c.SortByChange? then r.filters.sortBy == c.sortBy else r.filters.sortBy == state.filters.sortBy)
  {
    SetFiltersMergesOnlySuppliedKeys(state, Patch(c));
  }

  /** How many prices a card lists. */
  const ShownLimit := 3

  /** The prices a card lists: the first three attached prices, in their stored order. */
  function ShownPrices(r: SearchResult): (shown: seq<Price>)
    ensures |shown| <= ShownLimit && |shown| <= |r.prices|
    ensures shown == r.prices[..|shown|]
    ensures |shown| == ShownLimit || shown == r.prices
  {
    Take(r.prices, ShownLimit)
  }

  /** The "Ver n precios más" link: present with `n = length - 3` when more than three prices are attached. */
  function MoreCount(r: SearchResult): (n: Option<int>)
    ensures n.Some? <==> |r.prices| > ShownLimit
  {
    if |r.prices| > ShownLimit then Some(|r.prices| - ShownLimit) else None
  }

  /** The listed prices and the link's count together account for every attached price. */
  lemma ShownPlusMoreIsAll(r: SearchResult)
    ensures |ShownPrices(r)| + MoreCount(r).GetOr(0) == |r.prices|
    ensures MoreCount(r).Some? ==> MoreCount(r).value > 0
  {
  }

  /** One listed price: the establishment's name and whether it carries the "Mejor precio" badge. */
  datatype PriceRow = PriceRow(price: Price, establishmentName: string, best: bool)

  /** Rows for a list of prices: the establishment looked up by id, the badge on row 0 only. */
  function RowsOf(ps: seq<Price>, es: seq<Establishment>): (rows: seq<PriceRow>)
    ensures |rows| == |ps|
    ensures forall i :: 0 <= i < |rows| ==>
      && rows[i].price == ps[i]
      && (rows[i].best <==> i == 0)
      && rows[i].establishmentName == GetEstablishmentName(ps[i].establecimientoId, es)
  {
    seq(|ps|, i requires 0 <= i < |ps| =>
      PriceRow(ps[i], GetEstablishmentName(ps[i].establecimientoId, es), i == 0))
  }

  /**
   * The card as written: the first three stored prices, in stored order, with
   * the badge on the first of them whatever its amount.
   */
  function CardRowsAsWritten(r: SearchResult, es: seq<Establishment>): (rows: seq<PriceRow>)
    ensures |rows| == Min(ShownLimit, |r.prices|)
    ensures forall i :: 0 <= i < |rows| ==> rows[i].price == r.prices[i] && (rows[i].best <==> i == 0)
  {
    RowsOf(ShownPrices(r), es)
  }

  /**
   * The attached prices are in table order, not by amount, so the badge can
   * sit on a price dearer than the product's lowest one: a 900 row stored
   * before a 750 row.
   */
  lemma BadgeNotOnCheapestAsWritten()
    ensures var p := Product(1, "Aceite", None, Some("Aceites y Vinagres"), None, None, None);
      var prices := [Price(1, 1, 1, 900, "", None), Price(2, 1, 2, 750, "", None)];
      var r := Search.WithPrices(p, prices);
      var rows := CardRowsAsWritten(r, []);
      && |rows| == 2 && rows[0].best && rows[0].price.precio == 900
      && r.minPrice == 750 && rows[1].price.precio < rows[0].price.precio
  {
    var p := Product(1, "Aceite", None, Some("Aceites y Vinagres"), None, None, None);
    var prices := [Price(1, 1, 1, 900, "", None), Price(2, 1, 2, 750, "", None)];
    assert prices[1..] == [prices[1]];
    assert Search.PricesOf(prices, 1) == prices;
  }

  function PrecioKey(p: Price): int { p.precio }

  /** The card as evidently intended: the first three prices by ascending amount. */
  function CardRows(r: SearchResult, es: seq<Establishment>): seq<PriceRow>
  {
    RowsOf(Take(SortBy(r.prices, PrecioKey, false), ShownLimit), es)
  }

  /**
   * With the prices ordered by amount, the badge row is the product's lowest
   * price: no attached price is cheaper, and it equals the card's `minPrice`.
   * The listed rows are still at most three.
   */
  lemma BadgeOnCheapest(r: SearchResult, es: seq<Establishment>, prices: seq<Price>)
    requires r == Search.WithPrices(r.product, prices)
    ensures var rows := CardRows(r, es);
      && |rows| <= ShownLimit && (|rows| == 0 <==> r.prices == [])
      && (rows != [] ==>
            && rows[0].best
            && rows[0].price in r.prices
            && rows[0].price.precio == r.minPrice
            && forall i :: 0 <= i < |r.prices| ==> rows[0].price.precio <= r.prices[i].precio)
  {
    var sorted := SortBy(r.prices, PrecioKey, false);
    var rows := CardRows(r, es);
    Search.MinPriceIsMinimum(r, prices);
    if rows != [] {
      assert rows[0].price == sorted[0];
      SortedHeadIsLeast(r.prices);
      var k :| 0 <= k < |r.prices| && r.minPrice == r.prices[k].precio;
    }
  }

  /** The head of the prices sorted by ascending amount is one of them and no dearer than any. */
  lemma SortedHeadIsLeast(ps: seq<Price>)
    requires ps != []
    ensures var sorted := SortBy(ps, PrecioKey, false);
      && sorted != [] && sorted[0] in ps
      && forall i :: 0 <= i < |ps| ==> sorted[0].precio <= ps[i].precio
  {
    var sorted := SortBy(ps, PrecioKey, false);
    assert sorted[0] in multiset(ps);
    forall i | 0 <= i < |ps| ensures sorted[0].precio <= ps[i].precio {
      assert ps[i] in multiset(sorted);
      var j :| 0 <= j < |sorted| && sorted[j] == ps[i];
      if j > 0 {
        assert InOrder(PrecioKey(sorted[0]), PrecioKey(sorted[j]), false);
      }
    }
  }

  /** A search keeps the filters and records the query; a non-blank one lists the results under those filters. */
  lemma SearchOutcome(state: AppState, query: string)
    ensures var r := Search.SearchProducts(state, query);
      && r.filters == state.filters && r.searchQuery == query
      && (Text.Trim(query) != "" ==>
            r.searchResults == Search.Results(state.products, state.prices, state.filters, query))
  {
    var recorded := Reduce(state, SetSearchQuery(query));
    assert recorded == state.(searchQuery := query);
    var rs := if Text.Trim(query) == "" then [] else Search.Results(state.products, state.prices, state.filters, query);
    assert Search.SearchProducts(state, query) == Reduce(recorded, SetSearchResults(rs));
  }

  /** The page's own state: whether the filter panel is unfolded on small screens. */
  class ResultsPage {
    var showFilters: bool
    const store: Store

    constructor(store0: Store)
      ensures store == store0 && !showFilters
    {
      store := store0;
      showFilters := false;
    }

    /** The toggle button. */
    method ToggleFilters()
      modifies this`showFilters
      ensures showFilters == !old(showFilters)
    {
      showFilters := !showFilters;
    }

    /** `handleFilterChange`: dispatches SET_FILTERS with the one-key payload. */
    method HandleFilterChange(c: FilterChange)
      modifies store`state
      ensures store.state == Reduce(old(store.state), SetFilters(Patch(c)))
    {
      store.Dispatch(SetFilters(Patch(c)));
    }

    /** The effect on `filters` and `searchQuery`: searches again only when a query is set. */
    method RerunSearch()
      modifies store`state
      ensures old(store.state.searchQuery) == "" ==> store.state == old(store.state)
      ensures old(store.state.searchQuery) != "" ==>
        store.state == Search.SearchProducts(old(store.state), old(store.state.searchQuery))
    {
      if store.state.searchQuery != "" {
        store.SearchProducts(store.state.searchQuery);
      }
    }

    /**
     * A filter change followed by the effect it triggers: the filter key is
     * rewritten and, when a non-blank query is set, the results are the search
     * for that query under the new filters; a query that is set but blank once
     * trimmed empties the results. Nothing but the filters and the results
     * changes.
     */
    method ChangeFilter(c: FilterChange)
      modifies store`state
      ensures store.state.filters == Merge(old(store.state.filters), Patch(c))
      ensures store.state.searchQuery == old(store.state.searchQuery)
      ensures Text.Trim(old(store.state.searchQuery)) != "" ==>
        store.state.searchResults
          == Search.Results(old(store.state.products), old(store.state.prices), store.state.filters,
                            old(store.state.searchQuery))
      ensures old(store.state.searchQuery) == "" ==> store.state.searchResults == old(store.state.searchResults)
      ensures old(store.state.searchQuery) != "" && Text.Trim(old(store.state.searchQuery)) == "" ==>
        store.state.searchResults == []
      ensures AgreeOutside(old(store.state), store.state, {FiltersField, SearchResultsField})
    {
      HandleFilterChange(c);
      FilterChangeRewritesOneKey(old(store.state), c);
      ghost var mid := store.state;
      assert mid.products == old(store.state.products) && mid.prices == old(store.state.prices);
      assert mid.searchQuery == old(store.state.searchQuery) && mid.searchResults == old(store.state.searchResults);
      RerunSearch();
      if mid.searchQuery != "" {
        var q := mid.searchQuery;
        SearchOutcome(mid, q);
        Search.SearchWritesQueryAndResults(mid, q);
        if Text.Trim(q) == "" {
          Search.BlankQueryClearsResults(mid, q);
        }
      }
    }
  }
}
