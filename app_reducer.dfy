/**
 * The catalogue store's state record and its reducer: a pure transition
 * function from a state and an action to the next state.
 */
module AppReducer {
  import opened Wrappers
  import opened Entities

  /**
   * The search filters. `establishment` is the value of a select whose options
   * are '' and the decimal ids of the establishments, so it is either unset or
   * an id (`parseInt` of such an option is the id itself).
   */
  datatype Filters = Filters(
    category: string,
    priceRange: (int, int),
    establishment: Option<int>,
    sortBy: string)

  datatype AppState = AppState(
    products: seq<Product>,
    establishments: seq<Establishment>,
    prices: seq<Price>,
    offers: seq<Offer>,
    searchQuery: string,
    searchResults: seq<SearchResult>,
    filters: Filters,
    loading: bool,
    error: Option<string>)

  const DefaultFilters := Filters("", (0, 10000), None, "price_asc")

  const InitialState := AppState([], [], [], [], "", [], DefaultFilters, true, None)

  /**
   * A partial filter record, as spread into `filters` by SET_FILTERS: only the
   * present keys. A present `establishment` key may carry '' (unset) or an id.
   */
  datatype FilterPatch = FilterPatch(
    category: Option<string>,
    priceRange: Option<(int, int)>,
    establishment: Option<Option<int>>,
    sortBy: Option<string>)

  datatype Action =
    | SetLoading(loading: bool)
    | SetError(message: string)
    | LoadData(products: seq<Product>, establishments: seq<Establishment>, prices: seq<Price>, offers: seq<Offer>)
    | SetSearchQuery(query: string)
    | SetSearchResults(results: seq<SearchResult>)
    | SetFilters(patch: FilterPatch)
    | Unrecognised(name: string)

  /** `{ ...filters, ...patch }`. */
  function Merge(f: Filters, patch: FilterPatch): (r: Filters)
    ensures patch.category.Some? ==> r.category == patch.category.value
    ensures patch.category.None? ==> r.category == f.category
    ensures patch.priceRange.Some? ==> r.priceRange == patch.priceRange.value
    ensures patch.priceRange.None? ==> r.priceRange == f.priceRange
    ensures patch.establishment.Some? ==> r.establishment == patch.establishment.value
    ensures patch.establishment.None? ==> r.establishment == f.establishment
    ensures patch.sortBy.Some? ==> r.sortBy == patch.sortBy.value
    ensures patch.sortBy.None? ==> r.sortBy == f.sortBy
  {
    Filters(
      patch.category.GetOr(f.category),
      patch.priceRange.GetOr(f.priceRange),
      patch.establishment.GetOr(f.establishment),
      patch.sortBy.GetOr(f.sortBy))
  }

  /** `appReducer`: every action touches only its own fixed set of fields. */
  function Reduce(state: AppState, action: Action): (r: AppState)
    ensures AgreeOutside(state, r, Writes(action))
  {
    match action
    case SetLoading(b) => state.(loading := b)
    case SetError(m) => state.(error := Some(m), loading := false)
    case LoadData(ps, es, prs, os) =>
      state.(products := ps, establishments := es, prices := prs, offers := os, loading := false)
    case SetSearchQuery(q) => state.(searchQuery := q)
    case SetSearchResults(rs) => state.(searchResults := rs)
    case SetFilters(patch) => state.(filters := Merge(state.filters, patch))
    case Unrecognised(_) => state
  }

  /** The fields of the state record. */
  datatype Field =
    ProductsField | EstablishmentsField | PricesField | OffersField
    | SearchQueryField | SearchResultsField | FiltersField | LoadingField | ErrorField

  /** The fields each action may write. */
  function Writes(action: Action): set<Field>
  {
    match action
    case SetLoading(_) => {LoadingField}
    case SetError(_) => {ErrorField, LoadingField}
    case LoadData(_, _, _, _) => {ProductsField, EstablishmentsField, PricesField, OffersField, LoadingField}
    case SetSearchQuery(_) => {SearchQueryField}
    case SetSearchResults(_) => {SearchResultsField}
    case SetFilters(_) => {FiltersField}
    case Unrecognised(_) => {}
  }

  /** `a` and `b` agree on every field outside `fields`. */
  predicate AgreeOutside(a: AppState, b: AppState, fields: set<Field>)
  {
    && (ProductsField !in fields ==> a.products == b.products)
    && (EstablishmentsField !in fields ==> a.establishments == b.establishments)
    && (PricesField !in fields ==> a.prices == b.prices)
    && (OffersField !in fields ==> a.offers == b.offers)
    && (SearchQueryField !in fields ==> a.searchQuery == b.searchQuery)
    && (SearchResultsField !in fields ==> a.searchResults == b.searchResults)
    && (FiltersField !in fields ==> a.filters == b.filters)
    && (LoadingField !in fields ==> a.loading == b.loading)
    && (ErrorField !in fields ==> a.error == b.error)
  }

  /** An action type the reducer does not know returns the state unchanged. */
  lemma UnrecognisedIsIdentity(state: AppState, name: string)
    ensures Reduce(state, Unrecognised(name)) == state
  {
  }

  /** SET_FILTERS merges only the supplied keys; the other filter keys keep their values. */
  lemma SetFiltersMergesOnlySuppliedKeys(state: AppState, patch: FilterPatch)
    ensures var r := Reduce(state, SetFilters(patch));
      && AgreeOutside(state, r, {FiltersField})
      && (patch.category.None? ==> r.filters.category == state.filters.category)
      && (patch.priceRange.None? ==> r.filters.priceRange == state.filters.priceRange)
      && (patch.establishment.None? ==> r.filters.establishment == state.filters.establishment)
      && (patch.sortBy.None? ==> r.filters.sortBy == state.filters.sortBy)
      && (patch.category.Some? ==> r.filters.category == patch.category.value)
      && (patch.priceRange.Some? ==> r.filters.priceRange == patch.priceRange.value)
      && (patch.establishment.Some? ==> r.filters.establishment == patch.establishment.value)
      && (patch.sortBy.Some? ==> r.filters.sortBy == patch.sortBy.value)
  {
  }

  /** LOAD_DATA replaces exactly the four collections, ends loading, and never clears `error`. */
  lemma LoadDataKeepsError(state: AppState, ps: seq<Product>, es: seq<Establishment>, prs: seq<Price>, os: seq<Offer>)
    ensures var r := Reduce(state, LoadData(ps, es, prs, os));
      && r.products == ps && r.establishments == es && r.prices == prs && r.offers == os
      && !r.loading
      && r.error == state.error
      && AgreeOutside(state, r, {ProductsField, EstablishmentsField, PricesField, OffersField, LoadingField})
  {
  }

  /** SET_ERROR records the message, ends loading, and keeps the last loaded snapshot. */
  lemma SetErrorKeepsSnapshot(state: AppState, message: string)
    ensures var r := Reduce(state, SetError(message));
      && r.error == Some(message) && !r.loading
      && r.products == state.products && r.establishments == state.establishments
      && r.prices == state.prices && r.offers == state.offers
  {
  }

  /** Once an error has been recorded, no later successful load removes it. */
  lemma ErrorIsSticky(state: AppState, message: string, ps: seq<Product>, es: seq<Establishment>, prs: seq<Price>, os: seq<Offer>)
    ensures Reduce(Reduce(Reduce(state, SetError(message)), SetLoading(true)), LoadData(ps, es, prs, os)).error == Some(message)
  {
  }
}
