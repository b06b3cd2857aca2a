/**
 * The home page: the search box, the quick-search tags, and the featured
 * offers, establishments and products.
 */
module HomePage {
  import opened Seqs
  import opened Entities
  import opened Text
  import opened Toasts
  import opened CatalogStore
  import Search

  /** The route of the results page. */
  const SearchRoute := "/buscar"

  const EmptySearchTitle := "Búsqueda vacía"
  const EmptySearchDescription := "Por favor ingresa un producto para buscar"
  const EmptySearchToast := Toast(true, EmptySearchTitle, EmptySearchDescription)

  /** The quick-search tags under the search box. */
  const QuickTags := ["Aceite", "Leche", "Arroz", "Pan", "Azúcar"]

  /** `featuredOffers`: the first three active offers, in their order. */
  function FeaturedOffers(offers: seq<Offer>): (r: seq<Offer>)
    ensures |r| == Min(3, |Filter(offers, (o: Offer) => o.activa)|)
    ensures forall i :: 0 <= i < |r| ==> r[i].activa
    ensures IsSubsequence(r, offers)
  {
    var active := Filter(offers, (o: Offer) => o.activa);
    SubsequencePrefix(active, offers, |Take(active, 3)|);
    assert Take(active, 3) == active[..|Take(active, 3)|];
    Take(active, 3)
  }

  /** An active offer preceded by fewer than three active ones is among the featured offers. */
  lemma FeaturedOffersAreFirstActive(offers: seq<Offer>, i: nat)
    requires i < |offers| && offers[i].activa
    ensures |Filter(offers[..i], (o: Offer) => o.activa)| < 3 ==> offers[i] in FeaturedOffers(offers)
  {
    var p := (o: Offer) => o.activa;
    var pre, tail := offers[..i], offers[i..];
    assert offers == pre + tail;
    FilterAppend(pre, tail, p);
    assert tail[0] == offers[i];
    var active := Filter(offers, p);
    var before := Filter(pre, p);
    assert Filter(tail, p)[0] == offers[i];
    if |before| < 3 {
      assert active[|before|] == offers[i];
    }
  }

  /** `featuredEstablishments`: the first min(4, n) establishments. */
  function FeaturedEstablishments(es: seq<Establishment>): (r: seq<Establishment>)
    ensures |r| == Min(4, |es|) && r == es[..|r|]
  {
    Take(es, 4)
  }

  /** `popularProducts`: the first min(6, n) products. */
  function PopularProducts(ps: seq<Product>): (r: seq<Product>)
    ensures |r| == Min(6, |ps|) && r == ps[..|r|]
  {
    Take(ps, 6)
  }

  class Home {
    var searchQuery: string
    /** The current route. */
    var location: string
    var toasts: seq<Toast>
    const store: Store

    constructor(store0: Store, location0: string)
      ensures store == store0 && searchQuery == "" && location == location0 && toasts == []
    {
      store := store0;
      searchQuery := "";
      location := location0;
      toasts := [];
    }

    /** Typing in the search box. */
    method SetSearchQuery(q: string)
      modifies this`searchQuery
      ensures searchQuery == q
    {
      searchQuery := q;
    }

    /**
     * `handleSearch`: a query that is not blank once trimmed is searched as
     * typed (untrimmed) and the results page opens; a blank one raises the
     * "empty search" toast and searches nothing.
     */
    method HandleSearch()
      modifies this`location, this`toasts, store`state
      ensures Trim(searchQuery) != "" ==>
        && store.state == Search.SearchProducts(old(store.state), searchQuery)
        && location == SearchRoute && toasts == old(toasts)
      ensures Trim(searchQuery) == "" ==>
        && store.state == old(store.state)
        && location == old(location) && toasts == old(toasts) + [EmptySearchToast]
    {
      var q := searchQuery;
      if Trim(q) != "" {
        Go(q);
      } else {
        WarnEmpty();
      }
    }

    /** Searches `q` and opens the results page. */
    method Go(q: string)
      modifies this`location, store`state
      ensures store.state == Search.SearchProducts(old(store.state), q) && location == SearchRoute
    {
      store.SearchProducts(q);
      location := SearchRoute;
    }

    /** The destructive "empty search" toast. */
    method WarnEmpty()
      modifies this`toasts
      ensures toasts == old(toasts) + [EmptySearchToast]
    {
      toasts := toasts + [EmptySearchToast];
    }

    /** A quick tag: the box shows the tag, the tag is searched, and the results page opens. */
    method QuickTag(tag: string)
      modifies this`searchQuery, this`location, store`state
      ensures searchQuery == tag && location == SearchRoute
      ensures store.state == Search.SearchProducts(old(store.state), tag)
    {
      searchQuery := tag;
      store.SearchProducts(tag);
      location := SearchRoute;
    }
  }
}
