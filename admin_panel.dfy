/**
 * The administration panel: the per-tab search over the four tables, the
 * delete confirmation flow, and the edit selection.
 */
module AdminPanel {
  import opened Wrappers
  import opened Seqs
  import opened Text
  import opened Entities
  import opened AdminUtils
  import opened Backend
  import opened CatalogStore
  import opened Toasts
  import Search

  // ------------------------------------------------------------ filteredData

  /** The rows one tab shows; a tab name the panel does not know shows none. */
  datatype TabRows =
    | ProductRows(products: seq<Product>)
    | EstablishmentRows(establishments: seq<Establishment>)
    | PriceRows(prices: seq<Price>)
    | OfferRows(offers: seq<Offer>)
    | NoRows

  /** A product is kept when its name, or its category when that is neither NULL nor empty, contains the term. */
  predicate ProductKept(p: Product, term: string)
  {
    Search.MatchesQuery(p, term)
  }

  /** An establishment is kept when its name, or its address when that is neither NULL nor empty, contains the term. */
  predicate EstablishmentKept(e: Establishment, term: string)
  {
    ContainsIgnoringCase(e.nombre, term) || (Filled(e.direccion) && ContainsIgnoringCase(e.direccion.value, term))
  }

  /** A price is kept when its product's or its establishment's looked-up name contains the term. */
  predicate PriceKept(pr: Price, term: string, products: seq<Product>, establishments: seq<Establishment>)
  {
    ContainsIgnoringCase(GetProductName(pr.productoId, products), term)
    || ContainsIgnoringCase(GetEstablishmentName(pr.establecimientoId, establishments), term)
  }

  /** An offer is kept when its description or its establishment's looked-up name contains the term. */
  predicate OfferKept(o: Offer, term: string, establishments: seq<Establishment>)
  {
    ContainsIgnoringCase(o.descripcion, term)
    || ContainsIgnoringCase(GetEstablishmentName(o.establecimientoId, establishments), term)
  }

  /**
   * `filteredData`: the active tab's table, narrowed by the search term when
   * there is one. Each of the four tabs shows rows of its own table and never
   * more rows than that table holds; any other tab shows none.
   */
  function FilteredData(tab: string, term: string, products: seq<Product>, establishments: seq<Establishment>,
                        prices: seq<Price>, offers: seq<Offer>): (r: TabRows)
    ensures r.NoRows? <==> tab !in {"products", "establishments", "prices", "offers"}
    ensures tab == "products" ==> r.ProductRows? && |r.products| <= |products|
    ensures tab == "establishments" ==> r.EstablishmentRows? && |r.establishments| <= |establishments|
    ensures tab == "prices" ==> r.PriceRows? && |r.prices| <= |prices|
    ensures tab == "offers" ==> r.OfferRows? && |r.offers| <= |offers|
  {
    if tab == "products" then
      ProductRows(if term == "" then products else Filter(products, (p: Product) => ProductKept(p, term)))
    else if tab == "establishments" then
      EstablishmentRows(if term == "" then establishments
                        else Filter(establishments, (e: Establishment) => EstablishmentKept(e, term)))
    else if tab == "prices" then
      PriceRows(if term == "" then prices
                else Filter(prices, (pr: Price) => PriceKept(pr, term, products, establishments)))
    else if tab == "offers" then
      OfferRows(if term == "" then offers else Filter(offers, (o: Offer) => OfferKept(o, term, establishments)))
    else NoRows
  }

  /** With no search term each tab shows its whole table; an unknown tab shows nothing. */
  lemma EmptyTermShowsWholeTable(tab: string, products: seq<Product>, establishments: seq<Establishment>,
                                 prices: seq<Price>, offers: seq<Offer>)
    ensures var r := FilteredData(tab, "", products, establishments, prices, offers);
      && (tab == "products" ==> r == ProductRows(products))
      && (tab == "establishments" ==> r == EstablishmentRows(establishments))
      && (tab == "prices" ==> r == PriceRows(prices))
      && (tab == "offers" ==> r == OfferRows(offers))
      && (tab !in {"products", "establishments", "prices", "offers"} ==> r == NoRows)
  {
  }

  /**
   * On the products tab with a term, the rows shown are an in-order
   * subsequence of the table, every row shown passes the test, and every
   * row of the table that passes it is shown.
   */
  lemma ProductsTabFilter(term: string, products: seq<Product>, establishments: seq<Establishment>,
                          prices: seq<Price>, offers: seq<Offer>)
    requires term != ""
    ensures var r := FilteredData("products", term, products, establishments, prices, offers);
      && r.ProductRows?
      && IsSubsequence(r.products, products)
      && (forall i :: 0 <= i < |r.products| ==> ProductKept(r.products[i], term))
      && (forall i :: 0 <= i < |products| ==> (products[i] in r.products <==> ProductKept(products[i], term)))
  {
  }

  /** The establishments tab, as the products tab, with name or address. */
  lemma EstablishmentsTabFilter(term: string, products: seq<Product>, establishments: seq<Establishment>,
                                prices: seq<Price>, offers: seq<Offer>)
    requires term != ""
    ensures var r := FilteredData("establishments", term, products, establishments, prices, offers);
      && r.EstablishmentRows?
      && IsSubsequence(r.establishments, establishments)
      && (forall i :: 0 <= i < |r.establishments| ==> EstablishmentKept(r.establishments[i], term))
      && (forall i :: 0 <= i < |establishments| ==>
            (establishments[i] in r.establishments <==> EstablishmentKept(establishments[i], term)))
  {
  }

  /** The prices tab, matched on the looked-up product and establishment names. */
  lemma PricesTabFilter(term: string, products: seq<Product>, establishments: seq<Establishment>,
                        prices: seq<Price>, offers: seq<Offer>)
    requires term != ""
    ensures var r := FilteredData("prices", term, products, establishments, prices, offers);
      && r.PriceRows?
      && IsSubsequence(r.prices, prices)
      && (forall i :: 0 <= i < |r.prices| ==> PriceKept(r.prices[i], term, products, establishments))
      && (forall i :: 0 <= i < |prices| ==>
            (prices[i] in r.prices <==> PriceKept(prices[i], term, products, establishments)))
  {
  }

  /** The offers tab, matched on the description and the looked-up establishment name. */
  lemma OffersTabFilter(term: string, products: seq<Product>, establishments: seq<Establishment>,
                        prices: seq<Price>, offers: seq<Offer>)
    requires term != ""
    ensures var r := FilteredData("offers", term, products, establishments, prices, offers);
      && r.OfferRows?
      && IsSubsequence(r.offers, offers)
      && (forall i :: 0 <= i < |r.offers| ==> OfferKept(r.offers[i], term, establishments))
      && (forall i :: 0 <= i < |offers| ==> (offers[i] in r.offers <==> OfferKept(offers[i], term, establishments)))
  {
  }

  /**
   * A price whose product and establishment are both missing is shown under
   * exactly the terms that match the fallback name 'Desconocido'.
   */
  lemma OrphanPriceMatchesFallback(pr: Price, term: string, products: seq<Product>, establishments: seq<Establishment>)
    requires forall i :: 0 <= i < |products| ==> products[i].id != pr.productoId
    requires forall i :: 0 <= i < |establishments| ==> establishments[i].id != pr.establecimientoId
    ensures PriceKept(pr, term, products, establishments) <==> ContainsIgnoringCase(Unknown, term)
  {
  }

  // ------------------------------------------------------------ deletion

  /** What the delete dialog was opened for: a table name as the row tables pass it, and a row id. */
  datatype DeleteTarget = DeleteTarget(kind: string, id: int)

  const DeleteErrorTitle := "Error al eliminar"
  const DeleteErrorDefault := "Hubo un problema al eliminar el item."
  const DeletedDescription := "El item ha sido eliminado correctamente."

  /** The requests `confirmDelete` makes for each kind: none for a kind it has no branch for. */
  function DeleteSteps(kind: string, id: int): (r: seq<Request>)
    ensures r == [] <==> kind !in {"products", "prices", "establishments"}
    ensures |r| <= 3
  {
    if kind == "products" then DeleteProductSteps(id)
    else if kind == "prices" then DeletePriceSteps(id)
    else if kind == "establishments" then DeleteEstablishmentSteps(id)
    else []
  }

  /** The success title for each kind; empty for a kind without a branch. */
  function DeletedTitle(kind: string): (r: string)
    ensures r == "" <==> kind !in {"products", "prices", "establishments"}
  {
    if kind == "products" then "¡Producto eliminado!"
    else if kind == "prices" then "¡Precio eliminado!"
    else if kind == "establishments" then "¡Establecimiento eliminado!"
    else ""
  }

  /**
   * The toast shown after a deletion: the error style exactly on failure, with
   * the error's message or the default; otherwise the success title. Its
   * description is never empty.
   */
  function DeleteToast(kind: string, error: Option<string>): (t: Toast)
    ensures t.destructive <==> error.Some?
    ensures t.description != ""
    ensures error.Some? ==> t.title == DeleteErrorTitle && (error.value != "" ==> t.description == error.value)
    ensures error.None? ==> t.title == DeletedTitle(kind)
  {
    if error.Some? then Toast(true, DeleteErrorTitle, if error.value != "" then error.value else DeleteErrorDefault)
    else Toast(false, DeletedTitle(kind), DeletedDescription)
  }

  /**
   * A kind other than the three tables (the offers table passes 'offer')
   * sends no request, changes nothing in the backend, and still ends with the
   * success toast, whose title is empty.
   */
  lemma UnknownKindDeletesNothing(kind: string, id: int, db: Db, fault: Request -> Option<string>)
    requires kind !in {"products", "prices", "establishments"}
    ensures var run := Cascade(db, DeleteSteps(kind, id), fault);
      run == Run(db, [], None) && DeleteToast(kind, run.error) == Toast(false, "", DeletedDescription)
  {
  }

  const DescribeProduct :=
    "Esta acción no se puede deshacer. Esto eliminará permanentemente el producto y todos sus precios asociados."
  const DescribePrice :=
    "Esta acción no se puede deshacer. Esto eliminará permanentemente el precio seleccionado."
  const DescribeEstablishment :=
    "Esta acción no se puede deshacer. Esto eliminará permanentemente el establecimiento y todos sus precios y ofertas asociadas."
  const DescribeOther := "Esta acción no se puede deshacer. ¿Estás seguro?"

  /**
   * `getDeleteDialogDescription`: empty when no row is selected. Otherwise the
   * text names what confirming will delete: the product and its prices exactly
   * when the product's plan runs, the price exactly when the price's plan
   * runs, the establishment with its prices and offers exactly when that plan
   * runs, and the generic question exactly when confirming sends nothing.
   */
  function DeleteDialogDescription(item: Option<DeleteTarget>): (r: string)
    ensures item.None? <==> |r| == 0
    ensures item.Some? ==>
      var steps := DeleteSteps(item.value.kind, item.value.id);
      && (r == DescribeProduct <==> steps == DeleteProductSteps(item.value.id))
      && (r == DescribePrice <==> steps == DeletePriceSteps(item.value.id))
      && (r == DescribeEstablishment <==> steps == DeleteEstablishmentSteps(item.value.id))
      && (r == DescribeOther <==> steps == [])
  {
    if item.None? then ""
    else if item.value.kind == "products" then DescribeProduct
    else if item.value.kind == "prices" then DescribePrice
    else if item.value.kind == "establishments" then DescribeEstablishment
    else DescribeOther
  }

  /** The panel's own state; the tables it shows come from the store. */
  class Panel {
    var activeTab: string
    var searchTerm: string
    var isProductModalOpen: bool
    var isEstablishmentModalOpen: bool
    var isPriceModalOpen: bool
    var productToEdit: Option<Product>
    var establishmentToEdit: Option<Establishment>
    var priceToEdit: Option<Price>
    var isDeleteDialogOpen: bool
    var itemToDelete: Option<DeleteTarget>
    var toasts: seq<Toast>
    const store: Store

    constructor(store0: Store)
      ensures store == store0
      ensures activeTab == "products" && searchTerm == ""
      ensures !isProductModalOpen && !isEstablishmentModalOpen && !isPriceModalOpen && !isDeleteDialogOpen
      ensures productToEdit.None? && establishmentToEdit.None? && priceToEdit.None? && itemToDelete.None?
      ensures toasts == []
    {
      store := store0;
      activeTab := "products";
      searchTerm := "";
      isProductModalOpen, isEstablishmentModalOpen, isPriceModalOpen := false, false, false;
      productToEdit, establishmentToEdit, priceToEdit := None, None, None;
      isDeleteDialogOpen := false;
      itemToDelete := None;
      toasts := [];
    }

    /** The rows currently shown. */
    function Shown(): TabRows
      reads this, store
    {
      FilteredData(activeTab, searchTerm, store.state.products, store.state.establishments,
                   store.state.prices, store.state.offers)
    }

    /** `handleDelete`: remember the row and open the confirmation dialog. */
    method HandleDelete(kind: string, id: int)
      modifies this`itemToDelete, this`isDeleteDialogOpen
      ensures itemToDelete == Some(DeleteTarget(kind, id)) && isDeleteDialogOpen
    {
      itemToDelete := Some(DeleteTarget(kind, id));
      isDeleteDialogOpen := true;
    }

    /**
     * `confirmDelete`: with no row selected nothing happens. Otherwise exactly
     * the deletion for the row's kind runs (none for an unknown kind), one
     * toast reports its outcome, and the dialog ends closed with no row
     * selected.
     */
    method ConfirmDelete()
      modifies this`isDeleteDialogOpen, this`itemToDelete, this`toasts, store`db, store`state
      ensures old(itemToDelete).None? ==>
        && isDeleteDialogOpen == old(isDeleteDialogOpen) && itemToDelete.None? && toasts == old(toasts)
        && store.db == old(store.db) && store.state == old(store.state)
      ensures old(itemToDelete).Some? ==>
        var t := old(itemToDelete).value;
        var run := Cascade(old(store.db), DeleteSteps(t.kind, t.id), store.fault);
        && !isDeleteDialogOpen && itemToDelete.None?
        && store.db == run.db
        && toasts == old(toasts) + [DeleteToast(t.kind, run.error)]
        && store.state == (if run.error.None? && DeleteSteps(t.kind, t.id) != []
                           then Loaded(old(store.state), store.db, store.fault)
                           else old(store.state))
    {
      if itemToDelete.None? {
        return;
      }
      var kind, id := itemToDelete.value.kind, itemToDelete.value.id;
      var error: Option<string> := None;
      if kind == "products" {
        error := store.DeleteProduct(id);
      } else if kind == "prices" {
        error := store.DeletePrice(id);
      } else if kind == "establishments" {
        error := store.DeleteEstablishment(id);
      }
      toasts := toasts + [DeleteToast(kind, error)];
      isDeleteDialogOpen := false;
      itemToDelete := None;
    }

    /**
     * `handleEdit`: for the three editable tables, select the row with that
     * id and open its editor, or do nothing when no row has it; any other
     * kind only shows the not-implemented toast.
     */
    method HandleEdit(kind: string, id: int)
      modifies this`productToEdit, this`isProductModalOpen, this`establishmentToEdit,
               this`isEstablishmentModalOpen, this`priceToEdit, this`isPriceModalOpen, this`toasts
      ensures kind == "products" ==>
        var found := FindProduct(store.state.products, id);
        && (found.Some? ==> productToEdit == found && isProductModalOpen)
        && (found.None? ==> productToEdit == old(productToEdit) && isProductModalOpen == old(isProductModalOpen))
        && establishmentToEdit == old(establishmentToEdit) && isEstablishmentModalOpen == old(isEstablishmentModalOpen)
        && priceToEdit == old(priceToEdit) && isPriceModalOpen == old(isPriceModalOpen) && toasts == old(toasts)
      ensures kind == "establishments" ==>
        var found := FindEstablishment(store.state.establishments, id);
        && (found.Some? ==> establishmentToEdit == found && isEstablishmentModalOpen)
        && (found.None? ==> establishmentToEdit == old(establishmentToEdit)
                            && isEstablishmentModalOpen == old(isEstablishmentModalOpen))
        && productToEdit == old(productToEdit) && isProductModalOpen == old(isProductModalOpen)
        && priceToEdit == old(priceToEdit) && isPriceModalOpen == old(isPriceModalOpen) && toasts == old(toasts)
      ensures kind == "prices" ==>
        var found := Find(store.state.prices, (p: Price) => p.id == id);
        && (found.Some? ==> priceToEdit == found && isPriceModalOpen)
        && (found.None? ==> priceToEdit == old(priceToEdit) && isPriceModalOpen == old(isPriceModalOpen))
        && productToEdit == old(productToEdit) && isProductModalOpen == old(isProductModalOpen)
        && establishmentToEdit == old(establishmentToEdit) && isEstablishmentModalOpen == old(isEstablishmentModalOpen)
        && toasts == old(toasts)
      ensures kind !in {"products", "establishments", "prices"} ==>
        && productToEdit == old(productToEdit) && isProductModalOpen == old(isProductModalOpen)
        && establishmentToEdit == old(establishmentToEdit) && isEstablishmentModalOpen == old(isEstablishmentModalOpen)
        && priceToEdit == old(priceToEdit) && isPriceModalOpen == old(isPriceModalOpen)
        && toasts == old(toasts) + [Toast(false, NotImplementedTitle, NotImplementedDescription)]
    {
      if kind == "products" {
        var product := FindProduct(store.state.products, id);
        if product.Some? {
          productToEdit := product;
          isProductModalOpen := true;
        }
      } else if kind == "establishments" {
        var establishment := FindEstablishment(store.state.establishments, id);
        if establishment.Some? {
          establishmentToEdit := establishment;
          isEstablishmentModalOpen := true;
        }
      } else if kind == "prices" {
        var price := Find(store.state.prices, (p: Price) => p.id == id);
        if price.Some? {
          priceToEdit := price;
          isPriceModalOpen := true;
        }
      } else {
        toasts := toasts + [Toast(false, NotImplementedTitle, NotImplementedDescription)];
      }
    }
  }
}
