/**
 * The catalogue store (`AppProvider`): the reducer state, the backend it talks
 * to, and the operations it offers. Every operation sends its requests one at a
 * time, returns the first error it meets, and reloads the catalogue only when
 * its last request succeeded. Each operation is proved to end as the
 * corresponding plan of `Backend` does under `Cascade`.
 */
module CatalogStore {
  import opened Wrappers
  import opened Entities
  import opened Text
  import opened AppReducer
  import opened Backend
  import Search

  /** The message recorded when a load error carries no message of its own. */
  const LoadErrorDefault := "Error al cargar los datos desde Supabase"

  /** The four reads of `loadData`, in order. */
  const LoadSteps := [Select(ProductsTable), Select(EstablishmentsTable), Select(PricesTable), Select(OffersTable)]

  /** `error.message || default`. */
  function LoadMessage(m: string): (r: string)
    ensures r != ""
    ensures m != "" ==> r == m
    ensures m == "" ==> r == LoadErrorDefault
  {
    if m == "" then LoadErrorDefault else m
  }

  /**
   * `loadData` as a transition of the state: mark loading, read the four
   * tables, then either record the first read error or install the tables.
   * A load always ends with loading off and never touches the query, the
   * results or the filters.
   */
  function Loaded(s: AppState, db: Db, fault: Request -> Option<string>): (r: AppState)
    ensures !r.loading
    ensures AgreeOutside(s, r, {ProductsField, EstablishmentsField, PricesField, OffersField, LoadingField, ErrorField})
  {
    var run := Cascade(db, LoadSteps, fault);
    var loading := Reduce(s, SetLoading(true));
    if run.error.Some? then Reduce(loading, SetError(LoadMessage(run.error.value)))
    else Reduce(loading, LoadData(db.products, db.establishments, db.prices, db.offers))
  }

  /**
   * After a load the loading flag is off. When every read succeeds the four
   * tables are installed and a previous error is kept (a successful load does
   * not clear it); otherwise the error records the first failing read's
   * message, or the default one, and the catalogue is kept. The query, the
   * results and the filters are never touched.
   */
  lemma LoadedOutcome(s: AppState, db: Db, fault: Request -> Option<string>)
    ensures var r := Loaded(s, db, fault);
      && !r.loading
      && r.searchQuery == s.searchQuery && r.searchResults == s.searchResults && r.filters == s.filters
      && (NoFaults(LoadSteps, fault) ==>
            && r.products == db.products && r.establishments == db.establishments
            && r.prices == db.prices && r.offers == db.offers
            && r.error == s.error)
      && (!NoFaults(LoadSteps, fault) ==>
            && r.products == s.products && r.establishments == s.establishments
            && r.prices == s.prices && r.offers == s.offers
            && r.error.Some? && r.error.value != ""
            && exists k :: 0 <= k < |LoadSteps| && fault(LoadSteps[k]).Some?
                 && r.error.value == LoadMessage(fault(LoadSteps[k]).value)
                 && forall j :: 0 <= j < k ==> fault(LoadSteps[j]).None?)
  {
    if NoFaults(LoadSteps, fault) {
      CascadeAllSucceed(db, LoadSteps, fault);
    } else {
      LoadFails(s, db, fault);
    }
  }

  /** A load whose reads do not all succeed records the first failing read's message. */
  lemma LoadFails(s: AppState, db: Db, fault: Request -> Option<string>)
    requires !NoFaults(LoadSteps, fault)
    ensures var r := Loaded(s, db, fault);
      && r.products == s.products && r.establishments == s.establishments
      && r.prices == s.prices && r.offers == s.offers
      && r.error.Some? && r.error.value != ""
      && exists k :: 0 <= k < |LoadSteps| && fault(LoadSteps[k]).Some?
           && r.error.value == LoadMessage(fault(LoadSteps[k]).value)
           && forall j :: 0 <= j < k ==> fault(LoadSteps[j]).None?
  {
    CascadeFirstFault(db, LoadSteps, fault);
  }

  /** The store: the backend contents, the reducer state, and the signed-in user. */
  class Store {
    var db: Db
    var state: AppState
    /**
     * Which requests the backend rejects at present, and with what message.
     * It is the environment's to change between operations (see `SetFault`);
     * each operation of the store sees the answers in force when it runs.
     */
    var fault: Request -> Option<string>
    /** The id of the signed-in user, if any (what `auth.getUser()` yields). */
    const user: Option<string>

    /** Mounting the provider: the initial state, then the first load. */
    constructor(db0: Db, fault0: Request -> Option<string>, user0: Option<string>)
      ensures db == db0 && fault == fault0 && user == user0
      ensures state == Loaded(InitialState, db0, fault0)
    {
      db := db0;
      state := InitialState;
      fault := fault0;
      user := user0;
      new;
      LoadData();
    }

    /**
     * Not an operation of the source: the backend or the network starting or
     * ceasing to fail between two operations. Nothing else changes.
     */
    method SetFault(f: Request -> Option<string>)
      modifies this`fault
      ensures fault == f
    {
      fault := f;
    }

    /** `dispatch`. */
    method Dispatch(action: Action)
      modifies this`state
      ensures state == Reduce(old(state), action)
    {
      state := Reduce(state, action);
    }

    /** One read: the oracle's answer for that table; a read changes nothing. */
    method Fetch(t: Table) returns (err: Option<string>)
      ensures err == fault(Select(t))
      ensures Apply(db, Select(t)) == db
    {
      err := fault(Select(t));
    }

    /** One write request: it fails with the oracle's message, or takes effect. */
    method Send(req: Request) returns (err: Option<string>)
      modifies this`db
      ensures err == fault(req)
      ensures db == if err.None? then Apply(old(db), req) else old(db)
    {
      err := fault(req);
      if err.None? {
        db := Apply(db, req);
      }
    }

    /** `loadData`. */
    method LoadData()
      modifies this`state
      ensures state == Loaded(old(state), db, fault)
    {
      Dispatch(SetLoading(true));
      ghost var steps := LoadSteps;
      SentNone(db, steps, fault);
      var e := Fetch(ProductsTable);
      if e.Some? {
        SentFails(db, steps, 0, db, fault);
        Dispatch(SetError(LoadMessage(e.value)));
        return;
      }
      SentNext(db, steps, 0, db, fault);
      var products := db.products;
      e := Fetch(EstablishmentsTable);
      if e.Some? {
        SentFails(db, steps, 1, db, fault);
        Dispatch(SetError(LoadMessage(e.value)));
        return;
      }
      SentNext(db, steps, 1, db, fault);
      var establishments := db.establishments;
      e := Fetch(PricesTable);
      if e.Some? {
        SentFails(db, steps, 2, db, fault);
        Dispatch(SetError(LoadMessage(e.value)));
        return;
      }
      SentNext(db, steps, 2, db, fault);
      var prices := db.prices;
      e := Fetch(OffersTable);
      if e.Some? {
        SentFails(db, steps, 3, db, fault);
        Dispatch(SetError(LoadMessage(e.value)));
        return;
      }
      SentNext(db, steps, 3, db, fault);
      SentAll(db, steps, db, fault);
      Dispatch(Action.LoadData(products, establishments, prices, db.offers));
    }

    /** `searchProducts`, over the catalogue as it was when called. */
    method SearchProducts(query: string)
      modifies this`state
      ensures state == Search.SearchProducts(old(state), query)
    {
      var products, prices, filters := state.products, state.prices, state.filters;
      Dispatch(SetSearchQuery(query));
      TrimEmptyIffBlank(query);
      if Trim(query) == "" {
        Dispatch(SetSearchResults([]));
        return;
      }
      Dispatch(SetSearchResults(Search.Results(products, prices, filters, query)));
    }

    /** `uploadImage`: no file means no request and no error. */
    method UploadImage(file: Option<ImageFile>, bucket: string) returns (url: Option<string>, err: Option<string>)
      modifies this`db
      ensures file.None? ==> url.None? && err.None? && db == old(db)
      ensures file.Some? ==>
        var req := Upload(bucket, file.value.objectPath);
        && err == fault(req)
        && db == (if err.None? then Apply(old(db), req) else old(db))
        && (err.None? ==> url == Some(PublicUrl(bucket, file.value.objectPath)))
        && (err.Some? ==> url.None?)
    {
      if file.None? {
        return None, None;
      }
      err := Send(Upload(bucket, file.value.objectPath));
      if err.Some? {
        return None, err;
      }
      url := Some(PublicUrl(bucket, file.value.objectPath));
    }

    /**
     * `addProductAndPrice`: an upload or product-insert failure is returned as
     * `productError`, a price-insert failure as `priceError` (the product row
     * then stays), and only full success reloads the catalogue.
     */
    method AddProductAndPrice(d: ProductData, pd: PriceData, file: Option<ImageFile>)
      returns (productError: Option<string>, priceError: Option<string>)
      modifies this`db, this`state
      ensures var steps := AddProductSteps(old(db).nextId, d, pd, file, user);
        var run := Cascade(old(db), steps, fault);
        && db == run.db
        && (run.error.None? ==> productError.None? && priceError.None? && state == Loaded(old(state), db, fault))
        && (run.error.Some? ==> state == old(state))
        && (run.error.Some? && |run.sent| < |steps| ==> productError == run.error && priceError.None?)
        && (run.error.Some? && |run.sent| == |steps| ==> productError.None? && priceError == run.error)
    {
      ghost var db0 := db;
      ghost var steps := AddProductSteps(db.nextId, d, pd, file, user);
      ghost var k := 0;
      SentNone(db0, steps, fault);
      var imageUrl := d.imagenUrl;
      if file.Some? {
        var url, uploadError := UploadImage(file, ProductImages);
        if uploadError.Some? {
          SentFails(db0, steps, 0, db, fault);
          return uploadError, None;
        }
        SentNext(db0, steps, 0, db0, fault);
        imageUrl := url.value;
        k := 1;
      }
      assert db.nextId == db0.nextId;
      productError, priceError := InsertWithPrice(db0, steps, k, d.(imagenUrl := imageUrl), pd);
    }

    /**
     * The two inserts of `addProductAndPrice`, once the optional upload has
     * succeeded: the product row, then its price under the id just assigned.
     */
    method InsertWithPrice(ghost db0: Db, ghost steps: seq<Request>, ghost k: nat, d: ProductData, pd: PriceData)
      returns (productError: Option<string>, priceError: Option<string>)
      requires SentOk(db0, steps, k, db, fault)
      requires |steps| == k + 2
      requires steps[k] == InsertProduct(d, user) && steps[k + 1] == InsertPrice(pd, db.nextId, FixedDate, user)
      modifies this`db, this`state
      ensures var run := Cascade(db0, steps, fault);
        && db == run.db
        && (run.error.None? ==> productError.None? && priceError.None? && state == Loaded(old(state), db, fault))
        && (run.error.Some? ==> state == old(state))
        && (run.error.Some? && |run.sent| < |steps| ==> productError == run.error && priceError.None?)
        && (run.error.Some? && |run.sent| == |steps| ==> productError.None? && priceError == run.error)
    {
      ghost var beforeInsert := db;
      var err := Send(InsertProduct(d, user));
      if err.Some? {
        SentFails(db0, steps, k, db, fault);
        return err, None;
      }
      SentNext(db0, steps, k, beforeInsert, fault);
      var newProduct := db.products[|db.products| - 1];
      priceError := Finish(db0, steps, InsertPrice(pd, newProduct.id, FixedDate, user));
      productError := None;
    }

    /**
     * Sends step `k` of an operation whose earlier steps all succeeded: on
     * failure the operation's outcome is settled, otherwise one more step has succeeded.
     */
    method Step(ghost db0: Db, ghost steps: seq<Request>, ghost k: nat, req: Request) returns (err: Option<string>)
      requires k < |steps| && steps[k] == req
      requires SentOk(db0, steps, k, db, fault)
      modifies this`db
      ensures err.Some? ==> db == old(db) && Cascade(db0, steps, fault) == Run(db, steps[..k + 1], err)
      ensures err.None? ==> SentOk(db0, steps, k + 1, db, fault)
    {
      ghost var before := db;
      err := Send(req);
      if err.Some? {
        SentFails(db0, steps, k, db, fault);
      } else {
        SentNext(db0, steps, k, before, fault);
      }
    }

    /**
     * Runs the tail of an operation whose steps are an optional upload followed
     * by `last`: sends `last`, and reloads the catalogue when it succeeds.
     */
    method Finish(ghost db0: Db, ghost steps: seq<Request>, last: Request) returns (error: Option<string>)
      requires |steps| > 0 && steps[|steps| - 1] == last
      requires SentOk(db0, steps, |steps| - 1, db, fault)
      modifies this`db, this`state
      ensures var run := Cascade(db0, steps, fault);
        && db == run.db && error == run.error && run.sent == steps
        && state == (if error.None? then Loaded(old(state), db, fault) else old(state))
    {
      ghost var before := db;
      error := Send(last);
      if error.Some? {
        SentFails(db0, steps, |steps| - 1, before, fault);
        return;
      }
      SentNext(db0, steps, |steps| - 1, before, fault);
      SentAll(db0, steps, db, fault);
      LoadData();
    }

    /** `addEstablishment`: upload the logo (if any), insert the row, reload on success. */
    method AddEstablishment(d: EstablishmentData, file: Option<ImageFile>) returns (error: Option<string>)
      modifies this`db, this`state
      ensures var run := Cascade(old(db), AddEstablishmentSteps(d, file, user), fault);
        && db == run.db && error == run.error
        && state == (if error.None? then Loaded(old(state), db, fault) else old(state))
    {
      ghost var db0 := db;
      ghost var steps := AddEstablishmentSteps(d, file, user);
      SentNone(db0, steps, fault);
      var imageUrl := d.imagenUrl;
      if file.Some? {
        var url, uploadError := UploadImage(file, EstablishmentLogos);
        if uploadError.Some? {
          SentFails(db0, steps, 0, db, fault);
          return uploadError;
        }
        SentNext(db0, steps, 0, db0, fault);
        imageUrl := url.value;
      }
      error := Finish(db0, steps, InsertEstablishment(d.(imagenUrl := imageUrl), user));
    }

    /** `updateProduct`: upload the image (if any), update the row, reload on success. */
    method UpdateProduct(id: int, d: ProductData, file: Option<ImageFile>) returns (error: Option<string>)
      modifies this`db, this`state
      ensures var run := Cascade(old(db), UpdateProductSteps(id, d, file), fault);
        && db == run.db && error == run.error
        && state == (if error.None? then Loaded(old(state), db, fault) else old(state))
    {
      ghost var db0 := db;
      ghost var steps := UpdateProductSteps(id, d, file);
      SentNone(db0, steps, fault);
      var imageUrl := d.imagenUrl;
      if file.Some? {
        var url, uploadError := UploadImage(file, ProductImages);
        if uploadError.Some? {
          SentFails(db0, steps, 0, db, fault);
          return uploadError;
        }
        SentNext(db0, steps, 0, db0, fault);
        imageUrl := url.value;
      }
      error := Finish(db0, steps, Request.UpdateProduct(id, d.(imagenUrl := imageUrl)));
    }

    /** `updateEstablishment`: upload the logo (if any), update the row, reload on success. */
    method UpdateEstablishment(id: int, d: EstablishmentData, file: Option<ImageFile>) returns (error: Option<string>)
      modifies this`db, this`state
      ensures var run := Cascade(old(db), UpdateEstablishmentSteps(id, d, file), fault);
        && db == run.db && error == run.error
        && state == (if error.None? then Loaded(old(state), db, fault) else old(state))
    {
      ghost var db0 := db;
      ghost var steps := UpdateEstablishmentSteps(id, d, file);
      SentNone(db0, steps, fault);
      var imageUrl := d.imagenUrl;
      if file.Some? {
        var url, uploadError := UploadImage(file, EstablishmentLogos);
        if uploadError.Some? {
          SentFails(db0, steps, 0, db, fault);
          return uploadError;
        }
        SentNext(db0, steps, 0, db0, fault);
        imageUrl := url.value;
      }
      error := Finish(db0, steps, Request.UpdateEstablishment(id, d.(imagenUrl := imageUrl)));
    }

    /** `updatePrice`: the new amount with the fixed date; the supplied date is ignored. */
    method UpdatePrice(id: int, u: PriceUpdate) returns (error: Option<string>)
      modifies this`db, this`state
      ensures var run := Cascade(old(db), UpdatePriceSteps(id, u), fault);
        && db == run.db && error == run.error
        && state == (if error.None? then Loaded(old(state), db, fault) else old(state))
    {
      SentNone(db, UpdatePriceSteps(id, u), fault);
      error := Finish(db, UpdatePriceSteps(id, u), Request.UpdatePrice(id, u.precio, FixedDate));
    }

    /** `deletePrice`. */
    method DeletePrice(id: int) returns (error: Option<string>)
      modifies this`db, this`state
      ensures var run := Cascade(old(db), DeletePriceSteps(id), fault);
        && db == run.db && error == run.error
        && state == (if error.None? then Loaded(old(state), db, fault) else old(state))
    {
      SentNone(db, DeletePriceSteps(id), fault);
      error := Finish(db, DeletePriceSteps(id), Request.DeletePrice(id));
    }

    /** `deleteProduct`: its prices first; a failure there stops before the product row. */
    method DeleteProduct(id: int) returns (error: Option<string>)
      modifies this`db, this`state
      ensures var run := Cascade(old(db), DeleteProductSteps(id), fault);
        && db == run.db && error == run.error
        && state == (if error.None? then Loaded(old(state), db, fault) else old(state))
    {
      ghost var db0 := db;
      ghost var steps := DeleteProductSteps(id);
      SentNone(db0, steps, fault);
      var pricesError := Send(DeletePricesOfProduct(id));
      if pricesError.Some? {
        SentFails(db0, steps, 0, db0, fault);
        return pricesError;
      }
      SentNext(db0, steps, 0, db0, fault);
      error := Finish(db0, steps, Request.DeleteProduct(id));
    }

    /** `deleteEstablishment`: its prices, then its offers, then the row; stops at the first failure. */
    method DeleteEstablishment(id: int) returns (error: Option<string>)
      modifies this`db, this`state
      ensures var run := Cascade(old(db), DeleteEstablishmentSteps(id), fault);
        && db == run.db && error == run.error
        && state == (if error.None? then Loaded(old(state), db, fault) else old(state))
    {
      ghost var db0 := db;
      ghost var steps := DeleteEstablishmentSteps(id);
      SentNone(db0, steps, fault);
      var e := Step(db0, steps, 0, DeletePricesOfEstablishment(id));
      if e.Some? {
        return e;
      }
      e := Step(db0, steps, 1, DeleteOffersOfEstablishment(id));
      if e.Some? {
        return e;
      }
      error := Finish(db0, steps, Request.DeleteEstablishment(id));
    }
  }
}
