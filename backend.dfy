/**
 * The hosted backend as the store sees it: four tables plus an image bucket
 * store, the requests the store sends, what each request does when it
 * succeeds, and how a fixed list of requests runs when any of them may fail.
 * Which requests fail is decided by an oracle `fault`; a failed request has
 * no effect.
 */
module Backend {
  import opened Wrappers
  import opened Seqs
  import opened Entities

  datatype StoredObject = StoredObject(bucket: string, path: string)

  /** The database contents. `nextId` stands for the id sequence the database assigns rows from. */
  datatype Db = Db(
    products: seq<Product>,
    establishments: seq<Establishment>,
    prices: seq<Price>,
    offers: seq<Offer>,
    nextId: int,
    objects: seq<StoredObject>)

  datatype Table = ProductsTable | EstablishmentsTable | PricesTable | OffersTable

  /**
   * An image chosen in a form. `objectPath` is the object name the upload
   * stores it under (the source draws it from a random number).
   */
  datatype ImageFile = ImageFile(objectPath: string)

  const ProductImages := "product-images"
  const EstablishmentLogos := "establishment-logos"

  /** The date every price insert and price update writes. */
  const FixedDate := "2025-11-15"

  /** The public address of a stored object (computed by the storage client). */
  function PublicUrl(bucket: string, path: string): string
  {
    "storage/v1/object/public/" + bucket + "/" + path
  }

  datatype Request =
    | Select(table: Table)
    | Upload(bucket: string, path: string)
    | InsertProduct(productData: ProductData, owner: Option<string>)
    | InsertPrice(priceData: PriceData, productoId: int, fecha: string, owner: Option<string>)
    | InsertEstablishment(establishmentData: EstablishmentData, owner: Option<string>)
    | UpdateProduct(productId: int, productData: ProductData)
    | UpdateEstablishment(establishmentId: int, establishmentData: EstablishmentData)
    | UpdatePrice(priceId: int, precio: int, fecha: string)
    | DeletePricesOfProduct(productId: int)
    | DeletePricesOfEstablishment(establishmentId: int)
    | DeleteOffersOfEstablishment(establishmentId: int)
    | DeleteProduct(productId: int)
    | DeleteEstablishment(establishmentId: int)
    | DeletePrice(priceId: int)

  /** A row after an update: the form's columns written over it, as text (never NULL). */
  function WithProductData(p: Product, d: ProductData): Product
  {
    p.(nombre := d.nombre, descripcion := Some(d.descripcion), categoria := Some(d.categoria),
       imagenUrl := Some(d.imagenUrl), codigoBarras := Some(d.codigoBarras))
  }

  function WithEstablishmentData(e: Establishment, d: EstablishmentData): Establishment
  {
    e.(nombre := d.nombre, direccion := Some(d.direccion), telefono := Some(d.telefono), tipo := d.tipo,
       horarios := Some(d.horarios), imagenUrl := Some(d.imagenUrl))
  }

  /**
   * `update(d).eq('id', id)` on the products table: every row keeps its id and
   * owner, rows with another id are untouched, and the row with that id holds
   * the sent columns.
   */
  function UpdateProductRows(ps: seq<Product>, id: int, d: ProductData): (r: seq<Product>)
    ensures |r| == |ps|
    ensures forall i :: 0 <= i < |ps| ==> r[i].id == ps[i].id && r[i].userId == ps[i].userId
    ensures forall i :: 0 <= i < |ps| && ps[i].id != id ==> r[i] == ps[i]
    ensures forall i :: 0 <= i < |ps| && ps[i].id == id ==>
      r[i].nombre == d.nombre && r[i].descripcion == Some(d.descripcion) && r[i].categoria == Some(d.categoria)
      && r[i].imagenUrl == Some(d.imagenUrl) && r[i].codigoBarras == Some(d.codigoBarras)
  {
    seq(|ps|, i requires 0 <= i < |ps| => if ps[i].id == id then WithProductData(ps[i], d) else ps[i])
  }

  /** The same update applied twice leaves the table as one application does. */
  lemma UpdateProductRowsIdempotent(ps: seq<Product>, id: int, d: ProductData)
    ensures UpdateProductRows(UpdateProductRows(ps, id, d), id, d) == UpdateProductRows(ps, id, d)
  {
    var once := UpdateProductRows(ps, id, d);
    var twice := UpdateProductRows(once, id, d);
    forall i | 0 <= i < |ps|
      ensures twice[i] == once[i]
    {
      if ps[i].id == id {
        assert once[i] == WithProductData(ps[i], d);
      }
    }
  }

  /** `update(d).eq('id', id)` on the establishments table, as for products. */
  function UpdateEstablishmentRows(es: seq<Establishment>, id: int, d: EstablishmentData): (r: seq<Establishment>)
    ensures |r| == |es|
    ensures forall i :: 0 <= i < |es| ==> r[i].id == es[i].id && r[i].userId == es[i].userId
    ensures forall i :: 0 <= i < |es| && es[i].id != id ==> r[i] == es[i]
    ensures forall i :: 0 <= i < |es| && es[i].id == id ==>
      r[i].nombre == d.nombre && r[i].direccion == Some(d.direccion) && r[i].telefono == Some(d.telefono)
      && r[i].tipo == d.tipo && r[i].horarios == Some(d.horarios) && r[i].imagenUrl == Some(d.imagenUrl)
  {
    seq(|es|, i requires 0 <= i < |es| => if es[i].id == id then WithEstablishmentData(es[i], d) else es[i])
  }

  lemma UpdateEstablishmentRowsIdempotent(es: seq<Establishment>, id: int, d: EstablishmentData)
    ensures UpdateEstablishmentRows(UpdateEstablishmentRows(es, id, d), id, d) == UpdateEstablishmentRows(es, id, d)
  {
    var once := UpdateEstablishmentRows(es, id, d);
    var twice := UpdateEstablishmentRows(once, id, d);
    forall i | 0 <= i < |es|
      ensures twice[i] == once[i]
    {
      if es[i].id == id {
        assert once[i] == WithEstablishmentData(es[i], d);
      }
    }
  }

  /**
   * `update({precio, fecha_actualizacion}).eq('id', id)` on the prices table:
   * every row keeps its id, product, establishment and owner; rows with another
   * id are untouched; the row with that id holds the new amount and date.
   */
  function UpdatePriceRows(ps: seq<Price>, id: int, precio: int, fecha: string): (r: seq<Price>)
    ensures |r| == |ps|
    ensures forall i :: 0 <= i < |ps| ==>
      r[i].id == ps[i].id && r[i].productoId == ps[i].productoId
      && r[i].establecimientoId == ps[i].establecimientoId && r[i].userId == ps[i].userId
    ensures forall i :: 0 <= i < |ps| && ps[i].id != id ==> r[i] == ps[i]
    ensures forall i :: 0 <= i < |ps| && ps[i].id == id ==> r[i].precio == precio && r[i].fechaActualizacion == fecha
  {
    seq(|ps|, i requires 0 <= i < |ps| =>
      if ps[i].id == id then ps[i].(precio := precio, fechaActualizacion := fecha) else ps[i])
  }

  lemma UpdatePriceRowsIdempotent(ps: seq<Price>, id: int, precio: int, fecha: string)
    ensures UpdatePriceRows(UpdatePriceRows(ps, id, precio, fecha), id, precio, fecha) == UpdatePriceRows(ps, id, precio, fecha)
  {
    var once := UpdatePriceRows(ps, id, precio, fecha);
    var twice := UpdatePriceRows(once, id, precio, fecha);
    forall i | 0 <= i < |ps|
      ensures twice[i] == once[i]
    {
      if ps[i].id == id {
        assert once[i] == ps[i].(precio := precio, fechaActualizacion := fecha);
      }
    }
  }

  function PricesNotOfProduct(ps: seq<Price>, id: int): seq<Price>
  {
    Filter(ps, (p: Price) => p.productoId != id)
  }

  function PricesNotOfEstablishment(ps: seq<Price>, id: int): seq<Price>
  {
    Filter(ps, (p: Price) => p.establecimientoId != id)
  }

  function OffersNotOfEstablishment(os: seq<Offer>, id: int): seq<Offer>
  {
    Filter(os, (o: Offer) => o.establecimientoId != id)
  }

  function ProductsWithoutId(ps: seq<Product>, id: int): seq<Product>
  {
    Filter(ps, (p: Product) => p.id != id)
  }

  function EstablishmentsWithoutId(es: seq<Establishment>, id: int): seq<Establishment>
  {
    Filter(es, (e: Establishment) => e.id != id)
  }

  function PricesWithoutId(ps: seq<Price>, id: int): seq<Price>
  {
    Filter(ps, (p: Price) => p.id != id)
  }

  /** The effect of a request that succeeds. */
  function Apply(db: Db, req: Request): Db
  {
    match req
    case Select(_) => db
    case Upload(bucket, path) => db.(objects := db.objects + [StoredObject(bucket, path)])
    case InsertProduct(d, owner) =>
      db.(products := db.products + [Product(db.nextId, d.nombre, Some(d.descripcion), Some(d.categoria), Some(d.imagenUrl), Some(d.codigoBarras), owner)],
          nextId := db.nextId + 1)
    case InsertPrice(d, productoId, fecha, owner) =>
      db.(prices := db.prices + [Price(db.nextId, productoId, d.establecimientoId, d.precio, fecha, owner)],
          nextId := db.nextId + 1)
    case InsertEstablishment(d, owner) =>
      db.(establishments := db.establishments
            + [Establishment(db.nextId, d.nombre, Some(d.direccion), Some(d.telefono), d.tipo, Some(d.horarios), Some(d.imagenUrl), owner)],
          nextId := db.nextId + 1)
    case UpdateProduct(id, d) => db.(products := UpdateProductRows(db.products, id, d))
    case UpdateEstablishment(id, d) => db.(establishments := UpdateEstablishmentRows(db.establishments, id, d))
    case UpdatePrice(id, precio, fecha) => db.(prices := UpdatePriceRows(db.prices, id, precio, fecha))
    case DeletePricesOfProduct(id) => db.(prices := PricesNotOfProduct(db.prices, id))
    case DeletePricesOfEstablishment(id) => db.(prices := PricesNotOfEstablishment(db.prices, id))
    case DeleteOffersOfEstablishment(id) => db.(offers := OffersNotOfEstablishment(db.offers, id))
    case DeleteProduct(id) => db.(products := ProductsWithoutId(db.products, id))
    case DeleteEstablishment(id) => db.(establishments := EstablishmentsWithoutId(db.establishments, id))
    case DeletePrice(id) => db.(prices := PricesWithoutId(db.prices, id))
  }

  /**
   * What one successful request may change: only an insert draws an id, and
   * it draws exactly the next one; only an upload touches the stored objects,
   * and it appends one; a read changes nothing; an update or a delete keeps
   * the number of offers unless it is the offers delete; nothing ever shrinks
   * the objects.
   */
  lemma ApplyFrame(db: Db, req: Request)
    ensures var r := Apply(db, req);
      && (req.Select? ==> r == db)
      && (r.nextId == db.nextId + 1 <==> req.InsertProduct? || req.InsertPrice? || req.InsertEstablishment?)
      && (r.nextId == db.nextId <==> !(req.InsertProduct? || req.InsertPrice? || req.InsertEstablishment?))
      && db.objects <= r.objects
      && (r.objects != db.objects <==> req.Upload?)
      && (req.InsertProduct? ==> |r.products| == |db.products| + 1 && r.products[|db.products|].id == db.nextId)
      && (req.InsertPrice? ==> |r.prices| == |db.prices| + 1 && r.prices[|db.prices|].id == db.nextId)
      && (req.InsertEstablishment? ==>
            |r.establishments| == |db.establishments| + 1 && r.establishments[|db.establishments|].id == db.nextId)
      && (r.offers != db.offers ==> req.DeleteOffersOfEstablishment?)
  {
  }

  function ApplyAll(db: Db, reqs: seq<Request>): Db
    decreases |reqs|
  {
    if reqs == [] then db else ApplyAll(Apply(db, reqs[0]), reqs[1..])
  }

  /** The outcome of running requests: final contents, requests sent, and the error returned. */
  datatype Run = Run(db: Db, sent: seq<Request>, error: Option<string>)

  /**
   * Sends `steps` in order, each awaited before the next; the first failure is
   * returned at once, later steps are not sent, and earlier ones are not undone.
   */
  function Cascade(db: Db, steps: seq<Request>, fault: Request -> Option<string>): (r: Run)
    ensures |r.sent| <= |steps| && r.sent == steps[..|r.sent|]
    ensures r.error.None? ==> r.sent == steps
    ensures r.error.Some? ==> |r.sent| > 0 && r.error == fault(r.sent[|r.sent| - 1])
    decreases |steps|
  {
    if steps == [] then Run(db, [], None)
    else
      var e := fault(steps[0]);
      if e.Some? then Run(db, [steps[0]], e)
      else
        var rest := Cascade(Apply(db, steps[0]), steps[1..], fault);
        Run(rest.db, [steps[0]] + rest.sent, rest.error)
  }

  lemma CascadeCons(db: Db, s: Request, rest: seq<Request>, fault: Request -> Option<string>)
    ensures Cascade(db, [s] + rest, fault)
         == if fault(s).Some? then Run(db, [s], fault(s))
            else var t := Cascade(Apply(db, s), rest, fault); Run(t.db, [s] + t.sent, t.error)
  {
    assert ([s] + rest)[1..] == rest;
  }

  lemma CascadeOne(db: Db, s: Request, fault: Request -> Option<string>)
    ensures Cascade(db, [s], fault)
         == if fault(s).Some? then Run(db, [s], fault(s)) else Run(Apply(db, s), [s], None)
  {
    CascadeCons(db, s, [], fault);
    assert [s] + [] == [s];
  }

  /** The last request sent is the first one that failed; nothing after it was sent. */
  lemma {:induction false} CascadeStopsAtFirstError(db: Db, steps: seq<Request>, fault: Request -> Option<string>, k: nat)
    requires k < |steps| && fault(steps[k]).Some?
    requires forall i :: 0 <= i < k ==> fault(steps[i]).None?
    ensures var r := Cascade(db, steps, fault);
      r.sent == steps[..k + 1] && r.error == fault(steps[k])
    decreases k
  {
    if k > 0 {
      CascadeStopsAtFirstError(Apply(db, steps[0]), steps[1..], fault, k - 1);
    }
  }

  /** An operation reports success exactly when none of its steps is rejected. */
  lemma {:induction false} CascadeSucceedsIffNoFaults(db: Db, steps: seq<Request>, fault: Request -> Option<string>)
    ensures Cascade(db, steps, fault).error.None? <==> forall i :: 0 <= i < |steps| ==> fault(steps[i]).None?
    decreases |steps|
  {
    if steps != [] && fault(steps[0]).None? {
      CascadeSucceedsIffNoFaults(Apply(db, steps[0]), steps[1..], fault);
      assert forall i :: 1 <= i < |steps| ==> steps[i] == steps[1..][i - 1];
    }
  }

  /** No rollback: the final contents are the effect of every request that succeeded. */
  lemma {:induction false} CascadeNoRollback(db: Db, steps: seq<Request>, fault: Request -> Option<string>)
    ensures var r := Cascade(db, steps, fault);
      r.db == ApplyAll(db, if r.error.Some? then r.sent[..|r.sent| - 1] else r.sent)
    decreases |steps|
  {
    if steps != [] && fault(steps[0]).None? {
      CascadeNoRollback(Apply(db, steps[0]), steps[1..], fault);
      var rest := Cascade(Apply(db, steps[0]), steps[1..], fault);
      if rest.error.Some? {
        assert ([steps[0]] + rest.sent)[..|rest.sent|] == [steps[0]] + rest.sent[..|rest.sent| - 1];
      }
    }
  }

  // ------------------------------------------------------------ the operations

  function UploadSteps(file: Option<ImageFile>, bucket: string): seq<Request>
  {
    if file.Some? then [Upload(bucket, file.value.objectPath)] else []
  }

  /** The image address a row gets: the uploaded file's, or the one the form already had. */
  function ImageUrl(current: string, file: Option<ImageFile>, bucket: string): string
  {
    if file.Some? then PublicUrl(bucket, file.value.objectPath) else current
  }

  /** `addProductAndPrice`: upload, insert the product, insert its first price (referencing `newId`). */
  function AddProductSteps(newId: int, d: ProductData, pd: PriceData, file: Option<ImageFile>, owner: Option<string>): seq<Request>
  {
    UploadSteps(file, ProductImages)
    + [InsertProduct(d.(imagenUrl := ImageUrl(d.imagenUrl, file, ProductImages)), owner),
       InsertPrice(pd, newId, FixedDate, owner)]
  }

  function AddEstablishmentSteps(d: EstablishmentData, file: Option<ImageFile>, owner: Option<string>): seq<Request>
  {
    UploadSteps(file, EstablishmentLogos)
    + [InsertEstablishment(d.(imagenUrl := ImageUrl(d.imagenUrl, file, EstablishmentLogos)), owner)]
  }

  function UpdateProductSteps(id: int, d: ProductData, file: Option<ImageFile>): seq<Request>
  {
    UploadSteps(file, ProductImages) + [UpdateProduct(id, d.(imagenUrl := ImageUrl(d.imagenUrl, file, ProductImages)))]
  }

  function UpdateEstablishmentSteps(id: int, d: EstablishmentData, file: Option<ImageFile>): seq<Request>
  {
    UploadSteps(file, EstablishmentLogos)
    + [UpdateEstablishment(id, d.(imagenUrl := ImageUrl(d.imagenUrl, file, EstablishmentLogos)))]
  }

  /** `updatePrice`: the supplied date is overridden by the fixed one. */
  function UpdatePriceSteps(id: int, u: PriceUpdate): seq<Request>
  {
    [UpdatePrice(id, u.precio, FixedDate)]
  }

  function DeletePriceSteps(id: int): seq<Request>
  {
    [DeletePrice(id)]
  }

  /** `deleteProduct`: the product's prices, then the product row. */
  function DeleteProductSteps(id: int): seq<Request>
  {
    [DeletePricesOfProduct(id), DeleteProduct(id)]
  }

  /** `deleteEstablishment`: its prices, then its offers, then the establishment row. */
  function DeleteEstablishmentSteps(id: int): seq<Request>
  {
    [DeletePricesOfEstablishment(id), DeleteOffersOfEstablishment(id), DeleteEstablishment(id)]
  }

  // --------------------------------------------------- properties of the plans

  ghost predicate NoFaults(steps: seq<Request>, fault: Request -> Option<string>)
  {
    forall i :: 0 <= i < |steps| ==> fault(steps[i]).None?
  }

  /** When no step fails, every step is sent and the contents are their combined effect. */
  lemma {:induction false} CascadeAllSucceed(db: Db, steps: seq<Request>, fault: Request -> Option<string>)
    requires NoFaults(steps, fault)
    ensures Cascade(db, steps, fault) == Run(ApplyAll(db, steps), steps, None)
    decreases |steps|
  {
    if steps != [] {
      assert NoFaults(steps[1..], fault) by {
        forall i | 0 <= i < |steps[1..]| ensures fault(steps[1..][i]).None? {
          assert steps[1..][i] == steps[i + 1];
        }
      }
      CascadeAllSucceed(Apply(db, steps[0]), steps[1..], fault);
      assert [steps[0]] + steps[1..] == steps;
    }
  }

  /** Every request sent before the last one succeeded, and the last one too when no error is returned. */
  lemma {:induction false} CascadeEarlierSucceeded(db: Db, steps: seq<Request>, fault: Request -> Option<string>)
    ensures var r := Cascade(db, steps, fault);
      NoFaults(r.sent[..|r.sent| - (if r.error.Some? then 1 else 0)], fault)
    decreases |steps|
  {
    if steps != [] && fault(steps[0]).None? {
      CascadeEarlierSucceeded(Apply(db, steps[0]), steps[1..], fault);
      var rest := Cascade(Apply(db, steps[0]), steps[1..], fault);
      var r := Cascade(db, steps, fault);
      assert r == Run(rest.db, [steps[0]] + rest.sent, rest.error);
      forall j | 0 <= j < |r.sent| && (r.error.None? || j < |r.sent| - 1)
        ensures fault(r.sent[j]).None?
      {
        if j == 0 {
          assert r.sent[0] == steps[0];
        } else {
          assert r.sent[j] == rest.sent[j - 1];
          assert rest.error.None? || j - 1 < |rest.sent| - 1;
        }
      }
    }
  }

  /** When some step is rejected, the error returned is that of the first rejected step. */
  lemma CascadeFirstFault(db: Db, steps: seq<Request>, fault: Request -> Option<string>)
    requires !NoFaults(steps, fault)
    ensures var r := Cascade(db, steps, fault);
      && r.error.Some?
      && exists k :: 0 <= k < |steps| && fault(steps[k]).Some? && r.error == fault(steps[k])
           && forall j :: 0 <= j < k ==> fault(steps[j]).None?
  {
    var r := Cascade(db, steps, fault);
    CascadeSucceedsIffNoFaults(db, steps, fault);
    CascadeEarlierSucceeded(db, steps, fault);
    var k := |r.sent| - 1;
    assert steps[k] == r.sent[k];
    forall j | 0 <= j < k
      ensures fault(steps[j]).None?
    {
      assert steps[j] == r.sent[..k][j];
    }
  }

  /** When step `k` is the first to fail, steps up to `k` are sent and only those before it took effect. */
  lemma CascadeFailsAt(db: Db, steps: seq<Request>, fault: Request -> Option<string>, k: nat)
    requires k < |steps| && fault(steps[k]).Some? && NoFaults(steps[..k], fault)
    ensures Cascade(db, steps, fault) == Run(ApplyAll(db, steps[..k]), steps[..k + 1], fault(steps[k]))
  {
    forall i | 0 <= i < k ensures fault(steps[i]).None? {
      assert steps[..k][i] == steps[i];
    }
    CascadeStopsAtFirstError(db, steps, fault, k);
    CascadeNoRollback(db, steps, fault);
    assert steps[..k + 1][..k] == steps[..k];
  }

  /**
   * `db` is what `db0` became after the first `k` of `steps` were sent one at
   * a time, each succeeding: the state of a caller half-way through a plan.
   */
  ghost predicate SentOk(db0: Db, steps: seq<Request>, k: nat, db: Db, fault: Request -> Option<string>)
  {
    k <= |steps| && NoFaults(steps[..k], fault) && db == ApplyAll(db0, steps[..k])
  }

  lemma SentNone(db0: Db, steps: seq<Request>, fault: Request -> Option<string>)
    ensures SentOk(db0, steps, 0, db0, fault)
  {
    assert steps[..0] == [];
  }

  /** Sending the next step successfully extends the prefix by one. */
  lemma SentNext(db0: Db, steps: seq<Request>, k: nat, db: Db, fault: Request -> Option<string>)
    requires SentOk(db0, steps, k, db, fault) && k < |steps| && fault(steps[k]).None?
    ensures SentOk(db0, steps, k + 1, Apply(db, steps[k]), fault)
  {
    assert steps[..k + 1] == steps[..k] + [steps[k]];
    ApplyAllAppend(db0, steps[..k], [steps[k]]);
    ApplyAllOne(db, steps[k]);
    assert forall i :: 0 <= i < k ==> steps[..k + 1][i] == steps[..k][i];
  }

  /** A caller that stops at the first failing step ends as the cascade does. */
  lemma SentFails(db0: Db, steps: seq<Request>, k: nat, db: Db, fault: Request -> Option<string>)
    requires SentOk(db0, steps, k, db, fault) && k < |steps| && fault(steps[k]).Some?
    ensures Cascade(db0, steps, fault) == Run(db, steps[..k + 1], fault(steps[k]))
  {
    CascadeFailsAt(db0, steps, fault, k);
  }

  /** A caller that sent every step successfully ends as the cascade does. */
  lemma SentAll(db0: Db, steps: seq<Request>, db: Db, fault: Request -> Option<string>)
    requires SentOk(db0, steps, |steps|, db, fault)
    ensures Cascade(db0, steps, fault) == Run(db, steps, None)
  {
    assert steps[..|steps|] == steps;
    CascadeAllSucceed(db0, steps, fault);
  }

  lemma ApplyAllOne(db: Db, a: Request)
    ensures ApplyAll(db, [a]) == Apply(db, a)
  {
    assert [a][1..] == [];
  }

  lemma ApplyAllTwo(db: Db, a: Request, b: Request)
    ensures ApplyAll(db, [a, b]) == Apply(Apply(db, a), b)
  {
    assert [a, b][1..] == [b];
    ApplyAllOne(Apply(db, a), b);
  }

  lemma ApplyAllThree(db: Db, a: Request, b: Request, c: Request)
    ensures ApplyAll(db, [a, b, c]) == Apply(Apply(Apply(db, a), b), c)
  {
    assert [a, b, c][1..] == [b, c];
    ApplyAllTwo(Apply(db, a), b, c);
  }

  /** The price rows `deleteProduct` removes first: those referencing the product. */
  function PricesOfProduct(ps: seq<Price>, id: int): seq<Price>
  {
    Filter(ps, (p: Price) => p.productoId == id)
  }

  /** How `deleteProduct` ends, by which of its two requests fails first. */
  lemma DeleteProductRun(db: Db, id: int, fault: Request -> Option<string>)
    ensures var r := Cascade(db, DeleteProductSteps(id), fault);
      var s0, s1 := DeletePricesOfProduct(id), DeleteProduct(id);
      if fault(s0).Some? then r == Run(db, [s0], fault(s0))
      else if fault(s1).Some? then r == Run(Apply(db, s0), [s0, s1], fault(s1))
      else r == Run(Apply(Apply(db, s0), s1), [s0, s1], None)
  {
    var steps := DeleteProductSteps(id);
    var s0, s1 := DeletePricesOfProduct(id), DeleteProduct(id);
    if fault(s0).Some? {
      CascadeFailsAt(db, steps, fault, 0);
      assert steps[..0] == [];
    } else if fault(s1).Some? {
      assert steps[..1] == [s0];
      CascadeFailsAt(db, steps, fault, 1);
      ApplyAllOne(db, s0);
    } else {
      CascadeAllSucceed(db, steps, fault);
      ApplyAllTwo(db, s0, s1);
    }
  }

  /**
   * deleteProduct: when both requests succeed, no price and no product with
   * that id remains and the removed price rows are exactly the product's; when
   * only the product row fails, the prices stay deleted and the products are
   * untouched; when the first request fails, nothing changed.
   */
  lemma DeleteProductOutcome(db: Db, id: int, fault: Request -> Option<string>)
    ensures var r := Cascade(db, DeleteProductSteps(id), fault);
      && (r.error.None? ==>
            && (forall i :: 0 <= i < |r.db.prices| ==> r.db.prices[i].productoId != id)
            && (forall i :: 0 <= i < |r.db.products| ==> r.db.products[i].id != id)
            && multiset(r.db.prices) + multiset(PricesOfProduct(db.prices, id)) == multiset(db.prices))
      && (r.error.Some? && |r.sent| == 2 ==>
            && r.error == fault(DeleteProduct(id))
            && (forall i :: 0 <= i < |r.db.prices| ==> r.db.prices[i].productoId != id)
            && r.db.products == db.products)
      && (r.error.Some? && |r.sent| == 1 ==> r.db == db && r.error == fault(DeletePricesOfProduct(id)))
  {
    DeleteProductRun(db, id, fault);
    var db1 := db.(prices := PricesNotOfProduct(db.prices, id));
    assert Apply(db, DeletePricesOfProduct(id)) == db1;
    assert Apply(db1, DeleteProduct(id)) == db1.(products := ProductsWithoutId(db.products, id));
    FilterPartition(db.prices, (p: Price) => p.productoId != id, (p: Price) => p.productoId == id);
  }

  /** The combined effect of the three deletions of `deleteEstablishment`. */
  lemma DeleteEstablishmentEffect(db: Db, id: int)
    ensures var s0, s1, s2 := DeletePricesOfEstablishment(id), DeleteOffersOfEstablishment(id), DeleteEstablishment(id);
      var db1 := db.(prices := PricesNotOfEstablishment(db.prices, id));
      var db2 := db1.(offers := OffersNotOfEstablishment(db.offers, id));
      && Apply(db, s0) == db1
      && Apply(db1, s1) == db2
      && Apply(db2, s2) == db2.(establishments := EstablishmentsWithoutId(db.establishments, id))
  {
  }

  /** How `deleteEstablishment` ends, by which of its three requests fails first. */
  lemma DeleteEstablishmentRun(db: Db, id: int, fault: Request -> Option<string>)
    ensures var r := Cascade(db, DeleteEstablishmentSteps(id), fault);
      var s0, s1, s2 := DeletePricesOfEstablishment(id), DeleteOffersOfEstablishment(id), DeleteEstablishment(id);
      if fault(s0).Some? then r == Run(db, [s0], fault(s0))
      else if fault(s1).Some? then r == Run(Apply(db, s0), [s0, s1], fault(s1))
      else if fault(s2).Some? then r == Run(Apply(Apply(db, s0), s1), [s0, s1, s2], fault(s2))
      else r == Run(Apply(Apply(Apply(db, s0), s1), s2), [s0, s1, s2], None)
  {
    var steps := DeleteEstablishmentSteps(id);
    var s0, s1, s2 := DeletePricesOfEstablishment(id), DeleteOffersOfEstablishment(id), DeleteEstablishment(id);
    if fault(s0).Some? {
      CascadeFailsAt(db, steps, fault, 0);
      assert steps[..0] == [];
    } else if fault(s1).Some? {
      assert steps[..1] == [s0];
      CascadeFailsAt(db, steps, fault, 1);
      ApplyAllOne(db, s0);
    } else if fault(s2).Some? {
      assert steps[..2] == [s0, s1];
      CascadeFailsAt(db, steps, fault, 2);
      ApplyAllTwo(db, s0, s1);
    } else {
      CascadeAllSucceed(db, steps, fault);
      ApplyAllThree(db, s0, s1, s2);
    }
  }

  /**
   * deleteEstablishment: the establishment row is only ever deleted after its
   * prices and then its offers were deleted successfully; on success nothing
   * references the establishment any more and the products are untouched.
   */
  lemma DeleteEstablishmentOutcome(db: Db, id: int, fault: Request -> Option<string>)
    ensures var r := Cascade(db, DeleteEstablishmentSteps(id), fault);
      && (DeleteEstablishment(id) in r.sent ==>
            && r.sent[..2] == [DeletePricesOfEstablishment(id), DeleteOffersOfEstablishment(id)]
            && fault(DeletePricesOfEstablishment(id)).None? && fault(DeleteOffersOfEstablishment(id)).None?)
      && (DeleteOffersOfEstablishment(id) in r.sent ==> fault(DeletePricesOfEstablishment(id)).None?)
      && (r.error.None? ==>
            && (forall i :: 0 <= i < |r.db.prices| ==> r.db.prices[i].establecimientoId != id)
            && (forall i :: 0 <= i < |r.db.offers| ==> r.db.offers[i].establecimientoId != id)
            && (forall i :: 0 <= i < |r.db.establishments| ==> r.db.establishments[i].id != id)
            && r.db.products == db.products)
  {
    DeleteEstablishmentRun(db, id, fault);
    DeleteEstablishmentEffect(db, id);
  }

  /** Deleting an establishment a second time, with nothing failing, removes nothing more. */
  lemma DeleteEstablishmentIdempotent(db: Db, id: int, fault: Request -> Option<string>)
    requires NoFaults(DeleteEstablishmentSteps(id), fault)
    ensures var once := Cascade(db, DeleteEstablishmentSteps(id), fault);
      var twice := Cascade(once.db, DeleteEstablishmentSteps(id), fault);
      twice.error.None? && twice.db == once.db
  {
    var steps := DeleteEstablishmentSteps(id);
    assert fault(steps[0]).None? && fault(steps[1]).None? && fault(steps[2]).None?;
    DeleteEstablishmentRun(db, id, fault);
    var once := Cascade(db, steps, fault);
    DeleteEstablishmentRun(once.db, id, fault);
    DeleteEstablishmentEffect(db, id);
    var db3 := Apply(Apply(Apply(db, steps[0]), steps[1]), steps[2]);
    FilterIdempotent(db.prices, (p: Price) => p.establecimientoId != id);
    FilterIdempotent(db.offers, (o: Offer) => o.establecimientoId != id);
    FilterIdempotent(db.establishments, (e: Establishment) => e.id != id);
    DeleteEstablishmentEffect(db3, id);
  }

  /** The combined effect of the requests of `addProductAndPrice`. */
  lemma AddProductEffect(db: Db, d: ProductData, pd: PriceData, file: Option<ImageFile>, owner: Option<string>)
    ensures var np := Product(db.nextId, d.nombre, Some(d.descripcion), Some(d.categoria), Some(ImageUrl(d.imagenUrl, file, ProductImages)), Some(d.codigoBarras), owner);
      var pr := Price(db.nextId + 1, db.nextId, pd.establecimientoId, pd.precio, FixedDate, owner);
      var after := ApplyAll(db, AddProductSteps(db.nextId, d, pd, file, owner));
      && after.products == db.products + [np]
      && after.prices == db.prices + [pr]
      && after.objects == db.objects + (if file.Some? then [StoredObject(ProductImages, file.value.objectPath)] else [])
  {
    var steps := AddProductSteps(db.nextId, d, pd, file, owner);
    var ins := InsertProduct(d.(imagenUrl := ImageUrl(d.imagenUrl, file, ProductImages)), owner);
    var price := InsertPrice(pd, db.nextId, FixedDate, owner);
    if file.Some? {
      var up := Upload(ProductImages, file.value.objectPath);
      assert steps == [up, ins, price];
      ApplyAllThree(db, up, ins, price);
    } else {
      assert steps == [ins, price];
      ApplyAllTwo(db, ins, price);
    }
  }

  /** How `addProductAndPrice` ends when nothing fails. */
  lemma AddProductSucceeds(db: Db, d: ProductData, pd: PriceData, file: Option<ImageFile>, owner: Option<string>, fault: Request -> Option<string>)
    requires NoFaults(AddProductSteps(db.nextId, d, pd, file, owner), fault)
    ensures var r := Cascade(db, AddProductSteps(db.nextId, d, pd, file, owner), fault);
      var np := Product(db.nextId, d.nombre, Some(d.descripcion), Some(d.categoria), Some(ImageUrl(d.imagenUrl, file, ProductImages)), Some(d.codigoBarras), owner);
      var pr := Price(db.nextId + 1, db.nextId, pd.establecimientoId, pd.precio, FixedDate, owner);
      && r.error.None?
      && r.db.products == db.products + [np]
      && r.db.prices == db.prices + [pr]
      && r.db.objects == db.objects + (if file.Some? then [StoredObject(ProductImages, file.value.objectPath)] else [])
  {
    CascadeAllSucceed(db, AddProductSteps(db.nextId, d, pd, file, owner), fault);
    AddProductEffect(db, d, pd, file, owner);
  }

  /**
   * addProductAndPrice with only the price insert failing: the error is the
   * price insert's, and the new product row stays in place without a price.
   */
  lemma AddProductPriceFails(db: Db, d: ProductData, pd: PriceData, file: Option<ImageFile>, owner: Option<string>, fault: Request -> Option<string>)
    requires file.Some? ==> fault(Upload(ProductImages, file.value.objectPath)).None?
    requires fault(InsertProduct(d.(imagenUrl := ImageUrl(d.imagenUrl, file, ProductImages)), owner)).None?
    requires fault(InsertPrice(pd, db.nextId, FixedDate, owner)).Some?
    ensures var r := Cascade(db, AddProductSteps(db.nextId, d, pd, file, owner), fault);
      && r.error == fault(InsertPrice(pd, db.nextId, FixedDate, owner))
      && r.db.products == db.products
           + [Product(db.nextId, d.nombre, Some(d.descripcion), Some(d.categoria), Some(ImageUrl(d.imagenUrl, file, ProductImages)), Some(d.codigoBarras), owner)]
      && r.db.prices == db.prices
  {
    var steps := AddProductSteps(db.nextId, d, pd, file, owner);
    var ins := InsertProduct(d.(imagenUrl := ImageUrl(d.imagenUrl, file, ProductImages)), owner);
    var n := |steps| - 1;
    if file.Some? {
      var up := Upload(ProductImages, file.value.objectPath);
      assert steps == [up, ins, steps[n]];
      assert steps[..n] == [up, ins];
      CascadeFailsAt(db, steps, fault, n);
      ApplyAllTwo(db, up, ins);
    } else {
      assert steps == [ins, steps[n]];
      assert steps[..n] == [ins];
      CascadeFailsAt(db, steps, fault, n);
      ApplyAllOne(db, ins);
    }
  }

  /**
   * addProductAndPrice: an upload or product-insert failure is reported before
   * any price insert is sent, and nothing is uploaded without an image file;
   * on success the new price row references the new product row and carries
   * the fixed date, and the product keeps the supplied image address unless a
   * file was uploaded.
   */
  lemma AddProductOutcome(db: Db, d: ProductData, pd: PriceData, file: Option<ImageFile>, owner: Option<string>, fault: Request -> Option<string>)
    ensures var steps := AddProductSteps(db.nextId, d, pd, file, owner);
      var r := Cascade(db, steps, fault);
      && (r.error.Some? && |r.sent| < |steps| ==> forall i :: 0 <= i < |r.sent| ==> !r.sent[i].InsertPrice?)
      && (file.None? ==> forall i :: 0 <= i < |r.sent| ==> !r.sent[i].Upload?)
      && (r.error.None? ==>
            && |r.db.products| == |db.products| + 1 && |r.db.prices| == |db.prices| + 1
            && var np := r.db.products[|db.products|];
               var pr := r.db.prices[|db.prices|];
            && np.id == db.nextId && pr.productoId == np.id
            && pr.establecimientoId == pd.establecimientoId && pr.precio == pd.precio
            && pr.fechaActualizacion == FixedDate
            && np.nombre == d.nombre && np.categoria == Some(d.categoria)
            && (file.None? ==> np.imagenUrl == Some(d.imagenUrl))
            && (file.Some? ==> np.imagenUrl == Some(PublicUrl(ProductImages, file.value.objectPath))))
  {
    var steps := AddProductSteps(db.nextId, d, pd, file, owner);
    var r := Cascade(db, steps, fault);
    assert forall i :: 0 <= i < |steps| - 1 ==> !steps[i].InsertPrice?;
    assert file.None? ==> forall i :: 0 <= i < |steps| ==> !steps[i].Upload?;
    if r.error.None? {
      CascadeSucceedsIffNoFaults(db, steps, fault);
      AddProductSucceeds(db, d, pd, file, owner, fault);
    }
  }

  /** How a plan of an optional upload followed by one write ends. */
  lemma UploadThenRun(db: Db, file: Option<ImageFile>, bucket: string, last: Request, fault: Request -> Option<string>)
    requires !last.Upload?
    ensures var r := Cascade(db, UploadSteps(file, bucket) + [last], fault);
      if file.None? then
        r == (if fault(last).Some? then Run(db, [last], fault(last)) else Run(Apply(db, last), [last], None))
      else
        var up := Upload(bucket, file.value.objectPath);
        if fault(up).Some? then r == Run(db, [up], fault(up))
        else if fault(last).Some? then r == Run(Apply(db, up), [up, last], fault(last))
        else r == Run(Apply(Apply(db, up), last), [up, last], None)
  {
    var steps := UploadSteps(file, bucket) + [last];
    if file.None? {
      assert steps == [last];
      CascadeOne(db, last, fault);
    } else {
      var up := Upload(bucket, file.value.objectPath);
      assert steps == [up, last];
      if fault(up).Some? {
        CascadeFailsAt(db, steps, fault, 0);
        assert steps[..0] == [];
      } else if fault(last).Some? {
        assert steps[..1] == [up];
        CascadeFailsAt(db, steps, fault, 1);
        ApplyAllOne(db, up);
      } else {
        CascadeAllSucceed(db, steps, fault);
        ApplyAllTwo(db, up, last);
      }
    }
  }

  /** An upload stores one object and changes no table. */
  lemma UploadEffect(db: Db, bucket: string, path: string)
    ensures var after := Apply(db, Upload(bucket, path));
      && after.objects == db.objects + [StoredObject(bucket, path)]
      && after.products == db.products && after.establishments == db.establishments
      && after.prices == db.prices && after.offers == db.offers && after.nextId == db.nextId
  {
  }

  /**
   * addEstablishment: a failed upload changes nothing and sends no insert; a
   * failed insert leaves the uploaded logo stored; on success one row is
   * appended with the next id, the form's fields, the owner, and the uploaded
   * logo's address when there was a file.
   */
  lemma AddEstablishmentOutcome(db: Db, d: EstablishmentData, file: Option<ImageFile>, owner: Option<string>, fault: Request -> Option<string>)
    ensures var r := Cascade(db, AddEstablishmentSteps(d, file, owner), fault);
      var url := ImageUrl(d.imagenUrl, file, EstablishmentLogos);
      && (file.Some? && fault(Upload(EstablishmentLogos, file.value.objectPath)).Some? ==>
            r.db == db && forall i :: 0 <= i < |r.sent| ==> !r.sent[i].InsertEstablishment?)
      && (r.error.Some? ==> r.db.establishments == db.establishments)
      && (r.error.None? ==>
            r.db.establishments == db.establishments
              + [Establishment(db.nextId, d.nombre, Some(d.direccion), Some(d.telefono), d.tipo, Some(d.horarios), Some(url), owner)])
      && r.db.products == db.products && r.db.prices == db.prices && r.db.offers == db.offers
  {
    var last := InsertEstablishment(d.(imagenUrl := ImageUrl(d.imagenUrl, file, EstablishmentLogos)), owner);
    UploadThenRun(db, file, EstablishmentLogos, last, fault);
    if file.Some? {
      UploadEffect(db, EstablishmentLogos, file.value.objectPath);
    }
  }

  /**
   * updateProduct: on success every row with the id takes the form's fields
   * (and the uploaded image's address when there was a file) and every other
   * row is unchanged; on failure the products are unchanged. No other table
   * changes either way.
   */
  lemma UpdateProductOutcome(db: Db, id: int, d: ProductData, file: Option<ImageFile>, fault: Request -> Option<string>)
    ensures var r := Cascade(db, UpdateProductSteps(id, d, file), fault);
      var url := ImageUrl(d.imagenUrl, file, ProductImages);
      && |r.db.products| == |db.products|
      && (r.error.Some? ==> r.db.products == db.products)
      && (r.error.None? ==> forall i :: 0 <= i < |db.products| ==>
            if db.products[i].id == id
            then r.db.products[i] == db.products[i].(nombre := d.nombre, descripcion := Some(d.descripcion),
                   categoria := Some(d.categoria), imagenUrl := Some(url), codigoBarras := Some(d.codigoBarras))
            else r.db.products[i] == db.products[i])
      && r.db.establishments == db.establishments && r.db.prices == db.prices && r.db.offers == db.offers
  {
    var last := Request.UpdateProduct(id, d.(imagenUrl := ImageUrl(d.imagenUrl, file, ProductImages)));
    UploadThenRun(db, file, ProductImages, last, fault);
    if file.Some? {
      UploadEffect(db, ProductImages, file.value.objectPath);
    }
  }

  /** updateEstablishment: as updateProduct, on the establishments table. */
  lemma UpdateEstablishmentOutcome(db: Db, id: int, d: EstablishmentData, file: Option<ImageFile>, fault: Request -> Option<string>)
    ensures var r := Cascade(db, UpdateEstablishmentSteps(id, d, file), fault);
      var url := ImageUrl(d.imagenUrl, file, EstablishmentLogos);
      && |r.db.establishments| == |db.establishments|
      && (r.error.Some? ==> r.db.establishments == db.establishments)
      && (r.error.None? ==> forall i :: 0 <= i < |db.establishments| ==>
            if db.establishments[i].id == id
            then r.db.establishments[i] == db.establishments[i].(nombre := d.nombre, direccion := Some(d.direccion),
                   telefono := Some(d.telefono), tipo := d.tipo, horarios := Some(d.horarios), imagenUrl := Some(url))
            else r.db.establishments[i] == db.establishments[i])
      && r.db.products == db.products && r.db.prices == db.prices && r.db.offers == db.offers
  {
    var last := Request.UpdateEstablishment(id, d.(imagenUrl := ImageUrl(d.imagenUrl, file, EstablishmentLogos)));
    UploadThenRun(db, file, EstablishmentLogos, last, fault);
    if file.Some? {
      UploadEffect(db, EstablishmentLogos, file.value.objectPath);
    }
  }

  /**
   * deletePrice: on success no row with that id remains and every other row
   * is kept; on failure nothing changes.
   */
  lemma DeletePriceOutcome(db: Db, id: int, fault: Request -> Option<string>)
    ensures var r := Cascade(db, DeletePriceSteps(id), fault);
      && (r.error.Some? ==> r.db == db)
      && (r.error.None? ==>
            && (forall i :: 0 <= i < |r.db.prices| ==> r.db.prices[i].id != id)
            && (forall i :: 0 <= i < |db.prices| && db.prices[i].id != id ==> db.prices[i] in r.db.prices)
            && r.db.products == db.products && r.db.establishments == db.establishments)
  {
    CascadeOne(db, DeletePrice(id), fault);
  }

  lemma {:induction false} ApplyAllAppend(db: Db, a: seq<Request>, b: seq<Request>)
    ensures ApplyAll(db, a + b) == ApplyAll(ApplyAll(db, a), b)
    decreases |a|
  {
    if a == [] {
      assert a + b == b;
    } else {
      assert (a + b)[1..] == a[1..] + b;
      ApplyAllAppend(Apply(db, a[0]), a[1..], b);
    }
  }

  /** updatePrice always writes the fixed date, whatever date the editor supplied. */
  lemma UpdatePriceWritesFixedDate(db: Db, id: int, u: PriceUpdate, fault: Request -> Option<string>)
    ensures var r := Cascade(db, UpdatePriceSteps(id, u), fault);
      r.error.None? ==>
        && |r.db.prices| == |db.prices|
        && forall i :: 0 <= i < |db.prices| ==>
             if db.prices[i].id == id
             then r.db.prices[i] == db.prices[i].(precio := u.precio, fechaActualizacion := FixedDate)
             else r.db.prices[i] == db.prices[i]
  {
  }
}
