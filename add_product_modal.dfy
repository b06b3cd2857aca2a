/**
 * The admin's product form: in create mode it adds a product with its first
 * price, in edit mode it updates the product's own columns only.
 */
module AddProductModal {
  import opened Wrappers
  import opened Entities
  import opened Toasts
  import opened Backend
  import opened CatalogStore

  /**
   * The form's fields. The establishment select and the price box are empty
   * (`''`) or hold a value; a price text is represented by the amount it parses to.
   */
  datatype FormData = FormData(
    nombre: string,
    descripcion: string,
    categoria: string,
    imagenUrl: string,
    codigoBarras: string,
    establecimientoId: Option<int>,
    precio: Option<int>)

  const EmptyForm := FormData("", "", "", "", "", None, None)

  /**
   * The form as opened on `p`: its own columns copied, a NULL one as `''`;
   * establishment and price blank. A nullable column shows text exactly when
   * it is truthy, and the form never passes the create-mode guard.
   */
  function EditForm(p: Product): (r: FormData)
    ensures r.nombre == p.nombre
    ensures Filled(p.descripcion) <==> r.descripcion != ""
    ensures Filled(p.categoria) <==> r.categoria != ""
    ensures Filled(p.imagenUrl) <==> r.imagenUrl != ""
    ensures Filled(p.codigoBarras) <==> r.codigoBarras != ""
    ensures !Complete(r)
  {
    FormData(p.nombre, p.descripcion.GetOr(""), p.categoria.GetOr(""), p.imagenUrl.GetOr(""),
             p.codigoBarras.GetOr(""), None, None)
  }

  /** `productData`: the five product columns of the form, in both modes. */
  function DataOf(f: FormData): ProductData
  {
    ProductData(f.nombre, f.descripcion, f.categoria, f.imagenUrl, f.codigoBarras)
  }

  predicate NoNullColumn(p: Product)
  {
    p.descripcion.Some? && p.categoria.Some? && p.imagenUrl.Some? && p.codigoBarras.Some?
  }

  /**
   * Opening a product for editing and saving it untouched rewrites its row so:
   * id, owner and name stay, a column holding text keeps it, and a NULL column
   * becomes `''`. The row comes back unchanged exactly when no column was NULL.
   */
  lemma EditRoundTrip(p: Product)
    ensures var q := WithProductData(p, DataOf(EditForm(p)));
      && q.id == p.id && q.userId == p.userId && q.nombre == p.nombre
      && (p.descripcion.Some? ==> q.descripcion == p.descripcion) && (p.descripcion.None? ==> q.descripcion == Some(""))
      && (p.categoria.Some? ==> q.categoria == p.categoria) && (p.categoria.None? ==> q.categoria == Some(""))
      && (p.imagenUrl.Some? ==> q.imagenUrl == p.imagenUrl) && (p.imagenUrl.None? ==> q.imagenUrl == Some(""))
      && (p.codigoBarras.Some? ==> q.codigoBarras == p.codigoBarras) && (p.codigoBarras.None? ==> q.codigoBarras == Some(""))
    ensures WithProductData(p, DataOf(EditForm(p))) == p <==> NoNullColumn(p)
  {
  }

  /** The create-mode guard: both the establishment and the price are filled in. */
  predicate Complete(f: FormData)
  {
    f.establecimientoId.Some? && f.precio.Some?
  }

  /**
   * The guard ignores the product's own columns: a cleared form fails it,
   * clearing either of the two fields fails it, and filling both passes it.
   */
  lemma GuardNeedsEstablishmentAndPrice(f: FormData, e: int, x: int)
    ensures !Complete(EmptyForm)
    ensures !Complete(f.(establecimientoId := None)) && !Complete(f.(precio := None))
    ensures Complete(f.(establecimientoId := Some(e), precio := Some(x)))
    ensures Complete(f) == Complete(EmptyForm.(establecimientoId := f.establecimientoId, precio := f.precio))
  {
  }

  /** The product columns sent do not depend on the establishment select or the price box. */
  lemma DataOfIgnoresPriceFields(f: FormData, e: Option<int>, x: Option<int>)
    ensures DataOf(f.(establecimientoId := e, precio := x)) == DataOf(f)
  {
  }

  /** A row saved from a form reopens in the editor with the same five columns. */
  lemma SavedFormReopensUnchanged(p: Product, f: FormData)
    ensures DataOf(EditForm(WithProductData(p, DataOf(f)))) == DataOf(f)
  {
  }

  /** `error.message || fallback`: an absent or empty message gives the fallback. */
  function MessageOr(e: Option<string>, fallback: string): (r: string)
    ensures e.Some? && e.value != "" ==> r == e.value
    ensures e.None? || e.value == "" ==> r == fallback
    ensures fallback != "" ==> r != ""
  {
    if e.Some? && e.value != "" then e.value else fallback
  }

  const UpdateErrorTitle := "Error al actualizar"
  const UpdateErrorDefault := "Hubo un problema al guardar los cambios."
  const UpdatedToast := Toast(false, "¡Producto actualizado!", "Los cambios se han guardado correctamente.")
  const RequiredToast := Toast(true, "Campos requeridos", "Por favor, selecciona un establecimiento y agrega un precio.")
  const AddErrorTitle := "Error al agregar producto"
  const AddErrorDefault := "Hubo un problema al guardar."
  const AddedToast := Toast(false, "¡Producto agregado!", "El nuevo producto y su precio se han guardado correctamente.")

  /** The toast after `updateProduct` reports `error`. */
  function UpdateToast(error: Option<string>): (t: Toast)
    ensures t.destructive <==> error.Some?
    ensures error.Some? ==> t.title == UpdateErrorTitle && t.description == MessageOr(error, UpdateErrorDefault)
    ensures error.None? ==> t == UpdatedToast
    ensures t.title != "" && t.description != ""
  {
    if error.Some? then Toast(true, UpdateErrorTitle, MessageOr(error, UpdateErrorDefault)) else UpdatedToast
  }

  /**
   * The toast after `addProductAndPrice`: `productError?.message ||
   * priceError?.message || fallback`, where at most one of the two is set.
   */
  function AddToast(error: Option<string>): (t: Toast)
    ensures t.destructive <==> error.Some?
    ensures error.Some? ==> t.title == AddErrorTitle && t.description == MessageOr(error, AddErrorDefault)
    ensures error.None? ==> t == AddedToast
    ensures t.title != "" && t.description != ""
  {
    if error.Some? then Toast(true, AddErrorTitle, MessageOr(error, AddErrorDefault)) else AddedToast
  }

  class Modal {
    var form: FormData
    var imageFile: Option<ImageFile>
    var imagePreview: string
    var isSubmitting: bool
    /** The parent's `isOpen` and `productToEdit`, which the modal clears on close. */
    var isOpen: bool
    var productToEdit: Option<Product>
    var toasts: seq<Toast>
    const store: Store

    constructor(store0: Store, isOpen0: bool, productToEdit0: Option<Product>)
      ensures store == store0 && isOpen == isOpen0 && productToEdit == productToEdit0
      ensures form == EmptyForm && imageFile.None? && imagePreview == "" && !isSubmitting && toasts == []
    {
      store := store0;
      isOpen := isOpen0;
      productToEdit := productToEdit0;
      form := EmptyForm;
      imageFile := None;
      imagePreview := "";
      isSubmitting := false;
      toasts := [];
    }

    /**
     * The effect run on opening: edit mode loads the product's columns and its
     * image as preview; create mode clears every field. No file is kept.
     */
    method Init()
      modifies this`form, this`imageFile, this`imagePreview
      ensures productToEdit.Some? ==> form == EditForm(productToEdit.value) && imagePreview == productToEdit.value.imagenUrl.GetOr("")
      ensures productToEdit.None? ==> form == EmptyForm && imagePreview == ""
      ensures imageFile.None? && !Complete(form)
    {
      if productToEdit.Some? {
        form := EditForm(productToEdit.value);
        imagePreview := productToEdit.value.imagenUrl.GetOr("");
      } else {
        form := EmptyForm;
        imagePreview := "";
      }
      imageFile := None;
    }

    /** The establishment select. */
    method HandleSelectChange(v: Option<int>)
      modifies this`form
      ensures form == old(form).(establecimientoId := v)
    {
      form := form.(establecimientoId := v);
    }

    /** Choosing a file keeps it and shows its preview (the reader's data URL); no file changes nothing. */
    method HandleImageChange(file: Option<ImageFile>, preview: string)
      modifies this`imageFile, this`imagePreview
      ensures file.Some? ==> imageFile == file && imagePreview == preview
      ensures file.None? ==> imageFile == old(imageFile) && imagePreview == old(imagePreview)
    {
      if file.Some? {
        imageFile := file;
        imagePreview := preview;
      }
    }

    /** `handleClose`. */
    method Close()
      modifies this`isOpen, this`productToEdit
      ensures !isOpen && productToEdit.None?
    {
      isOpen := false;
      productToEdit := None;
    }

    /**
     * `handleSubmit`. Edit mode updates the edited product, whatever the
     * establishment and price fields hold. Create mode with either of them
     * empty raises the "required fields" toast and sends nothing; otherwise it
     * adds the product with its price. The modal closes only when the
     * operation reports no error, and the form is never left submitting.
     */
    method HandleSubmit()
      modifies this`isSubmitting, this`toasts, this`isOpen, this`productToEdit, store`db, store`state
      ensures !isSubmitting
      ensures old(productToEdit).Some? ==>
        var run := Cascade(old(store.db), UpdateProductSteps(old(productToEdit).value.id, DataOf(form), imageFile), store.fault);
        && store.db == run.db
        && store.state == (if run.error.None? then Loaded(old(store.state), store.db, store.fault) else old(store.state))
        && toasts == old(toasts) + [UpdateToast(run.error)]
        && (run.error.None? ==> !isOpen && productToEdit.None?)
        && (run.error.Some? ==> isOpen == old(isOpen) && productToEdit == old(productToEdit))
      ensures old(productToEdit).None? && !Complete(form) ==>
        && store.db == old(store.db) && store.state == old(store.state)
        && toasts == old(toasts) + [RequiredToast]
        && isOpen == old(isOpen) && productToEdit == old(productToEdit)
      ensures old(productToEdit).None? && Complete(form) ==>
        var pd := PriceData(form.establecimientoId.value, form.precio.value);
        var run := Cascade(old(store.db), AddProductSteps(old(store.db).nextId, DataOf(form), pd, imageFile, store.user), store.fault);
        && store.db == run.db
        && store.state == (if run.error.None? then Loaded(old(store.state), store.db, store.fault) else old(store.state))
        && toasts == old(toasts) + [AddToast(run.error)]
        && (run.error.None? ==> !isOpen && productToEdit.None?)
        && (run.error.Some? ==> isOpen == old(isOpen) && productToEdit == old(productToEdit))
    {
      isSubmitting := true;
      if productToEdit.Some? {
        SubmitEdit();
      } else {
        SubmitCreate();
      }
      isSubmitting := false;
    }

    /** The edit-mode branch of `handleSubmit`. */
    method SubmitEdit()
      requires productToEdit.Some?
      modifies this`toasts, this`isOpen, this`productToEdit, store`db, store`state
      ensures var run := Cascade(old(store.db), UpdateProductSteps(old(productToEdit).value.id, DataOf(form), imageFile), store.fault);
        && store.db == run.db
        && store.state == (if run.error.None? then Loaded(old(store.state), store.db, store.fault) else old(store.state))
        && toasts == old(toasts) + [UpdateToast(run.error)]
        && (run.error.None? ==> !isOpen && productToEdit.None?)
        && (run.error.Some? ==> isOpen == old(isOpen) && productToEdit == old(productToEdit))
    {
      var id, d, file := productToEdit.value.id, DataOf(form), imageFile;
      var error := store.UpdateProduct(id, d, file);
      toasts := toasts + [UpdateToast(error)];
      if error.None? {
        isOpen := false;
        productToEdit := None;
      }
    }

    /** The create-mode branch of `handleSubmit`. */
    method SubmitCreate()
      modifies this`toasts, this`isOpen, this`productToEdit, store`db, store`state
      ensures !Complete(form) ==>
        && store.db == old(store.db) && store.state == old(store.state)
        && toasts == old(toasts) + [RequiredToast]
        && isOpen == old(isOpen) && productToEdit == old(productToEdit)
      ensures Complete(form) ==>
        var pd := PriceData(form.establecimientoId.value, form.precio.value);
        var run := Cascade(old(store.db), AddProductSteps(old(store.db).nextId, DataOf(form), pd, imageFile, store.user), store.fault);
        && store.db == run.db
        && store.state == (if run.error.None? then Loaded(old(store.state), store.db, store.fault) else old(store.state))
        && toasts == old(toasts) + [AddToast(run.error)]
        && (run.error.None? ==> !isOpen && productToEdit.None?)
        && (run.error.Some? ==> isOpen == old(isOpen) && productToEdit == old(productToEdit))
    {
      if form.establecimientoId.None? || form.precio.None? {
        toasts := toasts + [RequiredToast];
        return;
      }
      var pd, d, file := PriceData(form.establecimientoId.value, form.precio.value), DataOf(form), imageFile;
      var productError, priceError := store.AddProductAndPrice(d, pd, file);
      var error := if productError.Some? && productError.value != "" then productError
                   else if priceError.Some? then priceError
                   else productError;
      toasts := toasts + [AddToast(error)];
      if productError.None? && priceError.None? {
        isOpen := false;
        productToEdit := None;
      }
    }
  }
}
