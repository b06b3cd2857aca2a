/**
 * The four catalogue tables and the payloads the admin forms send.
 * A text column that may hold NULL is an `Option<string>`: `None` is NULL,
 * `Some("")` an empty text. The names, the establishment type and the offer
 * description are plain strings. Amounts are integers.
 */
module Entities {
  import opened Wrappers

  datatype Product = Product(
    id: int,
    nombre: string,
    descripcion: Option<string>,
    categoria: Option<string>,
    imagenUrl: Option<string>,
    codigoBarras: Option<string>,
    userId: Option<string>)

  datatype Establishment = Establishment(
    id: int,
    nombre: string,
    direccion: Option<string>,
    telefono: Option<string>,
    tipo: string,
    horarios: Option<string>,
    imagenUrl: Option<string>,
    userId: Option<string>)

  datatype Price = Price(
    id: int,
    productoId: int,
    establecimientoId: int,
    precio: int,
    fechaActualizacion: string,
    userId: Option<string>)

  datatype Offer = Offer(
    id: int,
    establecimientoId: int,
    descripcion: string,
    descuento: int,
    fechaInicio: string,
    fechaFin: string,
    activa: bool)

  /** The product columns a form sends: `nombre`, `descripcion`, `categoria`, `imagen_url`, `codigo_barras`. */
  datatype ProductData = ProductData(
    nombre: string,
    descripcion: string,
    categoria: string,
    imagenUrl: string,
    codigoBarras: string)

  datatype EstablishmentData = EstablishmentData(
    nombre: string,
    direccion: string,
    telefono: string,
    tipo: string,
    horarios: string,
    imagenUrl: string)

  /** The price columns sent with a new product: `establecimiento_id` and `precio`. */
  datatype PriceData = PriceData(establecimientoId: int, precio: int)

  /** What the price editor sends: an amount and a date (the store overrides the date). */
  datatype PriceUpdate = PriceUpdate(precio: int, fechaActualizacion: string)

  /** A nullable column read for its truth value: present and not empty. */
  predicate Filled(c: Option<string>)
  {
    c.Some? && c.value != ""
  }

  /** A product augmented by the search with its price rows and the lowest amount among them. */
  datatype SearchResult = SearchResult(product: Product, prices: seq<Price>, minPrice: int)
}
