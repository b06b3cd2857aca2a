/** Id-to-name lookups shared by the admin tables and the search results page. */
module AdminUtils {
  import opened Wrappers
  import opened Seqs
  import opened Entities

  const Unknown := "Desconocido"

  function FindEstablishment(establishments: seq<Establishment>, id: int): Option<Establishment>
  {
    Find(establishments, (e: Establishment) => e.id == id)
  }

  function FindProduct(products: seq<Product>, id: int): Option<Product>
  {
    Find(products, (p: Product) => p.id == id)
  }

  /** `getEstablishmentName`: the name of the first establishment with that id, or 'Desconocido'. */
  function GetEstablishmentName(id: int, establishments: seq<Establishment>): (name: string)
    ensures (exists i :: 0 <= i < |establishments| && establishments[i].id == id) ==>
      exists i :: 0 <= i < |establishments| && establishments[i].id == id && name == establishments[i].nombre
        && forall j :: 0 <= j < i ==> establishments[j].id != id
    ensures (forall i :: 0 <= i < |establishments| ==> establishments[i].id != id) ==> name == Unknown
  {
    var found := FindEstablishment(establishments, id);
    if found.Some? then
      ghost var i := FirstEstablishmentIndex(establishments, id);
      found.value.nombre
    else Unknown
  }

  ghost function FirstEstablishmentIndex(es: seq<Establishment>, id: int): (i: nat)
    requires exists i :: 0 <= i < |es| && es[i].id == id
    ensures i < |es| && es[i].id == id && forall j :: 0 <= j < i ==> es[j].id != id
    ensures FindEstablishment(es, id) == Some(es[i])
  {
    if es[0].id == id then 0
    else
      assert exists i :: 0 <= i < |es[1..]| && es[1..][i].id == id by {
        var k :| 0 <= k < |es| && es[k].id == id;
        assert es[1..][k - 1] == es[k];
      }
      1 + FirstEstablishmentIndex(es[1..], id)
  }

  /** `getProductName`: the name of the first product with that id, or 'Desconocido'. */
  function GetProductName(id: int, products: seq<Product>): (name: string)
    ensures (exists i :: 0 <= i < |products| && products[i].id == id) ==>
      exists i :: 0 <= i < |products| && products[i].id == id && name == products[i].nombre
        && forall j :: 0 <= j < i ==> products[j].id != id
    ensures (forall i :: 0 <= i < |products| ==> products[i].id != id) ==> name == Unknown
  {
    var found := FindProduct(products, id);
    if found.Some? then
      ghost var i := FirstProductIndex(products, id);
      found.value.nombre
    else Unknown
  }

  ghost function FirstProductIndex(ps: seq<Product>, id: int): (i: nat)
    requires exists i :: 0 <= i < |ps| && ps[i].id == id
    ensures i < |ps| && ps[i].id == id && forall j :: 0 <= j < i ==> ps[j].id != id
    ensures FindProduct(ps, id) == Some(ps[i])
  {
    if ps[0].id == id then 0
    else
      assert exists i :: 0 <= i < |ps[1..]| && ps[1..][i].id == id by {
        var k :| 0 <= k < |ps| && ps[k].id == id;
        assert ps[1..][k - 1] == ps[k];
      }
      1 + FirstProductIndex(ps[1..], id)
  }

  /**
   * The lookup reports 'Desconocido' exactly when no establishment has the id,
   * provided no establishment is itself named 'Desconocido'.
   */
  lemma EstablishmentUnknownIff(id: int, establishments: seq<Establishment>)
    requires forall i :: 0 <= i < |establishments| ==> establishments[i].nombre != Unknown
    ensures GetEstablishmentName(id, establishments) == Unknown
        <==> forall i :: 0 <= i < |establishments| ==> establishments[i].id != id
  {
  }

  lemma ProductUnknownIff(id: int, products: seq<Product>)
    requires forall i :: 0 <= i < |products| ==> products[i].nombre != Unknown
    ensures GetProductName(id, products) == Unknown
        <==> forall i :: 0 <= i < |products| ==> products[i].id != id
  {
  }

  /** Only the first matching establishment matters: rows after it never change the name. */
  lemma EstablishmentNameIgnoresLaterRows(id: int, establishments: seq<Establishment>, later: seq<Establishment>)
    requires exists i :: 0 <= i < |establishments| && establishments[i].id == id
    ensures GetEstablishmentName(id, establishments + later) == GetEstablishmentName(id, establishments)
  {
    FindIgnoresSuffix(establishments, later, (e: Establishment) => e.id == id);
  }

  lemma ProductNameIgnoresLaterRows(id: int, products: seq<Product>, later: seq<Product>)
    requires exists i :: 0 <= i < |products| && products[i].id == id
    ensures GetProductName(id, products + later) == GetProductName(id, products)
  {
    FindIgnoresSuffix(products, later, (p: Product) => p.id == id);
  }
}
