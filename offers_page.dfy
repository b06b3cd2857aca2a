/**
 * The offers page: the active offers, narrowed by the type of the
 * establishment that publishes them, and the "ends soon" badge.
 */
module OffersPage {
  import opened Seqs
  import opened Entities
  import opened AdminUtils

  /** The type selector's values; `All` is the initial one. */
  const All := "all"
  const Supermercado := "supermercado"
  const Mayorista := "mayorista"

  /** `activeOffers`: the offers whose `activa` flag is set, in order. */
  function ActiveOffers(offers: seq<Offer>): (r: seq<Offer>)
    ensures IsSubsequence(r, offers)
    ensures forall i :: 0 <= i < |r| ==> r[i].activa
    ensures forall i :: 0 <= i < |offers| && offers[i].activa ==> offers[i] in r
  {
    Filter(offers, (o: Offer) => o.activa)
  }

  /** The offer's establishment exists and has type `tipo`. */
  predicate OfType(es: seq<Establishment>, o: Offer, tipo: string)
  {
    var e := FindEstablishment(es, o.establecimientoId);
    e.Some? && e.value.tipo == tipo
  }

  /**
   * An offer is of a type exactly when the first establishment carrying its
   * establishment id has that type; a dangling id is of no type.
   */
  lemma OfTypeIff(es: seq<Establishment>, o: Offer, tipo: string)
    ensures (forall i :: 0 <= i < |es| ==> es[i].id != o.establecimientoId) ==> !OfType(es, o, tipo)
    ensures (exists i :: 0 <= i < |es| && es[i].id == o.establecimientoId) ==>
      (OfType(es, o, tipo) <==> es[FirstEstablishmentIndex(es, o.establecimientoId)].tipo == tipo)
  {
  }

  /**
   * `filteredOffers`: every active offer for `"all"`; otherwise the active
   * offers whose establishment exists and has the selected type.
   */
  function FilteredOffers(offers: seq<Offer>, es: seq<Establishment>, selectedType: string): (r: seq<Offer>)
    ensures IsSubsequence(r, ActiveOffers(offers))
    ensures selectedType == All ==> r == ActiveOffers(offers)
    ensures selectedType != All ==>
      && (forall i :: 0 <= i < |r| ==> r[i].activa && OfType(es, r[i], selectedType))
      && (forall i :: 0 <= i < |offers| && offers[i].activa && OfType(es, offers[i], selectedType) ==> offers[i] in r)
  {
    if selectedType == All then
      SubsequenceReflexive(ActiveOffers(offers));
      ActiveOffers(offers)
    else Filter(ActiveOffers(offers), (o: Offer) => OfType(es, o, selectedType))
  }

  /** The count shown on a type button: the active offers whose establishment has that type. */
  function BadgeCount(offers: seq<Offer>, es: seq<Establishment>, tipo: string): (r: nat)
    ensures r <= |ActiveOffers(offers)|
    ensures tipo != All ==> r == |FilteredOffers(offers, es, tipo)|
  {
    |Filter(ActiveOffers(offers), (o: Offer) => OfType(es, o, tipo))|
  }

  /**
   * Each type button's count is the number of offers listed once that type is
   * selected, and an offer counts under at most one of the two buttons, so
   * together they never exceed the count on the "all" button.
   */
  lemma BadgeCounts(offers: seq<Offer>, es: seq<Establishment>)
    ensures BadgeCount(offers, es, Supermercado) == |FilteredOffers(offers, es, Supermercado)|
    ensures BadgeCount(offers, es, Mayorista) == |FilteredOffers(offers, es, Mayorista)|
    ensures BadgeCount(offers, es, Supermercado) + BadgeCount(offers, es, Mayorista)
         <= |FilteredOffers(offers, es, All)|
  {
    var active := ActiveOffers(offers);
    FilterDisjoint(active, (o: Offer) => OfType(es, o, Supermercado), (o: Offer) => OfType(es, o, Mayorista));
  }

  /** One day in milliseconds, the divisor of the day difference. */
  const MsPerDay := 1000 * 60 * 60 * 24

  /** `Math.ceil(a / b)` for a positive divisor. */
  function CeilDiv(a: int, b: int): (r: int)
    requires b > 0
    ensures (r - 1) * b < a <= r * b
  {
    var q := (-a) / b;
    assert -a == q * b + (-a) % b;
    -q
  }

  /**
   * `isOfferExpiringSoon`, given the time to the offer's end in milliseconds:
   * the day difference, rounded up, lies in 1..3.
   */
  predicate IsOfferExpiringSoon(diffMs: int)
  {
    var diffDays := CeilDiv(diffMs, MsPerDay);
    diffDays <= 3 && diffDays > 0
  }

  /** The badge shows exactly when the end lies less than or exactly three days ahead. */
  lemma ExpiringSoonIff(diffMs: int)
    ensures IsOfferExpiringSoon(diffMs) <==> 0 < diffMs <= 3 * MsPerDay
  {
    var d := CeilDiv(diffMs, MsPerDay);
    if d <= 0 {
      assert d * MsPerDay <= 0;
    } else if d >= 4 {
      assert (d - 1) * MsPerDay >= 3 * MsPerDay;
    }
  }
}
