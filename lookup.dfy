/** Lookups by id in the catalog and in a customer's owned list. */
module Lookup {
  import opened Items

  /** The position of the first catalog entry with id `id`, if any. */
  function CatalogIndex(catalog: seq<Item>, id: string): (r: Option<nat>)
    ensures r.Some? ==> r.value < |catalog| && catalog[r.value].id == id
    ensures r.Some? ==> forall j :: 0 <= j < r.value ==> catalog[j].id != id
    ensures r.None? ==> forall j :: 0 <= j < |catalog| ==> catalog[j].id != id
  {
    if |catalog| == 0 then None
    else if catalog[0].id == id then Some(0)
    else
      match CatalogIndex(catalog[1..], id)
      case None => None
      case Some(k) => Some(k + 1)
  }

  /** The position of the first owned copy with id `id`, if any. The same
      search as CatalogIndex, written out again for the owned-copy type so that
      both lookups and the lemmas about them stay first-order (no key
      projection passed as a function value). */
  function OwnedIndex(owned: seq<OwnedItem>, id: string): (r: Option<nat>)
    ensures r.Some? ==> r.value < |owned| && owned[r.value].id == id
    ensures r.Some? ==> forall j :: 0 <= j < r.value ==> owned[j].id != id
    ensures r.None? ==> forall j :: 0 <= j < |owned| ==> owned[j].id != id
  {
    if |owned| == 0 then None
    else if owned[0].id == id then Some(0)
    else
      match OwnedIndex(owned[1..], id)
      case None => None
      case Some(k) => Some(k + 1)
  }

  /** Some owned copy has id `id`. */
  predicate Owns(owned: seq<OwnedItem>, id: string)
  {
    exists i :: 0 <= i < |owned| && owned[i].id == id
  }

  /** No two owned copies share an id. */
  predicate UniqueIds(owned: seq<OwnedItem>)
  {
    forall i, j :: 0 <= i < j < |owned| ==> owned[i].id != owned[j].id
  }

  /** `s` without its element at position `i`, the others in their order. */
  function RemoveAt<T>(s: seq<T>, i: nat): seq<T>
    requires i < |s|
  {
    s[..i] + s[i + 1..]
  }

  /** Owning an id and finding a first position for it are the same thing. */
  lemma OwnsIffIndexed(owned: seq<OwnedItem>, id: string)
    ensures Owns(owned, id) <==> OwnedIndex(owned, id).Some?
  {
    if OwnedIndex(owned, id).Some? {
      assert owned[OwnedIndex(owned, id).value].id == id;
    }
  }

  /** The first match is unique: a position with the id and none before it
      is the one OwnedIndex finds. */
  lemma OwnedIndexIsFirst(owned: seq<OwnedItem>, id: string, i: nat)
    requires i < |owned| && owned[i].id == id
    requires forall j :: 0 <= j < i ==> owned[j].id != id
    ensures OwnedIndex(owned, id) == Some(i)
  {
  }

  /** The lookup depends only on the ids, position by position. */
  lemma {:induction false} OwnedIndexOnlyReadsIds(a: seq<OwnedItem>, b: seq<OwnedItem>, id: string)
    requires |a| == |b|
    requires forall j :: 0 <= j < |a| ==> a[j].id == b[j].id
    ensures OwnedIndex(a, id) == OwnedIndex(b, id)
  {
    if |a| > 0 && a[0].id != id {
      OwnedIndexOnlyReadsIds(a[1..], b[1..], id);
    }
  }
}
