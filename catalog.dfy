/** The catalog entry ("3D model") shared by the storefront and the admin panel,
    and the two id-keyed list operations both of them perform. Ids come from
    `Date.now()` and are not guaranteed unique, so every operation acts on ALL
    entries carrying the id, as the source's `map`/`filter` do. */
module Catalog {
  import opened Lists

  datatype Model3D = Model3D(id: int, name: string, price: real, image: string, tags: seq<string>, category: string)

  function Price(m: Model3D): real { m.price }

  /** The `map` callback of `updateModel`: swap in `updated` where the ids agree. */
  function ReplaceIfSameId(updated: Model3D): Model3D -> Model3D
  {
    (m: Model3D) => if m.id == updated.id then updated else m
  }

  /** `models.map(m => m.id === updated.id ? updated : m)`. */
  function ReplaceById(models: seq<Model3D>, updated: Model3D): (r: seq<Model3D>)
    ensures |r| == |models|
    ensures forall i :: 0 <= i < |models| && models[i].id == updated.id ==> r[i] == updated
    ensures forall i :: 0 <= i < |models| && models[i].id != updated.id ==> r[i] == models[i]
  {
    Map(models, ReplaceIfSameId(updated))
  }

  /** The `filter` callback of `deleteModel` and `removeFromCart`. */
  function IdIsNot(id: int): Model3D -> bool
  {
    (m: Model3D) => m.id != id
  }

  /** `models.filter(m => m.id !== id)`. */
  function RemoveById(models: seq<Model3D>, id: int): (r: seq<Model3D>)
    ensures forall i :: 0 <= i < |r| ==> r[i].id != id && r[i] in models
    ensures forall i :: 0 <= i < |models| && models[i].id != id ==> models[i] in r
  {
    Filter(models, IdIsNot(id))
  }

  /** With no entry carrying the id, replacing changes nothing. */
  lemma ReplaceAbsentId(models: seq<Model3D>, updated: Model3D)
    requires forall i :: 0 <= i < |models| ==> models[i].id != updated.id
    ensures ReplaceById(models, updated) == models
  {
  }

  /** Replacing twice with the same entry is replacing once. */
  lemma ReplaceByIdIdempotent(models: seq<Model3D>, updated: Model3D)
    ensures ReplaceById(ReplaceById(models, updated), updated) == ReplaceById(models, updated)
  {
  }

  /** Removing by id keeps every other entry with its multiplicity, and keeps
      the survivors in their original order. */
  lemma RemoveByIdSpec(models: seq<Model3D>, id: int)
    ensures forall m :: multiset(RemoveById(models, id))[m] == if m.id == id then 0 else multiset(models)[m]
    ensures IsSubsequence(RemoveById(models, id), models)
  {
    forall m ensures multiset(RemoveById(models, id))[m] == if m.id == id then 0 else multiset(models)[m] {
      FilterCounts(models, IdIsNot(id), m);
    }
    FilterIsSubsequence(models, IdIsNot(id));
  }

  /** Removing an id that no entry carries changes nothing; otherwise the list shrinks. */
  lemma RemoveByIdShrinks(models: seq<Model3D>, id: int)
    ensures RemoveById(models, id) == models <==> forall i :: 0 <= i < |models| ==> models[i].id != id
  {
    FilterKeepsAll(models, IdIsNot(id));
  }
}
