/** The storefront page: the catalog filter (case-insensitive search on name and
    tags, plus a category filter whose wildcard is "Все") and the shopping cart
    with its total and item count. */
module Storefront {
  import opened Lists
  import opened Text
  import opened Catalog

  /** The category button that admits every entry. */
  const AllCategories: string := "Все"

  /** The category buttons, wildcard first. */
  const Categories: seq<string> := [AllCategories, "Abstract", "Characters", "Decorative"]

  /** `model.name.toLowerCase().includes(term.toLowerCase()) ||
      model.tags.some(tag => tag.toLowerCase().includes(term.toLowerCase()))`. */
  predicate MatchesSearch(m: Model3D, term: string): (b: bool)
    ensures |term| == 0 ==> b
    ensures Contains(Lower(m.name), Lower(term)) ==> b
  {
    ContainsEmpty(Lower(m.name));
    Contains(Lower(m.name), Lower(term))
    || exists i :: 0 <= i < |m.tags| && Contains(Lower(m.tags[i]), Lower(term))
  }

  /** `selectedCategory === 'Все' || model.category === selectedCategory`. */
  predicate MatchesCategory(m: Model3D, category: string): (b: bool)
    ensures category == AllCategories ==> b
    ensures category != AllCategories ==> (b <==> m.category == category)
  {
    category == AllCategories || m.category == category
  }

  /** The `filter` callback of `filteredModels`. */
  function Visible(term: string, category: string): Model3D -> bool
  {
    (m: Model3D) => MatchesSearch(m, term) && MatchesCategory(m, category)
  }

  /** `filteredModels`: the entries passing both the search and the category test. */
  function FilteredModels(models: seq<Model3D>, term: string, category: string): (r: seq<Model3D>)
    ensures forall i :: 0 <= i < |r| ==> r[i] in models && MatchesSearch(r[i], term) && MatchesCategory(r[i], category)
    ensures forall i :: 0 <= i < |models| && MatchesSearch(models[i], term) && MatchesCategory(models[i], category)
              ==> models[i] in r
  {
    Filter(models, Visible(term, category))
  }

  /** The shown entries keep the catalog order, and each matching entry is shown
      as many times as it occurs. */
  lemma FilteredInCatalogOrder(models: seq<Model3D>, term: string, category: string)
    ensures IsSubsequence(FilteredModels(models, term, category), models)
    ensures forall m :: multiset(FilteredModels(models, term, category))[m]
              == if MatchesSearch(m, term) && MatchesCategory(m, category) then multiset(models)[m] else 0
  {
    FilterIsSubsequence(models, Visible(term, category));
    forall m ensures multiset(FilteredModels(models, term, category))[m]
              == if MatchesSearch(m, term) && MatchesCategory(m, category) then multiset(models)[m] else 0 {
      FilterCounts(models, Visible(term, category), m);
    }
  }

  /** A search term matches exactly when its lower-case form occurs in the lower-case
      name or in some lower-case tag. */
  lemma MatchesSearchIff(m: Model3D, term: string)
    ensures MatchesSearch(m, term) <==>
              (exists k :: OccursAt(Lower(m.name), Lower(term), k))
              || exists i, k :: 0 <= i < |m.tags| && OccursAt(Lower(m.tags[i]), Lower(term), k)
  {
    ContainsIff(Lower(m.name), Lower(term));
    forall i | 0 <= i < |m.tags| {
      ContainsIff(Lower(m.tags[i]), Lower(term));
    }
  }

  /** The search ignores letter case in the term. */
  lemma SearchIgnoresCase(m: Model3D, term: string)
    ensures MatchesSearch(m, term) == MatchesSearch(m, Lower(term))
  {
    LowerIdempotent(term);
  }

  /** With an empty search and the wildcard category, the whole catalog is shown. */
  lemma UnfilteredShowsAll(models: seq<Model3D>)
    ensures FilteredModels(models, "", AllCategories) == models
  {
    FilterKeepsAll(models, Visible("", AllCategories));
  }

  /** The entries of one category. */
  function InCategory(category: string): Model3D -> bool
  {
    (m: Model3D) => m.category == category
  }

  /** Any category other than the wildcard admits exactly the entries of that category. */
  lemma CategoryFilterExact(models: seq<Model3D>, category: string)
    requires category != AllCategories
    ensures FilteredModels(models, "", category) == Filter(models, InCategory(category))
    decreases |models|
  {
    if models != [] {
      CategoryFilterExact(models[1..], category);
    }
  }

  /** The `filter` callback selecting the cart entries `removeFromCart` drops. */
  function IdIs(id: int): Model3D -> bool
  {
    (m: Model3D) => m.id == id
  }

  /** `cart.reduce((sum, item) => sum + item.price, 0)`. */
  function Total(cart: seq<Model3D>): real
  {
    Sum(cart, Price)
  }

  /** Adding an entry raises the total by its price. */
  lemma TotalAfterAdd(cart: seq<Model3D>, m: Model3D)
    ensures Total(cart + [m]) == Total(cart) + m.price
  {
    assert (cart + [m])[..|cart|] == cart;
  }

  /** Removing by id lowers the total by the prices of exactly the removed entries,
      and the count by their number. */
  lemma TotalAfterRemove(cart: seq<Model3D>, id: int)
    ensures Total(RemoveById(cart, id)) == Total(cart) - Total(Filter(cart, IdIs(id)))
    ensures |RemoveById(cart, id)| == |cart| - |Filter(cart, IdIs(id))|
  {
    SumFilterSplit(cart, IdIsNot(id), IdIs(id), Price);
    FilterLengthSplit(cart, IdIsNot(id), IdIs(id));
  }

  /** The storefront page's cart state. */
  class IndexPage {
    var cart: seq<Model3D>

    constructor ()
      ensures cart == []
    {
      cart := [];
    }

    /** `cartTotal`. */
    function CartTotal(): (r: real)
      reads this
      ensures cart == [] ==> r == 0.0
      ensures (forall i :: 0 <= i < |cart| ==> cart[i].price >= 0.0) ==> r >= 0.0
    {
      Total(cart)
    }

    /** `cartCount`. */
    function CartCount(): (n: nat)
      reads this
      ensures n == 0 <==> cart == []
    {
      |cart|
    }

    /** `addToCart`: append, duplicates allowed. */
    method AddToCart(m: Model3D)
      modifies this
      ensures cart == old(cart) + [m]
      ensures CartCount() == old(CartCount()) + 1
      ensures CartTotal() == old(CartTotal()) + m.price
    {
      TotalAfterAdd(cart, m);
      cart := cart + [m];
    }

    /** `removeFromCart`: drop every entry with the id, keep the rest in order. */
    method RemoveFromCart(id: int)
      modifies this
      ensures cart == RemoveById(old(cart), id)
      ensures CartCount() == old(CartCount()) - |Filter(old(cart), IdIs(id))|
      ensures CartTotal() == old(CartTotal()) - Total(Filter(old(cart), IdIs(id)))
    {
      TotalAfterRemove(cart, id);
      cart := Filter(cart, IdIsNot(id));
    }
  }

  /** Every entry of the store's catalog sits under one of the category buttons
      other than the wildcard. */
  lemma StoreCatalogCategorized()
    ensures forall i :: 0 <= i < |StoreCatalog| ==> StoreCatalog[i].category in Categories[1..]
  {
  }

  /** On first render (empty search, wildcard category) the whole catalog is shown. */
  lemma StoreCatalogInitiallyShown()
    ensures FilteredModels(StoreCatalog, "", AllCategories) == StoreCatalog
  {
    UnfilteredShowsAll(StoreCatalog);
  }

  /** The catalog the storefront shows. */
  const StoreCatalog: seq<Model3D> := [
    Model3D(1, "Chrome Geometry", 12.99, "/img/81e5bc8d-ec10-404f-8104-00f0c12d0d27.jpg",
            ["abstract", "chrome", "modern"], "Abstract"),
    Model3D(2, "Future Robot", 24.99, "/img/cd9796df-cd02-4594-8bf6-88951bd41b72.jpg",
            ["robot", "futuristic", "character"], "Characters"),
    Model3D(3, "Crystal Sculpture", 18.50, "/img/98ad624f-ae7c-40d7-b4ab-fea2b133e361.jpg",
            ["crystal", "glass", "elegant"], "Decorative"),
    Model3D(4, "Minimal Cube", 8.99, "/img/81e5bc8d-ec10-404f-8104-00f0c12d0d27.jpg",
            ["minimal", "geometric", "basic"], "Abstract"),
    Model3D(5, "Space Marine", 32.99, "/img/cd9796df-cd02-4594-8bf6-88951bd41b72.jpg",
            ["character", "armor", "sci-fi"], "Characters"),
    Model3D(6, "Glass Vase", 15.99, "/img/98ad624f-ae7c-40d7-b4ab-fea2b133e361.jpg",
            ["vase", "transparent", "home"], "Decorative")
  ]
}
