/**
 * The catalogue page: the fixed list of perfumes, the category filter over it,
 * and the heart button that toggles a perfume in and out of the wishlist.
 */
module Products {
  import opened Wrappers
  import Seqs
  import W = Wishlist

  datatype Product = Product(
    id: string,
    name: string,
    family: string,
    price: int,
    img: string,
    rating: int)

  /** `perfumes`, in display order (image addresses abbreviated). */
  const Perfumes: seq<Product> := [
    Product("1", "Oud Noir", "Woody", 210, "photo-1547887538", 5),
    Product("2", "Rose Water", "Floral", 185, "photo-1594035910387", 4),
    Product("3", "Sand & Cedar", "Woody", 195, "photo-1523293182086", 5),
    Product("4", "Citrus Bloom", "Fresh", 160, "photo-1592914610354", 4),
    Product("5", "Midnight Jasmine", "Floral", 225, "IMG_20211108_073607_428", 5),
    Product("6", "Velvet Moss", "Earthwy", 145, "G69H8UMXMAAm9V9", 4)
  ]

  /** The category buttons, `'All'` first. */
  const Categories: seq<string> := ["All", "Woody", "Floral", "Fresh", "Earthwy"]

  /** The callback `p => activeCategory === 'All' || p.family === activeCategory`. */
  function Shows(category: string): Product -> bool
  {
    (p: Product) => category == "All" || p.family == category
  }

  /**
   * `filteredProducts`: with `'All'` the whole catalogue; otherwise exactly
   * the products of that family, in catalogue order.
   */
  function FilteredProducts(catalogue: seq<Product>, category: string): (r: seq<Product>)
    ensures category == "All" ==> r == catalogue
    ensures category != "All" ==> forall p :: p in r <==> p in catalogue && p.family == category
    ensures Seqs.IsSubsequence(r, catalogue)
  {
    Seqs.FilterIsSubsequence(catalogue, Shows(category));
    if category == "All" then
      Seqs.FilterKeepsAll(catalogue, Shows(category));
      Seqs.Filter(catalogue, Shows(category))
    else
      Seqs.Filter(catalogue, Shows(category))
  }

  /** The number shown above the grid: `{filteredProducts.length} Fragrances`. */
  function DisplayedCount(category: string): (n: nat)
    ensures n <= |Perfumes|
    ensures category == "All" ==> n == |Perfumes|
  {
    |FilteredProducts(Perfumes, category)|
  }

  /** The catalogue ids are pairwise distinct. */
  lemma CatalogueIdsDistinct()
    ensures forall i, j :: 0 <= i < j < |Perfumes| ==> Perfumes[i].id != Perfumes[j].id
  {
  }

  /**
   * The four family buttons split any catalogue whose perfumes all belong to
   * one of the four families: their counts add up to the count under `'All'`.
   */
  lemma FamiliesPartitionCatalogue(catalogue: seq<Product>)
    requires forall i :: 0 <= i < |catalogue| ==> catalogue[i].family in Categories[1..]
    ensures |FilteredProducts(catalogue, "Woody")| + |FilteredProducts(catalogue, "Floral")|
          + |FilteredProducts(catalogue, "Fresh")| + |FilteredProducts(catalogue, "Earthwy")|
         == |FilteredProducts(catalogue, "All")|
  {
    FilterCountsFamily(catalogue, "Woody");
    FilterCountsFamily(catalogue, "Floral");
    FilterCountsFamily(catalogue, "Fresh");
    FilterCountsFamily(catalogue, "Earthwy");
    FamilyCountsAddUp(catalogue);
  }

  /** Under a family button the count shown is the number of perfumes of that family. */
  lemma DisplayedFamily(category: string)
    requires category != "All"
    ensures DisplayedCount(category) == CountFamily(Perfumes, category)
  {
    FilterCountsFamily(Perfumes, category);
  }

  /** Counted one by one, the four families account for every perfume. */
  lemma {:induction false} FamilyCountsAddUp(ps: seq<Product>)
    requires forall i :: 0 <= i < |ps| ==> ps[i].family in Categories[1..]
    ensures CountFamily(ps, "Woody") + CountFamily(ps, "Floral") + CountFamily(ps, "Fresh")
          + CountFamily(ps, "Earthwy") == |ps|
  {
    if ps != [] {
      assert ps[0].family in Categories[1..];
      FamilyCountsAddUp(ps[1..]);
    }
  }

  /** How many perfumes of one family a list holds, counted one by one. */
  function CountFamily(ps: seq<Product>, category: string): nat
  {
    if ps == [] then 0 else (if ps[0].family == category then 1 else 0) + CountFamily(ps[1..], category)
  }

  /** A family filter has as many entries as the list has products of that family. */
  lemma {:induction false} FilterCountsFamily(ps: seq<Product>, category: string)
    requires category != "All"
    ensures |FilteredProducts(ps, category)| == CountFamily(ps, category)
  {
    if ps != [] {
      FilterCountsFamily(ps[1..], category);
    }
  }

  /** Every perfume's family is one of the family buttons. */
  lemma CatalogueInFamilies()
    ensures forall i :: 0 <= i < |Perfumes| ==> Perfumes[i].family in Categories[1..]
  {
    var families := Categories[1..];
    assert families == ["Woody", "Floral", "Fresh", "Earthwy"];
    forall i | 0 <= i < |Perfumes| ensures Perfumes[i].family in families {
      assert Perfumes[i].family in {"Woody", "Floral", "Fresh", "Earthwy"};
      assert families[0] == "Woody" && families[1] == "Floral";
      assert families[2] == "Fresh" && families[3] == "Earthwy";
    }
  }

  /** The family buttons show two, two, one and one of the six perfumes. */
  lemma CatalogueFamilies()
    ensures CountFamily(Perfumes, "Woody") == 2
    ensures CountFamily(Perfumes, "Floral") == 2
    ensures CountFamily(Perfumes, "Fresh") == 1
    ensures CountFamily(Perfumes, "Earthwy") == 1
  {
    var p := Perfumes;
    assert p[1..][1..] == p[2..];
    assert p[2..][1..] == p[3..];
    assert p[3..][1..] == p[4..];
    assert p[4..][1..] == p[5..];
    assert p[5..][1..] == [];
  }

  /** The wishlist entry built for a perfume. */
  function ToWishlistItem(product: Product): W.Item
  {
    W.Item(product.id, product.name, "Premium Brand", product.price, product.img, Some(true))
  }

  /**
   * `handleWishlistToggle`: removes the perfume when it is saved, otherwise
   * saves it with the fixed brand and in stock. Membership flips either way.
   */
  method HandleWishlistToggle(store: W.WishlistStore, product: Product)
    requires store.Valid()
    modifies store
    ensures store.Valid()
    ensures store.IsInWishlist(product.id) == !old(store.IsInWishlist(product.id))
    ensures old(store.IsInWishlist(product.id)) ==>
      store.items == W.Without(old(store.items), product.id)
    ensures !old(store.IsInWishlist(product.id)) ==>
      store.items == old(store.items) + [ToWishlistItem(product)]
    ensures old(store.IsInWishlist(product.id)) ==> store.notices == old(store.notices) + [W.Removed]
    ensures !old(store.IsInWishlist(product.id)) ==>
      store.notices == old(store.notices) + [W.Added(product.name)]
  {
    var isInWish := store.IsInWishlist(product.id);
    if isInWish {
      store.RemoveFromWishlist(product.id);
    } else {
      var item := ToWishlistItem(product);
      store.AddToWishlist(item);
      assert store.items[|store.items| - 1] == item;
    }
  }
}
