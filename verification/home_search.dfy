/** The home page's title search. Lower-casing is locale-dependent library
    code, so it is a parameter `lower` of the search. */
module HomeSearch {
  import opened Records
  import opened Sequences
  import opened Text

  /** `product.title.toLowerCase().includes(term.toLowerCase())`. */
  function TitleMatches(term: string, lower: string -> string): Product -> bool {
    (p: Product) => Contains(lower(p.title), lower(term))
  }

  /** `products.filter(...)`: the matching products, in their order. */
  function FilterByTitle(products: seq<Product>, term: string, lower: string -> string): (r: seq<Product>)
    ensures forall p :: p in r ==> Contains(lower(p.title), lower(term))
    ensures forall p :: p in products && Contains(lower(p.title), lower(term)) ==> p in r
    ensures |r| <= |products|
  {
    Filter(products, TitleMatches(term, lower))
  }

  /** The results keep the order of the list they came from. */
  lemma {:induction false} SearchKeepsOrder(products: seq<Product>, term: string, lower: string -> string)
    ensures IsSubsequence(FilterByTitle(products, term, lower), products)
  {
    FilterIsSubsequence(products, TitleMatches(term, lower));
  }

  /** An empty search term, which lower-cases to the empty string, shows
      every product. */
  lemma {:induction false} EmptyTermShowsAll(products: seq<Product>, lower: string -> string)
    requires lower("") == ""
    ensures FilterByTitle(products, "", lower) == products
  {
    forall i | 0 <= i < |products|
      ensures TitleMatches("", lower)(products[i])
    {
      ContainsEmpty(lower(products[i].title));
    }
    FilterKeepsAll(products, TitleMatches("", lower));
  }
}
