/** The catalogue on the store's home page: the products shown are those
    that pass the category filter, the name search and the visibility
    whitelist, in catalogue order; choosing a category in the picker
    selects it, or clears it when it was already selected. */
module Catalogue {
  import opened Text

  datatype Product = Product(id: int, name: string, category: string, visibility: string)

  /** `value ? product.category === value : true`. */
  predicate MatchesCategory(p: Product, value: string)
  {
    if value != "" then p.category == value else true
  }

  /** `product.name.toLowerCase().includes(searchQuery.toLowerCase())`. */
  predicate MatchesSearch(p: Product, query: string)
  {
    Includes(ToLower(p.name), ToLower(query))
  }

  /** Only the two spellings the store back office uses for "public". */
  predicate MatchesVisibility(p: Product)
  {
    p.visibility == "public" || p.visibility == "Publico"
  }

  predicate Kept(p: Product, value: string, query: string)
  {
    MatchesCategory(p, value) && MatchesSearch(p, query) && MatchesVisibility(p)
  }

  /** `filteredProducts`: `products.filter(...)` with the three tests. */
  function FilterProducts(products: seq<Product>, value: string, query: string): (r: seq<Product>)
    ensures |r| <= |products|
    ensures forall i :: 0 <= i < |r| ==> Kept(r[i], value, query)
  {
    if products == [] then []
    else
      var rest := FilterProducts(products[1..], value, query);
      if Kept(products[0], value, query) then [products[0]] + rest else rest
  }

  /** `a` is `b` with some elements left out, the rest in the same order. */
  ghost predicate IsSubsequence<T>(a: seq<T>, b: seq<T>)
    decreases |b|
  {
    if a == [] then true
    else if b == [] then false
    else (a[0] == b[0] && IsSubsequence(a[1..], b[1..])) || IsSubsequence(a, b[1..])
  }

  /** The shown products are an order-preserving subsequence of the
      catalogue. */
  lemma {:induction false} FilterIsSubsequence(products: seq<Product>, value: string, query: string)
    ensures IsSubsequence(FilterProducts(products, value, query), products)
  {
    if products != [] {
      FilterIsSubsequence(products[1..], value, query);
      var r := FilterProducts(products, value, query);
      var rest := FilterProducts(products[1..], value, query);
      if Kept(products[0], value, query) {
        assert r[1..] == rest;
      }
    }
  }

  /** Each product is shown exactly as many times as it is listed when it
      passes the three tests, and not at all otherwise. */
  lemma {:induction false} FilterKeepsExactly(products: seq<Product>, value: string, query: string, p: Product)
    ensures multiset(FilterProducts(products, value, query))[p] ==
      if Kept(p, value, query) then multiset(products)[p] else 0
  {
    if products != [] {
      FilterKeepsExactly(products[1..], value, query, p);
      assert products == [products[0]] + products[1..];
    }
  }

  /** With no category and no search, exactly the public products are
      shown, all of them when all are public. */
  lemma {:induction false} UnfilteredShowsPublic(products: seq<Product>)
    requires forall i :: 0 <= i < |products| ==> MatchesVisibility(products[i])
    ensures FilterProducts(products, "", "") == products
  {
    if products != [] {
      UnfilteredShowsPublic(products[1..]);
      EmptyIncluded(ToLower(products[0].name));
      assert ToLower("") == "";
      assert [products[0]] + products[1..] == products;
    }
  }

  /** An empty category matches every product; a non-empty one exactly the
      products of that category. An empty search matches every product;
      a non-empty one matches when the lower-cased query occurs in the
      lower-cased name. */
  lemma FilterTests(p: Product, value: string, query: string)
    ensures MatchesCategory(p, "")
    ensures value != "" ==> (MatchesCategory(p, value) <==> p.category == value)
    ensures MatchesSearch(p, "")
    ensures MatchesSearch(p, query) <==> exists i :: OccursAt(ToLower(p.name), ToLower(query), i)
  {
    assert ToLower("") == "";
    EmptyIncluded(ToLower(p.name));
    IncludesIffOccurs(ToLower(p.name), ToLower(query));
  }

  /** Filtering the shown products again changes nothing. */
  lemma {:induction false} FilterIdempotent(products: seq<Product>, value: string, query: string)
    ensures FilterProducts(FilterProducts(products, value, query), value, query) ==
      FilterProducts(products, value, query)
  {
    if products != [] {
      FilterIdempotent(products[1..], value, query);
      var r := FilterProducts(products, value, query);
      if Kept(products[0], value, query) {
        assert r[1..] == FilterProducts(products[1..], value, query);
      }
    }
  }

  /** The category picker's `onSelect`: picking the selected category
      clears the selection, picking another one selects it. */
  function ToggleCategory(selected: string, picked: string): (r: string)
    ensures r == "" || r == picked
    ensures r == "" <==> picked == selected || picked == ""
  {
    if picked == selected then "" else picked
  }

  /** Picking the same category twice: from no selection, or from another
      category, the selection ends cleared; from that category itself it
      ends selected again. */
  lemma ToggleTwice(selected: string, picked: string)
    ensures ToggleCategory(ToggleCategory(selected, picked), picked) ==
      if selected == picked then picked else ""
  {
  }

  /** The catalogue page's filter state. */
  class CatalogueView {
    const products: seq<Product>
    var value: string
    var open: bool
    var searchQuery: string

    constructor (products: seq<Product>)
      ensures this.products == products
      ensures value == "" && !open && searchQuery == ""
    {
      this.products := products;
      value := "";
      open := false;
      searchQuery := "";
    }

    /** The products the page lists. */
    function FilteredProducts(): seq<Product>
      reads this
    {
      FilterProducts(products, value, searchQuery)
    }

    /** `onSelect` of a category item: toggles the selection and closes the
        picker. */
    method SelectCategory(picked: string)
      modifies this`value, this`open
      ensures value == ToggleCategory(old(value), picked)
      ensures !open
      ensures picked != old(value) && picked != "" ==>
        forall i :: 0 <= i < |FilteredProducts()| ==> FilteredProducts()[i].category == picked
    {
      value := if picked == value then "" else picked;
      open := false;
    }

    /** `onOpenChange` of the picker. */
    method SetOpen(isOpen: bool)
      modifies this`open
      ensures open == isOpen
    {
      open := isOpen;
    }

    /** `onChange` of the search box. */
    method SetSearchQuery(query: string)
      modifies this`searchQuery
      ensures searchQuery == query
    {
      searchQuery := query;
    }
  }
}
