/** The shop page's product list: the fetched products, or none when the
    fetch fails, narrowed by the selected category and an optional price
    range typed as text. */
module Shop {
  import opened Wrappers
  import opened Js
  import opened Seqs

  /** The two fields the filter reads. */
  datatype Product = Product(category: string, price: real)

  /** The list the page works on: the fetched products, or `[]` when the
      request fails, answers with a non-ok status or its body cannot be
      read (`response` is then `None`). */
  function Loaded(response: Option<seq<Product>>): (r: seq<Product>)
    ensures response.None? ==> r == []
    ensures response.Some? ==> r == response.value
  {
    response.GetOr([])
  }

  /** `product.price >= Number(minPrice)` when a minimum was typed; a text
      that is not a number (`NaN`) admits nothing. */
  predicate AboveMin(p: Product, minPrice: string, toNumber: string -> Number)
  {
    minPrice == "" || (toNumber(minPrice).Num? && p.price >= toNumber(minPrice).v)
  }

  predicate BelowMax(p: Product, maxPrice: string, toNumber: string -> Number)
  {
    maxPrice == "" || (toNumber(maxPrice).Num? && p.price <= toNumber(maxPrice).v)
  }

  /** The predicate of `products.filter`. */
  predicate Matches(p: Product, category: string, minPrice: string, maxPrice: string, toNumber: string -> Number)
  {
    (category == "all" || p.category == category)
      && AboveMin(p, minPrice, toNumber) && BelowMax(p, maxPrice, toNumber)
  }

  /** `filteredProducts`: the matching products in their fetched order. Every
      kept product lies in the selected category (any, for "all") and within
      each typed bound, and every product that does is kept; a bound that
      does not read as a number hides every product. */
  function FilteredProducts(products: seq<Product>, category: string, minPrice: string, maxPrice: string,
                            toNumber: string -> Number): (r: seq<Product>)
    ensures IsSubsequence(r, products)
    ensures forall k :: 0 <= k < |r| ==> category == "all" || r[k].category == category
    ensures minPrice != "" ==> forall k :: 0 <= k < |r| ==>
              toNumber(minPrice).Num? && r[k].price >= toNumber(minPrice).v
    ensures maxPrice != "" ==> forall k :: 0 <= k < |r| ==>
              toNumber(maxPrice).Num? && r[k].price <= toNumber(maxPrice).v
    ensures forall k :: 0 <= k < |products| && Matches(products[k], category, minPrice, maxPrice, toNumber) ==>
              products[k] in r
    ensures (minPrice != "" && toNumber(minPrice).NaN?) || (maxPrice != "" && toNumber(maxPrice).NaN?) ==> r == []
  {
    Filter(products, p => Matches(p, category, minPrice, maxPrice, toNumber))
  }

  /** The category "all" with both bounds empty shows every product. */
  lemma NoFilterShowsAll(products: seq<Product>, toNumber: string -> Number)
    ensures FilteredProducts(products, "all", "", "", toNumber) == products
  {
    FilterAll(products, p => Matches(p, "all", "", "", toNumber));
  }

  /** Filtering works item by item, so the result for a list split in two
      is the results for the two parts, one after the other. */
  lemma FilteredSplits(a: seq<Product>, b: seq<Product>, category: string, minPrice: string, maxPrice: string,
                       toNumber: string -> Number)
    ensures FilteredProducts(a + b, category, minPrice, maxPrice, toNumber)
              == FilteredProducts(a, category, minPrice, maxPrice, toNumber)
                 + FilteredProducts(b, category, minPrice, maxPrice, toNumber)
  {
    FilterAppend(a, b, p => Matches(p, category, minPrice, maxPrice, toNumber));
  }

  /** Narrowing from "all" to one category keeps a subsequence of what
      "all" showed. */
  lemma {:induction false} CategoryNarrows(products: seq<Product>, category: string, minPrice: string,
                                           maxPrice: string, toNumber: string -> Number)
    ensures IsSubsequence(FilteredProducts(products, category, minPrice, maxPrice, toNumber),
                          FilteredProducts(products, "all", minPrice, maxPrice, toNumber))
    decreases |products|
  {
    if products != [] {
      var x := products[0];
      var rest := products[1..];
      assert products == [x] + rest;
      FilteredSplits([x], rest, category, minPrice, maxPrice, toNumber);
      FilteredSplits([x], rest, "all", minPrice, maxPrice, toNumber);
      CategoryNarrows(rest, category, minPrice, maxPrice, toNumber);
      var n := FilteredProducts(rest, category, minPrice, maxPrice, toNumber);
      var a := FilteredProducts(rest, "all", minPrice, maxPrice, toNumber);
      if Matches(x, category, minPrice, maxPrice, toNumber) {
        assert FilteredProducts([x], category, minPrice, maxPrice, toNumber) == [x];
        assert FilteredProducts([x], "all", minPrice, maxPrice, toNumber) == [x];
        assert ([x] + n)[1..] == n && ([x] + a)[1..] == a;
      } else if Matches(x, "all", minPrice, maxPrice, toNumber) {
        assert FilteredProducts([x], category, minPrice, maxPrice, toNumber) == [];
        assert FilteredProducts([x], "all", minPrice, maxPrice, toNumber) == [x];
        assert [] + n == n;
        SubsequenceTail(n, a, x);
      } else {
        assert FilteredProducts([x], category, minPrice, maxPrice, toNumber) == [];
        assert FilteredProducts([x], "all", minPrice, maxPrice, toNumber) == [];
        assert [] + n == n && [] + a == a;
      }
    }
  }
}
