/** The inventory table: search and category filtering, the three-way status
    against each record's own minimum level, and the two summary counts. */
module Inventory {
  import opened Products
  import Seqs

  /** `getStatus`: out of stock at zero, low up to `minStockLevel || 10`, in stock above. */
  function GetStatus(p: Product): (s: Status)
    ensures s == OutOfStock <==> p.quantity == 0
    ensures s == LowStock <==> p.quantity != 0 && p.quantity <= EffectiveMin(p)
    ensures s == InStock <==> p.quantity != 0 && p.quantity > EffectiveMin(p)
  {
    if p.quantity == 0 then OutOfStock
    else if p.quantity <= EffectiveMin(p) then LowStock
    else InStock
  }

  /** `getStatusClass`: the CSS class of a status label, `""` for any other text. */
  function StatusClass(statusText: string): (c: string)
    ensures c == "" <==> statusText !in {Label(InStock), Label(LowStock), Label(OutOfStock)}
    ensures c == "status-in-stock" <==> statusText == Label(InStock)
    ensures c == "status-low-stock" <==> statusText == Label(LowStock)
    ensures c == "status-out-of-stock" <==> statusText == Label(OutOfStock)
  {
    if statusText == "In Stock" then "status-in-stock"
    else if statusText == "Low Stock" then "status-low-stock"
    else if statusText == "Out of Stock" then "status-out-of-stock"
    else ""
  }

  /** The search test as a value. */
  function ByTerm(term: string): Product -> bool {
    (p: Product) => MatchesTerm(p, term)
  }

  /** The category test as a value. */
  function ByCategory(category: string): Product -> bool {
    (p: Product) => p.category == category
  }

  /** Both tests of the inventory filter, with "all" admitting any category. */
  predicate Selected(p: Product, term: string, category: string) {
    MatchesTerm(p, term) && (category == "all" || p.category == category)
  }

  function BySelection(term: string, category: string): Product -> bool {
    (p: Product) => Selected(p, term, category)
  }

  /** `filterProducts`: the search term first (skipped when empty), then the
      category (skipped for "all"). */
  function FilterProducts(products: seq<Product>, term: string, category: string): (r: seq<Product>)
    ensures Seqs.IsSubseq(r, products)
    ensures forall i :: 0 <= i < |r| ==> MatchesTerm(r[i], term)
    ensures category != "all" ==> forall i :: 0 <= i < |r| ==> r[i].category == category
    ensures forall p: Product :: Selected(p, term, category) ==> multiset(r)[p] == multiset(products)[p]
    ensures term == "" && category == "all" ==> r == products
  {
    var searched := if term != "" then Seqs.Filter(products, ByTerm(term)) else products;
    var result := if category != "all" then Seqs.Filter(searched, ByCategory(category)) else searched;
    FilterProductsIsOneFilter(products, term, category);
    result
  }

  /** The two-stage filter is one filter by the combined test; the guard on an
      empty term makes no difference, because the empty term matches everything. */
  lemma FilterProductsIsOneFilter(products: seq<Product>, term: string, category: string)
    ensures
      var searched := if term != "" then Seqs.Filter(products, ByTerm(term)) else products;
      var result := if category != "all" then Seqs.Filter(searched, ByCategory(category)) else searched;
      result == Seqs.Filter(products, BySelection(term, category))
  {
    if term == "" {
      EmptyTermSelectsByCategory(products, category);
    } else if category != "all" {
      TermThenCategory(products, term, category);
    } else {
      Seqs.FilterCongruent(products, ByTerm(term), BySelection(term, "all"));
    }
  }

  /** Filtering by term and then by a category is filtering once by both. */
  lemma TermThenCategory(products: seq<Product>, term: string, category: string)
    requires category != "all"
    ensures Seqs.Filter(Seqs.Filter(products, ByTerm(term)), ByCategory(category)) ==
            Seqs.Filter(products, BySelection(term, category))
  {
    Seqs.FilterTwice(products, ByTerm(term), ByCategory(category), BySelection(term, category));
  }

  /** With an empty term only the category test is left. */
  lemma EmptyTermSelectsByCategory(products: seq<Product>, category: string)
    ensures category != "all" ==> Seqs.Filter(products, ByCategory(category)) == Seqs.Filter(products, BySelection("", category))
    ensures category == "all" ==> products == Seqs.Filter(products, BySelection("", category))
  {
    forall i | 0 <= i < |products|
      ensures MatchesTerm(products[i], "")
    {
      EmptyTermMatchesAll(products[i]);
    }
    if category != "all" {
      Seqs.FilterCongruent(products, ByCategory(category), BySelection("", category));
    } else {
      Seqs.FilterKeepsAll(products, BySelection("", category));
    }
  }

  /** Low-stock records as the summary counts them: positive and at most the minimum level. */
  predicate CountedLow(p: Product) {
    p.quantity <= EffectiveMin(p) && p.quantity > 0
  }

  /** `lowStockCount`. */
  function LowStockCount(products: seq<Product>): (n: nat)
    ensures n <= |products|
    ensures n == 0 <==> forall i :: 0 <= i < |products| ==> !CountedLow(products[i])
  {
    |Seqs.Filter(products, CountedLow)|
  }

  predicate IsOut(p: Product) {
    p.quantity == 0
  }

  /** `outOfStockCount`. */
  function OutOfStockCount(products: seq<Product>): (n: nat)
    ensures n <= |products|
    ensures n == 0 <==> forall i :: 0 <= i < |products| ==> !IsOut(products[i])
  {
    |Seqs.Filter(products, IsOut)|
  }

  /** No record is counted both low and out of stock, so the two counts
      together never exceed the number of records, whatever the quantities. */
  lemma CountsWithinList(products: seq<Product>)
    ensures LowStockCount(products) + OutOfStockCount(products) <= |products|
  {
    Seqs.FilterDisjoint(products, CountedLow, IsOut);
  }

  /** With non-negative stock, the two counts are the numbers of records whose
      status reads "Low Stock" and "Out of Stock", and together they never
      exceed the number of records. */
  lemma CountsMatchStatus(products: seq<Product>)
    requires NonNegativeStock(products)
    ensures LowStockCount(products) == |Seqs.Filter(products, (p: Product) => GetStatus(p) == LowStock)|
    ensures OutOfStockCount(products) == |Seqs.Filter(products, (p: Product) => GetStatus(p) == OutOfStock)|
    ensures LowStockCount(products) + OutOfStockCount(products) <= |products|
  {
    Seqs.FilterCongruent(products, CountedLow, (p: Product) => GetStatus(p) == LowStock);
    Seqs.FilterCongruent(products, IsOut, (p: Product) => GetStatus(p) == OutOfStock);
    Seqs.FilterDisjoint(products, CountedLow, IsOut);
  }
}
