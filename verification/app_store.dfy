/** The replace-style product list held in the application's state; each
    operation maps the previous list to the next one. */
module AppStore {
  import opened Common
  import opened Products
  import Seqs

  /** `addProduct`: the new record `{ id, ...data, status }` goes at the end. */
  function AddProduct(products: seq<Product>, data: ProductData, id: int): (r: seq<Product>)
    ensures |r| == |products| + 1
    ensures r[..|products|] == products
    ensures r[|products|] == FromData(data, id)
    ensures r[|products|].status == Some(if data.quantity > FixedLowStockLimit then InStock else LowStock)
  {
    products + [FromData(data, id)]
  }

  /** `updateProduct`: every record with the id is replaced by
      `{ ...data, id, status }`, so keys the data lacks (`minStockLevel`) are
      dropped from it; all other records stay as they were. */
  function UpdateProduct(products: seq<Product>, id: int, data: ProductData): (r: seq<Product>)
    ensures |r| == |products|
    ensures forall i :: 0 <= i < |products| && products[i].id != id ==> r[i] == products[i]
    ensures forall i :: 0 <= i < |products| && products[i].id == id ==>
              && r[i].id == id
              && ProductData(r[i].name, r[i].description, r[i].category, r[i].price, r[i].quantity) == data
              && r[i].minStockLevel.None?
              && r[i].status == Some(if data.quantity > FixedLowStockLimit then InStock else LowStock)
    ensures (forall i :: 0 <= i < |products| ==> products[i].id != id) ==> r == products
  {
    seq(|products|, i requires 0 <= i < |products| =>
      if products[i].id == id then FromData(data, id) else products[i])
  }

  /** `deleteProduct`: the records whose id differs, in order; none with the id remains. */
  function DeleteProduct(products: seq<Product>, id: int): (r: seq<Product>)
    ensures Seqs.IsSubseq(r, products)
    ensures forall i :: 0 <= i < |r| ==> r[i].id != id
    ensures forall p: Product :: p.id != id ==> multiset(r)[p] == multiset(products)[p]
    ensures (forall i :: 0 <= i < |products| ==> products[i].id != id) ==> r == products
  {
    var keep := (p: Product) => p.id != id;
    assert (forall i :: 0 <= i < |products| ==> products[i].id != id) ==> Seqs.Filter(products, keep) == products by {
      if forall i :: 0 <= i < |products| ==> products[i].id != id {
        Seqs.FilterKeepsAll(products, keep);
      }
    }
    Seqs.Filter(products, keep)
  }

  /** Deleting a record that was just added under a fresh id restores the list. */
  lemma AddThenDelete(products: seq<Product>, data: ProductData, id: int)
    requires forall i :: 0 <= i < |products| ==> products[i].id != id
    ensures DeleteProduct(AddProduct(products, data, id), id) == products
  {
    var added := AddProduct(products, data, id);
    var keep := (p: Product) => p.id != id;
    Seqs.FilterKeepsAll(products, keep);
    FilterDropsLast(products, FromData(data, id), keep);
  }

  /** Filtering a list with one rejected element appended ignores that element. */
  lemma {:induction false} FilterDropsLast(s: seq<Product>, x: Product, keep: Product -> bool)
    requires !keep(x)
    ensures Seqs.Filter(s + [x], keep) == Seqs.Filter(s, keep)
  {
    if s == [] {
      assert Seqs.Filter([x], keep) == Seqs.Filter([x][1..], keep);
    } else {
      assert (s + [x])[1..] == s[1..] + [x];
      FilterDropsLast(s[1..], x, keep);
    }
  }
}
