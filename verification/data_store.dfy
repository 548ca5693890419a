/** The merge-style product store: every operation reads the whole stored
    list, changes it, and writes it back. The browser storage is the `store`
    sequence passed in and the one returned. */
module DataStore {
  import opened Common
  import opened Products
  import Seqs

  /** A partial record: the keys an update object supplies. */
  datatype Patch = Patch(
    id: Option<int>,
    name: Option<string>,
    description: Option<string>,
    category: Option<string>,
    price: Option<int>,
    quantity: Option<int>,
    minStockLevel: Option<int>)

  /** The stored list after an operation, and the record the operation returns
      (`None` for `null`). */
  datatype Change = Change(store: seq<Product>, result: Option<Product>)

  /** `updated` is `{ ...record, ...patch }` in every key other than `status`. */
  predicate MergedFrom(updated: Product, prior: Product, patch: Patch) {
    && updated.id == patch.id.GetOr(prior.id)
    && updated.name == patch.name.GetOr(prior.name)
    && updated.description == patch.description.GetOr(prior.description)
    && updated.category == patch.category.GetOr(prior.category)
    && updated.price == patch.price.GetOr(prior.price)
    && updated.quantity == patch.quantity.GetOr(prior.quantity)
    && updated.minStockLevel == (if patch.minStockLevel.Some? then patch.minStockLevel else prior.minStockLevel)
  }

  /** `addProduct`: a new record is pushed at the end and returned. */
  function AddProduct(store: seq<Product>, data: ProductData, id: int): (c: Change)
    ensures |c.store| == |store| + 1
    ensures c.store[..|store|] == store
    ensures c.result == Some(c.store[|store|])
    ensures c.store[|store|] == FromData(data, id)
    ensures c.store[|store|].status == Some(if data.quantity > FixedLowStockLimit then InStock else LowStock)
  {
    var p := FromData(data, id);
    Change(store + [p], Some(p))
  }

  /** A record added under a fresh id is what a lookup of that id then finds. */
  lemma AddThenFind(store: seq<Product>, data: ProductData, id: int)
    requires forall i :: 0 <= i < |store| ==> store[i].id != id
    ensures GetProductById(AddProduct(store, data, id).store, id) == Some(FromData(data, id))
  {
  }

  /** The status `updateProduct` stores, taken from the update object's own
      `quantity`: when the object has none, `undefined > 10` is false. */
  function PatchStatus(patch: Patch): (s: Status)
    ensures s == InStock <==> patch.quantity.Some? && patch.quantity.value > FixedLowStockLimit
    ensures s != OutOfStock
  {
    if patch.quantity.Some? then FixedStatus(patch.quantity.value) else LowStock
  }

  function Merge(prior: Product, patch: Patch, status: Status): (p: Product)
    ensures MergedFrom(p, prior, patch) && p.status == Some(status)
  {
    Product(patch.id.GetOr(prior.id), patch.name.GetOr(prior.name), patch.description.GetOr(prior.description),
            patch.category.GetOr(prior.category), patch.price.GetOr(prior.price), patch.quantity.GetOr(prior.quantity),
            if patch.minStockLevel.Some? then patch.minStockLevel else prior.minStockLevel,
            Some(status))
  }

  /** `updateProduct` as written: the first record with the id is merged with
      the update object and returned; without such a record nothing changes
      and the result is `null`. */
  function UpdateProduct(store: seq<Product>, id: int, patch: Patch): (c: Change)
    ensures IndexOfId(store, id).None? ==> c == Change(store, None)
    ensures IndexOfId(store, id).Some? ==>
              var k := IndexOfId(store, id).value;
              && |c.store| == |store|
              && (forall i :: 0 <= i < |store| && i != k ==> c.store[i] == store[i])
              && c.result == Some(c.store[k])
              && MergedFrom(c.store[k], store[k], patch)
              && c.store[k].status == Some(PatchStatus(patch))
  {
    match IndexOfId(store, id)
    case None => Change(store, None)
    case Some(k) =>
      var p := Merge(store[k], patch, PatchStatus(patch));
      Change(store[k := p], Some(p))
  }

  /** `updateProduct` as evidently intended: the status follows the merged
      record's quantity. */
  function UpdateProductIntended(store: seq<Product>, id: int, patch: Patch): (c: Change)
    ensures IndexOfId(store, id).None? ==> c == Change(store, None)
    ensures IndexOfId(store, id).Some? ==>
              var k := IndexOfId(store, id).value;
              && |c.store| == |store|
              && (forall i :: 0 <= i < |store| && i != k ==> c.store[i] == store[i])
              && c.result == Some(c.store[k])
              && MergedFrom(c.store[k], store[k], patch)
              && c.store[k].status == Some(FixedStatus(c.store[k].quantity))
  {
    match IndexOfId(store, id)
    case None => Change(store, None)
    case Some(k) =>
      var p := Merge(store[k], patch, FixedStatus(patch.quantity.GetOr(store[k].quantity)));
      Change(store[k := p], Some(p))
  }

  /** The two agree exactly when the update object supplies a quantity. */
  lemma UpdateVersionsAgree(store: seq<Product>, id: int, patch: Patch)
    requires patch.quantity.Some?
    ensures UpdateProduct(store, id, patch) == UpdateProductIntended(store, id, patch)
  {
  }

  /** As written, renaming a well-stocked record marks it low on stock. */
  lemma RenameMarksLowStock()
    ensures
      var espresso := Product(1, "Espresso", "Strong black coffee", "Beverages", 350, 42, None, Some(InStock));
      var rename := Patch(None, Some("Ristretto"), None, None, None, None, None);
      && UpdateProduct([espresso], 1, rename).result.value.quantity == 42
      && UpdateProduct([espresso], 1, rename).result.value.status == Some(LowStock)
      && UpdateProductIntended([espresso], 1, rename).result.value.status == Some(InStock)
  {
  }

  /** `splice(index, 1)`: the list without position `k`. */
  function RemoveAt(s: seq<Product>, k: nat): (r: seq<Product>)
    requires k < |s|
    ensures |r| == |s| - 1
    ensures r[..k] + [s[k]] + r[k..] == s
  {
    assert s == s[..k] + [s[k]] + s[k + 1..];
    s[..k] + s[k + 1..]
  }

  /** `deleteProduct`: the first record with the id is cut out and returned;
      without such a record nothing changes and the result is `null`. */
  function DeleteProduct(store: seq<Product>, id: int): (c: Change)
    ensures IndexOfId(store, id).None? ==> c == Change(store, None)
    ensures IndexOfId(store, id).Some? ==>
              var k := IndexOfId(store, id).value;
              && c.result == Some(store[k])
              && store[k].id == id
              && |c.store| == |store| - 1
              && c.store[..k] + [store[k]] + c.store[k..] == store
  {
    match IndexOfId(store, id)
    case None => Change(store, None)
    case Some(k) => Change(RemoveAt(store, k), Some(store[k]))
  }

  /** With unique ids, a deleted id can no longer be found. */
  lemma DeleteThenFind(store: seq<Product>, id: int)
    requires UniqueIds(store)
    ensures GetProductById(DeleteProduct(store, id).store, id).None?
  {
  }

  /** `getProductById`. */
  function GetProductById(store: seq<Product>, id: int): (r: Option<Product>)
    ensures r.Some? ==> r.value.id == id && r.value in store
    ensures r.Some? ==> exists i :: 0 <= i < |store| && store[i] == r.value && forall j :: 0 <= j < i ==> store[j].id != id
    ensures r.None? <==> forall j :: 0 <= j < |store| ==> store[j].id != id
  {
    FindById(store, id)
  }

  /** `getProductsByCategory`: the records of that category, in list order. */
  function GetProductsByCategory(store: seq<Product>, category: string): (r: seq<Product>)
    ensures Seqs.IsSubseq(r, store)
    ensures forall i :: 0 <= i < |r| ==> r[i].category == category
    ensures forall p: Product :: p.category == category ==> multiset(r)[p] == multiset(store)[p]
  {
    Seqs.Filter(store, (p: Product) => p.category == category)
  }

  /** The default of `getLowStockProducts`' threshold parameter. */
  const DefaultLowStockThreshold: int := 10

  /** `getLowStockProducts(threshold = 10)`: the records at or under the
      threshold, in list order; an absent threshold means the default. */
  function GetLowStockProducts(store: seq<Product>, threshold: Option<int>): (r: seq<Product>)
    ensures Seqs.IsSubseq(r, store)
    ensures forall i :: 0 <= i < |r| ==> r[i].quantity <= threshold.GetOr(DefaultLowStockThreshold)
    ensures forall p: Product :: p.quantity <= threshold.GetOr(DefaultLowStockThreshold) ==> multiset(r)[p] == multiset(store)[p]
  {
    var limit := threshold.GetOr(DefaultLowStockThreshold);
    Seqs.Filter(store, (p: Product) => p.quantity <= limit)
  }
}
