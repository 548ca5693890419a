/** The dashboard: the low-stock list behind the card and the alert, the
    total stock value, and the first five rows of the product table with
    their two-way status. */
module Dashboard {
  import opened Products
  import Seqs

  /** Running low: positive stock at or under `minStockLevel || 10`. */
  predicate RunningLow(p: Product) {
    p.quantity <= EffectiveMin(p) && p.quantity > 0
  }

  /** `lowStockProducts`. */
  function LowStockProducts(products: seq<Product>): (r: seq<Product>)
    ensures Seqs.IsSubseq(r, products)
    ensures forall i :: 0 <= i < |r| ==> 0 < r[i].quantity <= EffectiveMin(r[i])
    ensures forall p: Product :: RunningLow(p) ==> multiset(r)[p] == multiset(products)[p]
  {
    Seqs.Filter(products, RunningLow)
  }

  /** The low-stock alert is shown when the list is non-empty, that is,
      exactly when some record is running low. */
  predicate ShowsLowStockAlert(products: seq<Product>) {
    |LowStockProducts(products)| > 0
  }

  lemma AlertShownIff(products: seq<Product>)
    ensures ShowsLowStockAlert(products) <==> exists i :: 0 <= i < |products| && RunningLow(products[i])
  {
  }

  /** `totalValue`: the sum of price times quantity, in cents. It is never
      negative while prices and stock are not, and an empty shelf is worth 0. */
  function TotalValue(products: seq<Product>): (r: int)
    ensures (forall i :: 0 <= i < |products| ==> products[i].price >= 0) && NonNegativeStock(products) ==> r >= 0
    ensures (forall i :: 0 <= i < |products| ==> products[i].quantity == 0) ==> r == 0
    decreases |products|
  {
    if products == [] then 0
    else products[0].price * products[0].quantity + TotalValue(products[1..])
  }

  /** The total of two lists side by side is the sum of their totals. */
  lemma {:induction false} TotalValueConcat(a: seq<Product>, b: seq<Product>)
    ensures TotalValue(a + b) == TotalValue(a) + TotalValue(b)
    decreases |a|
  {
    if a == [] {
      assert a + b == b;
    } else {
      assert (a + b)[1..] == a[1..] + b;
      TotalValueConcat(a[1..], b);
    }
  }

  /** Adding a product at the end raises the total by its price times quantity. */
  lemma TotalValueAppend(products: seq<Product>, p: Product)
    ensures TotalValue(products + [p]) == TotalValue(products) + p.price * p.quantity
  {
    TotalValueConcat(products, [p]);
    assert TotalValue([p]) == p.price * p.quantity + TotalValue([]);
  }

  /** Changing one record changes the total by the change in that record's value. */
  lemma {:induction false} TotalValueChangeAt(a: seq<Product>, b: seq<Product>, k: nat)
    requires |a| == |b| && k < |a|
    requires forall i :: 0 <= i < |a| && i != k ==> a[i] == b[i]
    ensures TotalValue(b) == TotalValue(a) - a[k].price * a[k].quantity + b[k].price * b[k].quantity
    decreases |a|
  {
    if k == 0 {
      assert a[1..] == b[1..];
    } else {
      TotalValueChangeAt(a[1..], b[1..], k - 1);
    }
  }

  /** The two-way status of the recent-products table: low at or under
      `minStockLevel || 10`, which includes zero stock. */
  function TableStatus(p: Product): (s: Status)
    ensures s != OutOfStock
    ensures s == LowStock <==> p.quantity <= EffectiveMin(p)
  {
    if p.quantity <= EffectiveMin(p) then LowStock else InStock
  }

  /** One table row; `highlighted` is the `low-stock` class on the quantity and status cells. */
  datatype Row = Row(product: Product, status: Status, highlighted: bool)

  const RecentCount: nat := 5

  /** `products.slice(0, 5)` with each row's status. */
  function RecentRows(products: seq<Product>): (rows: seq<Row>)
    ensures |rows| == if |products| < RecentCount then |products| else RecentCount
    ensures forall i :: 0 <= i < |rows| ==> rows[i].product == products[i]
    ensures forall i :: 0 <= i < |rows| ==>
              rows[i].status == TableStatus(products[i]) && (rows[i].highlighted <==> rows[i].status == LowStock)
  {
    var shown := if |products| < RecentCount then products else products[..RecentCount];
    seq(|shown|, i requires 0 <= i < |shown| =>
      Row(shown[i], TableStatus(shown[i]), TableStatus(shown[i]) == LowStock))
  }
}
