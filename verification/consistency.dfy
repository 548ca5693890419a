/** How the components' status rules and aggregates relate to each other,
    and how a ledger adjustment moves the total value of the ledger's own
    list. The stock screen keeps its own product list and takes no props, so
    it never changes the list the dashboard totals. */
module Consistency {
  import opened Common
  import opened Products
  import Seqs
  import StockLedger
  import AppStore
  import Inventory
  import Dashboard

  /** The dashboard table and the inventory status disagree at zero stock and nowhere else. */
  lemma TableDisagreesOnlyAtZero(p: Product)
    ensures Dashboard.TableStatus(p) != Inventory.GetStatus(p) <==> p.quantity == 0
  {
  }

  /** The stored fixed-10 status and the derived per-product status agree
      exactly when stock is positive and 10 and the record's own minimum put
      the quantity on the same side. */
  lemma FixedAgreesWithDerivedIff(p: Product)
    ensures FixedStatus(p.quantity) == Inventory.GetStatus(p) <==>
              p.quantity != 0 && (p.quantity > FixedLowStockLimit <==> p.quantity > EffectiveMin(p))
  {
  }

  /** With a non-zero minimum on record, the stock card's class and the
      inventory status say the same thing. */
  lemma StockClassMatchesStatus(p: Product)
    requires p.minStockLevel.Some? && p.minStockLevel.value != 0
    ensures StockLedger.StockClass(p) == "out-of-stock" <==> Inventory.GetStatus(p) == OutOfStock
    ensures StockLedger.StockClass(p) == "low-stock" <==> Inventory.GetStatus(p) == LowStock
    ensures StockLedger.StockClass(p) == "in-stock" <==> Inventory.GetStatus(p) == InStock
  {
  }

  /** Without a minimum on record they part ways: the stock card never shows
      low stock, while the inventory falls back to 10. */
  lemma StockClassIgnoresDefault(p: Product)
    requires p.minStockLevel.None? && 0 < p.quantity <= DefaultMinStockLevel
    ensures StockLedger.StockClass(p) == "in-stock"
    ensures Inventory.GetStatus(p) == LowStock
  {
  }

  /** The dashboard's low-stock card counts what the inventory's low-stock count counts. */
  lemma LowStockCountsAgree(products: seq<Product>)
    ensures |Dashboard.LowStockProducts(products)| == Inventory.LowStockCount(products)
  {
    Seqs.FilterCongruent(products, Dashboard.RunningLow, Inventory.CountedLow);
  }

  /** An edit through the application store drops `minStockLevel`, so the
      edited record is judged against the default of 10 from then on. */
  lemma EditFallsBackToDefault(products: seq<Product>, id: int, data: ProductData, i: nat)
    requires i < |products| && products[i].id == id
    ensures EffectiveMin(AppStore.UpdateProduct(products, id, data)[i]) == DefaultMinStockLevel
    ensures data.quantity != 0 ==>
              (Inventory.GetStatus(AppStore.UpdateProduct(products, id, data)[i]) == InStock <==>
               data.quantity > DefaultMinStockLevel)
  {
  }

  /** With unique ids, setting the quantity of the record with an id changes
      the total value by that record's price times the change. */
  lemma SetQuantityChangesTotalValue(s: seq<Product>, id: int, q: int)
    requires UniqueIds(s) && IndexOfId(s, id).Some?
    ensures
      var p := s[IndexOfId(s, id).value];
      Dashboard.TotalValue(StockLedger.SetQuantity(s, id, q)) ==
        Dashboard.TotalValue(s) + p.price * (q - p.quantity)
  {
    var k := IndexOfId(s, id).value;
    var after := StockLedger.SetQuantity(s, id, q);
    forall i | 0 <= i < |s| && i != k
      ensures after[i] == s[i]
    {
      assert s[i].id != id;
    }
    Dashboard.TotalValueChangeAt(s, after, k);
  }

  /** With unique ids, a successful stock adjustment changes the total value
      of the ledger's own list by the product's price times the signed amount. */
  lemma SubmitChangesTotalValue(l: StockLedger.Ledger, f: StockLedger.StockForm, txId: int, date: string)
    requires UniqueIds(l.products)
    ensures
      var r := StockLedger.Submit(l, f, txId, date);
      r.Applied? ==>
        var t := r.ledger.transactions[0];
        var p := FindById(l.products, t.productId).value;
        Dashboard.TotalValue(r.ledger.products) ==
          Dashboard.TotalValue(l.products) + p.price * StockLedger.Delta(t.txType, t.quantity)
  {
    var r := StockLedger.Submit(l, f, txId, date);
    if r.Applied? {
      var id := f.selected.value;
      var p := FindById(l.products, id).value;
      var q := p.quantity + StockLedger.Delta(f.txType, f.quantity.amount);
      assert r.ledger.products == StockLedger.SetQuantity(l.products, id, q);
      FindByIdAtIndex(l.products, id);
      SetQuantityChangesTotalValue(l.products, id, q);
    }
  }

  /** The café example: Cappuccino at 8 takes a deduction of 3 down to 5, a
      record (8 to 5) is kept, and a further deduction of 10 is refused with
      the stock left at 5. */
  lemma CappuccinoExample()
    ensures
      var cappuccino := Product(2, "Cappuccino", "", "Beverages", 425, 8, Some(10), None);
      var start := StockLedger.Ledger([cappuccino], []);
      var deduct3 := StockLedger.StockForm(Some(2), StockLedger.Entered(3), StockLedger.Deduct, "");
      var first := StockLedger.Submit(start, deduct3, 100, "2023-10-17T09:00:00.000Z");
      && Inventory.GetStatus(cappuccino) == LowStock
      && first.Applied?
      && first.ledger.products[0].quantity == 5
      && first.ledger.transactions ==
           [StockLedger.Transaction(100, 2, "Cappuccino", StockLedger.Deduct, 3, "", "2023-10-17T09:00:00.000Z", 8, 5)]
      && Inventory.GetStatus(first.ledger.products[0]) == LowStock
      && var deduct10 := StockLedger.StockForm(Some(2), StockLedger.Entered(10), StockLedger.Deduct, "");
         var second := StockLedger.Submit(first.ledger, deduct10, 101, "2023-10-17T09:05:00.000Z");
         && second == StockLedger.Rejected(StockLedger.InsufficientStock(5))
         && StockLedger.After(first.ledger, second).products[0].quantity == 5
  {
  }

  /** Adding a Latte at 4.00 with 12 in stock stores it as in stock and
      raises the total value by 48.00. */
  lemma LatteExample(products: seq<Product>)
    ensures
      var latte := ProductData("Latte", "", "Beverages", 400, 12);
      var after := AppStore.AddProduct(products, latte, 5);
      && after[|products|].status == Some(InStock)
      && Dashboard.TotalValue(after) == Dashboard.TotalValue(products) + 4800
  {
    Dashboard.TotalValueAppend(products, FromData(ProductData("Latte", "", "Beverages", 400, 12), 5));
  }
}
