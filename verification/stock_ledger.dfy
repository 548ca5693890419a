/** The stock ledger of the stock-management screen: a validated, signed
    adjustment of one product's quantity that prepends an immutable
    transaction record, the date filter over the history, and the card
    status class. */
module StockLedger {
  import opened Common
  import opened Products
  import Seqs
  import Text

  datatype TxType = Add | Deduct

  /** One ledger entry. `id` and `date` come from the clock and are passed in. */
  datatype Transaction = Transaction(
    id: int,
    productId: int,
    productName: string,
    txType: TxType,
    quantity: int,
    notes: string,
    date: string,
    previousQuantity: int,
    newQuantity: int)

  /** The quantity box: empty, not a number, or a whole number. */
  datatype QuantityInput = Blank | NotANumber | Entered(amount: int)

  /** The transaction form. `selected` is `None` while no product is chosen. */
  datatype StockForm = StockForm(
    selected: Option<int>,
    quantity: QuantityInput,
    txType: TxType,
    notes: string)

  /** The products and the history, newest transaction first. */
  datatype Ledger = Ledger(products: seq<Product>, transactions: seq<Transaction>)

  /** Why a submit was refused with an alert. */
  datatype Rejection = InvalidRequest | InsufficientStock(available: int)

  /** What a submit does: refuse with an alert, silently do nothing when the
      selected id is unknown, or apply the adjustment and reset the form. */
  datatype Outcome = Rejected(reason: Rejection) | UnknownProduct | Applied(ledger: Ledger, form: StockForm)

  /** The ledger after an outcome: every failure leaves it as it was. */
  function After(l: Ledger, o: Outcome): Ledger {
    if o.Applied? then o.ledger else l
  }

  /** The signed change a transaction makes. */
  function Delta(t: TxType, amount: int): int {
    match t
    case Add => amount
    case Deduct => -amount
  }

  /** A product is chosen and the quantity is a positive number. */
  predicate WellFormed(f: StockForm) {
    f.selected.Some? && f.quantity.Entered? && f.quantity.amount > 0
  }

  /** `products.map(p => p.id === id ? { ...p, quantity: q } : p)`. */
  function SetQuantity(s: seq<Product>, id: int, q: int): (r: seq<Product>)
    ensures |r| == |s|
    ensures forall i :: 0 <= i < |s| && s[i].id != id ==> r[i] == s[i]
    ensures forall i :: 0 <= i < |s| && s[i].id == id ==> r[i] == s[i].(quantity := q)
  {
    seq(|s|, i requires 0 <= i < |s| => if s[i].id == id then s[i].(quantity := q) else s[i])
  }

  /** The submit handler as written. The guard reads the quantity box through
      `Number` (`!quantity`, `isNaN`, `quantity <= 0`), which `f.quantity`
      holds; the arithmetic and the record use `parseInt` of the same text,
      which is `parsed`. For plain decimal digits the two agree; for exponent
      text such as "0.1e1", which the number input accepts as 1, `parseInt`
      stops at the "." and gives 0. `txId` and `date` stand for `Date.now()`
      and the ISO time stamp. */
  function SubmitAsWritten(l: Ledger, f: StockForm, parsed: int, txId: int, date: string): (r: Outcome)
    // the guard looks only at the checked reading
    ensures r == Rejected(InvalidRequest) <==> !WellFormed(f)
    ensures WellFormed(f) && FindById(l.products, f.selected.value).None? ==> r == UnknownProduct
    // the overdraw check, the arithmetic and the record use the parsed reading
    ensures r.Rejected? && r.reason.InsufficientStock? <==>
              && WellFormed(f)
              && FindById(l.products, f.selected.value).Some?
              && f.txType == Deduct
              && parsed > FindById(l.products, f.selected.value).value.quantity
    // every other request is applied, with the parsed reading
    ensures WellFormed(f) && FindById(l.products, f.selected.value).Some? &&
            !(f.txType == Deduct && parsed > FindById(l.products, f.selected.value).value.quantity) ==>
              r.Applied?
    ensures r.Applied? ==>
              && |r.ledger.transactions| == |l.transactions| + 1
              && r.ledger.transactions[1..] == l.transactions
              && r.ledger.transactions[0].quantity == parsed
              && r.ledger.transactions[0].newQuantity ==
                   r.ledger.transactions[0].previousQuantity + Delta(f.txType, parsed)
    // the stock list and the record start from the found product's quantity
    ensures r.Applied? ==>
              && WellFormed(f)
              && FindById(l.products, f.selected.value).Some?
              && |r.ledger.transactions| == |l.transactions| + 1
              && var p := FindById(l.products, f.selected.value).value;
                 && r.ledger.transactions[0].previousQuantity == p.quantity
                 && r.ledger.products == SetQuantity(l.products, p.id, p.quantity + Delta(f.txType, parsed))
  {
    if !WellFormed(f) then Rejected(InvalidRequest)
    else
      match FindById(l.products, f.selected.value)
      case None => UnknownProduct
      case Some(p) =>
        if f.txType == Deduct && parsed > p.quantity then Rejected(InsufficientStock(p.quantity))
        else
          var q := p.quantity + Delta(f.txType, parsed);
          var t := Transaction(txId, p.id, p.name, f.txType, parsed, f.notes, date, p.quantity, q);
          Applied(Ledger(SetQuantity(l.products, p.id, q), [t] + l.transactions),
                  StockForm(None, Blank, f.txType, ""))
  }

  /** The submit handler with one reading of the quantity for the guard and
      the arithmetic, as the code evidently intends. */
  function Submit(l: Ledger, f: StockForm, txId: int, date: string): (r: Outcome)
    // refusals change nothing
    ensures r == Rejected(InvalidRequest) <==> !WellFormed(f)
    ensures WellFormed(f) && FindById(l.products, f.selected.value).None? ==> r == UnknownProduct
    ensures r.Rejected? && r.reason.InsufficientStock? <==>
              && WellFormed(f)
              && FindById(l.products, f.selected.value).Some?
              && f.txType == Deduct
              && f.quantity.amount > FindById(l.products, f.selected.value).value.quantity
    ensures r.Rejected? && r.reason.InsufficientStock? ==>
              r.reason.available == FindById(l.products, f.selected.value).value.quantity
    // a valid request on a known product is applied unless it overdraws; an add always is
    ensures WellFormed(f) && FindById(l.products, f.selected.value).Some? &&
            !(f.txType == Deduct && f.quantity.amount > FindById(l.products, f.selected.value).value.quantity) ==>
              r.Applied?
    // a success prepends exactly one record and keeps the old history behind it
    ensures r.Applied? ==> |r.ledger.transactions| == |l.transactions| + 1
    ensures r.Applied? ==> r.ledger.transactions[1..] == l.transactions
    // the record describes the request and the quantity change it made
    ensures r.Applied? ==>
              var t := r.ledger.transactions[0];
              && WellFormed(f)
              && Some(t.productId) == f.selected
              && t.txType == f.txType
              && t.quantity == f.quantity.amount > 0
              && t.notes == f.notes
              && t.id == txId && t.date == date
              && t.newQuantity == t.previousQuantity + Delta(t.txType, t.quantity)
              && FindById(l.products, t.productId).Some?
              && FindById(l.products, t.productId).value.quantity == t.previousQuantity
              && FindById(l.products, t.productId).value.name == t.productName
    // only records with that id change, and only in their quantity
    ensures r.Applied? ==>
              var t := r.ledger.transactions[0];
              && |r.ledger.products| == |l.products|
              && (forall i :: 0 <= i < |l.products| && l.products[i].id != t.productId ==>
                    r.ledger.products[i] == l.products[i])
              && (forall i :: 0 <= i < |l.products| && l.products[i].id == t.productId ==>
                    r.ledger.products[i] == l.products[i].(quantity := t.newQuantity))
    // stock never goes negative
    ensures r.Applied? && r.ledger.transactions[0].previousQuantity >= 0 ==> r.ledger.transactions[0].newQuantity >= 0
    ensures r.Applied? && NonNegativeStock(l.products) ==> NonNegativeStock(r.ledger.products)
    // the form is cleared, keeping the transaction type
    ensures r.Applied? ==> r.form == StockForm(None, Blank, f.txType, "")
  {
    SubmitAsWritten(l, f, if f.quantity.Entered? then f.quantity.amount else 0, txId, date)
  }

  /** Every recorded transaction is internally consistent: a positive amount,
      and a before/after pair that differ by exactly the signed amount and
      never drop below zero. */
  predicate ConsistentHistory(ts: seq<Transaction>) {
    forall i :: 0 <= i < |ts| ==>
      && ts[i].quantity > 0
      && ts[i].newQuantity == ts[i].previousQuantity + Delta(ts[i].txType, ts[i].quantity)
      && ts[i].newQuantity >= 0
  }

  /** The ledger invariant: stock is non-negative and the history is consistent. */
  predicate Invariant(l: Ledger) {
    NonNegativeStock(l.products) && ConsistentHistory(l.transactions)
  }

  /** Exponent text in the quantity box, as written: "0.1e1" passes the guard
      as 1, but `parseInt` reads 0, so adding it to Cappuccino at 8 is applied
      and records a zero-amount transaction, which breaks the history's
      invariant. The intended reading records 1 and keeps the invariant. */
  lemma ExponentQuantityRecordsZero()
    ensures
      var cappuccino := Product(2, "Cappuccino", "", "Beverages", 425, 8, Some(10), None);
      var start := Ledger([cappuccino], []);
      var form := StockForm(Some(2), Entered(1), Add, "");
      var asWritten := SubmitAsWritten(start, form, 0, 100, "2023-10-17T09:00:00.000Z");
      var intended := Submit(start, form, 100, "2023-10-17T09:00:00.000Z");
      && Invariant(start)
      && asWritten.Applied?
      && asWritten.ledger.transactions[0].quantity == 0
      && asWritten.ledger.products[0].quantity == 8
      && !Invariant(asWritten.ledger)
      && intended.Applied?
      && intended.ledger.products[0].quantity == 9
      && Invariant(intended.ledger)
  {
  }

  /** As written the invariant survives whenever the `parseInt` reading is
      positive, whatever the `Number` reading was; only a reading of 0 (or
      NaN, not modelled) breaks it. */
  lemma SubmitAsWrittenKeepsInvariant(l: Ledger, f: StockForm, parsed: int, txId: int, date: string)
    requires Invariant(l)
    requires parsed > 0
    ensures Invariant(After(l, SubmitAsWritten(l, f, parsed, txId, date)))
  {
  }

  /** One submit, successful or not, keeps the invariant. */
  lemma SubmitKeepsInvariant(l: Ledger, f: StockForm, txId: int, date: string)
    requires Invariant(l)
    ensures Invariant(After(l, Submit(l, f, txId, date)))
  {
  }

  /** One submit of a session: the form as filled in, and the clock values. */
  datatype Request = Request(form: StockForm, txId: int, date: string)

  /** The ledger after a session of submits, applied in order. */
  function Run(l: Ledger, rs: seq<Request>): Ledger
    decreases |rs|
  {
    if rs == [] then l
    else Run(After(l, Submit(l, rs[0].form, rs[0].txId, rs[0].date)), rs[1..])
  }

  /** Over a whole session the invariant holds, and the history only grows at
      the front: every earlier record is still there, unchanged and in order. */
  lemma {:induction false} RunKeepsInvariant(l: Ledger, rs: seq<Request>)
    requires Invariant(l)
    ensures Invariant(Run(l, rs))
    ensures |Run(l, rs).products| == |l.products|
    ensures |l.transactions| <= |Run(l, rs).transactions|
    ensures Run(l, rs).transactions[|Run(l, rs).transactions| - |l.transactions|..] == l.transactions
    decreases |rs|
  {
    if rs != [] {
      var next := After(l, Submit(l, rs[0].form, rs[0].txId, rs[0].date));
      SubmitKeepsInvariant(l, rs[0].form, rs[0].txId, rs[0].date);
      RunKeepsInvariant(next, rs[1..]);
      var fin := Run(next, rs[1..]).transactions;
      var k := |fin| - |next.transactions|;
      if next != l {
        assert next.transactions == [next.transactions[0]] + l.transactions;
        assert fin[k..] == [next.transactions[0]] + l.transactions;
        assert fin[k + 1..] == fin[k..][1..];
      }
    }
  }

  /** The history list: everything when the date filter is empty, otherwise
      the records whose time stamp starts with the filter text. */
  function FilterByDate(ts: seq<Transaction>, filterDate: string): (r: seq<Transaction>)
    ensures filterDate == "" ==> r == ts
    ensures filterDate != "" ==> Seqs.IsSubseq(r, ts)
    ensures filterDate != "" ==> forall i :: 0 <= i < |r| ==> Text.StartsWith(r[i].date, filterDate)
    ensures filterDate != "" ==>
              forall t: Transaction :: Text.StartsWith(t.date, filterDate) ==> multiset(r)[t] == multiset(ts)[t]
  {
    var keep := (t: Transaction) => filterDate == "" || Text.StartsWith(t.date, filterDate);
    assert filterDate == "" ==> Seqs.Filter(ts, keep) == ts by {
      if filterDate == "" {
        Seqs.FilterKeepsAll(ts, keep);
      }
    }
    Seqs.Filter(ts, keep)
  }

  /** The card colour class. It reads `minStockLevel` as stored, so a record
      without one is never low: `quantity <= undefined` is false. */
  function StockClass(p: Product): (c: string)
    ensures c in {"out-of-stock", "low-stock", "in-stock"}
    ensures c == "out-of-stock" <==> p.quantity == 0
    ensures c == "low-stock" <==>
              p.quantity != 0 && p.minStockLevel.Some? && p.quantity <= p.minStockLevel.value
    ensures c == "in-stock" <==>
              p.quantity != 0 && (p.minStockLevel.None? || p.quantity > p.minStockLevel.value)
  {
    if p.quantity == 0 then "out-of-stock"
    else if p.minStockLevel.Some? && p.quantity <= p.minStockLevel.value then "low-stock"
    else "in-stock"
  }
}
