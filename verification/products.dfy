/** The product record shared by every view, the two stock-status rules
    found in the code, and the lookups and search predicate several
    components use. */
module Products {
  import opened Common
  import Seqs
  import Text

  /** The three status labels. */
  datatype Status = InStock | LowStock | OutOfStock

  /** The text shown for a status. */
  function Label(s: Status): string {
    match s
    case InStock => "In Stock"
    case LowStock => "Low Stock"
    case OutOfStock => "Out of Stock"
  }

  /** A catalog record. Prices are integer cents. `minStockLevel` and the
      stored `status` are keys a record may lack: records built from the
      product form carry no `minStockLevel`, the sample records carry no
      `status`. */
  datatype Product = Product(
    id: int,
    name: string,
    description: string,
    category: string,
    price: int,
    quantity: int,
    minStockLevel: Option<int>,
    status: Option<Status>)

  /** The record the product form submits: exactly these five keys, never an
      `id` or a `minStockLevel`. */
  datatype ProductData = ProductData(
    name: string,
    description: string,
    category: string,
    price: int,
    quantity: int)

  /** The threshold fixed into the stored status of new and edited records. */
  const FixedLowStockLimit: int := 10

  /** The threshold used when a record has no usable `minStockLevel`. */
  const DefaultMinStockLevel: int := 10

  /** The stored status of new and edited records: a fixed threshold of 10,
      with no out-of-stock case at all. */
  function FixedStatus(quantity: int): (s: Status)
    ensures s != OutOfStock
    ensures s == InStock <==> quantity > FixedLowStockLimit
  {
    if quantity > FixedLowStockLimit then InStock else LowStock
  }

  /** `product.minStockLevel || 10`: a missing or zero level falls back to 10. */
  function EffectiveMin(p: Product): (m: int)
    ensures m != 0
    ensures m == DefaultMinStockLevel || p.minStockLevel == Some(m)
    ensures p.minStockLevel.Some? && p.minStockLevel.value != 0 ==> m == p.minStockLevel.value
  {
    match p.minStockLevel
    case Some(level) => if level != 0 then level else DefaultMinStockLevel
    case None => DefaultMinStockLevel
  }

  /** `{ id, ...data, status }`, the record both stores build from submitted form data. */
  function FromData(data: ProductData, id: int): (p: Product)
    ensures p.id == id
    ensures ProductData(p.name, p.description, p.category, p.price, p.quantity) == data
    ensures p.minStockLevel.None?
    ensures p.status.Some? && p.status.value != OutOfStock
    ensures p.status == Some(InStock) <==> data.quantity > FixedLowStockLimit
  {
    Product(id, data.name, data.description, data.category, data.price, data.quantity,
            None, Some(FixedStatus(data.quantity)))
  }

  /** The search test: the lower-cased term occurs in the lower-cased name,
      description or category. */
  function MatchesTerm(p: Product, term: string): (b: bool)
    ensures term == [] ==> b
    ensures b ==> |term| <= |p.name| || |term| <= |p.description| || |term| <= |p.category|
  {
    var t := Text.Lower(term);
    || Text.Contains(Text.Lower(p.name), t)
    || Text.Contains(Text.Lower(p.description), t)
    || Text.Contains(Text.Lower(p.category), t)
  }

  /** An empty search term matches every product. */
  lemma EmptyTermMatchesAll(p: Product)
    ensures MatchesTerm(p, "")
  {
  }

  /** A term that spells some stretch of a product's name, up to the case of
      ASCII letters, finds that product: "ESPRESSO" and "press" both find
      "Espresso". */
  lemma {:induction false} CaseVariantOfNameMatches(p: Product, term: string, k: nat)
    requires k + |term| <= |p.name|
    requires forall i :: 0 <= i < |term| ==> Text.CaseVariant(term[i], p.name[k + i])
    ensures MatchesTerm(p, term)
  {
    var window := p.name[k..k + |term|];
    Text.LowerIgnoresCase(term, window);
    assert Text.Lower(p.name)[k..k + |term|] == Text.Lower(window);
    assert Text.OccursAt(Text.Lower(p.name), Text.Lower(term), k);
    Text.ContainsAt(Text.Lower(p.name), Text.Lower(term));
  }

  /** Every quantity in the list is non-negative. */
  predicate NonNegativeStock(s: seq<Product>) {
    forall i :: 0 <= i < |s| ==> s[i].quantity >= 0
  }

  /** No two records share an id. */
  predicate UniqueIds(s: seq<Product>) {
    forall i, j :: 0 <= i < j < |s| ==> s[i].id != s[j].id
  }

  /** `products.findIndex(p => p.id === id)`, with `None` for -1. */
  function IndexOfId(s: seq<Product>, id: int): (r: Option<nat>)
    ensures r.Some? ==> r.value < |s| && s[r.value].id == id
    ensures r.Some? ==> forall j :: 0 <= j < r.value ==> s[j].id != id
    ensures r.None? <==> forall j :: 0 <= j < |s| ==> s[j].id != id
  {
    Seqs.FirstIndex(s, (p: Product) => p.id == id)
  }

  /** `products.find(p => p.id === id)`, with `None` for `undefined`. */
  function FindById(s: seq<Product>, id: int): (r: Option<Product>)
    ensures r.Some? ==> r.value.id == id
    ensures r.Some? ==> exists i :: 0 <= i < |s| && s[i] == r.value && forall j :: 0 <= j < i ==> s[j].id != id
    ensures r.None? <==> forall j :: 0 <= j < |s| ==> s[j].id != id
  {
    Seqs.Find(s, (p: Product) => p.id == id)
  }

  /** The two lookups agree: the product found is the one at the index found. */
  lemma FindByIdAtIndex(s: seq<Product>, id: int)
    ensures FindById(s, id).None? <==> IndexOfId(s, id).None?
    ensures IndexOfId(s, id).Some? ==> FindById(s, id) == Some(s[IndexOfId(s, id).value])
  {
  }
}
