/** The product-management screen: its search list, and the add/edit form
    whose submit validates the required fields and calls exactly one of the
    two store callbacks. */
module ProductForm {
  import opened Common
  import opened Products
  import Seqs
  import AppStore

  /** `searchTerm` effect: every record whose name, description or category
      contains the term, ignoring case, in list order. */
  function SearchResults(products: seq<Product>, term: string): (r: seq<Product>)
    ensures Seqs.IsSubseq(r, products)
    ensures forall i :: 0 <= i < |r| ==> MatchesTerm(r[i], term)
    ensures forall p: Product :: MatchesTerm(p, term) ==> multiset(r)[p] == multiset(products)[p]
    ensures term == "" ==> r == products
  {
    var keep := (p: Product) => MatchesTerm(p, term);
    assert term == "" ==> Seqs.Filter(products, keep) == products by {
      if term == "" {
        forall i | 0 <= i < |products|
          ensures keep(products[i])
        {
          EmptyTermMatchesAll(products[i]);
        }
        Seqs.FilterKeepsAll(products, keep);
      }
    }
    Seqs.Filter(products, keep)
  }

  /** The form's text boxes, as typed. */
  datatype Fields = Fields(name: string, description: string, category: string, price: string, quantity: string)

  const EmptyFields: Fields := Fields("", "", "", "", "")

  /** The form: its fields, the record being edited (if any), and whether it is shown. */
  datatype FormState = FormState(fields: Fields, editing: Option<Product>, showForm: bool)

  /** Which callback a submit invokes. */
  datatype Dispatch = NoCall | CallAdd(data: ProductData) | CallEdit(id: int, data: ProductData)

  datatype Submitted = Submitted(call: Dispatch, next: FormState)

  /** Name, category, price and quantity are all filled in; the description is optional. */
  predicate Complete(f: Fields) {
    f.name != "" && f.category != "" && f.price != "" && f.quantity != ""
  }

  /** `handleSubmit`. The number parsers stand for `parseFloat` (to cents) and `parseInt`. */
  function HandleSubmit(st: FormState, parsePrice: string -> int, parseQuantity: string -> int): (r: Submitted)
    // an incomplete form calls nothing and stays as it is
    ensures r.call.NoCall? <==> !Complete(st.fields)
    ensures !Complete(st.fields) ==> r.next == st
    // a complete form calls exactly one callback: edit for the record being edited, add otherwise
    ensures r.call.CallEdit? <==> Complete(st.fields) && st.editing.Some?
    ensures r.call.CallAdd? <==> Complete(st.fields) && st.editing.None?
    ensures r.call.CallEdit? ==> r.call.id == st.editing.value.id
    // the data sent is the typed fields, numbers parsed
    ensures !r.call.NoCall? ==>
              r.call.data == ProductData(st.fields.name, st.fields.description, st.fields.category,
                                         parsePrice(st.fields.price), parseQuantity(st.fields.quantity))
    // and the form is then emptied, taken out of edit mode and hidden
    ensures Complete(st.fields) ==> r.next == FormState(EmptyFields, None, false)
  {
    if !Complete(st.fields) then Submitted(NoCall, st)
    else
      var data := ProductData(st.fields.name, st.fields.description, st.fields.category,
                              parsePrice(st.fields.price), parseQuantity(st.fields.quantity));
      var call := if st.editing.Some? then CallEdit(st.editing.value.id, data) else CallAdd(data);
      Submitted(call, FormState(EmptyFields, None, false))
  }

  /** The application's wiring of the callbacks: add goes to its `addProduct`
      (with `newId` for `Date.now()`), edit to its `updateProduct`. */
  function Deliver(products: seq<Product>, call: Dispatch, newId: int): (r: seq<Product>)
    ensures call.NoCall? ==> r == products
    ensures call.CallAdd? ==> |r| == |products| + 1 && r[..|products|] == products
    ensures call.CallAdd? ==> r[|products|] == FromData(call.data, newId)
    ensures call.CallEdit? ==> |r| == |products|
    ensures call.CallEdit? ==>
              forall i :: 0 <= i < |products| ==>
                r[i] == if products[i].id == call.id then FromData(call.data, call.id) else products[i]
  {
    match call
    case NoCall => products
    case CallAdd(data) => AppStore.AddProduct(products, data, newId)
    case CallEdit(id, data) => AppStore.UpdateProduct(products, id, data)
  }

  /** Saving an edit through the form rewrites the edited record as
      `{ ...typed fields, id, status }`: the five typed fields with parsed
      numbers, the edited id and the fixed-10 status, with its
      `minStockLevel` dropped; the other records stay. */
  lemma EditSubmitRewritesRecord(products: seq<Product>, st: FormState, parsePrice: string -> int,
                                 parseQuantity: string -> int, newId: int, i: nat)
    requires Complete(st.fields) && st.editing.Some?
    requires i < |products|
    ensures
      var after := Deliver(products, HandleSubmit(st, parsePrice, parseQuantity).call, newId);
      && |after| == |products|
      && (products[i].id != st.editing.value.id ==> after[i] == products[i])
      && (products[i].id == st.editing.value.id ==>
            && after[i] == FromData(ProductData(st.fields.name, st.fields.description, st.fields.category,
                                                parsePrice(st.fields.price), parseQuantity(st.fields.quantity)),
                                    st.editing.value.id)
            && after[i].minStockLevel.None?)
  {
  }
}
