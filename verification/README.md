# Café inventory: stock ledger and catalog, modelled in Dafny

The system is a single-page inventory front end for a café. The application
keeps a list of product records (name, description, category, price,
quantity, an optional minimum stock level and an optional stored status) and
hands it to the inventory, dashboard and product screens. The stock screen
is the exception: it takes no props (`src/Components/StockManagement.js:4`)
and keeps its own sample list and history, so the `products` and
`onUpdateProduct` the application passes it (`src/App.js:140-142`) are
ignored, and a ledger adjustment never changes the list the dashboard
totals. The logic falls into four groups. Each is modelled here as pure
functions over immutable values:

- **Stock ledger** (`StockLedger`): the stock screen's submit handler. It
  validates the request, looks the product up, and refuses a deduction
  larger than the stock. It then sets the new quantity on every record with
  that id and prepends one transaction record holding the before and after
  quantities. The module also covers the date-prefix history filter and the
  three-way card class. It works on the stock screen's own list.
- **Two product stores**: the merge-style store that reads and writes the
  whole list (`DataStore`), and the replace-style list held in the
  application state (`AppStore`). Both store a status computed from a fixed
  threshold of 10 (`Products.FixedStatus`). That status never says "Out of
  Stock".
- **Derived views**: the inventory table's search/category filter, its
  three-way status and its two counts (`Inventory`). Also the dashboard's
  low-stock list, total value and five-row table with a two-way status
  (`Dashboard`). These use `minStockLevel || 10` (`Products.EffectiveMin`).
  `Consistency` states where these rules agree with the fixed-10 rule and
  where they part.
- **Product form** (`ProductForm`): the case-insensitive search list, and
  the submit handler. The handler checks the required fields and calls
  exactly one of the add and edit callbacks.

Conventions of the model:

- Prices are integer cents, and quantities are unbounded integers (see "Left out" for the doubles of the code).
- A key a JavaScript object may lack is an `Option`.
- The clock (`Date.now()` ids, ISO time stamps) and the number parsers
  (`parseFloat`, `parseInt`) are parameters.
- Browser storage is the `seq<Product>` passed in and returned.
- Each store operation returns the new list, or a `Change` holding the new
  list and the returned record.
- The ledger's outcome says whether the submit was refused with an alert,
  silently ignored, or applied.

Some behaviour of the code is looser than a stock store would usually be; the model keeps it as written:

- Status is stored on new and edited records, not only derived.
- The merge store's `getLowStockProducts` uses one global threshold (default
  10), not each record's minimum.
- Updating or deleting an absent id returns `null` or leaves the list as it
  was, instead of failing.
- The ledger reports an unknown product id by doing nothing, with no error.

`common.dfy` holds `Option`. `seqs.dfy` holds the order-preserving `Filter`,
whose contract characterises it completely (subsequence, every kept element
passes, every passing element kept as often as it occurs), and `FirstIndex`
and `Find`. `text.dfy` holds ASCII lower-casing, `startsWith` and `includes`.

## Model

| member | source | states |
|---|---|---|
| StockLedger.Submit | src/Components/StockManagement.js:76-125 | An empty selection or a blank, non-numeric or non-positive quantity is refused, and only such a request gets that refusal. An unknown id is a silent no-op. A deduction above the stock is refused with the available amount. Every other request is applied, so an add on a known product always succeeds, and then exactly one transaction is prepended before the unchanged history; its previous/new quantities differ by the signed amount, previous is the found product's quantity, and its name is copied. Records with other ids are unchanged and records with the id change only in quantity. Non-negative stock stays non-negative, and the form is cleared except for the type |
| StockLedger.SubmitAsWritten | src/Components/StockManagement.js:79-113 | The guard uses the `Number` reading of the quantity text. The overdraw check, the new stock, the list update and the recorded amount all use the `parseInt` reading. Every request that passes the guard, names a known product and does not overdraw by the parsed amount is applied, and the record's previous quantity is the found product's |
| StockLedger.SubmitAsWrittenKeepsInvariant | src/Components/StockManagement.js:87-119 | As written, a submit keeps stock non-negative and the history consistent whenever the `parseInt` reading is positive, whatever the `Number` reading |
| StockLedger.ExponentQuantityRecordsZero | src/Components/StockManagement.js:79-87 | Adding "0.1e1" to Cappuccino at 8 as written is applied with a zero-amount record and stock still 8, which breaks the history invariant; with one reading it records 1 and keeps the invariant |
| StockLedger.SetQuantity | src/Components/StockManagement.js:101-103 | Same length; records with another id are unchanged; records with the id differ only in `quantity` |
| StockLedger.SubmitKeepsInvariant | src/Components/StockManagement.js:90-119 | Any submit, refused or applied, keeps stock non-negative and every transaction consistent (positive amount, new = previous ± amount, new ≥ 0) |
| StockLedger.RunKeepsInvariant | src/Components/StockManagement.js:119 | Over any session of submits the invariant holds, the product count is unchanged, and the earlier history survives unchanged as the tail of the new one |
| StockLedger.FilterByDate | src/Components/StockManagement.js:127-130 | An empty filter returns the history unchanged; otherwise the result is the order-preserving subsequence of the records whose date starts with the filter, keeping every such record |
| StockLedger.StockClass | src/Components/StockManagement.js:132-136 | Exactly one of three classes: out-of-stock iff quantity is 0, low-stock iff non-zero and at most a stored minimum, in-stock otherwise (including when no minimum is stored) |
| Products.FixedStatus | src/App.js:51 | The stored status is In Stock iff quantity > 10 and is never Out of Stock, even at 0 |
| Products.EffectiveMin | src/Components/Inventory.js:52 | The effective minimum is never 0: it is the stored minStockLevel when that is non-zero, else 10 |
| Products.FromData | src/App.js:48-52 | The built record has the given id, exactly the submitted five fields, no minStockLevel, and the fixed-10 status |
| Products.MatchesTerm | src/Components/Inventory.js:25-29 | The search test: the empty term matches, and a matching term is no longer than the name, the description or the category |
| Products.CaseVariantOfNameMatches | src/Components/ProductManagement.js:18-22 | A term that spells some stretch of the name up to ASCII case matches the product |
| Products.EmptyTermMatchesAll | src/Components/ProductManagement.js:18-22 | The empty search term matches every product |
| Products.IndexOfId | src/Data.js:72 | The position of the first record with the id, or none exactly when no record has it |
| Products.FindById | src/Components/StockManagement.js:84 | The first record with the id, or none exactly when no record has it |
| Text.Lower | src/Components/Inventory.js:26-28 | Same length; each A-Z becomes its a-z and every other character is kept, so no upper-case ASCII letter remains |
| Text.LowerIgnoresCase | src/Components/Inventory.js:26-28 | Texts that differ only in the case of ASCII letters lower-case to the same text |
| Text.StartsWith | src/Components/StockManagement.js:129 | `startsWith` holds iff the prefix is no longer than the text and agrees with it character by character |
| Text.Contains | src/Components/Inventory.js:26-28 | `includes`: the empty term is in every text, and no term is found in a shorter text |
| Text.ContainsAt | src/Components/Inventory.js:26-28 | `includes` holds iff some window of the text equals the term |
| Seqs.Filter | src/App.js:67 | `filter` yields an order-preserving subsequence whose elements all pass, containing each passing element as often as the input does |
| Seqs.FirstIndex | src/Data.js:72 | `findIndex` yields the first passing position, or none exactly when no element passes |
| Seqs.FilterTwice | src/Components/Inventory.js:24-37 | Filtering by one test then another equals filtering once by a test that holds exactly when both do |
| DataStore.AddProduct | src/Data.js:56-66 | The list grows by one, earlier records unchanged, the new record last and returned, with status In Stock iff quantity > 10 |
| DataStore.AddThenFind | src/Data.js:56-66 | After adding under a fresh id, looking that id up returns the new record |
| DataStore.Merge | src/Data.js:75-79 | `{ ...record, ...update }`: each key the update object supplies wins, every other key keeps the record's value, and the status is the one given |
| DataStore.UpdateProduct | src/Data.js:70-85 | On an absent id: list unchanged, result null. Otherwise only the first record with the id changes. It takes each supplied key of the update object, keeps the rest, is returned, and gets its status from the update object's own quantity |
| DataStore.PatchStatus | src/Data.js:78 | In Stock iff the update object supplies a quantity above 10; never Out of Stock |
| DataStore.UpdateProductIntended | src/Data.js:75-79 | Like `UpdateProduct`, but the stored status follows the merged record's quantity |
| DataStore.UpdateVersionsAgree | src/Data.js:78 | The as-written and intended updates coincide whenever the update object supplies a quantity |
| DataStore.RenameMarksLowStock | src/Data.js:78 | Renaming a record with 42 in stock stores Low Stock as written, In Stock as intended |
| DataStore.RemoveAt | src/Data.js:93 | `splice(k, 1)` shortens by one and putting the removed element back at k restores the list |
| DataStore.DeleteProduct | src/Data.js:88-99 | On an absent id: unchanged, null. Otherwise the first record with the id is removed and returned, and the remaining records keep their order |
| DataStore.DeleteThenFind | src/Data.js:88-105 | With unique ids, a deleted id is no longer found |
| DataStore.GetProductById | src/Data.js:102-105 | The first record with the id, or none exactly when no record has it |
| DataStore.GetProductsByCategory | src/Data.js:108-111 | The order-preserving subsequence of exactly the records of that category |
| DataStore.GetLowStockProducts | src/Data.js:114-117 | The order-preserving subsequence of exactly the records with quantity at most the threshold, 10 when none is given |
| AppStore.AddProduct | src/App.js:47-54 | One record appended last, earlier records unchanged, status In Stock iff quantity > 10 |
| AppStore.UpdateProduct | src/App.js:57-63 | Every record with the id becomes the submitted fields plus the id and fixed-10 status, losing minStockLevel; other records and the length are unchanged; an absent id is the identity |
| AppStore.DeleteProduct | src/App.js:66-68 | The order-preserving subsequence of every record with another id; none with the id remains; an absent id is the identity |
| AppStore.AddThenDelete | src/App.js:47-68 | Deleting a record just added under a fresh id restores the list |
| Inventory.GetStatus | src/Components/Inventory.js:50-54 | Out of Stock iff quantity 0; Low Stock iff non-zero and at most the minimum (minStockLevel, or 10 when absent or 0); In Stock iff above it |
| Inventory.StatusClass | src/Components/Inventory.js:56-63 | Each of the three labels gets its own class, and any other text gets the empty class |
| Inventory.FilterProducts | src/Components/Inventory.js:20-40 | An order-preserving subsequence whose records all match the term and, unless "all", the category, keeping every such record; empty term with "all" gives the list unchanged |
| Inventory.FilterProductsIsOneFilter | src/Components/Inventory.js:21-37 | The two-stage filter equals one filter by the combined test, also when the empty-term stage is skipped |
| Inventory.LowStockCount | src/Components/Inventory.js:101 | At most the number of records, and zero iff no record is positive and at or under its minimum |
| Inventory.OutOfStockCount | src/Components/Inventory.js:102 | At most the number of records, and zero iff no record has quantity 0 |
| Inventory.CountsWithinList | src/Components/Inventory.js:101-102 | For every list, with any quantities, the low-stock and out-of-stock counts together are at most the number of records |
| Inventory.CountsMatchStatus | src/Components/Inventory.js:101-102 | With non-negative stock the counts are the numbers of records whose status is Low Stock and Out of Stock, and their sum is at most the number of records |
| Dashboard.LowStockProducts | src/Components/Dashboard.js:6-8 | The order-preserving subsequence of exactly the records with 0 < quantity ≤ the minimum (minStockLevel, or 10 when absent or 0) |
| Dashboard.AlertShownIff | src/Components/Dashboard.js:60 | The low-stock alert shows iff some record is running low |
| Dashboard.TotalValueConcat | src/Components/Dashboard.js:10-12 | The total of two lists side by side is the sum of their totals |
| Dashboard.TotalValueAppend | src/Components/Dashboard.js:10-12 | Appending a product raises the total by its price times quantity |
| Dashboard.TotalValue | src/Components/Dashboard.js:10-12 | The `reduce` total: non-negative prices and stock give a non-negative total, and a list with no stock totals 0 |
| Dashboard.TotalValueChangeAt | src/Components/Dashboard.js:10-12 | Changing one record changes the total by the change in that record's value |
| Dashboard.TableStatus | src/Components/Dashboard.js:86-87 | Two-way: Low Stock iff quantity ≤ the minimum (minStockLevel, or 10 when absent or 0), zero included; never Out of Stock |
| Dashboard.RecentRows | src/Components/Dashboard.js:85-95 | min(5, n) rows for the first records in list order, each with the two-way status and highlighted iff low |
| ProductForm.SearchResults | src/Components/ProductManagement.js:17-24 | The order-preserving subsequence of exactly the records matching the term case-insensitively in name, description or category; the empty term returns every record |
| ProductForm.HandleSubmit | src/Components/ProductManagement.js:31-57 | A missing name, category, price or quantity calls nothing and leaves the form. Otherwise exactly one callback is called: edit with the edited record's id when editing, add otherwise. The data is the five typed fields with parsed numbers, and the form is emptied, leaves edit mode and is hidden |
| ProductForm.Deliver | src/App.js:131-136 | No call leaves the list. An add keeps the list and puts the record built from the data and the new id at the end. An edit keeps the length, rebuilds every record with the id from the data, and leaves the others |
| ProductForm.EditSubmitRewritesRecord | src/Components/ProductManagement.js:39-51 | Saving an edit replaces every record with the edited id by the record built from the five typed fields (parsed price and quantity), the edited id and the fixed-10 status, without minStockLevel; other records are unchanged |
| Consistency.TableDisagreesOnlyAtZero | src/Components/Dashboard.js:86-87 | The dashboard table status and the inventory status differ exactly at quantity 0 |
| Consistency.FixedAgreesWithDerivedIff | src/Data.js:61 | The stored fixed-10 status equals the inventory status iff stock is non-zero and 10 and the record's minimum put it on the same side |
| Consistency.StockClassMatchesStatus | src/Components/StockManagement.js:132-136 | With a non-zero stored minimum the stock card class and the inventory status agree case by case |
| Consistency.StockClassIgnoresDefault | src/Components/StockManagement.js:134 | Without a stored minimum, 1 to 10 in stock is in-stock on the card but Low Stock in the inventory |
| Consistency.LowStockCountsAgree | src/Components/Dashboard.js:6-8 | The dashboard low-stock card and the inventory low-stock count agree |
| Consistency.EditFallsBackToDefault | src/App.js:60 | An edited record is judged against the default minimum of 10 |
| Consistency.SetQuantityChangesTotalValue | src/Components/StockManagement.js:101-103 | With unique ids, setting one record's quantity changes the total value by its price times the change |
| Consistency.SubmitChangesTotalValue | src/Components/StockManagement.js:101-103 | With unique ids, an applied adjustment changes the total value of the stock screen's own list by price times the signed amount |
| Consistency.CappuccinoExample | src/Components/StockManagement.js:90-97 | Cappuccino at 8: deduct 3 gives 5 with a record (8 → 5); then deduct 10 is refused and 5 remains |
| Consistency.LatteExample | src/App.js:47-54 | Adding a Latte at 4.00 × 12 stores In Stock and raises the total by 48.00 |

## Left out

- Rendering, loading spinners, `setTimeout`/`useEffect` scheduling and sidebar navigation: presentation with no contract. The search effects are modelled as functions of their inputs.
- `localStorage` and `JSON.parse`/`JSON.stringify` in `src/Data.js`: browser I/O. The stored list is a parameter and a result, and the fallback to the sample list is the caller's choice of that parameter.
- `Date.now()` and `new Date().toISOString()`: clock values, passed in as `txId`/`newId`/`id` and `date`.
- CSV export (Blob, object URLs, `toLocaleString`, `toFixed`): download plumbing with locale and floating-point formatting.
- JavaScript numbers are doubles, exact only up to 2^53; quantities and prices here are unbounded integers. The ledger's invariants (`StockLedger.ConsistentHistory`: new = previous ± amount) are proved for unbounded integers. In the code they hold only while stock and amounts stay below 2^53: adding "9007199254740992" to a stock of 5 rounds the new stock to 9007199254740996.
- Floating-point prices: prices are integer cents, and `toFixed(2)` rounding is not modelled.
- `parseFloat` and `parseInt` of the product form's text: they are function parameters, and a NaN result is not modelled.
- StockLedger.Submit: the quantity box is blank, not a number, or a whole number, read one way by both the guard and the arithmetic. Fractional text such as "1.5" is stopped by the number input's default step of 1. Exponent text is not stopped: "0.1e1" and ".5e1" are valid values 1 and 5. The code as written reads such text with `parseInt`, giving 0 and NaN (see Findings). `StockLedger.SubmitAsWritten` models the 0 case. The NaN case is not modelled, because it stores NaN as the stock and quantities here are integers. The positive amounts and non-negative stock of `StockLedger.ConsistentHistory` therefore hold for the one-reading `Submit`. As written, they hold whenever the `parseInt` reading is positive (`StockLedger.SubmitAsWrittenKeepsInvariant`), so "1e1", which passes as 10 and adds 1, is harmless; only a reading of 0 or NaN breaks them.
- `toLowerCase` folds ASCII letters only; other Unicode case mappings are not modelled.
- Records always carry `name`, `description` and `category` strings. A record lacking one, such as the stock screen's samples without a description, would make the search throw; that is not modelled.
- A `minStockLevel` of NaN or `null` is not modelled; only an absent key or a number.
- DataStore.AddProduct: the input is the five-field form record. An input object carrying its own `id`, which the spread would let override the generated one, is not modelled.
- `alert` and `window.confirm`: alerts are the `Rejected` outcome or `NoCall`. The delete confirmation, `handleEdit`, `cancelEdit` and the inventory's edit alert are not modelled: each only copies values into form state or forwards to `AppStore.DeleteProduct`.
- Inventory.CountsMatchStatus: requires non-negative stock for its status equalities. For a negative quantity, `getStatus` says Low Stock while `lowStockCount` skips the record. The bound on the two counts needs no such requirement and is stated for every list by `Inventory.CountsWithinList`.
- The sample data arrays and the constant weekly-sales figure: fixtures. Two of them appear as the concrete examples `Consistency.CappuccinoExample` and `Consistency.LatteExample`.
- Transaction history is not persisted by the system, so there is no storage of it to model.

## Findings

| source | as written | input that shows it | evidently intended | confidence | as-written member | corrected member |
|---|---|---|---|---|---|---|
| src/Components/StockManagement.js:79-87 | the guard reads the quantity text with `Number` (`!quantity`, `isNaN`, `<= 0`), the arithmetic and the record with `parseInt` | adding "0.1e1", which the number input with `min="1"` accepts as 1, passes the guard and then records a transaction of 0 with stock unchanged (".5e1" gives NaN stock) | one numeric reading for the check and the arithmetic | medium, not executed | StockLedger.SubmitAsWritten, StockLedger.ExponentQuantityRecordsZero | StockLedger.Submit, StockLedger.SubmitKeepsInvariant |
| src/Data.js:78 | the stored status comes from `updatedProduct.quantity > 10`, the update object's own quantity | `updateProduct(1, { name: 'Ristretto' })` on Espresso with 42 in stock stores 'Low Stock' (`undefined > 10` is false) | status from the merged record's quantity, here 'In Stock' | medium, not executed | DataStore.UpdateProduct, DataStore.RenameMarksLowStock | DataStore.UpdateProductIntended |
