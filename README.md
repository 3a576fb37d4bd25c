# Ferretería inventory and sales — a Dafny model of the core

This project models the core of a small hardware-store inventory and point-of-sale system. The model covers:

- the **sale transaction** of the SQLite sales repository: subtotals and total, a guarded stock decrement for each item, the header and item rows, and all-or-nothing commit;
- the repository's **read side**: the sales listing joined with clients, the detail of one sale, the existence queries, today's sales and the top-five report;
- the **sales service**, which runs its checks in a fixed order before the transaction;
- the **products and clients repositories** (create with a fresh id, newest-first listing, update by id, delete by id) and the field checks of their **services**;
- two pieces of the **browser client**: `escapeHTML` and the sale cart (add with merging, recompute, remove by position, submission).

The database is a class, `Store.Database`. Its products, clients, sales and sale-item tables are sequence fields, alongside the next-id counter of each table.
- Every repository method other than `TopProductos` is verified to compute a pure function of `Database.State()`: `Ledger.CreateSale`, `LedgerReads.Listing`, `Products.Replaced` and so on.
- The properties are lemmas about those functions.
- `Store.Database.Valid` is the invariant every mutation keeps:
  - ids ascending and below the counters;
  - every item row points at an existing sale.
- `Store.Sound` is the business rule the services keep: stock ≥ 0, price > 0, client fields present.

Money is an integer count of cents. The timestamp of a sale is an opaque value passed in by the caller.

Two behaviours of the code are worth stating outright:
- **Sale detail.** `GetSaleDetail` does not reject ids ≤ 0; `SaleService.Detail` does (`internal/service/sale_service.go:67-69`).
- **Top-five ties.** The query of `TopProductos` orders by quantity only (`internal/storage/sqlite/sale_repo.go:228-235`). Neither the order among equal quantities nor which of them takes the last place is fixed. The contracts of the two `TopProductos` methods therefore admit every answer the query can give. The function `LedgerReads.TopProducts`, which their bodies return, picks one of them.

## Model

| member | source | states |
|---|---|---|
| Ledger.CreateSale | internal/storage/sqlite/sale_repo.go:24-103 | the whole transaction as a function of the store: a failure is InsufficientStock with the store unchanged; a success takes the next sale id, records the client, time and one item per input, and advances the sale counter; clients, the other counters and the number of products never change |
| Ledger.ApplySale | internal/storage/sqlite/sale_repo.go:56-89 | the guarded decrements of all items in order, `None` at the first that affects no row; a success keeps the number of product rows |
| Ledger.Priced | internal/storage/sqlite/sale_repo.go:37-40 | each item's subtotal is overwritten with quantity × unit price; product, quantity and price are kept, in order |
| Ledger.TotalOfPriced | internal/storage/sqlite/sale_repo.go:34-40 | the running total of the recomputed subtotals equals the sum of quantity × unit price over the items |
| Ledger.SubtotalsIgnored | internal/storage/sqlite/sale_repo.go:37-40 | caller-supplied subtotals have no effect: items that agree on product, quantity and price give the same sale and the same store |
| Ledger.GuardedDecrement | internal/storage/sqlite/sale_repo.go:59-74 | the conditional UPDATE affects no row exactly when no product with that id has stock ≥ the quantity; otherwise only that row's stock drops by the quantity |
| Ledger.DecrementEffect | internal/storage/sqlite/sale_repo.go:59-74 | a successful decrement keeps ids unique and every row index, and lowers only the named product's stock |
| Ledger.ApplySaleSucceedsIff | internal/storage/sqlite/sale_repo.go:56-89 | the item loop succeeds iff each item's product exists and its stock covers the demand for that product among the items up to and including it |
| Ledger.ApplySaleStock | internal/storage/sqlite/sale_repo.go:56-89 | after the loop each product's stock is lowered by its total demand across the items, and nothing else changes |
| Ledger.ApplySaleNonNegative | internal/storage/sqlite/sale_repo.go:59-74 | the guard never lets a stock go below zero; names, prices and ids are unchanged |
| Ledger.MissingProductFails | internal/storage/sqlite/sale_repo.go:70-74 | an item naming a missing product makes the transaction fail |
| Ledger.DemandAtLastItem | internal/storage/sqlite/sale_repo.go:56-74 | a product's whole demand is reached at its last item, where its guard is checked |
| Ledger.CreateSaleAllOrNothing | internal/storage/sqlite/sale_repo.go:24-103 | the sale fails exactly when some item's guarded decrement fails; a failure answers InsufficientStock and leaves every table unchanged |
| Ledger.CreateSaleRecords | internal/storage/sqlite/sale_repo.go:43-102 | a success adds one header with the next sale id, the client, the time and the total; it appends one item row per item in order, and returns the sale with the recomputed items |
| Ledger.CreateSaleStock | internal/storage/sqlite/sale_repo.go:56-89 | a success lowers each product's stock by its demand and keeps the business rule |
| Ledger.CreateSaleConsistent | internal/storage/sqlite/sale_repo.go:24-103 | the transaction keeps the store invariant, whatever its outcome |
| Ledger.OversellRefused | internal/storage/sqlite/sale_repo.go:59-74 | after one sale, a second sale whose demand for a product, added to the first's, exceeds the original stock is refused |
| Ledger.ExampleSale | internal/storage/sqlite/sale_repo.go:24-103 | 3 of A at 5.00 and 2 of B at 20.00 (stocks 10 and 2) succeed with total 55.00 and stocks 7 and 0 |
| Ledger.ExampleOversell | internal/storage/sqlite/sale_repo.go:24-103 | 3 of A and 5 of B (B has stock 2) fail with InsufficientStock, and A's stock stays 10 although its decrement ran first |
| Sales.SaleRepo.CreateSaleTx | internal/storage/sqlite/sale_repo.go:24-103 | the method's answer and new state are exactly `Ledger.CreateSale` of the old state; a failure is InsufficientStock with the store untouched |
| Sales.SaleRepo.PriceItems | internal/storage/sqlite/sale_repo.go:34-40 | the subtotal loop yields the recomputed items and the total, which is the sum of quantity × unit price |
| Sales.SaleRepo.ApplyItems | internal/storage/sqlite/sale_repo.go:56-89 | the stock loop on a working copy equals the sequence of guarded decrements and stops at the first one that affects no row; on success the rows are one item row per item |
| LedgerReads.ItemsOfSale | internal/storage/sqlite/sale_repo.go:165-183 | the items of one sale in row order: no more than there are rows, each one the item of a row of that sale |
| LedgerReads.SaleDetailOf | internal/storage/sqlite/sale_repo.go:141-186 | NotFound exactly when no sale has the id; otherwise the header's fields, with the items of that sale in row order |
| LedgerReads.DetailAfterCreate | internal/storage/sqlite/sale_repo.go:141-186 | the detail of a freshly created sale has the same id, client, total and recomputed items, in input order, and the same `Timestamp` as the sale the transaction returned |
| Sales.SaleRepo.GetSaleDetail | internal/storage/sqlite/sale_repo.go:141-186 | the lookup and item scan compute `SaleDetailOf`; Err iff no sale has the id, and then NotFound |
| LedgerReads.Listing | internal/storage/sqlite/sale_repo.go:109-135 | the joined listing, newest first: no more rows than headers, and no listed sale carries items |
| LedgerReads.ListingComplete | internal/storage/sqlite/sale_repo.go:109-114 | a sale appears in the listing iff its client exists (the inner join) |
| LedgerReads.ListingDescending | internal/storage/sqlite/sale_repo.go:109-114 | for headers stored in ascending id order, the listing is in strictly descending id order |
| Sales.SaleRepo.ListSales | internal/storage/sqlite/sale_repo.go:107-138 | the row loop builds the joined listing; ids strictly descending; a sale is listed iff its client exists |
| Sales.SaleRepo.ClientExists | internal/storage/sqlite/sale_repo.go:188-192 | true iff some client has the id |
| Sales.SaleRepo.ProductExists | internal/storage/sqlite/sale_repo.go:194-198 | true iff some product has the id |
| LedgerReads.SalesOfDay | internal/storage/sqlite/sale_repo.go:203-207 | `COUNT(*)` and `IFNULL(SUM(total), 0)` over the sales of one day: the count is between 0 and the number of sales, and a zero count has a zero sum |
| LedgerReads.SalesOfDayAfterCreate | internal/storage/sqlite/sale_repo.go:201-223 | a sale created on day `today` adds one to that day's count and its total to the day's sum; a sale on another day changes neither |
| Sales.SaleRepo.VentasHoy | internal/storage/sqlite/sale_repo.go:201-223 | the count and total of the sales on `today`; the count is between 0 and the number of sales |
| LedgerReads.TopProducts | internal/storage/sqlite/sale_repo.go:228-235 | one report the query can give: it lists all sold names when there are at most five, and five otherwise; its tie order is its own choice |
| LedgerReads.SoldNamesMembers | internal/storage/sqlite/sale_repo.go:228-235 | a name appears among the groups iff some item row's product exists with that name |
| LedgerReads.TopProductsOrdered | internal/storage/sqlite/sale_repo.go:228-235 | at most five distinct names, quantities non-increasing, each quantity the total sold under that name |
| LedgerReads.TopProductsMaximal | internal/storage/sqlite/sale_repo.go:228-235 | a sold name is left out only when the report is full and all five listed names sold at least as much |
| Sales.SaleRepo.TopProductos | internal/storage/sqlite/sale_repo.go:226-257 | any report with the properties above: at most five, quantities non-increasing, distinct names, each a sold name with its total quantity, and a name is left out only when five listed names sold at least as much; no order among ties |
| SaleService.Preflight | internal/service/sale_service.go:30-57 | the verdict of the checks, in their order; it lets a sale through only with a positive client id, at least one item and an existing client (the full condition is `PreflightPassIff`) |
| SaleService.CreateChecked | internal/service/sale_service.go:30-60 | the service's answer and store: a refusal of any kind leaves the store unchanged; a success has passed every check, belongs to the client and advances the sale counter |
| SaleService.ItemCheck | internal/service/sale_service.go:46-56 | an item fails with InvalidInput iff it is malformed; with NotFound iff it is well formed but its product is missing |
| SaleService.ItemsPassIff | internal/service/sale_service.go:44-57 | the item loop passes iff every item passes its own checks |
| SaleService.FirstFailureDecides | internal/service/sale_service.go:44-57 | the first failing item decides the verdict, whatever follows it |
| SaleService.PreflightPassIff | internal/service/sale_service.go:30-57 | the checks pass iff the client id is positive, there is an item, the client exists, and every item is well formed with an existing product |
| SaleService.PreflightErrors | internal/service/sale_service.go:30-57 | a refusal is InvalidInput or NotFound, never Conflict |
| SaleService.ClientCheckedFirst | internal/service/sale_service.go:36-42 | a missing client answers NotFound before any item is looked at |
| SaleService.ExampleMissingBeatsMalformed | internal/service/sale_service.go:44-57 | a missing product at position 0 answers NotFound although the item at position 1 is malformed |
| SaleService.AfterPreflight | internal/service/sale_service.go:59 | once the checks pass, the sale fails only for stock, and then leaves the store as it was |
| SaleService.RefusalChangesNothing | internal/service/sale_service.go:30-60 | every refusal leaves the store unchanged and is InvalidInput, NotFound or InsufficientStock |
| SaleService.SaleService.Validate | internal/service/sale_service.go:32-57 | the early-return checks with the repository's existence queries compute `Preflight` |
| SaleService.SaleService.Create | internal/service/sale_service.go:30-60 | the answer and new state are the checks followed, only on success, by the transaction; the business rule `Sound` is kept |
| SaleService.SaleService.Detail | internal/service/sale_service.go:66-71 | InvalidInput for an id ≤ 0; otherwise the repository's detail unchanged |
| SaleService.SaleService.List | internal/service/sale_service.go:62-64 | the repository's listing |
| SaleService.SaleService.VentasHoy | internal/service/sale_service.go:75-77 | the repository's count and total of today's sales |
| SaleService.SaleService.TopProductos | internal/service/sale_service.go:79-81 | the repository's report, with the same five guarantees |
| ProductService.CreateCheck | internal/service/product_service.go:26-28 | InvalidInput iff the name is empty, the stock negative or the price not positive; stock 0 passes |
| ProductService.UpdateCheck | internal/service/product_service.go:39-41 | InvalidInput iff the id is not positive or the fields break the same rule |
| ProductService.DeleteCheck | internal/service/product_service.go:46-48 | InvalidInput iff the id is not positive |
| ProductService.CreateCheckKeepsRule | internal/service/product_service.go:24-31 | the creation check admits exactly the named products whose insertion keeps stock ≥ 0 and price > 0 |
| ProductService.UpdateCheckKeepsRule | internal/service/product_service.go:38-43 | on an existing row, the update check admits exactly the named replacements that keep the rule |
| ProductService.DeleteKeepsRule | internal/service/product_service.go:45-50 | deleting rows keeps the rule |
| ProductService.ProductService.Create | internal/service/product_service.go:24-31 | a rejected product answers InvalidInput and leaves the store unchanged; an accepted one is stored under a new id and returned with it; the rule is kept |
| ProductService.ProductService.List | internal/service/product_service.go:34-36 | the repository's listing, newest first |
| ProductService.ProductService.Update | internal/service/product_service.go:38-43 | the check's verdict; on rejection nothing changes; otherwise the row with that id is replaced; the rule is kept |
| ProductService.ProductService.Delete | internal/service/product_service.go:45-50 | the check's verdict; on rejection nothing changes; otherwise the row with that id is removed; the rule is kept |
| ClientService.CreateCheck | internal/service/client_service.go:26-28 | InvalidInput iff the name, the national id (cédula) or the email is empty |
| ClientService.UpdateCheck | internal/service/client_service.go:39-41 | InvalidInput iff the id is not positive or a field is empty |
| ClientService.DeleteCheck | internal/service/client_service.go:46-48 | InvalidInput iff the id is not positive |
| ClientService.CreateCheckKeepsRule | internal/service/client_service.go:24-31 | the creation check admits exactly the clients whose insertion keeps every client field present |
| ClientService.UpdateCheckKeepsRule | internal/service/client_service.go:38-43 | on an existing row, the update check admits exactly the replacements that keep the fields present |
| ClientService.DeleteKeepsRule | internal/service/client_service.go:45-50 | deleting rows keeps the rule |
| ClientService.ClientService.Create | internal/service/client_service.go:24-31 | a rejected client answers InvalidInput and leaves the store unchanged; an accepted one is stored under a new id and returned with it |
| ClientService.ClientService.List | internal/service/client_service.go:34-36 | the repository's listing, newest first |
| ClientService.ClientService.Update | internal/service/client_service.go:38-43 | the check's verdict; on rejection nothing changes; otherwise the row with that id is replaced |
| ClientService.ClientService.Delete | internal/service/client_service.go:45-50 | the check's verdict; on rejection nothing changes; otherwise the row with that id is removed |
| Products.Replaced | internal/storage/sqlite/product_repo.go:59-65 | the row with that id gets the new name, stock and price under its own id; every other row and every id is unchanged |
| Products.Removed | internal/storage/sqlite/product_repo.go:67-70 | the table after the delete: no longer than before, and holding only original rows other than the deleted id |
| Products.ReplaceMissing | internal/storage/sqlite/product_repo.go:59-65 | an update of a missing id changes nothing |
| Products.RemovedExactly | internal/storage/sqlite/product_repo.go:67-70 | a delete removes exactly the row with that id and keeps the others in order; a missing id changes nothing |
| Products.RemovedAscending | internal/storage/sqlite/product_repo.go:67-70 | deleting keeps the ids ascending |
| Products.NewestFirst | internal/storage/sqlite/product_repo.go:37-57 | the listing holds every row, the last inserted first |
| Products.ListedDescending | internal/storage/sqlite/product_repo.go:39 | the listing of an ascending table has strictly descending ids |
| Products.CreatedListedFirst | internal/storage/sqlite/product_repo.go:20-57 | after an insertion the listing is the new row, fields intact, followed by the earlier listing |
| Products.ProductRepo.Create | internal/storage/sqlite/product_repo.go:20-34 | stores the product under the next id, which no existing row has, and returns it with that id |
| Products.ProductRepo.List | internal/storage/sqlite/product_repo.go:37-57 | the row loop returns `NewestFirst` of the table, ids strictly descending |
| Products.ProductRepo.Update | internal/storage/sqlite/product_repo.go:59-65 | the table becomes `Replaced`; nothing else changes |
| Products.ProductRepo.Delete | internal/storage/sqlite/product_repo.go:67-70 | the table becomes `Removed`; nothing else changes; the invariant is kept |
| Clients.Replaced | internal/storage/sqlite/client_repo.go:59-65 | the row with that id gets the new name, national id and email under its own id; every other row is unchanged |
| Clients.Removed | internal/storage/sqlite/client_repo.go:67-70 | the table after the delete: no longer than before, and holding only original rows other than the deleted id |
| Clients.ReplaceMissing | internal/storage/sqlite/client_repo.go:59-65 | an update of a missing id changes nothing |
| Clients.RemovedExactly | internal/storage/sqlite/client_repo.go:67-70 | a delete removes exactly the row with that id; a missing id changes nothing |
| Clients.RemovedAscending | internal/storage/sqlite/client_repo.go:67-70 | deleting keeps the ids ascending |
| Clients.NewestFirst | internal/storage/sqlite/client_repo.go:37-57 | the listing holds every row, the last inserted first |
| Clients.ListedDescending | internal/storage/sqlite/client_repo.go:39 | the listing of an ascending table has strictly descending ids |
| Clients.CreatedListedFirst | internal/storage/sqlite/client_repo.go:20-57 | after an insertion the listing is the new client, fields intact, followed by the earlier listing |
| Clients.ClientRepo.Create | internal/storage/sqlite/client_repo.go:20-34 | stores the client under the next id, which no existing row has, and returns it with that id |
| Clients.ClientRepo.List | internal/storage/sqlite/client_repo.go:37-57 | the row loop returns `NewestFirst` of the table, ids strictly descending |
| Clients.ClientRepo.Update | internal/storage/sqlite/client_repo.go:59-65 | the table becomes `Replaced`; nothing else changes |
| Clients.ClientRepo.Delete | internal/storage/sqlite/client_repo.go:67-70 | the table becomes `Removed`; nothing else changes |
| Html.Entity | web/app.js:39-41 | each of `& < > " '` becomes a reference that starts with `&` and ends with `;`; every other character is kept; no replacement holds a raw `< > " '` |
| Html.EscapeText | web/app.js:39-41 | the escaped text is no shorter than the input and holds no raw `< > " '` |
| Html.EscapeHtml | web/app.js:38-42 | null and undefined escape to the empty text; any escaped text is free of raw markup characters |
| Html.RoundTrip | web/app.js:38-42 | decoding the five references of the escaped text gives the input back |
| Html.EscapeInjective | web/app.js:38-42 | different texts escape differently |
| Html.EscapeConcat | web/app.js:39-41 | escaping distributes over concatenation |
| Html.EscapeSafeText | web/app.js:39-41 | a text without any of the five characters is left as it is |
| Html.DoubleEscapeDiffers | web/app.js:39-41 | escaping is not idempotent: `<` escaped twice is `&amp;lt;` |
| Cart.FindCached | web/app.js:282 | `PRODUCTS_CACHE.find` by id: the first cached product with that id, or -1 exactly when none has it |
| Cart.FindItem | web/app.js:286 | `SALE_ITEMS.find` by product: the first entry for that product, or -1 exactly when there is none |
| Cart.Added | web/app.js:280-296 | the cart after an add, before the recompute: it grows by at most one entry, and every earlier entry keeps its product, its position and its unit price |
| Cart.Recalculated | web/app.js:236-238 | every entry keeps its product, name, quantity and price, and its subtotal becomes quantity × unit price |
| Cart.Spliced | web/app.js:266 | `splice(idx, 1)`: the entry at the start position goes when that position is inside the cart, and nothing otherwise; the others keep their order |
| Cart.PayloadItems | web/app.js:313-320 | one request item per entry, in cart order, with its product, quantity and unit price and no subtotal |
| Cart.AddedDistinct | web/app.js:286-296 | adding keeps one entry per product |
| Cart.AddedMerges | web/app.js:286-288 | an add for a product already in the cart raises that entry's quantity and changes nothing else |
| Cart.AddedAppends | web/app.js:289-296 | an add for a new product appends one entry with the cached name and price and subtotal 0 |
| Cart.AddedRefused | web/app.js:280-283 | a zero or NaN id or quantity, or an uncached product, leaves the cart unchanged |
| Cart.SplicedAt | web/app.js:265-266 | removing at a position inside the cart deletes exactly that entry and keeps the rest in order |
| Cart.SplicedNegative | web/app.js:266 | position −1 removes the last entry |
| Cart.SplicedDistinct | web/app.js:266 | removal keeps one entry per product |
| Cart.RecalculatedStable | web/app.js:235-238 | the recompute is idempotent and keeps one entry per product |
| Cart.ServerTotalMatchesCart | web/app.js:313-320 | the total the server computes from the submitted items equals the total the cart displayed |
| Cart.SaleCart.Recalc | web/app.js:235-243 | every subtotal becomes quantity × unit price, and the returned total is their sum |
| Cart.SaleCart.Add | web/app.js:272-301 | a refused add changes nothing; an accepted one gives the recomputed `Added` cart; one entry per product is kept |
| Cart.SaleCart.Remove | web/app.js:263-269 | the cart becomes the recomputed `splice(idx, 1)`; one entry per product is kept |
| Cart.SaleCart.Confirm | web/app.js:303-341 | refused iff no client or an empty cart; otherwise the request body of product, quantity and price per entry; the cart is emptied only when the server accepts |

## Left out

- The HTTP layer, process start-up, database opening and migrations are outside the model (`cmd/api/main.go`, `internal/transport`, `db.go`, `migrate.go`). The schema file is not part of this model.
- Driver and storage errors are not modelled: no `Exec`, `Query` or `Scan` failure, and no failure of `Begin` or `Commit`. `StorageFailure` exists in `Domain.Error` but no operation returns it. A UNIQUE violation on the national id, if the schema has one, is not modelled either.
- Foreign-key enforcement, on delete and on insert, is left out: the schema is not part of this model. Deleting a product or client always succeeds; the inner join of the listing then drops the client's sales. `Sales.SaleRepo.CreateSaleTx` records a sale for a missing client; only `SaleService.SaleService.Create` guarantees that the client exists.
- Concurrency is left out. Transactions are sequential, so the guarded UPDATE's protection against concurrent sales appears only as `Ledger.OversellRefused`.
- The clock is a parameter. `time.Now()` in `CreateSaleTx` becomes `fecha`, and `DATE('now')` in `VentasHoy` becomes `today`. Time-zone handling is reduced to the UTC day stored in `Timestamp`, and the RFC 3339 formatting and parsing (with its error path) are not modelled. In the source the time the transaction returns keeps its fraction of a second and its zone, while the time read back by `GetSaleDetail` has whole seconds; `Timestamp` has no fraction of a second, so the model does not show this difference.
- Integers are unbounded. Go `int`/`int64`, SQLite INTEGER and the `LastInsertId` counters are modelled as Dafny `int`, so overflow is not modelled; no modelled path depends on it, since the guard keeps `stock - cantidad` within [0, stock].
- Go `float64` prices and totals, and JavaScript numbers, are integers of cents. Floating-point rounding is left out, and so are fractional quantities and ids read from the form.
- The new id of an insert (`LastInsertId`) is modelled as a counter per table that only increases.
- Products.ProductRepo.Create and Clients.ClientRepo.Create: the source writes the new id into the caller's record (`p.ID`, `c.ID`). The model returns the stored record with its id instead, so this write through the caller's pointer is not captured.
- `CreateSaleTx` writes the subtotals into the caller's slice. The model returns the recomputed items instead, so the aliasing is not captured.
- The sale header is inserted first in the source and committed together with the rest. In the model it is written at the commit, with the same observable result.
- Go's nil versus empty slice and the JSON encoding are not modelled.
- `escapeHTML` applies `String(...)` to values that are not strings. The model takes only text, null and undefined.
- The browser's DOM reads and writes, `fetch`, `setMsg`, `money`, `formatDate`, the clearing of the quantity field, and the reloads after a sale are left out. Whether the server accepted a sale is the `accepted` parameter of `Confirm`.
- Cart.SaleCart.Add: a negative quantity is accepted, as in the source, whose `!cantidad` test rejects only 0 and `NaN`.
- The name shown for a product in the cart is the cached one, and the price is the one cached when the entry was made. A price change after that is not reflected, as in the source.
