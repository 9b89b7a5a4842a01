# InvenTrack core, modelled in Dafny

InvenTrack is a small inventory and GST billing application. Its state lives in
one client-side store (`src/stores/dataStore.ts`) holding products, customers,
invoices and stock movements. The pages read that state and call its actions.
This project models the store's actions and the logic of every page that
changes or summarises the ledger: billing, invoices, customers, products,
stock movements, reports and the dashboard. It also models the helpers of
`src/lib/utils.ts`.

How it is modelled:

- **Store actions are pure functions** `State -> State` (module `DataStore`).
  A page handler returns the sequence of store calls it makes (`StoreCall`).
  `DataStore.Run` plays them in order. A handler's effect is then a statement
  about `Run(s, calls, c)`.
- **The clock is a parameter.** `Date.now()`, `new Date()` and its ISO text
  come in as a `Clock` value. One handler sees one reading.
- **Undefined numbers are modelled.** An `undefined` field added to a number
  gives NaN in JavaScript. Module `JsNumber` keeps that as `Num = Fin(real) | NaN`.
  This matters because the billing page stores `total` and `date`, while the
  store and the dashboard read the declared `totalAmount`.
- **The billing page is modelled as written.**
  - It calls `addInvoice`, which lowers each line's stock and records a sale.
  - It then overwrites each product's stock with its own snapshot stock minus
    the line quantity.
  - It records a second sale movement.

  Modules `Billing` and `BillingFlow` prove what this does: a product is
  charged once, and of two lines of the same product only the last one counts.
  Each sale is recorded twice. The chosen customer's running total becomes NaN.
- **Helper modules.** `Seqs`, `Sorting`, `Grouping` and `Text` hold generic
  sequence, sort, group-by and string lemmas. `Types` holds the records of
  `src/types/index.ts`.

Where the written description of the application and the code disagree, the
model follows the code:

- The store numbers invoices `INVYYMM` plus four digits. The billing page
  builds a different `INVYYMMDD` plus three digits number and uses it only as
  the movements' reference.
- The invoice id is always `Date.now()`.
- Deleting an invoice restores nothing.

## Model

| member | source | states |
|---|---|---|
| JsNumber.Add | InvenTrack-main/src/stores/dataStore.ts:259 | the sum is finite exactly when both operands are, and is then their real sum |
| JsNumber.OfField | InvenTrack-main/src/pages/Invoices.tsx:134 | reading an optional numeric field is finite exactly when the field is present, and then is its value |
| JsNumber.OrZero | InvenTrack-main/src/pages/Reports.tsx:58 | `x \|\| 0` is always finite: NaN becomes 0 and a finite value is kept |
| JsNumber.DivCount | InvenTrack-main/src/pages/Reports.tsx:41 | dividing by a positive count is finite exactly when the dividend is, and multiplying back by the count restores it |
| JsNumber.SumFieldFinite | InvenTrack-main/src/pages/Dashboard.tsx:41-43 | a `reduce` summing an optional field is finite exactly when every element has the field, and is then the plain sum |
| JsNumber.SumFieldAbsent | InvenTrack-main/src/pages/Dashboard.tsx:41-43 | one element lacking the field makes the whole sum NaN |
| Utils.CalculateGst | InvenTrack-main/src/lib/utils.ts:36-57 | subtotal is price times quantity; the three tax parts add up to subtotal times rate over 100; same-state splits it equally into CGST and SGST, otherwise all of it is IGST; total is subtotal plus tax |
| Utils.CalculateGstDefault | InvenTrack-main/src/lib/utils.ts:36-47 | leaving out the state flag gives the same-state result: subtotal price × quantity, equal CGST and SGST summing to the tax, no IGST, and the total is subtotal plus tax |
| Utils.GstBranchesAgree | InvenTrack-main/src/lib/utils.ts:40-56 | both branches give the same total, and IGST is twice the CGST |
| Utils.TwoDigitsRoundTrip | InvenTrack-main/src/lib/utils.ts:19 | below 100, the two-character padding is two digits that read back as the number |
| Utils.FormatDate | InvenTrack-main/src/lib/utils.ts:16-23 | "DD Mon YYYY": the day reads back from the first two digits, the month name sits at 3..6, and the year follows after a space |
| Utils.FormatDateTime | InvenTrack-main/src/lib/utils.ts:25-34 | the last five characters are "HH:MM" and read back as the hours and the minutes |
| Utils.FormatDateTimeExtendsFormatDate | InvenTrack-main/src/lib/utils.ts:16-34 | the date-time text is the date text followed by ", " and the time |
| DataStore.AddProduct | InvenTrack-main/src/stores/dataStore.ts:149-157 | appends one product carrying every draft field, the clock's id and both timestamps; earlier products and the other collections are unchanged |
| DataStore.UpdateProduct | InvenTrack-main/src/stores/dataStore.ts:159-165 | products with the id get the patch and a new `updatedAt`; the others, the order, the ids and the other collections are unchanged |
| DataStore.UpdateProductUnknownId | InvenTrack-main/src/stores/dataStore.ts:159-165 | updating an id no product has leaves the state equal |
| DataStore.DeleteProduct | InvenTrack-main/src/stores/dataStore.ts:167-171 | the result is a subsequence of the products holding each product with another id exactly as often as before and none with the id; nothing else changes |
| Seqs.KeepKeepsOrderAndCounts | InvenTrack-main/src/stores/dataStore.ts:167-171 | `filter` keeps the passing elements in their order, each exactly as often as it occurs |
| Seqs.KeepCharacterised | InvenTrack-main/src/stores/dataStore.ts:167-171 | any subsequence holding each passing element as often as the input, and only passing ones, is the `filter` result |
| Seqs.CountPositions | InvenTrack-main/src/pages/Dashboard.tsx:56 | the length of a `filter` result is the number of positions whose element passes |
| DataStore.DeleteProductUnknownId | InvenTrack-main/src/stores/dataStore.ts:167-171 | deleting an id no product has leaves the state equal |
| DataStore.ProductActionsKeepIdsUnique | InvenTrack-main/src/stores/dataStore.ts:149-171 | add (with a fresh clock id), update and delete all keep product ids unique |
| DataStore.StockAfter | InvenTrack-main/src/stores/dataStore.ts:177-178 | a sale subtracts the quantity; purchases and adjustments add it |
| DataStore.UpdateStock | InvenTrack-main/src/stores/dataStore.ts:173-199 | an unknown product changes nothing; otherwise every product with the id gets the first one's stock moved by the quantity, with no check for going negative, and one movement with that balance goes in front of the history |
| DataStore.AddCustomer | InvenTrack-main/src/stores/dataStore.ts:201-209 | appends one customer with the draft's fields, the clock's id, a zero running total and no purchase date |
| DataStore.UpdateCustomer | InvenTrack-main/src/stores/dataStore.ts:211-217 | customers with the id get the patch; length, ids, the others and the other collections are unchanged |
| DataStore.UpdateCustomerUnknownId | InvenTrack-main/src/stores/dataStore.ts:211-217 | updating an id no customer has leaves the state equal |
| DataStore.DeleteCustomer | InvenTrack-main/src/stores/dataStore.ts:219-223 | the result is a subsequence of the customers holding each customer with another id exactly as often as before and none with the id; invoices naming the customer stay |
| DataStore.YearSuffix | InvenTrack-main/src/stores/dataStore.ts:228 | `slice(-2)` of the year is one or two digits (two from year 10 on) that read back as the year modulo 100 |
| DataStore.InvoicePrefixFields | InvenTrack-main/src/stores/dataStore.ts:228-230 | from year 10 the prefix is seven characters: `INV`, two digits worth the year modulo 100, and two digits worth the one-based month |
| DataStore.NextInvoiceNumber | InvenTrack-main/src/stores/dataStore.ts:225-238 | the number starts with the month's `INV` + YY + MM prefix and has at least four characters after it |
| DataStore.NextNumberFormat | InvenTrack-main/src/stores/dataStore.ts:225-238 | the next number is `INV`, YY and MM, followed by at least four digits whose value is one more than the count of stored numbers with that prefix |
| DataStore.FirstOfMonth | InvenTrack-main/src/stores/dataStore.ts:232-237 | with no number of the month stored yet, the next one ends in `0001` |
| DataStore.ApplySales | InvenTrack-main/src/stores/dataStore.ts:250-252 | the per-line sales keep product ids in place and leave customers and invoices unchanged |
| DataStore.ApplySalesStock | InvenTrack-main/src/stores/dataStore.ts:250-252 | with unique ids, each product ends at its stock minus the total quantity of the lines naming it |
| DataStore.ApplySalesMovements | InvenTrack-main/src/stores/dataStore.ts:250-252 | one sale movement referencing the number goes in front for each line of a known product; the earlier history stays behind them in order |
| DataStore.CreditCustomer | InvenTrack-main/src/stores/dataStore.ts:254-263 | with a non-empty id of an existing customer, customers with that id get the first one's total plus `totalAmount` (NaN when absent) and a purchase date; otherwise customers are unchanged |
| DataStore.AddInvoice | InvenTrack-main/src/stores/dataStore.ts:240-266 | the stored invoice, with the clock's id and the month's next number, goes in front of the earlier invoices |
| DataStore.AddInvoiceParts | InvenTrack-main/src/stores/dataStore.ts:240-266 | `addInvoice`'s products and movements are those of the per-line sales, and its customers those of the credit |
| DataStore.AddInvoiceStock | InvenTrack-main/src/stores/dataStore.ts:240-266 | `addInvoice` lowers each product's stock by the total quantity of its rows, and keeps the ids |
| DataStore.AddInvoiceMovements | InvenTrack-main/src/stores/dataStore.ts:249-252 | `addInvoice` adds one sale movement per row of a known product, in front of the history |
| DataStore.AddInvoiceAdvancesNumber | InvenTrack-main/src/stores/dataStore.ts:232-245 | storing an invoice raises the month's issued count by one |
| DataStore.DeleteInvoice | InvenTrack-main/src/stores/dataStore.ts:268-272 | the result is a subsequence of the invoices holding each invoice with another id exactly as often as before and none with the id; stock, movements and customer totals are not restored |
| DataStore.NumberRecursAfterDelete | InvenTrack-main/src/stores/dataStore.ts:225-272 | after two invoices in a month and deletion of the first, the next number equals the one the second already carries |
| DataStore.AddStockMovement | InvenTrack-main/src/stores/dataStore.ts:274-278 | the record goes in front of the history and nothing else changes |
| DataStore.Dispatch | InvenTrack-main/src/stores/dataStore.ts:149-278 | each store action leaves the product list alone unless it writes products, and the invoice list unless it writes invoices |
| DataStore.Run | InvenTrack-main/src/stores/dataStore.ts:149-278 | a sequence of store calls none of which writes products (or invoices) leaves that list unchanged |
| DataStore.RunAppend | InvenTrack-main/src/stores/dataStore.ts:149-278 | running two call sequences one after the other equals running their concatenation |
| Billing.AddItem | InvenTrack-main/src/pages/Billing.tsx:25-30 | keeps the rows and appends one blank row: no product, quantity 1, price 0, GST 18 |
| Billing.RemoveItem | InvenTrack-main/src/pages/Billing.tsx:32-34 | drops the row at a valid index and shifts the later ones up; any other index changes nothing |
| Billing.RemoveUndoesAdd | InvenTrack-main/src/pages/Billing.tsx:25-34 | removing the row just added gives back the bill |
| Billing.UpdateItem | InvenTrack-main/src/pages/Billing.tsx:36-50 | only the edited row changes; picking a known product copies its name, price and rate; an unknown id is stored alone |
| Billing.PickedLineMatchesCatalogue | InvenTrack-main/src/pages/Billing.tsx:40-46 | picking a product gives the row that product's price, rate and name |
| Billing.QuantityInput | InvenTrack-main/src/pages/Billing.tsx:248 | `parseInt(text) \|\| 1` is never 0: it keeps any non-zero parsed value and gives 1 for unparsable text or 0 |
| Billing.QuantityInputIdempotent | InvenTrack-main/src/pages/Billing.tsx:248 | feeding the field's value back in changes nothing |
| Billing.TaxSplit | InvenTrack-main/src/pages/Billing.tsx:58-68 | inter-state bills put all line GST into IGST; others halve it equally into CGST and SGST |
| Billing.CalculateTotals | InvenTrack-main/src/pages/Billing.tsx:52-73 | the subtotal is the sum of line amounts; the taxes sum to the line GST, split by the state choice; the total is the subtotal plus the taxes |
| Billing.TotalIgnoresStateChoice | InvenTrack-main/src/pages/Billing.tsx:52-73 | the state choice never changes the grand total; inter-state IGST is twice the same-state CGST |
| Billing.OneLineMatchesCalculateGst | InvenTrack-main/src/pages/Billing.tsx:52-73 | a one-row bill gets exactly the figures of `calculateGST` with the opposite state flag |
| Billing.TotalsAppend | InvenTrack-main/src/pages/Billing.tsx:52-73 | the total of two row lists together is the sum of their totals |
| Billing.WithoutDashes | InvenTrack-main/src/pages/Billing.tsx:113 | the result has no dash, and every other character of the input is kept |
| Billing.IsoDateOfShapedTimestamp | InvenTrack-main/src/pages/Billing.tsx:125 | `split('T')[0]` of a `YYYY-MM-DDT…` timestamp is its first ten characters |
| Billing.CompactIsoDate | InvenTrack-main/src/pages/Billing.tsx:110-113 | removing the dashes of `YY-MM-DD` leaves `YYMMDD` |
| Billing.BillingNumber | InvenTrack-main/src/pages/Billing.tsx:110-113 | starts with `INV`, has no dash after it, and ends with three digits worth the invoice count plus one, below 1000 |
| Billing.BillingNumberDate | InvenTrack-main/src/pages/Billing.tsx:110-113 | the characters after `INV` are the timestamp's YYMMDD |
| Billing.DayKeyOrder | InvenTrack-main/src/pages/Billing.tsx:142 | the day key of a movement's `date` orders and equates valid dates as the calendar does |
| Billing.CustomerName | InvenTrack-main/src/pages/Billing.tsx:107-118 | empty text when no customer has the id; otherwise the name of the customer at the first position with the id |
| Billing.BuiltInvoice | InvenTrack-main/src/pages/Billing.tsx:115-127 | a paid invoice with the rows, the chosen customer, `total` and `date` set and `totalAmount` absent; subtotal plus taxes is the total |
| Billing.LineCalls | InvenTrack-main/src/pages/Billing.tsx:132-146 | a row whose product is in the page's snapshot gives an overwrite to the first such product's snapshot stock minus the row's quantity, then its sale movement; a row of a product not in the snapshot gives no calls |
| Billing.PageMovement | InvenTrack-main/src/pages/Billing.tsx:135-143 | the added movement is a sale of the row's product and quantity, referencing the invoice number, with no recorded balance |
| Billing.SnapshotCalls | InvenTrack-main/src/pages/Billing.tsx:132-146 | two calls per row of a known product |
| Billing.BillingCalls | InvenTrack-main/src/pages/Billing.tsx:129-146 | `addInvoice` of the built invoice comes first, then two calls per row of a known product |
| Billing.GenerateInvoice | InvenTrack-main/src/pages/Billing.tsx:75-156 | each rejection happens exactly when its condition holds, checked in order (no customer; no rows or a blank row; some row short of stock); otherwise the calls above |
| Billing.InsufficientStockNamesFirstShortRow | InvenTrack-main/src/pages/Billing.tsx:95-105 | a stock rejection names the product and the stock of the first row that is short |
| Billing.RowsCheckedSeparately | InvenTrack-main/src/pages/Billing.tsx:95-105 | two rows of one product that each fit pass even when together they exceed the stock |
| Billing.UnknownProductPassesStockCheck | InvenTrack-main/src/pages/Billing.tsx:96-97 | a row whose product is missing is never short of stock |
| BillingFlow.LastQty | InvenTrack-main/src/pages/Billing.tsx:132-135 | none exactly when no row names the id; otherwise the quantity of a row naming it with no later row naming it |
| BillingFlow.RunLineCalls | InvenTrack-main/src/pages/Billing.tsx:133-145 | playing one row's calls through the store equals the row's direct effect |
| BillingFlow.RunSnapshotCalls | InvenTrack-main/src/pages/Billing.tsx:132-146 | playing all the page's row calls equals the rows' direct effect |
| BillingFlow.RowsEffect | InvenTrack-main/src/pages/Billing.tsx:132-146 | every product named on a row ends at snapshot stock minus the last such row's quantity, others keep their stock, and one movement per known row is added |
| BillingFlow.BillingRun | InvenTrack-main/src/pages/Billing.tsx:129-146 | the accepted calls equal `addInvoice` followed by the page's own row effect |
| BillingFlow.AfterBillingStock | InvenTrack-main/src/pages/Billing.tsx:129-146 | the page's overwrite erases the store's decrement |
| BillingFlow.BillingFinalStock | InvenTrack-main/src/pages/Billing.tsx:129-146 | after a bill each named product is at its pre-bill stock minus the last naming row's quantity; the other products are unchanged |
| BillingFlow.OneRowChargedOnce | InvenTrack-main/src/pages/Billing.tsx:129-146 | a product on exactly one row loses that row's quantity once, not twice |
| BillingFlow.SameProductTwiceLosesFirstRow | InvenTrack-main/src/pages/Billing.tsx:132-146 | with two rows of one product, only the second row's quantity is charged |
| BillingFlow.BillingMovementCount | InvenTrack-main/src/pages/Billing.tsx:129-146 | a bill adds two sale movements per row of a known product |
| BillingFlow.BillingCustomerTotalBecomesNaN | InvenTrack-main/src/stores/dataStore.ts:255-263 | after a bill to an existing customer, that customer's running total is NaN and the date is set; other customers are unchanged |
| BillingFlow.BillingStoredInvoice | InvenTrack-main/src/stores/dataStore.ts:240-266 | the stored bill is in front, with the clock's id and the store's monthly number, the page's body, `total` set and no `totalAmount` |
| InvoicesPage.FilteredInvoices | InvenTrack-main/src/pages/Invoices.tsx:42-48 | a subsequence of the invoices holding, as often as stored, exactly those whose id or customer name contains the search ignoring case and whose status passes |
| InvoicesPage.EmptySearchListsAll | InvenTrack-main/src/pages/Invoices.tsx:42-48 | an empty search with every status lists every invoice in order |
| InvoicesPage.GstColumn | InvenTrack-main/src/pages/Invoices.tsx:131 | the tax column is CGST plus SGST plus IGST |
| InvoicesPage.LineColumn | InvenTrack-main/src/pages/Invoices.tsx:234 | a line's amount is its price times its quantity |
| InvoicesPage.BilledColumnsAdd | InvenTrack-main/src/pages/Invoices.tsx:131-234 | for a billed invoice the line column sums to the subtotal, and subtotal plus the GST column is the finite total column |
| InvoicesPage.DeleteRemovesOnlyInvoice | InvenTrack-main/src/pages/Invoices.tsx:50-57 | deletion leaves a subsequence of the invoices holding each other invoice as often as before and none with the id; products, movements and customers are unchanged |
| CustomersPage.FilteredCustomers | InvenTrack-main/src/pages/Customers.tsx:43-48 | a subsequence of the customers holding, as often as stored, exactly those whose name or email contains the search ignoring case, or whose phone contains it as typed |
| CustomersPage.GetCustomerStats | InvenTrack-main/src/pages/Customers.tsx:50-57 | the count is the number of invoice positions naming the customer; the sum is finite exactly when each of them has a `total`, and is then their sum |
| CustomersPage.StatsCons | InvenTrack-main/src/pages/Customers.tsx:50-57 | one more invoice carrying a total adds one to the count and its total to the sum |
| CustomersPage.StatsAfterBilling | InvenTrack-main/src/pages/Customers.tsx:50-57 | after a bill, the chosen customer has one more invoice and the sum grows by the bill's total |
| CustomersPage.PageTotalOutlivesStoreTotal | InvenTrack-main/src/pages/Customers.tsx:50-57 | after a bill the page's figure stays finite while the store's running total for that customer is NaN |
| CustomersPage.EditForm | InvenTrack-main/src/pages/Customers.tsx:70-84 | nothing exactly when no customer has the id; otherwise the first such customer's name, email, phone, address and GSTIN |
| CustomersPage.Submit | InvenTrack-main/src/pages/Customers.tsx:85-124 | refused exactly when name, email or phone is empty; otherwise one call, an update when an id is edited and an add otherwise |
| CustomersPage.SubmitAdds | InvenTrack-main/src/pages/Customers.tsx:111-114 | adding appends the customer with the form's fields, the clock's id and a zero total |
| CustomersPage.SubmitEdits | InvenTrack-main/src/pages/Customers.tsx:105-106 | editing gives customers with the id the form's five fields and keeps their id, total, purchase date and creation time |
| CustomersPage.EditRoundTrip | InvenTrack-main/src/pages/Customers.tsx:70-124 | opening a complete customer for editing and saving unchanged leaves the store equal |
| CustomersPage.DeleteKeepsInvoices | InvenTrack-main/src/pages/Customers.tsx:126-133 | deletion leaves a subsequence of the customers holding each other customer as often as before and none with the id, and keeps its invoices and their figures |
| ProductsPage.DefaultRateAgrees | InvenTrack-main/src/pages/Products.tsx:47-52 | the default rate 18 is one of the choices 5/12/18/28 and is the rate of a new bill row |
| ProductsPage.FilteredProducts | InvenTrack-main/src/pages/Products.tsx:54-59 | a subsequence of the products holding, as often as stored, exactly those whose name, category or SKU contains the search ignoring case |
| ProductsPage.EmptySearchListsAll | InvenTrack-main/src/pages/Products.tsx:54-59 | an empty search lists every product in order |
| ProductsPage.WarningVersusDashboard | InvenTrack-main/src/pages/Products.tsx:312 | the row warning `stock < 10` and the dashboard's low-stock test differ; it states when one implies the other |
| ProductsPage.SkuOf | InvenTrack-main/src/pages/Products.tsx:110 | the typed SKU, or `SKU-` and the clock's milliseconds when empty |
| ProductsPage.Submit | InvenTrack-main/src/pages/Products.tsx:91-132 | refused exactly when name, category, price or stock is empty; otherwise one call, an update when an id is edited and an add without level or HSN code otherwise |
| ProductsPage.SubmitAdds | InvenTrack-main/src/pages/Products.tsx:119-122 | adding appends the product with the form's fields, the parsed numbers, the SKU and the clock's id |
| ProductsPage.SubmitEdits | InvenTrack-main/src/pages/Products.tsx:113-114 | editing gives products with the id the form's fields and keeps id, HSN code, level and creation time |
| ProductsPage.AddedNeverLowOnDashboard | InvenTrack-main/src/pages/Products.tsx:103-122 | a product added from the page has no level, so it never counts as low on the dashboard |
| ProductsPage.DeleteKeepsHistory | InvenTrack-main/src/pages/Products.tsx:134-140 | deletion leaves a subsequence of the products holding each other product as often as before and none with the id; invoices and movements naming it stay |
| StockMovementPage.FilteredMovements | InvenTrack-main/src/pages/StockMovement.tsx:19-29 | fails exactly when some row has no matching name and no reference (the `toLowerCase` of undefined throws) |
| StockMovementPage.FilteredMovementsCorrect | InvenTrack-main/src/pages/StockMovement.tsx:19-29 | otherwise the rows listed are exactly those matching search and kind, with multiplicity, and dated rows come newest first |
| StockMovementPage.EmptySearchListsAll | InvenTrack-main/src/pages/StockMovement.tsx:19-29 | an empty search with every kind never fails and lists every row |
| StockMovementPage.Sign | InvenTrack-main/src/pages/StockMovement.tsx:177 | one character: `+` exactly for a purchase, `-` exactly for a sale, `±` exactly for an adjustment |
| StockMovementPage.Stats | InvenTrack-main/src/pages/StockMovement.tsx:38-40 | the adjustment total is never negative |
| StockMovementPage.StatsByKind | InvenTrack-main/src/pages/StockMovement.tsx:31-43 | each total is the sum over all rows of the quantity where the kind matches (absolute for adjustments) and 0 elsewhere |
| StockMovementPage.SignMatchesStockEffect | InvenTrack-main/src/pages/StockMovement.tsx:177 | `-` is shown exactly when the store lowered the stock by the quantity; `+` and `±` rows raised it |
| StockMovementPage.CurrentStockShowsBalance | InvenTrack-main/src/pages/StockMovement.tsx:140-183 | right after `updateStock`, the newest row's current stock column equals the balance it recorded |
| StockMovementPage.CurrentStock | InvenTrack-main/src/pages/StockMovement.tsx:140-183 | the stock of the first product with the row's product id, and 0 when no product has it |
| StockMovementPage.CurrentStockAfterDelete | InvenTrack-main/src/pages/StockMovement.tsx:140-183 | after the store deletes a product, its rows show a current stock of 0 |
| Reports.Stats | InvenTrack-main/src/pages/Reports.tsx:34-49 | the revenue is finite exactly when every invoice has a `total`, and is then their sum; the tax sums the three columns; the average times the count is the revenue, and is 0 with no invoices |
| Reports.RevenueCons | InvenTrack-main/src/pages/Reports.tsx:35 | one more invoice with a total keeps finiteness and adds its total |
| Reports.BilledRevenueAdds | InvenTrack-main/src/pages/Reports.tsx:34-49 | after a bill the revenue grows by the bill's grand total, and one more invoice is counted |
| Reports.SalesByCategoryCorrect | InvenTrack-main/src/pages/Reports.tsx:51-68 | one entry per category; a category is listed exactly when some line sold a product now in it, with the sum of those lines' amounts |
| Reports.SalesByCategory | InvenTrack-main/src/pages/Reports.tsx:51-68 | the category map has one entry per category |
| Reports.MonthlyRevenue | InvenTrack-main/src/pages/Reports.tsx:70-86 | fails exactly when an invoice has no `date`; otherwise at most six months |
| Reports.MonthlyRevenueCorrect | InvenTrack-main/src/pages/Reports.tsx:70-86 | the months shown are drawn from the per-month grouping, each at most once and with distinct months, ascending; they are the latest six that occur, and each carries its accumulated value |
| Reports.MonthTotalAllPresent | InvenTrack-main/src/pages/Reports.tsx:75-76 | a month whose invoices all have a total shows their sum |
| Reports.MonthTotalSinceLastMissing | InvenTrack-main/src/pages/Reports.tsx:75-76 | a month shows NaN when its latest invoice lacks a total, and otherwise the sum of the totals after the last missing one |
| Reports.ProductTotalsCorrect | InvenTrack-main/src/pages/Reports.tsx:89-104 | one entry per product id sold, holding the name on its last line, its units and its revenue |
| Reports.ProductTotals | InvenTrack-main/src/pages/Reports.tsx:88-105 | the product map has one entry per product id |
| Reports.RankEntries | InvenTrack-main/src/pages/Reports.tsx:106-108 | the ranking holds up to five values drawn from the entries, none more often than it occurs there, highest revenue first, and none left out earned more than one shown |
| Reports.TopProducts | InvenTrack-main/src/pages/Reports.tsx:106-108 | at most five products are shown |
| Reports.TopProductsRanked | InvenTrack-main/src/pages/Reports.tsx:88-109 | the five shown are the values of distinct products drawn from the per-product totals, highest revenue first, and no product left out earned more than one shown |
| Dashboard.Stats | InvenTrack-main/src/pages/Dashboard.tsx:33-63 | the paid revenue is finite exactly when every paid invoice has `totalAmount`, and is then their sum; the paid count is the number of paid invoice positions, and equals all invoices exactly when all are paid; the low-stock count is the number of product positions whose stock is at or below a present minimum level |
| Dashboard.PaidCount | InvenTrack-main/src/pages/Dashboard.tsx:56 | every invoice is kept exactly when every one is paid |
| Dashboard.RevenueNaNAfterBilling | InvenTrack-main/src/pages/Dashboard.tsx:41-43 | after any bill the dashboard revenue is NaN, while the paid count grows by one |
| Dashboard.GstAgreesWithReports | InvenTrack-main/src/pages/Dashboard.tsx:49-51 | the dashboard tax is the reports tax over paid invoices, and equal to it when all are paid |
| Dashboard.LowStockItemsRanked | InvenTrack-main/src/pages/Dashboard.tsx:105-108 | up to five low products drawn from the low ones, none more often than it occurs, lowest stock first, and no low product left out has less stock than one shown |
| Dashboard.LowStockItems | InvenTrack-main/src/pages/Dashboard.tsx:105-108 | at most five products are shown |
| Dashboard.CategoryDataCorrect | InvenTrack-main/src/pages/Dashboard.tsx:91-101 | one entry per category that has a product, holding that category's total stock |
| Dashboard.CategoryData | InvenTrack-main/src/pages/Dashboard.tsx:91-101 | the category map has one entry per category |

## Left out

- The `persist` middleware (`localStorage`), the login store, routing, toasts, dialogs and all rendering. They are I/O and UI.
- Dashboard's `todayRevenue`, `todayInvoices` and `last7DaysSales` compare timestamps with the local midnight of "now". That is clock arithmetic on `Date` objects and is not modelled. The other dashboard figures are.
- `formatCurrency` (`utils.ts` lines 8-14) uses `Intl.NumberFormat` locale formatting, which is outside the model.
- Money is exact reals. IEEE-754 rounding of prices, taxes and totals is not modelled. Only the NaN that an absent field produces is.
- Case-insensitive search lowercases ASCII letters only. Unicode case mapping is not modelled.
- Months in the reports sort by code-point order of `YYYY-MM`. That is `localeCompare`'s order for such keys.
- The dashboard's stock per category is built on a plain object, and the model keeps its keys in first-seen order. `Object.entries` would list integer-like category names first; that ordering is not modelled. The reports' `Map`s keep first-seen order, as modelled.
- `Array.prototype.sort` with a comparator that returns NaN is implementation-defined. The stock movements page compares the `date` field, which store-made movements lack. The model places undated rows after dated ones.
- The products form's `parseFloat`/`parseInt` are not modelled. Their results come in as a `Parsed` value, so NaN prices and stocks from bad input are not covered.
- Products page `handleEdit` only fills the form. Its `toString` of price and rate has no model counterpart.
- CustomersPage.EditForm: it fills a missing address with empty text. The source would put `undefined` there.
- Customers always have an email in the model. The record type marks `email` optional, but every producer sets it: the mock data, and the customers form, which refuses an empty one.
- Billing.PageMovement: stores the movement's `date` as a day key built from the clock's calendar fields. The source stores the UTC day of `toISOString()`; the model takes the clock's calendar fields to be that UTC day.
- `Date.now()`, `new Date().toISOString()` and the calendar fields are one `Clock` reading per handler. Two calls in one handler see the same time.
- The `Math.random()` suffix of the billing page's movement ids is a clock field.
- Billing.UpdateItem: requires an index inside the bill. The page only calls it for rendered rows.
- Utils.FormatDate: states the layout only for days below 100. Larger numbers cannot come from a `Date`.
- Utils.FormatDateTime: states the time layout only for hours and minutes below 100, for the same reason.
- Billing.BillingNumber: states the three-digit suffix only while the invoice count is below 999. `padStart` does not truncate longer numbers.
- The year is a natural number. Years before 0 do not occur in a `Date` of this application.
- Display-only fields (`createdBy`, the movement id's text form) are not modelled. Neither are fields that nothing in the core reads, beyond the records' shapes.
