# Retail inventory front end: the logic of three hooks

This project models the pure logic inside three React hooks of a retail inventory and point-of-sale web front end. It then proves properties of that model in Dafny.

- **`useVentaForm`, the sale form.** Modelled in module `SaleForm`:
  - the form's text fields;
  - the branch inventory offered for sale, which is the items with positive stock;
  - the product search, and the derived total;
  - the field-update rules, the validator and its messages;
  - reset, and the submit and close guards.
- **`useDashboardData`, the dashboard table.** Modelled in module `Dashboard`:
  - the catalog maps: variant to owning product, and variant to acquisition price;
  - the stock tally over every branch's listing: total stock per variant, and the first branch that carries it;
  - the listings enriched with acquisition prices;
  - one summary row per product;
  - the statistics URL.
- **`useProductoInfo`, the product information dialog.** Modelled in module `ProductInfo`:
  - for one product, its stock in each branch summed over all its variants;
  - only branches whose total is positive are kept, in branch-list order;
  - the dialog's load and clear behaviour.

How the hooks are turned into Dafny:

- React state becomes immutable records. Each handler becomes a function from state to state.
- Effects that derive one piece of state from another become functions of the stored state (`SaleForm.Filtered`, `SaleForm.Total`).
- Everything the hooks fetch becomes a parameter. A request answered with an error status is represented by the fallback the hook uses: an empty list, `Failed`, or `None`. In the sale form, a request that throws falls back the same way. In the dashboard and the product dialog, a request that throws aborts the load; that case is not modelled (see "Left out").

The support modules model the JavaScript primitives the hooks rely on:

- `Text` models `Number`, `String`, `trim`, `toLowerCase` and `includes`. A JavaScript NaN is `None`, and comparisons involving it are false.
- `Seqs` models `Array.prototype.filter` as an order-preserving selection.
- `Options` holds the optional value (`null`, `undefined`, or NaN where a number is read) and the `Map.get` lookup.
- `Records` holds the record shapes received from the server.

## Model

| member | source | states |
|---|---|---|
| Text.NumberOfString | src/hooks/useVentaForm.ts:125-126 | Reading back with `Number` a value written with `String` gives the original integer, for every integer. |
| Text.IncludesAtPosition | src/hooks/useVentaForm.ts:95-96 | `includes` holds exactly when the part occurs at some position of the string. |
| Text.BlankIffAllWhiteSpace | src/hooks/useVentaForm.ts:92 | A string trims to nothing exactly when every character is white space. |
| Text.Lower | src/hooks/useVentaForm.ts:93 | Lower-casing keeps the length and maps each character on its own. |
| Records.IdsOf | src/hooks/useProductoInfo.ts:28 | The id set holds exactly the ids of the listed variants. |
| SaleForm.WithField | src/hooks/useVentaForm.ts:118 | Setting a field changes that field to the value and leaves every other field as it was. |
| SaleForm.Open | src/hooks/useVentaForm.ts:53-72 | Opening stores the fetched branches and motives. When there is a motive, the motive field reads back as the first motive's id. No other field changes, and nothing changes when there are no motives. |
| SaleForm.BranchInventory | src/hooks/useVentaForm.ts:74-89 | No branch gives an empty inventory. Otherwise every offered item has positive stock, and none is added. |
| SaleForm.BranchInventoryIsInStockItems | src/hooks/useVentaForm.ts:80 | For a chosen branch, the inventory is the listing's in-stock items in their original order, each kept as often as it was listed, and nothing else. |
| SaleForm.SearchFilter | src/hooks/useVentaForm.ts:91-98 | A query that trims to nothing shows the whole inventory. Any other query shows only items whose lower-cased name or SKU contains the lower-cased query. |
| SaleForm.SearchFilterIsMatchingItems | src/hooks/useVentaForm.ts:93-97 | For a non-blank query, the result is exactly the matching items, in order and with their multiplicities. |
| SaleForm.UntrimmedQuery | src/hooks/useVentaForm.ts:92-97 | The query is matched untrimmed: " ab" misses an item named "ab" that "ab" finds. |
| SaleForm.SetSearch | src/hooks/useVentaForm.ts:48 | Setting the search text changes only the search text. |
| SaleForm.Total | src/hooks/useVentaForm.ts:100-104 | A total exists only when the quantity reads as a positive number, and it is never negative. |
| SaleForm.TotalOfTypedAmounts | src/hooks/useVentaForm.ts:101-103 | For typed integers q and p, the total is q·p when q > 0 and p ≥ 0, and absent otherwise. |
| SaleForm.TotalWithEmptyFields | src/hooks/useVentaForm.ts:101-103 | An empty price reads as 0, so a positive quantity totals 0. An empty quantity never has a total. |
| SaleForm.HandleChange | src/hooks/useVentaForm.ts:106-119 | The changed field's error is cleared and no other error is. A branch change empties variant, quantity and price, keeps the motive, drops the selection and search, and loads that branch's in-stock inventory. Any other change alters only its own field. |
| SaleForm.BranchChangeClearsSale | src/hooks/useVentaForm.ts:110-116 | After a branch change there is no total, and variant, quantity and price are all reported by validation. |
| SaleForm.SelectProduct | src/hooks/useVentaForm.ts:121-129 | Selecting an item makes it the selection. The variant and price fields read back as the item's variant id and sale price. Only the variant error is cleared, and nothing else changes. |
| SaleForm.Validate | src/hooks/useVentaForm.ts:131-142 | For each field, the field has an error exactly when its own check fails, and the error carries that check's message. The stock check overrides the quantity message with the available stock. |
| SaleForm.ValidIffNoCheckFails | src/hooks/useVentaForm.ts:131-141 | The form is valid exactly when none of the five checks fails. |
| SaleForm.ZeroQuantityRejectedZeroPriceAccepted | src/hooks/useVentaForm.ts:135-136 | A quantity of "0" is rejected, while a price of "0" is accepted. |
| SaleForm.NonNumericQuantityAccepted | src/hooks/useVentaForm.ts:135-139 | As written, the hook's validator accepts a quantity that is not a number ("abc"). This is a property of the hook alone: the form's number input never hands it such text. |
| SaleForm.SelectedSaleIsValid | src/hooks/useVentaForm.ts:121-170 | Selecting an item and typing a quantity within its stock gives a valid form, a total of quantity times price, and a request carrying the item's variant and price. |
| SaleForm.OverStockRejected | src/hooks/useVentaForm.ts:137-139 | A quantity above the selected item's stock is rejected with "Stock insuficiente. Disponible: N". |
| SaleForm.Reset | src/hooks/useVentaForm.ts:144-153 | Every field but the motive is empty, and the motive reads as the first motive's id (or is "" when there is none). Errors, selection, inventory, search and total are cleared. |
| SaleForm.ResetMatchesOpenedForm | src/hooks/useVentaForm.ts:144-146 | Reset gives the form a freshly opened dialog has with the same motives. |
| SaleForm.ResetIdempotent | src/hooks/useVentaForm.ts:144-153 | Resetting twice equals resetting once. |
| SaleForm.Submit | src/hooks/useVentaForm.ts:155-171 | A request is sent exactly when the form is valid, and it carries the fields read as numbers. An invalid form only records its errors. |
| SaleForm.FinishSubmit | src/hooks/useVentaForm.ts:172-182 | Submitting always ends. An accepted sale leaves exactly the state `reset` gives, with submitting off, and closes the dialog. A rejected one keeps the form. |
| SaleForm.Close | src/hooks/useVentaForm.ts:185-189 | Closing is a no-op while submitting. Otherwise the dialog closes with the form reset. |
| Dashboard.ProductMapOwners | src/hooks/useDashboardData.ts:65-73 | The variant-to-product map holds exactly the listed variants. Each maps to the last product that lists it, so a later product overwrites a duplicate id. |
| Dashboard.LastOwnerIsLastListing | src/hooks/useDashboardData.ts:67-71 | The owner recorded for a variant is the product at the last position listing it. |
| Dashboard.AcquisitionMapPrices | src/hooks/useDashboardData.ts:66-72 | The acquisition map holds exactly the catalog's variant ids, each with the price of the last variant listed under that id. |
| Dashboard.StockMapTotals | src/hooks/useDashboardData.ts:87-89 | The stock map's entry for a variant is the sum of its stock over every item of every branch, with non-numeric stock counting 0. A variant no branch carries has no entry. |
| Dashboard.FirstBranchMapNames | src/hooks/useDashboardData.ts:90 | The branch recorded for a variant is the first branch, in list order, whose listing carries it. |
| Dashboard.FirstBranchNeverOverwritten | src/hooks/useDashboardData.ts:90 | Branches processed later never change a variant's recorded branch. |
| Dashboard.Enrich | src/hooks/useDashboardData.ts:94-97 | Every item is kept, in order, with all its fields. Only the acquisition price is replaced, by the map's entry for its variant. |
| Dashboard.EnrichedPriceIsCatalogPrice | src/hooks/useDashboardData.ts:94-97 | An enriched item's acquisition price is the catalog's price for its variant, or none when the catalog does not list it. |
| Dashboard.BranchDataOf | src/hooks/useDashboardData.ts:80-101 | There is one entry per branch, in order, with the branch, loading finished, and as listing exactly that branch's items with acquisition prices added. |
| Dashboard.Rows | src/hooks/useDashboardData.ts:106-114 | There is one row per product, in product order, with the product's id, SKU and name and its variant count. `valorOriginal` and `valorVenta` are the sums of the product's variants' acquisition and label prices. |
| Dashboard.RowValuesCoverCatalog | src/hooks/useDashboardData.ts:106-114 | Summed over all rows, `valorOriginal` and `valorVenta` equal the acquisition and label prices summed over the whole catalog's variants, each counted once. |
| Dashboard.RowStockIsBranchTotal | src/hooks/useDashboardData.ts:110 | A row's total stock is its variants' stock summed over all branches. It is 0 when no branch carries any of them. |
| Dashboard.RowValuesOrdered | src/hooks/useDashboardData.ts:111-112 | When each variant's label price is at least its non-negative acquisition price, the row's original value is at most its sale value. |
| Dashboard.LoadTable | src/hooks/useDashboardData.ts:53-115 | Loading gives one row per product and one entry per branch, in their orders. |
| Dashboard.LoadTableContents | src/hooks/useDashboardData.ts:53-115 | In the loaded table, each variant's owner is the last product listing it, and its branch is the first branch carrying it. Each row's stock is its variants' stock over every branch. Each listed item carries the catalog's last acquisition price for its variant. The rows' values add up to the catalog's prices. |
| Dashboard.StatsUrl | src/hooks/useDashboardData.ts:29-42 | The bare statistics path is requested exactly for the historic period. Any other period adds a start date. |
| ProductInfo.BranchTotalIsSum | src/hooks/useProductoInfo.ts:38-44 | A branch's total is the sum of the stock of the product's items there when all of them are numbers, and NaN otherwise. |
| ProductInfo.OtherVariantIgnored | src/hooks/useProductoInfo.ts:38-41 | An item of a variant outside the product does not change the branch total. |
| ProductInfo.DuplicateVariantCountedOnce | src/hooks/useProductoInfo.ts:28 | Listing a variant id twice leaves the id set, and so every branch total, unchanged. |
| ProductInfo.EntryOf | src/hooks/useProductoInfo.ts:46-47 | A reported entry names its branch and has positive stock. |
| ProductInfo.Summary | src/hooks/useProductoInfo.ts:30-49 | There are at most as many entries as branches, and every entry has positive stock. |
| ProductInfo.Summarize | src/hooks/useProductoInfo.ts:30-49 | The loop over the branches pushes exactly the entries of the kept branches (answered, with a positive total), in order. |
| ProductInfo.SummaryFollowsBranchOrder | src/hooks/useProductoInfo.ts:32-49 | The reported branches are a subsequence of the branch list, one entry per kept branch, with that branch's name and total. |
| ProductInfo.FailedBranchSkipped | src/hooks/useProductoInfo.ts:34 | A branch whose request is answered with an error status is skipped, not reported with zero stock. |
| ProductInfo.ReportedIffPositive | src/hooks/useProductoInfo.ts:46-48 | A branch is reported exactly when it answered and its total is a positive number. |
| ProductInfo.Load | src/hooks/useProductoInfo.ts:15-55 | A product request answered with an error status changes nothing. A branch-list request answered with one sets only the product. Otherwise the list is the per-branch summary for the product's variant ids. |
| ProductInfo.Effect | src/hooks/useProductoInfo.ts:57-64 | A closed dialog, or a missing or zero id, clears both the product and the list. Otherwise the data is loaded. |

## Left out

- HTTP, cookies, JSON decoding, toasts and the `onSuccess`/`onClose` callbacks are not modelled. Fetched data are parameters. Closing the dialog is a boolean result.
- The loading flags (`loadingSucursales`, `loadingInventario`, `tableLoading`, `statsLoading`, `loading`) are not modelled. They carry no logic beyond on/off around a request.
- The statistics response (`setStats`) is not modelled. Only the URL is.
- React scheduling is not modelled. Effects are represented by the state they settle on. The search box's debounce timer and any response arriving after a later state change are not modelled.
- A request that throws (the network fails, or the body does not parse) is not modelled for the dashboard or the product dialog. Neither hook catches it, so the load stops partway.
  - In the dashboard, when the products or branch-list request throws, or its body does not parse, nothing is replaced.
  - In the dashboard, when a per-branch inventory request throws, `varianteToProductoMap` has already been replaced, while the rows, the branch listings and `varianteSucursalMap` keep their old values.
  - In the product dialog, when the product request throws, or its body does not parse, nothing is replaced.
  - In the product dialog, when the branch-list request or one branch's request throws, the product has already been replaced and the previous list stays in place; that branch is not skipped.
- Concurrency is not modelled.
  - The dashboard's per-branch requests run concurrently. Here they are folded in branch-list order. In the running program, the branch recorded first for a variant follows the order in which the responses arrive.
  - The two requests made on opening the sale form are independent. They are given together to `SaleForm.Open`.
- Dashboard.StatsUrl: the start and end timestamps are parameters. The per-period date arithmetic (today, 7 days, 30 days, this month) and the default period are not modelled, because they depend on the clock.
- Text.ToNumber: only decimal integer numerals, with an optional sign and surrounding white space, read as numbers. Decimals, exponents, hexadecimal and `Infinity` read as NaN here. Quantities and prices are integers (prices in cents), so products and sums are exact, with no floating point.
  - The form's quantity and price inputs are number inputs (src/app/(dashboard)/ventas/Ventaform.tsx:101-121; the price has step 0.01). They produce exactly text such as "1.5", "1e3" and "19.99", and the model reads that text as NaN.
  - So a typed "19.99" price gives the program a total, while the model has none (`SaleForm.Total`).
  - A quantity "1e3" against a stock of 5 is rejected by the program as over stock. The model accepts it, because NaN fails every comparison (`SaleForm.Validate`).
- Text.Lower: lower-cases ASCII letters only. Unicode case mapping is not modelled.
- Dashboard.Rows: acquisition and label prices are integers, so the NaN a non-numeric price would add to `valorOriginal` or `valorVenta` is not modelled.
- The catalog is whatever the products request returned. Its paging (first page of 100) is not modelled.
- `useProductoEdit.ts` is not part of this model. Its source does not parse: a template literal is opened with a backtick and closed with a quote.
- The UI components and the type-only declaration files are not part of this model, apart from the record shapes taken from them.
- The server-side ledger (sales, stock adjustments, rankings) is not part of this model.
