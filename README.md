# Inventory tracker — a Dafny model of its core

The inventory tracker is a small stock-keeping web application. A GraphQL API
sits over a MongoDB `Item` collection. Each item has a name, a quantity, a
minimum threshold and a category: FOOD, BEVERAGE, SUPPLIES or OTHER. React
screens list the items, export them as CSV, add or merge items, adjust
quantities, raise a low-stock notification, and draw an analytics dashboard
of stock trends and restock predictions.

This project models that core in Dafny, one module per source file:

| module | file | models |
|---|---|---|
| `Wrappers`, `Toasts` | wrappers.dfy, toasts.dfy | `Option`/`Result`; a toast (success or error message) as a value |
| `Strings` | strings.dfy | JavaScript `trim` (the ECMAScript white-space set), ASCII `toLowerCase`, `join`/`split` on one character, `toString` of integers, the decimal prefix `parseInt` reads |
| `ItemModel` | item_model.dfy | the Mongoose schema: field validators and their messages, the three-tier `stockStatus` virtual, `isLowStock`, `findLowStock` |
| `Resolvers` | resolvers.dfy | the resolvers `items`, `item`, `lowStockItems`, `createItem`, `updateItem` (QUICK and FULL), `deleteItem` and the two-tier `Item.stockStatus`; each is a pure function on a `Store` value and a method on the class `ItemStore` that holds the collection |
| `CsvUtils` | csv_utils.dfy | `convertToCSV` |
| `StockAnalytics` | stock_analytics.dfy | the dashboard: current-stock map, grouping history by item and day (keeping the latest entry), sorting trends by time, colours, usage predictions |
| `CurrentStockLevels` | current_stock_levels.dfy | the stock table: status badge, delete dialog state, delete request, CSV export |
| `QuickStockUpdate` | quick_stock_update.dfy | the quick add/remove form: guards, the QUICK mutation request, toasts, the quantity input |
| `NotificationToast` | notification_toast.dfy | the low-stock popup: re-open on changed data, close, render |
| `AddUpdateStock` | add_update_stock.dfy | the add/update form: required-field guard, the `createItem` request, completion toasts, form reset |
| `StockItemForm` | stock_item_form.dfy | the zod form schema, default values, submit label |

Things worth knowing about the model:

- **Item ids.** The store hands out ids from a counter (`nextId`), so an id is
  never reused. The UI modules keep ids as strings, as they travel over the
  wire.
- **Query results are maps.** `Item.find` with no sort has no order, so
  `items` and `lowStockItems` return maps from id to item.
- **Validators and lookup in `findByIdAndUpdate`.** With `runValidators`, the
  update is validated before the id is looked up. So an invalid patch fails
  even for an unknown id.
- **Name lookup in `createItem` compares the untrimmed input.** The lookup
  lower-cases the input name but does not trim it. Stored names are trimmed.
  So `" Widget"` does not match a stored `"Widget"` and creates a second item
  named `Widget`. The model does exactly this (`FindByName` in `Resolvers`).
- **Category is typed.** GraphQL's enum typing means a category reaching the
  store is always valid. So the category validator never fails there.
  `ItemModel.Validate` still models the validator on raw strings.
- **Two status classifiers.** `Item.stockStatus` in the resolvers has two
  tiers (LOW/GOOD). The schema virtual has three: MEDIUM when
  `quantity <= 1.5 * minThreshold`, written as `2 * q <= 3 * t`.
- **Timestamps.** History timestamps are integer milliseconds. A calendar day
  is `timestamp / 86400000`, floored, which is the UTC date that
  `toISOString().split('T')[0]` yields.
- **Average daily usage** is an exact ratio `totalUsage / daysCounted`.
  `daysUntilRestock` is `floor(currentStock * daysCounted / totalUsage)`.

## Model

| member | source | states |
|---|---|---|
| Strings.Trim | src/models/item.ts:25 | the result has no leading or trailing white space |
| Strings.TrimIsMiddle | src/models/item.ts:25 | the trimmed string is a contiguous slice of the input, and everything cut off on either side is white space |
| Strings.TrimIdempotent | src/models/item.ts:25 | trimming twice gives the same as trimming once |
| Strings.TrimOfTrimmed | src/models/item.ts:41 | a string with no white space at either end is left unchanged |
| Strings.ToLower | src/graphql/resolvers.ts:49 | same length, character by character lower-cased (ASCII) |
| Strings.SplitJoin | src/lib/csv-utils.ts:17 | splitting a join on the same separator gives the parts back when no part holds the separator |
| Strings.SplitAtFirstSeparator | src/lib/csv-utils.ts:17 | splitting cuts at the first separator |
| Strings.JoinAppend | src/lib/csv-utils.ts:17 | joining one more part appends the separator and that part |
| Strings.IntegerLiteralRoundTrip | src/components/stock/quick-stock-update.tsx:99-102 | the decimal text of any integer is an integer literal whose value is that integer |
| Strings.ParseIntOfIntToString | src/components/stock/add-update-stock.tsx:65-66 | `parseInt` of an integer's decimal text gives that integer back |
| Strings.ParseInt | src/components/stock/add-update-stock.tsx:65-66 | NaN (None) exactly when, after leading white space and an optional sign, no digit follows |
| ItemModel.ParseCategory | src/models/item.ts:42-45 | a parsed category has exactly that name; None exactly when no category has it |
| ItemModel.ParseCategoryName | src/models/item.ts:42-45 | every category's name parses back to the same category |
| ItemModel.StockStatusOf | src/models/item.ts:56-64 | LOW iff `quantity <= minThreshold`; MEDIUM iff above that and `quantity <= 1.5 * minThreshold`; GOOD iff above both |
| ItemModel.HalfFactorExact | src/models/item.ts:59 | `2q <= 3t` agrees with `q <= floor(3t / 2)` on integers |
| ItemModel.NoMediumAtZeroThreshold | src/models/item.ts:56-64 | with threshold 0 no quantity is MEDIUM |
| ItemModel.StockStatusMonotone | src/models/item.ts:56-64 | raising the quantity at a fixed threshold never lowers the status |
| ItemModel.IsLowStock | src/models/item.ts:67-69 | low exactly when the virtual status is LOW |
| ItemModel.FindLowStock | src/models/item.ts:72-78 | holds exactly the items with `quantity <= minThreshold`, unchanged |
| ItemModel.NameError | src/models/item.ts:22-27 | no error iff the trimmed name has 1 to 60 characters; the "required" error iff the trimmed name is empty |
| ItemModel.QuantityError | src/models/item.ts:28-32 | no error iff quantity >= 0, otherwise the "cannot be negative" error |
| ItemModel.MinThresholdError | src/models/item.ts:33-37 | no error iff minThreshold >= 0, otherwise its "cannot be negative" error |
| ItemModel.CategoryError | src/models/item.ts:38-46 | no error iff the trimmed category is one of the four names |
| ItemModel.TypedCategoryValid | src/models/item.ts:38-46 | a typed category always passes the category validator |
| ItemModel.FieldErrors | src/models/item.ts:21-37 | empty iff name, quantity and threshold all pass |
| ItemModel.ValidateDocument | src/models/item.ts:21-46 | succeeds iff all fields pass; then the saved document has the trimmed name and is a valid item; otherwise the field errors |
| ItemModel.ValidateWithValidName | src/models/item.ts:21-37 | a document with an already trimmed, valid name saves unchanged iff both numbers are non-negative |
| ItemModel.Validate | src/models/item.ts:21-46 | a raw document succeeds iff every validator passes; the saved document has trimmed name and parsed category |
| ItemModel.ValidateReports | src/models/item.ts:22-37 | a negative quantity, a negative threshold and an empty name each appear among the reported errors |
| ItemModel.ValidateAgrees | src/models/item.ts:21-46 | validating the raw form of a typed document agrees with validating the document |
| ItemModel.ValidateValid | src/models/item.ts:21-46 | a valid item validates to itself |
| Resolvers.FindByName | src/graphql/resolvers.ts:49-54 | the first stored item whose lower-cased name equals the lower-cased input; None iff none matches |
| Resolvers.FirstMatch | src/graphql/resolvers.ts:52-54 | the first id in the range whose lower-cased name equals the key, with none matching before it; None iff no id in the range matches |
| Resolvers.Merged | src/graphql/resolvers.ts:58-60 | name kept, the quantities add up, a zero threshold keeps the stored one and any other replaces it, the category replaced |
| Resolvers.NewDocument | src/graphql/resolvers.ts:67 | the new document carries the input's name, numbers and category unchanged (the name is trimmed only on save) |
| Resolvers.Create | src/graphql/resolvers.ts:42-70 | the store stays valid; a failure leaves it unchanged; a success writes exactly the returned item under the returned id |
| Resolvers.CreateMerges | src/graphql/resolvers.ts:56-63 | for a name match: no id added; succeeds iff the summed quantity is non-negative and a non-zero threshold is non-negative; then quantity summed, threshold replaced unless 0, category replaced, name kept |
| Resolvers.CreateInserts | src/graphql/resolvers.ts:66-69 | without a match: succeeds iff the trimmed name has 1-60 characters and both numbers are non-negative; then a fresh id holds the item with the trimmed name, and the store grows by one |
| Resolvers.PatchErrors | src/graphql/resolvers.ts:95-106 | empty iff every field the patch carries passes its validator |
| Resolvers.Patched | src/graphql/resolvers.ts:95-106 | each supplied field replaces the stored one (a name trimmed), each absent field keeps it |
| Resolvers.FindByIdAndUpdate | src/graphql/resolvers.ts:103-106 | fails with the validation errors iff the patch is invalid, changing nothing; null iff the id is unknown; otherwise only that item changes, to the patched value |
| Resolvers.Update | src/graphql/resolvers.ts:71-107 | keys and counter are kept; a failure or null changes nothing; a result is the item now stored |
| Resolvers.QuickRejectsBelowZero | src/graphql/resolvers.ts:87-92 | QUICK with a delta that takes the stored quantity below 0 fails with "Cannot reduce quantity below 0" and changes nothing |
| Resolvers.QuickApplies | src/graphql/resolvers.ts:87-99 | QUICK with a non-negative sum succeeds iff the rest of the patch is valid; then the quantity is the old one plus the delta and no other item changes |
| Resolvers.QuickUnknownId | src/graphql/resolvers.ts:81-84 | QUICK on an unknown id returns null and changes nothing |
| Resolvers.QuickWithoutQuantityIsFull | src/graphql/resolvers.ts:81-106 | QUICK without a quantity behaves exactly as FULL |
| Resolvers.PatchedIdempotent | src/graphql/resolvers.ts:103-106 | applying the same patch twice gives the same item as once |
| Resolvers.FullIdempotent | src/graphql/resolvers.ts:103-106 | repeating a FULL update (or a QUICK one without quantity) changes nothing more |
| Resolvers.Delete | src/graphql/resolvers.ts:108-114 | returns the stored item iff the id is present; removes exactly that key; every other item unchanged |
| Resolvers.ItemStockStatus | src/graphql/resolvers.ts:116-122 | LOW iff `quantity <= minThreshold`, which is where the virtual says LOW |
| Resolvers.ItemStore.AllItems | src/graphql/resolvers.ts:21-24 | returns the whole collection |
| Resolvers.ItemStore.ItemById | src/graphql/resolvers.ts:25-31 | the stored item iff the id is present |
| Resolvers.ItemStore.LowStockItems | src/graphql/resolvers.ts:32-39 | exactly the items whose API status is LOW, unchanged; equal to `findLowStock` |
| Resolvers.ItemStore.CreateItem | src/graphql/resolvers.ts:42-70 | new state and result are those of `Create` |
| Resolvers.ItemStore.ApplyUpdate | src/graphql/resolvers.ts:95-106 | new state and result are those of `FindByIdAndUpdate` |
| Resolvers.ItemStore.UpdateItem | src/graphql/resolvers.ts:71-107 | new state and result are those of `Update` |
| Resolvers.ItemStore.DeleteItem | src/graphql/resolvers.ts:108-114 | new state and result are those of `Delete` |
| Resolvers.ItemStore.constructor | src/graphql/resolvers.ts:19-20 | starts with an empty, valid collection |
| CsvUtils.HeaderLine | src/lib/csv-utils.ts:9-17 | the joined header is `Name,Category,Current Quantity,Min Threshold` |
| CsvUtils.Rows | src/lib/csv-utils.ts:10-15 | one row per item, in order |
| CsvUtils.ConvertToCSV | src/lib/csv-utils.ts:8-18 | the output starts with the header |
| CsvUtils.EmptyIsHeader | src/lib/csv-utils.ts:8-18 | no items give the header alone |
| CsvUtils.AppendRow | src/lib/csv-utils.ts:17 | one more item appends a newline and its row |
| CsvUtils.NoTrailingNewline | src/lib/csv-utils.ts:17 | the output never ends in a newline |
| CsvUtils.RowNewlineFree | src/lib/csv-utils.ts:10-15 | a row has no newline when name and category have none |
| CsvUtils.Lines | src/lib/csv-utils.ts:8-18 | for newline-free items, the lines are the header and then one row per item |
| CsvUtils.RowFields | src/lib/csv-utils.ts:10-15 | for comma-free name and category, a row splits at commas into name, lower-cased category, quantity, threshold |
| CsvUtils.NoQuoting | src/lib/csv-utils.ts:10-17 | a comma in a name is not quoted: `Salt, coarse` yields five fields |
| CsvUtils.OneItemExample | src/lib/csv-utils.ts:8-18 | one FOOD item gives the header and `Test Item,food,5,2` |
| StockAnalytics.DayMonotone | src/components/analytics/stock-analytics-dashboard.tsx:79 | a later timestamp never falls on an earlier day |
| StockAnalytics.StockMapLastWins | src/components/analytics/stock-analytics-dashboard.tsx:64-70 | a name is a key iff some item has it; the value is the quantity of the last item with that name |
| StockAnalytics.CurrentStockMap | src/components/analytics/stock-analytics-dashboard.tsx:64-70 | the loop builds the specified map |
| StockAnalytics.CurrentStock | src/components/analytics/stock-analytics-dashboard.tsx:126 | the mapped quantity, or 0 for a name not in the map |
| StockAnalytics.FindBucket | src/components/analytics/stock-analytics-dashboard.tsx:76 | the index of the item's bucket, or -1 iff there is none |
| StockAnalytics.FindDay | src/components/analytics/stock-analytics-dashboard.tsx:82 | the index of the entry on that day, or -1 iff there is none |
| StockAnalytics.GroupStep | src/components/analytics/stock-analytics-dashboard.tsx:75-88 | adding one history entry keeps the grouping invariant |
| StockAnalytics.GroupIsGrouped | src/components/analytics/stock-analytics-dashboard.tsx:73-91 | each item has one bucket, each day one entry, every history entry's slot is present, and each kept entry is the latest of its item and day (the first such on a tie) |
| StockAnalytics.GroupNames | src/components/analytics/stock-analytics-dashboard.tsx:73-91 | an item has a bucket iff it occurs in the history |
| StockAnalytics.GroupHistory | src/components/analytics/stock-analytics-dashboard.tsx:73-91 | the loop builds the specified grouping |
| StockAnalytics.Insert | src/components/analytics/stock-analytics-dashboard.tsx:101 | the result is sorted by time and a permutation of the input plus the new point |
| StockAnalytics.SortByTime | src/components/analytics/stock-analytics-dashboard.tsx:101 | the result is sorted by time and a permutation of the input |
| StockAnalytics.SortDistinct | src/components/analytics/stock-analytics-dashboard.tsx:94-101 | sorting keeps the dates distinct |
| StockAnalytics.EntryPoints | src/components/analytics/stock-analytics-dashboard.tsx:94-100 | one point per kept entry, carrying the item's name and the entry's day |
| StockAnalytics.StockTrends | src/components/analytics/stock-analytics-dashboard.tsx:92-103 | one trend per bucket, in bucket order |
| StockAnalytics.TrendsChronological | src/components/analytics/stock-analytics-dashboard.tsx:92-103 | every trend holds exactly its bucket's points, with strictly increasing timestamps and dates |
| StockAnalytics.ItemColorsByPosition | src/components/analytics/stock-analytics-dashboard.tsx:106-121 | every name gets a colour, which is palette entry `index mod 7` of its last position |
| StockAnalytics.TrendColors | src/components/analytics/stock-analytics-dashboard.tsx:106-121 | trend `i` gets palette colour `i mod 7` |
| StockAnalytics.LastN | src/components/analytics/stock-analytics-dashboard.tsx:125 | the last `min(n, length)` elements |
| StockAnalytics.UsageBounds | src/components/analytics/stock-analytics-dashboard.tsx:137-149 | 0 <= days counted <= total usage, and both are positive iff some step decreases |
| StockAnalytics.NoDecreaseNoUsage | src/components/analytics/stock-analytics-dashboard.tsx:137-149 | a never-decreasing trend has no usage |
| StockAnalytics.Floor | src/components/analytics/stock-analytics-dashboard.tsx:153 | the greatest integer whose product with the divisor does not exceed the dividend |
| StockAnalytics.PredictionOf | src/components/analytics/stock-analytics-dashboard.tsx:124-161 | the prediction carries the item's name and its current stock |
| StockAnalytics.PredictionProperties | src/components/analytics/stock-analytics-dashboard.tsx:128-153 | fewer than 2 points give usage 0 and no restock day; usage is positive iff stock fell on some step; a restock day exists iff usage is positive, and it is the floor of stock over usage |
| StockAnalytics.OnlyLastSeven | src/components/analytics/stock-analytics-dashboard.tsx:125 | points before the last seven do not change the prediction |
| StockAnalytics.SumUsage | src/components/analytics/stock-analytics-dashboard.tsx:137-149 | the loop computes the total of the decreases and the number of decreasing steps |
| StockAnalytics.Predict | src/components/analytics/stock-analytics-dashboard.tsx:124-161 | the loop computes the specified prediction |
| StockAnalytics.Predictions | src/components/analytics/stock-analytics-dashboard.tsx:124 | one prediction per trend, in order |
| StockAnalytics.PredictionsCoverHistory | src/components/analytics/stock-analytics-dashboard.tsx:124-161 | an item has a prediction iff it occurs in the history |
| StockAnalytics.PredictAll | src/components/analytics/stock-analytics-dashboard.tsx:124-161 | the loop computes the specified predictions |
| StockAnalytics.Analyze | src/components/analytics/stock-analytics-dashboard.tsx:60-161 | trends, colours and predictions are the specified ones |
| CurrentStockLevels.GetStockStatus | src/components/stock/current-stock-levels.tsx:39-44 | LOW iff `quantity <= minThreshold`, GOOD iff above |
| CurrentStockLevels.StatusAgrees | src/components/stock/current-stock-levels.tsx:39-44 | the table badge agrees with the API status, `isLowStock` and the virtual's LOW |
| CurrentStockLevels.RowDialogOpen | src/components/stock/current-stock-levels.tsx:159 | a row's dialog is open only while the dialog flag is set and that row's id is the one chosen |
| CurrentStockLevels.AtMostOneDialog | src/components/stock/current-stock-levels.tsx:159 | at most one row's dialog is open; none while no item is chosen |
| CurrentStockLevels.DeleteRequest | src/components/stock/current-stock-levels.tsx:77-87 | a delete is sent iff an item is chosen and its id is not empty, with that id |
| CurrentStockLevels.ExportCSV | src/components/stock/current-stock-levels.tsx:66-72 | a file iff items are loaded; its content is the CSV of the items and its name `stock-levels-<date>.csv` |
| CurrentStockLevels.ExportEmpty | src/components/stock/current-stock-levels.tsx:66-72 | an empty list exports the header alone |
| CurrentStockLevels.DeleteDialog.constructor | src/components/stock/current-stock-levels.tsx:49-50 | closed, no item chosen |
| CurrentStockLevels.DeleteDialog.OnDeleteClick | src/components/stock/current-stock-levels.tsx:171-174 | chooses the row and opens its dialog |
| CurrentStockLevels.DeleteDialog.OnOpenChange | src/components/stock/current-stock-levels.tsx:160-163 | sets the open flag; closing clears the choice |
| CurrentStockLevels.DeleteDialog.OnCancel | src/components/stock/current-stock-levels.tsx:188-193 | closes and clears the choice |
| CurrentStockLevels.DeleteDialog.HandleDelete | src/components/stock/current-stock-levels.tsx:77-87 | sends what `DeleteRequest` says |
| CurrentStockLevels.DeleteDialog.OnDeleteCompleted | src/components/stock/current-stock-levels.tsx:54-58 | success toast, dialog closed, choice cleared |
| CurrentStockLevels.DeleteDialog.OnDeleteError | src/components/stock/current-stock-levels.tsx:59-63 | error toast with the message, dialog closed, choice cleared |
| QuickStockUpdate.GuardError | src/components/stock/quick-stock-update.tsx:35-43 | "select an item" iff none is selected; "greater than 0" iff one is and the quantity is not positive; no error otherwise |
| QuickStockUpdate.Delta | src/components/stock/quick-stock-update.tsx:50 | the amount or its negation; for a positive amount, positive exactly for add and negative exactly for remove |
| QuickStockUpdate.QuickInput | src/components/stock/quick-stock-update.tsx:49-51 | the mutation input supplies only the signed quantity |
| QuickStockUpdate.AddThenRemoveRestores | src/components/stock/quick-stock-update.tsx:46-54 | through the QUICK `updateItem` resolver, adding an amount always succeeds and raises the stored quantity by it, removing it again restores the whole collection, and removing succeeds iff the stock covers the amount |
| QuickStockUpdate.Request | src/components/stock/quick-stock-update.tsx:46-54 | the trimmed id, the signed delta and mode QUICK |
| QuickStockUpdate.SuccessMessage | src/components/stock/quick-stock-update.tsx:57 | the messages are "Successfully added stock" and "Successfully removeed stock" |
| QuickStockUpdate.ApolloMessage | src/components/stock/quick-stock-update.tsx:64-67 | never empty, and either the fallback or one of the two server messages |
| QuickStockUpdate.ApolloMessageChoice | src/components/stock/quick-stock-update.tsx:63-68 | the first non-empty of the GraphQL message, the network message, the fallback |
| QuickStockUpdate.OutcomeToast | src/components/stock/quick-stock-update.tsx:56-72 | a success toast iff the mutation returned data; nothing when it returned none; a non-empty error toast when it threw |
| QuickStockUpdate.DisplayValue | src/components/stock/quick-stock-update.tsx:99 | the input shows nothing exactly when the quantity is 0 |
| QuickStockUpdate.QuantityFromInput | src/components/stock/quick-stock-update.tsx:100-103 | an empty input is 0, otherwise the literal's value |
| QuickStockUpdate.DisplayRoundTrip | src/components/stock/quick-stock-update.tsx:99-102 | typing back the displayed value restores the quantity (0 shows as empty) |
| QuickStockUpdate.ButtonsDisabled | src/components/stock/quick-stock-update.tsx:106-116 | disabled iff updating or the quantity is 0 |
| QuickStockUpdate.NegativeStoppedByGuard | src/components/stock/quick-stock-update.tsx:40-108 | a negative quantity enables the buttons but the guard rejects it |
| QuickStockUpdate.QuickUpdateForm.constructor | src/components/stock/quick-stock-update.tsx:26-27 | no item, quantity 0 |
| QuickStockUpdate.QuickUpdateForm.OnValueChange | src/components/stock/quick-stock-update.tsx:82 | sets the selected item and nothing else |
| QuickStockUpdate.QuickUpdateForm.OnQuantityChange | src/components/stock/quick-stock-update.tsx:100-103 | sets the quantity from the input (empty is 0) and nothing else |
| QuickStockUpdate.QuickUpdateForm.HandleUpdate | src/components/stock/quick-stock-update.tsx:34-73 | a guard error: no request, its toast, no change; otherwise the QUICK request; the form resets only on a success with data |
| NotificationToast.FingerprintOf | src/components/ui/notification-toast.tsx:28-34 | one (id, quantity, threshold) triple per item, in order |
| NotificationToast.SameFingerprint | src/components/ui/notification-toast.tsx:28-36 | two lists have the same fingerprint iff their ids, quantities and thresholds agree position by position |
| NotificationToast.OnData | src/components/ui/notification-toast.tsx:26-41 | no data or unchanged data leaves the state; changed data opens the popup and records the fingerprint |
| NotificationToast.Close | src/components/ui/notification-toast.tsx:70 | closed, with the fingerprint kept |
| NotificationToast.OnDataIdempotent | src/components/ui/notification-toast.tsx:26-41 | handling the same data twice has no further effect |
| NotificationToast.LowStockCount | src/components/ui/notification-toast.tsx:48 | 0 exactly when there is no list or the list is empty |
| NotificationToast.FirstDataOpens | src/components/ui/notification-toast.tsx:22-39 | the first data opens the popup |
| NotificationToast.ClosedStaysClosed | src/components/ui/notification-toast.tsx:36-70 | after closing, data with the same fingerprint keeps it closed |
| NotificationToast.ChangeReopens | src/components/ui/notification-toast.tsx:36-70 | after closing, data with a different fingerprint reopens it |
| NotificationToast.Render | src/components/ui/notification-toast.tsx:48-91 | nothing iff no low items or closed; otherwise the badge is the count and one entry per item with its name, quantity and threshold |
| NotificationToast.ThirdItemReopens | src/components/ui/__tests__/notification-toast.test.tsx:160-203 | a closed popup over two items reopens showing three when a third low item arrives |
| NotificationToast.StockNotifications.constructor | src/components/ui/notification-toast.tsx:22-23 | open, no fingerprint yet |
| NotificationToast.StockNotifications.DataChanged | src/components/ui/notification-toast.tsx:26-41 | the new state is `OnData` of the old one |
| NotificationToast.StockNotifications.CloseClicked | src/components/ui/notification-toast.tsx:70 | the new state is closed, fingerprint kept |
| AddUpdateStock.SubmitGuard | src/components/stock/add-update-stock.tsx:54-57 | no error iff name, category and quantity are all non-empty; otherwise the "required fields" message |
| AddUpdateStock.BuildRequest | src/components/stock/add-update-stock.tsx:60-67 | name and category verbatim, both numbers through `parseInt` |
| AddUpdateStock.RequestCarriesFields | src/components/stock/add-update-stock.tsx:60-67 | numbers typed as decimal text reach the request as those numbers |
| AddUpdateStock.EmptyThresholdIsSent | src/components/stock/add-update-stock.tsx:54-67 | an empty threshold passes the guard and is sent as NaN (absent) |
| AddUpdateStock.CompletionMessage | src/components/stock/add-update-stock.tsx:28-33 | "added" iff the returned id is absent or empty, otherwise "quantity updated" |
| AddUpdateStock.AddUpdateForm.constructor | src/components/stock/add-update-stock.tsx:17-22 | empty fields, threshold "10" |
| AddUpdateStock.AddUpdateForm.OnNameChange | src/components/stock/add-update-stock.tsx:86-87 | sets the name, other fields kept |
| AddUpdateStock.AddUpdateForm.OnCategoryChange | src/components/stock/add-update-stock.tsx:96-97 | sets the category, other fields kept |
| AddUpdateStock.AddUpdateForm.OnQuantityChange | src/components/stock/add-update-stock.tsx:116-117 | sets the quantity text, other fields kept |
| AddUpdateStock.AddUpdateForm.OnMinThresholdChange | src/components/stock/add-update-stock.tsx:129-130 | sets the threshold text, other fields kept |
| AddUpdateStock.AddUpdateForm.HandleSubmit | src/components/stock/add-update-stock.tsx:51-73 | a guard error gives its toast and no request; otherwise the built request |
| AddUpdateStock.AddUpdateForm.OnCompleted | src/components/stock/add-update-stock.tsx:27-45 | the completion toast and the form reset to its initial values |
| AddUpdateStock.AddUpdateForm.OnError | src/components/stock/add-update-stock.tsx:46-48 | an error toast "Error: " plus the message |
| StockItemForm.FormSchema | src/components/stock/stock-item-form.tsx:22-27 | succeeds iff name non-empty, category one of four, both numbers >= 0, returning the data; otherwise all issues in field order |
| StockItemForm.SchemaMessages | src/components/stock/stock-item-form.tsx:22-27 | the "Name is required" issue iff the name is empty; each failing field reports its message; a valid quantity reports none |
| StockItemForm.DefaultValues | src/components/stock/stock-item-form.tsx:46-51 | the given data when there is some, otherwise empty name, FOOD and two zeros |
| StockItemForm.DefaultsFailOnlyOnName | src/components/stock/stock-item-form.tsx:46-51 | the default values fail only on the empty name |
| StockItemForm.SubmitLabel | src/components/stock/stock-item-form.tsx:131-141 | "Adding..." or "Saving..." exactly while loading, the add labels in add mode and the edit labels in edit mode, which fixes each of the four labels |
| StockItemForm.LabelsDistinct | src/components/stock/stock-item-form.tsx:131-141 | the four button labels are pairwise distinct |

## Left out

- Database connection, I/O and storage errors: each resolver is an atomic step on the in-memory `Store`.
- Concurrency: QUICK reads the item and then writes it. Two clients can interleave, but the model runs each mutation atomically.
- Regular expressions: `createItem` builds a case-insensitive, anchored regular expression from the input. The model compares the lower-cased strings for equality, so regex metacharacters in a name are not modelled.
- Unicode: case mapping is ASCII only, and lengths count characters rather than UTF-16 code units (the 60-character limit, zod's `min(1)`).
- Floating point: quantities are integers. `Number()` and `parseInt` are modelled only on decimal integer text; `avgDailyUsage` is an exact ratio, with no `toFixed` display.
- QuickStockUpdate.QuantityFromInput: assumes the input is empty or an integer literal, because quantities are integers here. A number input also delivers fractional or exponent text such as "1.5" or "1e3", which `Number()` turns into a non-integer quantity; that case is not modelled.
- QuickStockUpdate.QuickUpdateForm.OnQuantityChange: has the same assumption. So the model does not cover a fractional quantity reaching `handleUpdate`, where the GraphQL `Int` argument rejects it and an error toast is shown.
- StockAnalytics.PredictionOf: the restock day is the floor of the exact ratio. Rounding in the float `currentStock / avgDailyUsage` is not modelled.
- NaN in the zod schema: the number fields are integers, so a NaN quantity cannot be expressed.
- Dates: `new Date(...).toISOString()` is modelled as a floored day number from integer milliseconds. Date strings, time zones and the export file's date come in as parameters.
- JavaScript object key order: maps follow insertion order. The special rule that orders integer-like keys first is not modelled.
- `JSON.stringify` in the notification fingerprint: the fingerprint is the list of triples itself, which is as injective as the JSON text.
- Resolvers.Update: treats an explicit GraphQL `null` like an absent field (both are `None`). In the source a FULL update `{name: null}` sets the name to null and fails Mongoose's required validator. The model treats it as a no-op that succeeds.
- Resolvers.Update: quantities are unbounded integers. GraphQL `Int` is 32-bit, so a QUICK sum above 2^31-1 is written, and then serialising `quantity: Int!` fails and the client gets an error. The model reports success.
- Resolvers.Create: quantities are unbounded as well. A merge whose summed quantity passes 2^31-1 is saved, but the response fails to serialise; the model reports success.
- Mongoose `ObjectId` cast errors: ids are naturals, and the UI's string ids are opaque.
- Mongoose timestamps (`createdAt`, `updatedAt`) and the empty `pre('save')` hook: neither affects any modelled result.
- Validator messages: taken from the schema, and from zod's defaults for the category enum. Library internals are not modelled.
- `downloadCSV`: a Blob and DOM step with no result. `ExportCSV` returns the content and the file name.
- Rendering, routing, refetching and polling (`startPolling(30000)`): no logic beyond what the modelled state functions decide. Toasts are values.
- StockAnalytics.StockMapLastWins: the dashboard builds plain JavaScript objects, whose keys share a namespace with `Object.prototype`. The model's maps have no prototype. An item named `__proto__` is not stored (the assignment is ignored), so "the last item wins" fails for that name in the source.
- StockAnalytics.CurrentStockMap: builds `StockMapOf`, so it has the same gap for `__proto__`.
- StockAnalytics.CurrentStock: for a name that is not an own key but is inherited (`toString`, `constructor`, ...), the source's `currentStockMap[name] || 0` yields the inherited function, and `daysUntilRestock` becomes NaN. The model gives 0.
- StockAnalytics.GroupNames: a history point named after an inherited property (`constructor`, `toString`, `__proto__`, ...) is written onto that inherited object, and `Object.entries` never lists it, so in the source it gets no trend. The model gives it a bucket.
- StockAnalytics.GroupHistory: builds `Group`, with the same gap for inherited property names.
- StockAnalytics.PredictionsCoverHistory: gives such a name a prediction too. In the source it gets no trend, so no colour and no prediction.
- Writing stock history: nothing in the core appends to it. The dashboard receives it as input.
- Loading and error screens of the components: fixed text with no state.
