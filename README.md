# KasirCerdas point of sale, modelled in Dafny

KasirCerdas is a single-page React point-of-sale application. Every screen's logic sits in
one component. All data lives in an in-memory mock store that is re-seeded on every page load.
This project models the parts that carry logic:

- the cashier's cart, its total and profit, and checkout (`PosScreen`, pos.dfy);
- the store with its four tables and the session (`Store`, store.dfy);
- the application shell: the loading gate, the role gate, login and logout, and the handlers
  that write to the store and reload (`App`, app.dfy);
- the role-filtered sidebar (`Sidebar`, sidebar.dfy);
- the dashboard aggregates and per-day chart data (`DashboardScreen`, dashboard.dfy);
- the product form's digit parser and the inventory screen's dialogs (`InventoryScreen`,
  inventory.dfy);
- the user form's password rule and the self-delete guard (`UsersScreen`, users.dfy);
- the transaction list's in-place newest-first sort, its single expanded row and its
  columns (`TransactionsScreen`, transactions.dfy).

The records of types.ts are datatypes in `Types` (types.dfy). The JavaScript array methods
`find`, `findIndex`, `filter`, `map` and `reduce` are generic functions in `Seqs` (seqs.dfy).
Each one recurses from the front of the array, as the JavaScript method walks it.

## How the model is built

- State that a component or the store updates in place is a class:
  - `Store.Db` holds the tables;
  - `PosScreen.PointOfSale` holds the cart;
  - `App.AppState` holds the application state;
  - `InventoryScreen.ProductForm`, `InventoryScreen.Inventory`, `UsersScreen.UserForm`,
    `UsersScreen.Users` and `TransactionsScreen.TransactionList` hold screen state.

  Each method states the complete new state as a function of the old state. Facts about that
  function are proved as lemmas. `Store.Db.Valid()` says that no two products and no two
  users share an id; the constructor establishes it and every method of the store keeps it.
- React state setters are plain assignments. `await` steps happen one after another.
- Alerts are `Err` results, or flags that leave the state unchanged.
- Clocks and storage are parameters:
  - `new Date().getTime()` ids and ISO dates are passed in as `freshId` and `date`;
  - the browser's session storage is the `session` field of the store, seeded by the
    constructor.
- Date parsing and locale formatting are abstract function parameters:
  - `time` orders the transaction list;
  - `dayKey` names a chart day.
- Money and stock are unbounded integers. The application only ever produces integers,
  because every value it stores comes from `parseInt`.
- JavaScript truthiness of ids is explicit in `Types.HasId`. An id of `''` takes the add path
  of `saveProduct` and `saveUser`, just as a missing id does.
- The model keeps two behaviours of the code that are easy to miss:
  - logout keeps `currentView`, so the next login moves the user to a landing view;
  - an edit of an unknown id in `saveProduct` or `saveUser` leaves the table unchanged. The
    `!` in the source then returns `undefined`, which the model writes as `None`.

## Model

| member | source | states |
|---|---|---|
| Seqs.FindIndex | services/api.ts:79 | `findIndex`: -1 exactly when no element satisfies the predicate, otherwise the first index that does |
| Seqs.Find | services/api.ts:90 | `find`: None exactly when no element matches, otherwise the first element that matches |
| Seqs.Filter | services/api.ts:57 | `filter`: every kept element passes, every passing element is kept, and order is preserved (a subsequence); the number of copies kept is stated by Seqs.FilterCounts |
| Seqs.FilterCounts | services/api.ts:57 | each passing element is kept exactly as often as it occurs, and no other element is kept; with the subsequence clause this fixes the result |
| Seqs.FilterAppend | components/POS.tsx:41 | filtering distributes over concatenation |
| Seqs.FilterKeepsAll | services/api.ts:148 | a filter that every element passes returns the input unchanged |
| Seqs.FilterKeepsKeysDistinct | services/api.ts:148 | a filter of a sequence whose keys are distinct has distinct keys |
| Seqs.Map | services/api.ts:113 | `map`: same length, and element i is f of element i |
| Seqs.SumOfAppend | components/Dashboard.tsx:54 | a `reduce` sum over a concatenation is the sum of the two parts |
| Seqs.SumOfUpdate | components/POS.tsx:47 | replacing one element changes the sum by the difference of its two terms |
| Seqs.SumOfNonNegative | components/Dashboard.tsx:56 | a sum of non-negative terms is non-negative |
| Seqs.SumOfZeroTerms | components/Dashboard.tsx:67-68 | a sum of zero terms is zero |
| Seqs.SumOfPointwise | components/POS.tsx:55-62 | sums of two term functions that agree on every element are equal |
| Types.FindProduct | components/POS.tsx:34 | `products.find` by id: None iff no product has the id; otherwise the first product with it |
| Types.ProductIndex | services/api.ts:79 | `findIndex` by id: -1 iff absent; otherwise the first index holding the id |
| Types.FindLine | components/POS.tsx:21 | `cart.find` by product id: None iff no line is for the product; otherwise the first such line |
| Types.FindLineAt | components/POS.tsx:71 | with one line per product, `find` returns the line at the product's index |
| Types.FindProductAt | services/api.ts:44 | with unique ids, `find` returns the product at the id's index |
| PosScreen.Incremented | components/POS.tsx:24 | same length; the product's lines gain one unit and every other line is unchanged |
| PosScreen.WithQuantity | components/POS.tsx:43 | same length; the product's lines get the new quantity and every other line is unchanged |
| PosScreen.WithoutLine | components/POS.tsx:41 | no line for the product is left; every other line is kept as often as it occurs, in order |
| PosScreen.CartAfterAdd | components/POS.tsx:15-31 | the cart after `addToCart`, or the alert; its three outcomes are stated by PosScreen.AddToCartOutcomes and its invariant by PosScreen.AddToCartKeepsInvariant |
| PosScreen.CartAfterQuantityUpdate | components/POS.tsx:33-45 | the cart after `updateQuantity`, or the alert; its outcomes are stated by PosScreen.UpdateQuantityOutcomes and its invariant by PosScreen.UpdateQuantityKeepsInvariant |
| PosScreen.Total | components/POS.tsx:47 | the cart total; how an add changes it is stated by PosScreen.AddToCartTotal, PosScreen.IncrementTotal and PosScreen.AppendTotal, and that a transaction's detail amounts add up to it by TransactionsScreen.CheckoutColumns |
| PosScreen.AddToCartOutcomes | components/POS.tsx:15-31 | out of stock: rejected; not in the cart: one line appended with quantity 1 and the product's name and price; in the cart: only that line gains a unit, and only while below stock, otherwise rejected |
| PosScreen.AddToCartKeepsInvariant | components/POS.tsx:15-31 | adding keeps one line per product and every quantity between 1 and stock |
| PosScreen.AddToCartTotal | components/POS.tsx:15-47 | a successful add raises the total by the line's selling price |
| PosScreen.IncrementedIsUpdate | components/POS.tsx:24 | with one line per product, incrementing updates exactly that product's line |
| PosScreen.IncrementTotal | components/POS.tsx:22-47 | incrementing a line below stock succeeds and adds that line's price to the total |
| PosScreen.AppendTotal | components/POS.tsx:29-47 | a new product's line is appended, and the total grows by the product's price |
| PosScreen.UpdateQuantityOutcomes | components/POS.tsx:33-45 | rejected exactly when the product is known and the quantity exceeds its stock; otherwise a quantity ≤ 0 removes the line and any other quantity sets it |
| PosScreen.UpdateQuantityKeepsInvariant | components/POS.tsx:33-45 | updating a quantity keeps one line per product and every quantity between 1 and stock |
| PosScreen.FilterUniqueLines | components/POS.tsx:41 | removing lines keeps one line per product |
| PosScreen.ProfitIsRevenueMinusCost | components/POS.tsx:55-62 | the profit is the revenue of the lines whose product exists minus their cost at current cost prices |
| PosScreen.LineProfitSplit | components/POS.tsx:56-60 | a line's profit is its amount minus its cost when its product exists, and 0 otherwise |
| PosScreen.LineProfit | components/POS.tsx:56-61 | a line's margin at its product's current cost price, 0 when the product is gone; its split into amount minus cost is stated by PosScreen.LineProfitSplit |
| PosScreen.Profit | components/POS.tsx:55-62 | the checkout profit; its meaning, revenue minus cost of the lines whose product exists, is stated by PosScreen.ProfitIsRevenueMinusCost |
| PosScreen.CartQuantity | components/POS.tsx:71-74 | the quantity of the first cart line for a product, 0 when there is none; its use is stated by PosScreen.UpdatedProducts |
| PosScreen.AfterSale | components/POS.tsx:70-76 | one product after the sale; the whole list's stocks are stated by PosScreen.UpdatedProducts and PosScreen.CheckoutStockNonNegative |
| PosScreen.CheckoutOf | components/POS.tsx:49-80 | the checkout outcome; an empty cart is refused and otherwise the data holds the cart, its total, its profit and the updated products, as PosScreen.PointOfSale.HandleCheckout states; its columns are stated by TransactionsScreen.CheckoutColumns and the store's result by App.CheckoutStored |
| PosScreen.UpdatedProducts | components/POS.tsx:70-76 | same length and order; each product's stock drops by its cart quantity with every other field kept; products not in the cart are unchanged |
| PosScreen.CheckoutStockNonNegative | components/POS.tsx:70-76 | if no cart quantity exceeds its product's stock, no stock goes negative |
| PosScreen.PointOfSale.constructor | components/POS.tsx:12 | the cart starts empty |
| PosScreen.PointOfSale.AddToCart | components/POS.tsx:15-31 | the cart becomes the add outcome, or stays the same and the alert is returned |
| PosScreen.PointOfSale.UpdateQuantity | components/POS.tsx:33-45 | the cart becomes the update outcome, or stays the same and the alert is returned |
| PosScreen.PointOfSale.HandleCheckout | components/POS.tsx:49-80 | an empty cart emits nothing and changes nothing; otherwise it emits the items, total, profit and updated products, and empties the cart |
| Store.ProductsAfterSave | services/api.ts:42-52 | an edit keeps the length and overwrites only the products with that id; an add appends one product under the fresh id |
| Store.ProductFromData | services/api.ts:43-49 | the record built from the form's fields under a given id; that it is found again with exactly those fields is stated by Store.SaveProductThenFind |
| Store.SpreadIdAsWritten | services/api.ts:46-49 | the spread's result: the fresh id survives only when the caller's object has no `id` key; a present key, even `undefined`, wins |
| Store.StoredIdsAfterAddAsWritten | services/api.ts:46-50 | the products' id column after an add as written: the ids already stored, in order, then the id the spread leaves on the pushed record |
| Store.SaveProductThenFind | services/api.ts:42-52 | saving keeps ids unique, and the saved product is found under its id with the submitted fields, unless the edit names an unknown id |
| Store.WithoutProduct | services/api.ts:55-58 | removes exactly the products with the id; every other product is kept as often as it occurs, in order |
| Store.DeleteProductKeepsIdsUnique | services/api.ts:55-58 | deleting keeps product ids unique |
| Store.DeleteUnknownProduct | services/api.ts:55-58 | deleting an unknown id changes nothing |
| Store.AddThenDeleteProduct | services/api.ts:45-58 | deleting a just-added product restores the table |
| Store.SetStockOf | services/api.ts:79-82 | one loop step: an unknown id changes nothing; otherwise the first product with that id takes the new stock and nothing else changes |
| Store.StockSynced | services/api.ts:78-83 | the loop keeps the table's length |
| Store.StockSyncedChangesOnlyStock | services/api.ts:78-83 | the loop changes only stocks, and only of products named in the update list |
| Store.StockSyncedKeepsIds | services/api.ts:78-83 | the loop keeps every product's id, so unique ids stay unique |
| Store.StockSyncedLastWins | services/api.ts:78-83 | with unique ids, a product named in the update list ends with the stock of the last entry naming it |
| Store.StockSyncedPrefix | services/api.ts:78-83 | a snapshot of the table with new stocks makes the first n products take their new stocks |
| Store.SnapshotStep | services/api.ts:79-81 | one step over a snapshot gives position k its snapshot stock |
| Store.StockSyncedSnapshot | services/api.ts:78-83 | over a snapshot of the table, the loop stores exactly the snapshot |
| Store.PublicUsers | services/api.ts:111-118 | same users in the same order; each record keeps its fields without a password |
| Store.LoginResult | services/api.ts:88-98 | a user is returned iff some stored user matches both name and password; it is the first match, without its password |
| Store.Credentials | services/api.ts:90 | the name-and-password test of `login`; its meaning is stated by Store.LoginResult |
| Store.UsersAfterSave | services/api.ts:120-144 | an edit keeps the length and edits only the users with that id; an add appends one user under the fresh id |
| Store.SaveUserKeepsIdsUnique | services/api.ts:120-144 | saving with a fresh id keeps user ids unique |
| Store.EditUserFields | services/api.ts:123-130 | an edit sets name and role, keeps the id, and keeps the old password unless a non-empty one is given |
| Store.EditedUser | services/api.ts:123-130 | the record an edit builds; its fields are stated by Store.EditUserFields |
| Store.WithoutUser | services/api.ts:146-149 | removes exactly the users with the id; every other user is kept as often as it occurs, in order |
| Store.DeleteUserKeepsIdsUnique | services/api.ts:146-149 | deleting keeps user ids unique |
| Store.DeleteUnknownUser | services/api.ts:146-149 | deleting an unknown id changes nothing |
| Store.AddedUserCanLogIn | services/api.ts:134-142 | a just-added user can log in with the password given |
| Store.Db.constructor | services/api.ts:8-26 | the seed tables, the default settings, and the stored session; the seed's product ids and user ids are unique (Valid) |
| Store.Db.GetProducts | services/api.ts:35-38 | returns the products table |
| Store.Db.SaveProduct | services/api.ts:40-53 | the table becomes the save outcome; returns the stored product; ids stay unique; nothing else changes. An add stores the corrected record under the fresh id; as written, the inventory form's `id: undefined` key would replace it (see Findings) |
| Store.Db.DeleteProduct | services/api.ts:55-58 | the table becomes the delete outcome; ids stay unique; nothing else changes |
| Store.Db.GetTransactions | services/api.ts:61-64 | returns the transactions table |
| Store.Db.SaveTransaction | services/api.ts:66-85 | appends one transaction with the draft's items, total and profit; the stock loop runs over the products; ids stay unique; users, settings and session are unchanged |
| Store.Db.Login | services/api.ts:88-98 | returns the login outcome; on success the user is kept as the session; the tables are unchanged |
| Store.Db.Logout | services/api.ts:100-103 | clears the session and nothing else |
| Store.Db.GetCurrentUser | services/api.ts:105-109 | returns the session user |
| Store.Db.GetUsers | services/api.ts:111-118 | returns the users in stored order without passwords |
| Store.Db.SaveUser | services/api.ts:120-144 | the table becomes the save outcome; returns the stored user; ids stay unique; nothing else changes |
| Store.Db.DeleteUser | services/api.ts:146-149 | the table becomes the delete outcome; ids stay unique; nothing else changes |
| Store.Db.GetAppSettings | services/api.ts:152-155 | returns the stored settings |
| Store.Db.SaveAppSettings | services/api.ts:157-161 | stores the settings and returns them unchanged, so a later read returns the saved record; nothing else changes |
| Sidebar.AvailableNavItems | components/Sidebar.tsx:34 | a subsequence of the table in table order; each item lists the user's role, and every item that lists it is shown |
| Sidebar.TableRoles | components/Sidebar.tsx:23-30 | administrators are listed on all six items; cashiers only on the POS and the transaction list |
| Sidebar.KasirMenuTail | components/Sidebar.tsx:27-34 | of the last three items, a cashier sees only the transaction list |
| Sidebar.KasirMenuFromInventory | components/Sidebar.tsx:26-34 | from the inventory item on, a cashier sees only the transaction list |
| Sidebar.KasirMenuFromPos | components/Sidebar.tsx:25-34 | from the POS item on, a cashier sees the POS and the transaction list |
| Sidebar.KasirMenu | components/Sidebar.tsx:25-34 | a cashier sees exactly the POS, then the transaction list |
| Sidebar.KasirMenuViews | components/Sidebar.tsx:25-34 | a cashier's menu offers the views pos and transactions, in that order |
| Sidebar.AdminMenu | components/Sidebar.tsx:24-34 | an administrator sees all six items in declared order |
| Sidebar.TableIndex | components/Sidebar.tsx:23-30 | every view has an item in the table |
| Sidebar.AdminSeesEveryView | components/Sidebar.tsx:24-34 | an administrator's menu offers every view |
| Sidebar.NoUserMenu | components/Sidebar.tsx:34 | without a user the menu is empty |
| Sidebar.TableIdsDistinct | components/Sidebar.tsx:23-30 | no two table items share a view |
| Sidebar.MenuIdsDistinct | components/Sidebar.tsx:34-58 | no two menu items share a view, so at most one is highlighted |
| Sidebar.ActiveIffOnMenu | components/Sidebar.tsx:56-58 | some item is highlighted exactly when the current view is on the menu |
| Sidebar.IsActive | components/Sidebar.tsx:56-58 | the highlight test of one menu item; that exactly one item, or none, is highlighted is stated by Sidebar.MenuIdsDistinct and Sidebar.ActiveIffOnMenu |
| App.LandingView | App.tsx:106 | an administrator lands on the dashboard and a cashier on the POS |
| App.RenderView | App.tsx:117-144 | loading iff data or settings are missing; access denied iff loaded and a cashier asks for a forbidden view; otherwise the requested view |
| App.PageOf | App.tsx:146-171 | the startup screen while loading; the login form without a user; otherwise the layout around the role-gated view |
| App.AppState.Page | App.tsx:146-171 | the page drawn from the current state; its cases are stated by App.PageOf, and App.AppState.HandleLogout states the page after a logout |
| App.HistoryHidesNewestDay | components/Transactions.tsx:33 | once the history has left the shared list newest first, a chart over more than ten days omits the day of a newest transaction |
| App.AdminMenuMatchesAccess | App.tsx:123-124 | for an administrator every view is on the menu and shown |
| App.KasirAccess | App.tsx:123-124 | a cashier is shown exactly pos and transactions, and is denied the rest |
| App.KasirMenuMatchesAccess | App.tsx:123-124 | a view is on a cashier's menu iff the role gate shows it to them |
| App.MenuMatchesAccess | App.tsx:123-143 | for every user and view: on the sidebar iff it renders once loaded |
| App.LandingAllowed | App.tsx:102-110 | the landing view is on the user's menu and is never denied |
| App.AdminNeverDenied | App.tsx:124 | an administrator never gets the access-denied screen |
| App.CheckoutStoresSnapshot | services/api.ts:78-83 | with unique ids, the stock loop over the POS's updated list stores exactly that list |
| App.CheckoutKeepsStockNonNegative | services/api.ts:78-83 | with unique ids, as the store's invariant guarantees, a checkout from a cart within stock leaves no stored stock negative |
| App.CheckoutStored | App.tsx:66-72 | checkout data that is the POS's snapshot of the stored products is stored exactly, and leaves no stock negative when the cart kept its invariant |
| App.AppState.constructor | App.tsx:17-23 | empty tables, no settings or user, the dashboard view, and loading |
| App.AppState.Initialize | App.tsx:25-59 | loads every table, the users without passwords, and the settings; a stored session user is restored onto the landing view; loading ends |
| App.AppState.HandleCheckout | App.tsx:66-72 | the store gains the transaction and runs the stock loop; both tables are reloaded; ids stay unique; when the data is the POS's checkout against the stored products, the store holds exactly its updated list, with no stock negative for a cart that kept its invariant; nothing else changes |
| App.AppState.HandleSaveProduct | App.tsx:74-77 | the store's products become the save outcome and are reloaded; nothing else changes. An add uses the corrected store, which keeps the fresh id; as written it would be `undefined` (see Findings) |
| App.AppState.HandleDeleteProduct | App.tsx:79-82 | the store's products become the delete outcome and are reloaded; nothing else changes |
| App.AppState.HandleSaveUser | App.tsx:84-88 | the store's users become the save outcome and are reloaded without passwords |
| App.AppState.HandleDeleteUser | App.tsx:90-94 | the store's users become the delete outcome and are reloaded without passwords |
| App.AppState.HandleSaveSettings | App.tsx:96-100 | the settings are stored and shown; nothing else changes |
| App.AppState.HandleLogin | App.tsx:102-110 | true iff the store's login finds the user; only then are the user, the session and the landing view set, and the landing view renders |
| App.AppState.HandleLogout | App.tsx:112-115 | the user and the session are cleared and the login page is drawn; the view is kept |
| App.AppState.SetView | App.tsx:162 | the current view becomes the chosen one; nothing else changes |
| App.AppState.ShowHistory | App.tsx:135-136 | the history is handed the state's own list and sorts it in place: afterwards the state's transactions are newest first and a permutation of what they were; nothing else changes |
| App.AppState.ShowHistorySortingCopy | components/Transactions.tsx:33 | the corrected history: the shown list is newest first and a permutation of the state's list, and the state is left in the store's order |
| DashboardScreen.TotalsAfterSale | components/Dashboard.tsx:54-55 | a new transaction adds its total to the revenue and its profit to the profit |
| DashboardScreen.TotalRevenue | components/Dashboard.tsx:54 | the revenue total; how a sale changes it is stated by DashboardScreen.TotalsAfterSale, and that the chart's days add up to it by DashboardScreen.BucketsAddUp |
| DashboardScreen.TotalProfit | components/Dashboard.tsx:55 | the profit total; stated by DashboardScreen.TotalsAfterSale and DashboardScreen.BucketsAddUp |
| DashboardScreen.TotalStockValue | components/Dashboard.tsx:56 | the stock value; stated by DashboardScreen.StockValueNonNegative |
| DashboardScreen.StockValueNonNegative | components/Dashboard.tsx:56 | with non-negative costs and stocks the stock value is non-negative |
| DashboardScreen.LowStockProducts | components/Dashboard.tsx:57 | exactly the products with stock below 10, each as often as it occurs, in original order |
| DashboardScreen.BucketIndex | components/Dashboard.tsx:64 | -1 exactly when no entry has the day's label, otherwise the position of that entry |
| DashboardScreen.Accumulate | components/Dashboard.tsx:62-69 | one step of the `forEach`; its effect on the labels is stated by DashboardScreen.AccumulateNames and on the amounts by DashboardScreen.AccumulateAmounts |
| DashboardScreen.Bucketed | components/Dashboard.tsx:60-69 | `dataByDay` as a list of entries; its meaning is stated by DashboardScreen.BucketNamesUnique, DashboardScreen.BucketsCoverDays, DashboardScreen.BucketsAreDays and DashboardScreen.BucketIsDayTotal |
| DashboardScreen.LastTen | components/Dashboard.tsx:73 | at most 10 entries, and they are the last ones |
| DashboardScreen.AddToDay | components/Dashboard.tsx:62-69 | one step of the loop: creates the day's entry if needed, then adds the sale |
| DashboardScreen.ChartData | components/Dashboard.tsx:59-74 | the loop builds the per-day entries in the order the list it is given first shows each day, and keeps the last ten; which days those are depends on that order (DashboardScreen.ChartOmitsFirstDay, DashboardScreen.ChartEndsWithNewestDay) |
| DashboardScreen.AccumulateNames | components/Dashboard.tsx:64-66 | one step keeps every label in place and appends the new day's label, if any |
| DashboardScreen.AccumulateAmounts | components/Dashboard.tsx:64-68 | one step adds the sale's total and profit to its day's entry only |
| DashboardScreen.BucketNamesUnique | components/Dashboard.tsx:60-69 | no day gets two entries |
| DashboardScreen.BucketsCoverDays | components/Dashboard.tsx:62-66 | every transaction's day has an entry |
| DashboardScreen.BucketsAreDays | components/Dashboard.tsx:62-66 | every entry is the day of some transaction |
| DashboardScreen.BucketIsDayTotal | components/Dashboard.tsx:62-69 | each entry holds the sales and the profit of exactly the transactions on its day |
| DashboardScreen.NoEntryNoSales | components/Dashboard.tsx:62-69 | a day without an entry has no sales and no profit |
| DashboardScreen.BucketsAddUp | components/Dashboard.tsx:54-70 | before slicing, the entries' sales and profits add up to the revenue and profit totals |
| DashboardScreen.AccumulateAddsSale | components/Dashboard.tsx:67-68 | one step adds the sale's total and profit to the sums over the entries |
| DashboardScreen.AccumulateLastName | components/Dashboard.tsx:64-68 | a step whose day is new, or is the last entry's day, leaves that day as the last entry |
| DashboardScreen.ChartEmptyIffNoSales | components/Dashboard.tsx:59-74 | the chart is empty exactly when there are no transactions |
| DashboardScreen.FirstDayFirstEntry | components/Dashboard.tsx:62-69 | the first transaction's day has the first entry |
| DashboardScreen.ChartOmitsFirstDay | components/Dashboard.tsx:59-74 | with more than ten days, no chart entry is the first transaction's day |
| DashboardScreen.OldestFirstDaysContiguous | services/api.ts:66-85 | a list in the store's oldest-first order, whose own dates have day labels covering intervals of time (a history shorter than a year), keeps each day's transactions together |
| DashboardScreen.LastDayLastEntry | components/Dashboard.tsx:62-69 | when each day's transactions stand together, the last entry is the last transaction's day |
| DashboardScreen.ChartEndsWithLastDay | components/Dashboard.tsx:59-74 | when each day's transactions stand together, the chart is not empty and ends with the last transaction's day |
| DashboardScreen.ChartEndsWithNewestDay | components/Dashboard.tsx:59-74 | over the store's oldest-first order, for a history shorter than a year (the day labels of the list's own dates cover intervals of time), the chart is not empty and its last entry is the day of the newest transaction |
| DashboardScreen.SizeClassFor | components/Dashboard.tsx:27-33 | `text-lg` iff the value string is longer than 15; `text-xl` iff longer than 11 but not 15; otherwise `text-2xl` |
| DashboardScreen.SizeClassMonotone | components/Dashboard.tsx:27-33 | a longer value never gets a larger font |
| InventoryScreen.DigitsOnly | components/Inventory.tsx:30 | only digits remain, every digit is kept as often as it occurs, and order is preserved |
| InventoryScreen.DigitsOnlyIdempotent | components/Inventory.tsx:30 | filtering the digits twice changes nothing |
| InventoryScreen.DigitChar | components/Inventory.tsx:33 | the character shown for a digit is a digit of that value |
| InventoryScreen.DecimalString | components/Inventory.tsx:33 | a number's decimal form is a non-empty string of digits |
| InventoryScreen.ParseShownValue | components/Inventory.tsx:30-33 | a number's decimal form parses back to the number |
| InventoryScreen.DecimalValueOfString | components/Inventory.tsx:33 | `parseInt` of a number's decimal form is the number |
| InventoryScreen.DecimalValue | components/Inventory.tsx:33 | `parseInt(…, 10)` of a digit string; its meaning is stated by InventoryScreen.DecimalValueOfString and InventoryScreen.TypeDigit |
| InventoryScreen.ParseNumeric | components/Inventory.tsx:30-33 | the value a numeric field takes from the typed text; stated by InventoryScreen.ParseShownValue, InventoryScreen.TypeDigit and InventoryScreen.TypeNonDigit |
| InventoryScreen.TypeDigit | components/Inventory.tsx:30-33 | typing a digit at the end shifts the value one place and adds the digit |
| InventoryScreen.TypeNonDigit | components/Inventory.tsx:30-33 | typing any other character leaves the value unchanged |
| InventoryScreen.InitialFormData | components/Inventory.tsx:18-25 | the product's fields, or the empty form with '' and 0 |
| InventoryScreen.WithChange | components/Inventory.tsx:27-41 | a numeric field gets the parsed digits, name and sku are stored verbatim, and every other field is unchanged |
| InventoryScreen.ChangeKeepsNumbersNonNegative | components/Inventory.tsx:29-34 | a change never makes a price or the stock negative |
| InventoryScreen.Submitted | components/Inventory.tsx:56-59 | the edited product's id, or none for a new product, together with every form field |
| InventoryScreen.ProductForm.constructor | components/Inventory.tsx:18-25 | the form starts from the initial state |
| InventoryScreen.ProductForm.HandleChange | components/Inventory.tsx:27-41 | the form becomes the change outcome |
| InventoryScreen.ProductForm.HandleSubmit | components/Inventory.tsx:56-59 | hands on the submitted data |
| InventoryScreen.UnchangedEditIsNoOp | components/Inventory.tsx:18-59 | opening a stored product and saving it untouched leaves the table unchanged |
| InventoryScreen.NewProductLosesIdAsWritten | services/api.ts:46-50 | as written, adding a new product from the form pushes a record with no id, and a `find` by the fresh id then finds nothing |
| InventoryScreen.SubmittedIdKey | components/Inventory.tsx:58 | the submitted object always has an `id` key, holding what the submitted data holds |
| InventoryScreen.NewProductFoundUnderFreshId | components/Inventory.tsx:56-59 | with the corrected store, a product added from the form is found under its fresh id with the submitted fields |
| InventoryScreen.Inventory.constructor | components/Inventory.tsx:114-117 | both dialogs closed and nothing selected |
| InventoryScreen.Inventory.HandleAddProduct | components/Inventory.tsx:119-122 | opens an empty form; the delete dialog is untouched |
| InventoryScreen.Inventory.HandleEditProduct | components/Inventory.tsx:124-127 | opens the form on the product; the delete dialog is untouched |
| InventoryScreen.Inventory.HandleDeleteRequest | components/Inventory.tsx:129-132 | selects the product and opens the confirmation |
| InventoryScreen.Inventory.ConfirmDeleteProduct | components/Inventory.tsx:134-140 | hands on the selected id if one is selected, then clears the selection and closes the dialog; without a selection nothing is deleted |
| InventoryScreen.Inventory.CancelDelete | components/Inventory.tsx:216-219 | closes the confirmation and clears the selection |
| InventoryScreen.Inventory.HandleSaveProduct | components/Inventory.tsx:142-146 | hands the data on, closes the form and forgets the edited product |
| UsersScreen.InitialUserForm | components/Users.tsx:19-23 | the password starts empty; without a user the name is empty and the role is cashier; otherwise the user's name and role |
| UsersScreen.WithEdit | components/Users.tsx:25-28 | an edit sets its one field and keeps the other two |
| UsersScreen.SubmitUser | components/Users.tsx:30-37 | rejected with the alert iff a new user has an empty password; otherwise the form's fields under the edited user's id |
| UsersScreen.NewUserFromFormCanLogIn | components/Users.tsx:32-36 | a user the form accepts as new has a password and can then log in with it |
| UsersScreen.EditWithoutPasswordKeepsPassword | components/Users.tsx:32-36 | an edit with an empty password keeps the stored password and sets name and role |
| UsersScreen.UserForm.constructor | components/Users.tsx:19-23 | the form starts from the initial state |
| UsersScreen.UserForm.HandleChange | components/Users.tsx:25-28 | the form becomes the edit outcome |
| UsersScreen.UserForm.HandleSubmit | components/Users.tsx:30-37 | returns the submit outcome |
| UsersScreen.Users.constructor | components/Users.tsx:66-69 | both dialogs closed and nothing selected |
| UsersScreen.Users.HandleAddUser | components/Users.tsx:71-74 | opens an empty form |
| UsersScreen.Users.HandleEditUser | components/Users.tsx:76-79 | opens the form on the user |
| UsersScreen.Users.HandleDeleteRequest | components/Users.tsx:81-88 | the logged-in user is refused with the alert and nothing changes; any other user is selected and the confirmation opens |
| UsersScreen.Users.ConfirmDeleteUser | components/Users.tsx:90-96 | hands on the selected id, which is never the logged-in user's, then clears the selection; without a selection nothing is deleted |
| UsersScreen.Users.CancelDelete | components/Users.tsx:152-155 | closes the confirmation and clears the selection |
| UsersScreen.Users.HandleSaveUser | components/Users.tsx:98-102 | hands the data on, closes the form and forgets the edited user |
| TransactionsScreen.Toggled | components/Transactions.tsx:12-14 | the row becomes expanded iff it was not; otherwise nothing is expanded |
| TransactionsScreen.ToggleTwice | components/Transactions.tsx:12-14 | toggling a row twice leaves it expanded iff it was expanded before |
| TransactionsScreen.TransactionList.constructor | components/Transactions.tsx:10 | no row starts expanded |
| TransactionsScreen.TransactionList.ToggleExpand | components/Transactions.tsx:12-14 | the expanded id becomes the toggle outcome |
| TransactionsScreen.ItemCountAtLeastLines | components/Transactions.tsx:38 | with every quantity at least 1, the item count is at least the number of lines |
| TransactionsScreen.ItemCount | components/Transactions.tsx:38 | the units a transaction sold; stated by TransactionsScreen.ItemCountAtLeastLines and TransactionsScreen.CheckoutColumns |
| TransactionsScreen.CheckoutColumns | components/Transactions.tsx:38-56 | for a checkout from a valid cart, the item count is at least the number of lines (at least one), and the detail amounts add up to the total |
| TransactionsScreen.SortNewestFirst | components/Transactions.tsx:33 | sorts the array it is given in place: newest first, and a permutation of the input; the array is the application state's own (App.AppState.ShowHistory) |
| TransactionsScreen.InsertAt | components/Transactions.tsx:33 | one insertion step extends the newest-first prefix by one element, and the result is a permutation |
| TransactionsScreen.StartInsert | components/Transactions.tsx:33 | a newest-first prefix is newest first around its next element |
| TransactionsScreen.SwapStep | components/Transactions.tsx:33 | swapping the new element with an older one moves the gap one place left |
| TransactionsScreen.FinishInsert | components/Transactions.tsx:33 | once the new element is not newer than its left neighbour, the prefix is newest first |

## Left out

- JSX rendering, CSS, icons, recharts and the search box of the POS product grid.
  `alert` texts survive only as `Err` values and alert results.
- `delay`, `async`/`await` and `Promise.all`. Every call is a step in sequence, so two
  checkouts racing on the same stock snapshot are not modelled.
- The browser's session storage and its JSON (de)serialisation. The session is a field of
  the store, and the constructor takes what storage held.
- The `try`/`catch` of `initializeApp`. No store call can fail in the model.
- `new Date()` ids and timestamps. They are parameters, with a requirement that ids are
  fresh.
- `FileReader` image and logo loading, the settings form, the login form and the
  access-denied screen. They are interface glue.
- Locale formatting (`formatCurrency`, `formatDate`, `toLocaleString`, `toLocaleDateString`).
  The chart's day label is the parameter `dayKey`. The stat card sees only the formatted
  string's length.
- Floating-point arithmetic, `parseInt` of a value that is not a digit string, and NaN.
  Values are unbounded integers.
- The close buttons of both modals. They clear only the open flag.
- The user form's role select. It can only produce the two roles, so it is modelled on
  `UserRole` directly.
- App.AppState.ShowHistory: models the reorder of the application state's list, not React's
  rendering; that the dashboard is drawn again from the reordered list is the lemma
  App.HistoryHidesNewestDay over that list (see Findings).
- TransactionsScreen.SortNewestFirst: does not state that transactions with equal times keep
  their relative order. JavaScript's sort is stable. The insertion sort is stable too, but
  the contract states only order and permutation. `time` is a total function, so an
  unparsable date, which gives NaN, is left out.
- Unique ids, the store's invariant `Valid()`, hold because the store adds records under fresh ids, which the
  corrected `saveProduct` keeps. As written, two products added from the form would share the
  id `undefined` (see Findings), and the stock loop would then write both stocks onto the first.
- DashboardScreen.ChartData: relies on `Object.entries` listing the days in insertion order.
  This holds because day labels such as "12 Okt" are never integer-like keys.
- DashboardScreen.ChartEndsWithNewestDay: the day label (`toLocaleDateString` with a two-digit
  day and a short month, components/Dashboard.tsx:63) has no year, so sales on the same day and
  month of different years are merged into one entry. The chart is proved to end with the newest
  day only for a history whose own dates keep each label to one interval of time
  (DashboardScreen.DaysAreIntervals); a history shorter than a year does.

## Findings

| source | as written | input that shows it | evidently intended | confidence | as-written member | corrected member |
|---|---|---|---|---|---|---|
| services/api.ts:46-49 | The product form (components/Inventory.tsx:58) submits an object that always has an `id` key, holding `undefined` for a new product. `saveProduct` spreads that object after the fresh id, so the key overwrites the fresh id. | adding any new product from the inventory form: the stored record's id is `undefined` | a new product is stored under the fresh `prod_…` id | high, not executed | InventoryScreen.NewProductLosesIdAsWritten (on Store.StoredIdsAfterAddAsWritten) | Store.ProductsAfterSave with InventoryScreen.NewProductFoundUnderFreshId |
| components/Transactions.tsx:33 | `transactions.sort(...)` sorts, in place, the array App hands the history (App.tsx:136). It is the same array App hands the dashboard (App.tsx:130), so once the history has been shown App's list stays newest first until a checkout reloads it (App.tsx:66-72). The dashboard's `forEach` then creates the day entries newest first, and `.slice(-10)` keeps the ten oldest days. | with sales on more than ten days, open the transaction list and then the dashboard: the newest day is missing from the chart | the history shows a sorted copy, App keeps the store's oldest-first order, and the chart ends with the newest day, for a history shorter than a year | medium, not executed | App.AppState.ShowHistory with App.HistoryHidesNewestDay | App.AppState.ShowHistorySortingCopy with DashboardScreen.ChartEndsWithNewestDay |
