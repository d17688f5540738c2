# UIP_SeaSick point-of-sale model layer, in Dafny

UIP_SeaSick is a browser point-of-sale app for a bar. Its jQuery controllers
call an in-memory model layer, and this project models that layer:

- a **stock ledger** of physical stock, per-table reservations and refill marks;
- a **cart** (an `OrderList`) of item quantities in insertion order;
- a **filtered catalogue view** over the drink database. It comes in the
  current version and in the older version of the order page.
- **paging** over that view, for the management page and the order page;
- **undoable commands** with an `UndoManager` holding two stacks;
- a **user session** with authentication and credit;
- **localisation** of texts;
- the small **helpers**:
  - item construction and JSON;
  - deep clone;
  - the management controller's category ids and filter form.

Everything is synchronous and works on maps and arrays. Every state-changing
operation reports success or failure, and every command has an undo. The
proofs are mostly about those undos and about the invariants the
operations keep.

JavaScript values are represented as follows:

- `Infinity` bounds become `Option<int>` with `None` meaning `Infinity`: the
  cart's `max`, the filters' `priceMax` and a view's `scope.end`.
- `null` and `undefined` results become `None`.
- Prices, strengths, quantities and credit are integers.
- `deepEqual` becomes `==` on datatypes.

The modules follow the source files:

| module | models |
|---|---|
| `Wrappers`, `Text` | `Option`, and the JavaScript string operations used: `split`, `join`, `trim`, `includes`, `toLowerCase` |
| `Json` | JSON values, `deepEqual`, `cloneMap` and `cloneArray` (js/common.js) |
| `Items` | `Item`, `Drink`, `Food`, `ItemQuantity` and `hasHazards` (js/Item.js, js/common.js) |
| `Carts`, `OrderLists` | js/OrderList.js. `Carts` holds the value-level specification, with the commands' perform and undo as functions and the JSON round trip. `OrderLists.OrderList` is the class whose methods update `items` and `ids` in place. |
| `Ledgers`, `Stocks` | js/Stock.js, split the same way. `Ledgers` holds the invariant that the per-item reserved totals are the sums over the tables, and the undo laws. `Stocks.Stock` is the class with the loops. |
| `StockAsWritten` | the defects of js/Stock.js, as written |
| `Searches` | `googlify`, and the search text `setFilterForm` writes |
| `Menus`, `MenuManagers` | js/MenuManager.js. `Menus` covers `subCategoriesOf`, `verifyItem`, bucketing, the windowed view, the memoised `getMenu`, the filter command and JSON. `MenuManagers.MenuManager` is the class. |
| `MenusAsWritten` | the defects of js/MenuManager.js's JSON restore |
| `OldMenus` | js/OrderMenu/MenuManager.js: case-sensitive bucketing, and a `getMenu` that writes into the cached object |
| `Commands` | the command datatype of js/UndoManager.js: `convertCommandReturn`, `augment`, and `perform`/`undo`/`redo` over one world of stock, cart, menu state and page index |
| `UndoManagers` | the two stacks: `UndoManager.perform`, `undo` and `redo` as functions, and the `UndoManager` class with its callbacks |
| `Paging`, `Models` | the page arithmetic and the `Model` class of js/Management/Model.js and js/OrderMenu/Model.js |
| `Sessions` | js/UserSession.js |
| `Localization` | js/localization.js |
| `Controllers` | the non-DOM logic of js/Management/Controller.js: category ids, the filter form read and written, and `submitFiltering` |

Four design decisions shape the model:

- **Commands are data.** JavaScript commands are closures over mutable
  objects. Here a command is a datatype naming the factory that built it:
  `AddItem`, `RemoveItem`, `Clear`, `SetPhysical`, `ModifyPhysical`,
  `RemoveOrder`, `CommitOrder`, `OrderRefill`, `ModifyFilter`, `ResetPage`,
  `Unfailing` and `Augment`. `Commands.Perform`, `Undo` and `Redo`
  interpret it on a `World` value.
- **Results are typed.** The dynamically typed result a closure hands to its
  undo is a `Value` datatype.
- **The object in a class, the meaning in a function.** Each class keeps its
  state in fields. `OrderLists.OrderList`, `Stocks.Stock` and
  `MenuManagers.MenuManager` are proved against the functions of their
  specification modules (`Carts`, `Ledgers`, `Menus`). `OldMenus`, and the
  classes `Sessions.UserSession` and `Localization.LanguageSetting`, state
  their contracts directly on their fields. `Models.Model` runs commands on
  its own objects.
- **One map lookup per text.** `localizeText` calls `getTranslationMap()`
  for each word. That result depends only on the application language, and
  the loop does not change the language. So `Localization.LocalizeText`
  looks the map up once and hands the result to the loop in
  `Localization.LocalizeTextIn`. An unsupported language throws at the
  first word either way.

The numbers in the model agree with the code:

- the management page shows 12 items per page, the order page 10;
- the default stock is 20;
- the default stock buffer (`stockMin`) is 5.

## Model

| member | source | states |
|---|---|---|
| Carts.NewCart | js/OrderList.js:10-21 | a new cart has no entries; its cap is `Infinity` exactly when none is given, a negative cap becomes 0 and any other is kept |
| Carts.Entries | js/OrderList.js:23-34 | the iterator yields one entry per id, in `ids` order |
| Carts.LengthIsIterated | js/OrderList.js:225-231 | `length()` is the sum of the quantities the iterator yields |
| Carts.IxToId | js/OrderList.js:184-186 | `ixToId(ix)` is `ids[ix]` in range and `undefined` outside |
| Carts.IndexOf | js/OrderList.js:189-191 | `idToIx(id)` is the first position of `id` in `ids`, or -1 when absent |
| Carts.AddItemSpec | js/OrderList.js:166-181 | past the cap, `addItem` fails and changes nothing; an existing id gains the quantity with `ids` unchanged; a new id gets an entry inserted into `ids` at `offset` |
| Carts.AddItemValid | js/OrderList.js:171-179 | `addItem` keeps `ids` free of repeats and equal to the keys of `items` |
| Carts.AddItemLength | js/OrderList.js:166-181 | a successful `addItem` raises `length()` by exactly the quantity |
| Carts.RemoveItemValid | js/OrderList.js:208-222 | `removeItem` keeps `ids` and `items` in agreement |
| Carts.RemoveItemLength | js/OrderList.js:208-222 | `removeItem` lowers the length by the whole entry or by `q` |
| Carts.RemoveItemWhole | js/OrderList.js:208-215 | a removal of at least the stored quantity deletes the entry and its `ids` slot |
| Carts.RemoveItemPart | js/OrderList.js:216-218 | a smaller removal lowers the stored quantity by `q` and leaves `ids` alone |
| Carts.RemoveResult | js/OrderList.js:208-222 | the result is `undefined` for an absent id, otherwise `max(old - q, 0)` |
| Carts.AddItemInvariant | js/OrderList.js:166-181 | adding a positive quantity keeps the cart well formed, positive and within its cap |
| Carts.RemoveItemInvariant | js/OrderList.js:208-222 | removing a non-negative quantity keeps the cart well formed, positive and within its cap |
| Carts.AddItemUndo | js/OrderList.js:82-94 | removing what a successful `addItem` added gives back the exact cart |
| Carts.ToRemove | js/OrderList.js:113-116 | the quantity `removeItemCommand` removes is `min(current, max(0, quantity))` |
| Carts.RemoveCommandUndo | js/OrderList.js:98-138 | `removeItemCommand` fails exactly on an absent id; on success its undo re-adds the removed amount at the old index and restores `items` and `ids` exactly |
| Carts.AddCommandUndo | js/OrderList.js:82-94 | a successful `addItemCommand` is undone exactly |
| Carts.ClearCommandUndo | js/OrderList.js:142-164 | `clearCommand` fails exactly on an empty cart, otherwise leaves a well formed empty cart with its cap, and undo restores the cart |
| Carts.RemoveAsWrittenFails | js/OrderList.js:98-106 | as written, removing an item whose id does not read as a position of `ids` fails, although the item is in the cart |
| Carts.RemoveAsWrittenReadsPosition | js/OrderList.js:199-201 | as written, an id that reads as a position makes the command consult the entry stored at that position |
| Carts.RemoveAsWrittenExample | js/OrderList.js:199-201 | in a well formed cart holding two of item "7" and nothing else, the as-written removal of "7" fails and the intended one succeeds |
| Carts.JsonRoundTrip | js/OrderList.js:39-71 | `fromJSON(toJSON(ol))` gives back `items`, `ids` and `max`; `Infinity` is written as `null` and read back as `Infinity` |
| OrderLists.OrderList.constructor | js/OrderList.js:10-21 | the new object holds `Carts.NewCart(maxItems)` |
| OrderLists.OrderList.Length | js/OrderList.js:225-231 | the loop over the iterator returns `Carts.Length` of the cart |
| OrderLists.OrderList.IxToId | js/OrderList.js:184-186 | as `Carts.IxToId`, and nothing changes |
| OrderLists.OrderList.IdToIx | js/OrderList.js:189-191 | as `Carts.IndexOf`, and nothing changes |
| OrderLists.OrderList.GetItemQuantityById | js/OrderList.js:194-196 | the entry stored for the id, if any |
| OrderLists.OrderList.AddItem | js/OrderList.js:166-181 | the new cart is `Carts.AddItem` of the old one, and the result reports success |
| OrderLists.OrderList.RemoveItem | js/OrderList.js:208-222 | the new cart is `Carts.RemoveItem` of the old one, and the result is `Carts.RemoveResult` |
| OrderLists.OrderList.PerformAdd | js/OrderList.js:82-94 | `addItemCommand`'s perform updates the fields to `Carts.PerformAdd` |
| OrderLists.OrderList.UndoAdd | js/OrderList.js:82-94 | `addItemCommand`'s undo updates the fields to `Carts.UndoAdd` |
| OrderLists.OrderList.PerformRemove | js/OrderList.js:98-138 | `removeItemCommand`'s perform updates the fields to `Carts.PerformRemove` and returns its record |
| OrderLists.OrderList.UndoRemove | js/OrderList.js:98-138 | `removeItemCommand`'s undo updates the fields to `Carts.UndoRemove` |
| OrderLists.OrderList.PerformClear | js/OrderList.js:142-164 | `clearCommand`'s perform fails on an empty list; otherwise it empties both fields and returns them |
| OrderLists.OrderList.UndoClear | js/OrderList.js:142-164 | `clearCommand`'s undo puts back the recorded entries and ids |
| Ledgers.Available | js/Stock.js:165-185 | `getStock(id)` is physical stock minus the reserved total; an absent physical entry is 20 and an absent reserved entry is 0 |
| Ledgers.SetPhysical | js/Stock.js:246-261 | afterwards `getPhysicalStock(id) == q` and other ids are unchanged; a value equal to the default is stored by deleting the entry |
| Ledgers.ModifyPhysical | js/Stock.js:239-244 | `modifyPhysicalStock(id, d)` raises the item's physical stock by `d` |
| Ledgers.SetPhysicalUndo | js/Stock.js:263-291 | setting the old value back restores the canonical ledger exactly, which is the undo of both physical-stock commands |
| Ledgers.ShiftPhysicalAt | js/Stock.js:134-136 | the commit loop moves each item's physical stock by its quantity over the lines and changes nothing else |
| Ledgers.ShiftAt | js/Stock.js:118-120 | the reservation loop moves each item's total by its quantity over the lines (lines 148-150 of the same file) |
| Ledgers.Compact | js/Stock.js:157-162 | the compact form of an order has one line per item quantity, in order |
| Ledgers.RemoveOrderSpec | js/Stock.js:111-126 | `removeOrder` on a table without an order changes nothing; otherwise it drops the order, lowers each total by its quantities and keeps the ledger consistent |
| Ledgers.AddCompactOrderSpec | js/Stock.js:144-155 | `addCompactOrder` replaces the table's order and keeps every reserved total equal to the sum over all tables |
| Ledgers.RemoveOrderUndo | js/Stock.js:48-64 | putting a removed order back restores the ledger exactly |
| Ledgers.CommitOrderSpec | js/Stock.js:128-142 | committing drops the order and lowers physical stock by its quantities, leaving `getStock` of every item unchanged |
| Ledgers.CommitOrderUndo | js/Stock.js:67-89 | `commitOrderCommand`'s undo, which adds the quantities back and re-reserves the order, restores the ledger exactly |
| Ledgers.AddOrderCommandUndo | js/Stock.js:91-108 | undoing the intended `addOrderCommand` gives back the orders, physical stock, marks and every reserved total |
| Ledgers.NotMarked | js/Stock.js:231 | the new ids are exactly the given ids that are not marked, in order |
| Ledgers.OrderRefillSpec | js/Stock.js:205-237 | `orderRefill` returns exactly the ids not already marked and marks every given id; unmarking the returned ids undoes it |
| Ledgers.Refill | js/Stock.js:194-203 | `refill()` puts every marked item back at the default stock, keeps the others, and leaves nothing marked |
| Ledgers.Reset | js/Stock.js:187-192 | `reset()` puts every item back at the default stock |
| Ledgers.EmptyLedgerValid | js/Stock.js:3-28 | a stock with nothing stored satisfies the ledger invariant |
| Stocks.Stock.constructor | js/Stock.js:3-28 | the stock holds each part read back from storage, and a part missing from storage starts empty |
| Stocks.StorageRoundTrip | js/Stock.js:30-46 | a stock built from what `synchronize()` is meant to write holds the ledger written, and empty storage gives the empty ledger (read back by lines 13-27 of the same file) |
| Stocks.Stock.GetPhysicalStock | js/Stock.js:169-176 | the stored value, or the default 20 |
| Stocks.Stock.GetReservedOf | js/Stock.js:178-185 | the reserved total, or 0 |
| Stocks.Stock.GetStock | js/Stock.js:165-167 | `Ledgers.Available` |
| Stocks.Stock.SetPhysicalStock | js/Stock.js:246-261 | the ledger becomes `Ledgers.SetPhysical`, and the old physical stock is returned |
| Stocks.Stock.ModifyPhysicalStock | js/Stock.js:239-244 | the ledger becomes `Ledgers.ModifyPhysical`, and the old physical stock is returned |
| Stocks.Stock.RemoveOrder | js/Stock.js:111-126 | the loop gives `Ledgers.RemoveOrder` and returns the dropped order |
| Stocks.Stock.AddCompactOrder | js/Stock.js:144-155 | the loop gives `Ledgers.AddCompactOrder`, a missing total counting as 0 |
| Stocks.Stock.AddOrder | js/Stock.js:157-162 | stores the compact form of the order for its table |
| Stocks.Stock.CommitOrder | js/Stock.js:128-142 | fails without an order; otherwise the ledger becomes `Ledgers.CommitOrder` and the committed order is returned |
| Stocks.Stock.RestockLines | js/Stock.js:80-82 | the first half of `commitOrderCommand`'s undo adds each line's quantity back to physical stock |
| Stocks.Stock.Reset | js/Stock.js:187-192 | the ledger becomes `Ledgers.Reset` |
| Stocks.Stock.Refill | js/Stock.js:194-203 | the loop gives `Ledgers.Refill` |
| Stocks.Stock.OrderRefill | js/Stock.js:226-237 | the loop marks the ids and returns `Ledgers.NotMarked` of them |
| Stocks.Stock.UnmarkRefill | js/Stock.js:216-221 | the undo of `orderRefillCommand` unmarks exactly the given ids |
| StockAsWritten.ShiftAsWrittenOne | js/Stock.js:118-120 | as written, a total becomes `NaN` at a missing entry and stays `NaN` (lines 148-150 of the same file) |
| StockAsWritten.FirstReservationIsNaN | js/Stock.js:144-155 | as written, the first reservation on a fresh stock gives every item of the order a `NaN` total, so its `getStock` is `NaN` |
| StockAsWritten.CommitOrderAsWrittenThrows | js/Stock.js:128-142 | as written, committing a non-empty order throws after dropping the reservation, with physical stock untouched |
| StockAsWritten.AddOrderAsWrittenThrows | js/Stock.js:91-108 | as written, `addOrderCommand`'s perform never succeeds, yet it changes the reservations |
| StockAsWritten.RefillMarksLostOnReload | js/Stock.js:44-46 | as written, the refill key holds the reserved-stock object, so after a reload the marks are `orders` and `items` instead of the marked ids (read back by lines 15 and 25-27 of the same file) |
| Commands.ConvertCommandReturn | js/UndoManager.js:24-40 | `undefined` becomes `{success: true}`; a return without a boolean `success` becomes `undefined`; any other return passes through |
| Commands.ConvertPassesOutcome | js/UndoManager.js:24-40 | converting an outcome already in `{success, result}` form gives it back |
| Commands.PerformPrimitive | js/UndoManager.js:9-22 | each factory's perform shows the success and result its closure returns |
| Commands.UndoPrimitive | js/UndoManager.js:9-22 | each factory's undo shows the success and result its closure returns, given perform's result |
| Commands.RedoDefaultsToPerform | js/UndoManager.js:9-12 | a command built without `redo` redoes by performing again |
| Commands.PerformShapes | js/UndoManager.js:42-55 | a successful perform yields a result its undo takes, and it keeps the cart and cached menu well formed |
| Commands.UndoShapes | js/UndoManager.js:56-67 | a successful undo yields a result its redo takes, and it keeps the world well formed |
| Commands.RedoShapes | js/UndoManager.js:68-79 | a successful redo yields a result undo takes, and it keeps the world well formed |
| Commands.AugmentAssociative | js/UndoManager.js:42-55 | `a.augment(b).augment(c)` and `a.augment(b.augment(c))` change the world alike and succeed alike |
| Commands.AugmentNoRollback | js/UndoManager.js:42-55 | a failed second half does not roll back the first: the stock change stays and nothing is recorded for undo |
| Commands.AugmentUndoOrder | js/UndoManager.js:56-67 | the undo of `augment` undoes the first half first, so two stock settings are undone in the order they were made |
| Commands.PerformUndoRestores | js/UndoManager.js:42-80 | for every cart and stock command, undo after a successful perform restores the world and succeeds, and redo then repeats the perform |
| UndoManagers.PerformStep | js/UndoManager.js:105-118 | a success pushes `(command, result)` and empties the redo stack; a failure leaves both stacks alone |
| UndoManagers.UndoStep | js/UndoManager.js:120-137 | an empty undo stack gives `undefined` and changes nothing; otherwise the top is popped and moves to the redo stack only when undo succeeds |
| UndoManagers.RedoStep | js/UndoManager.js:139-152 | the mirror image of undo |
| UndoManagers.PerformUndoRedo | js/UndoManager.js:105-152 | perform, undo and redo of a cart or stock command restore the world and the stacks at each step |
| UndoManagers.FailedUndoDrops | js/UndoManager.js:120-137 | a failed undo discards its entry |
| UndoManagers.AvailableIffActs | js/UndoManager.js:90-98 | undo or redo is available exactly when it would do something |
| UndoManagers.UndoManager.constructor | js/UndoManager.js:83-88 | empty stacks and no callbacks |
| UndoManagers.UndoManager.UndoAvailable | js/UndoManager.js:90-93 | true exactly when the undo stack is non-empty |
| UndoManagers.UndoManager.RedoAvailable | js/UndoManager.js:95-98 | true exactly when the redo stack is non-empty |
| UndoManagers.UndoManager.RegisterCallback | js/UndoManager.js:158-161 | appends the callback |
| UndoManagers.UndoManager.InvokeCallbacks | js/UndoManager.js:154-157 | invokes every callback once, in order of registration |
| UndoManagers.UndoManager.Perform | js/UndoManager.js:105-118 | the stacks and the page model follow `PerformStep`, and callbacks run only on success |
| UndoManagers.UndoManager.Undo | js/UndoManager.js:120-137 | the stacks and the page model follow `UndoStep`, and callbacks run whenever there was something to undo |
| UndoManagers.UndoManager.Redo | js/UndoManager.js:139-152 | the stacks and the page model follow `RedoStep`, and callbacks run whenever there was something to redo |
| Json.LookupFirst | js/common.js:28-34 | a property read such as `jsonRep.constructor` or `jsonRep.object` finds the member with the key (the first, if repeated), and `undefined` when none has it |
| Json.CloneMap | js/common.js:37-48 | the copy of an object is `deepEqual` to it |
| Json.CloneArray | js/common.js:51-62 | the copy of an array is `deepEqual` to it |
| Items.DropLast | js/Item.js:119 | `slice(0, -1)` keeps every character but the last |
| Items.MakeItem | js/Item.js:16-29 | the id is the database `nr`; kosher and organic hold exactly when the field is "1" |
| Items.MakeDrink | js/Item.js:116-120 | the strength is parsed after the trailing "%" is dropped |
| Items.MakeFood | js/Item.js:140-144 | the mass is parsed from `mass` |
| Items.HazardsOfDb | js/common.js:111-113 | `hasHazards()` is false exactly when both the kosher and the organic field are "1" |
| Items.ItemRoundTrip | js/Item.js:47 | an item read back from its JSON form is the same item |
| Items.MakeItemQuantity | js/Item.js:61-64 | holds the item and the quantity |
| Items.DefaultQuantity | js/Item.js:61-64 | the quantity defaults to 1 |
| Items.QuantityRoundTrip | js/Item.js:69-92 | `ItemQuantity.fromJSON(q.toJSON())` keeps the quantity and the item |
| Searches.SearchPhrases | js/MenuManager.js:490-512 | no phrase of `googlify` is empty or holds a double quote |
| Searches.Googlify | js/MenuManager.js:490-512 | the loop with the `open` flag computes the phrase list (also js/OrderMenu/MenuManager.js, lines 114-131) |
| Searches.GooglifyExample | js/MenuManager.js:490-512 | the example in `googlify`'s comment holds |
| Searches.SearchTextRoundTrip | js/Management/Controller.js:262-269 | `googlify` reads the text `setFilterForm` writes back into the same phrases, for non-empty, trimmed, quote-free phrases (also js/MenuManager.js, lines 490-512) |
| Menus.KeyRoundTrip | js/MenuManager.js:394-415 | every main category comes back from its key |
| Menus.SubCategoriesOf | js/MenuManager.js:417-426 | no piece is empty, has white space at either end, or holds ",", "&" or "och" (also js/OrderMenu/MenuManager.js, lines 33-43) |
| Menus.SubCategoriesOfPlain | js/MenuManager.js:417-426 | a trimmed category without separators is its own single subcategory |
| Menus.SubCategoriesOfExample | js/MenuManager.js:410-426 | the example of the source's comment holds |
| Menus.TallyPositive | js/MenuManager.js:514-527 | a subcategory's count is positive exactly when some item lists it |
| Menus.GetSubCategories | js/MenuManager.js:514-527 | each subcategory is mapped to the number of times the items list it (also js/OrderMenu/MenuManager.js, lines 326-340) |
| Menus.EmptyFilters | js/MenuManager.js:428-442 | `emptyFilters()` has an unbounded price ceiling, strengths 0..100 and no other requirement |
| Menus.VerifyItemIff | js/MenuManager.js:446-484 | an item passes exactly when every requirement on price, kosher, organic, strength, stock, subcategories and search phrases holds (also js/OrderMenu/MenuManager.js, lines 252-291) |
| Menus.EmptyFiltersAccept | js/MenuManager.js:428-484 | the empty filters hold back only items short of stock, priced below 0, or with a strength outside 0..100 |
| Menus.BucketMembers | js/MenuManager.js:239-260 | an item is in a bucket exactly when it is in the database, passes the filters and belongs there |
| Menus.MiscExactlyWhenUnmatched | js/MenuManager.js:242-257 | an item lands in `misc` exactly when it lands in no main category |
| Menus.Initialize | js/MenuManager.js:239-260 | the loop builds `Buckets` of the database |
| Menus.Place | js/MenuManager.js:242-257 | an accepted item is pushed onto each bucket it belongs to |
| Menus.NewFilteredMenu | js/MenuManager.js:217-237 | the constructor builds the full window over fresh buckets |
| Menus.IndexWithinLength | js/MenuManager.js:287-336 | `index(i)` is defined for exactly the `i` below `length()` |
| Menus.IndexPastEnd | js/MenuManager.js:287-290 | an index at or past `scope.end` gives `undefined` |
| Menus.Index | js/MenuManager.js:287-315 | the bucket walk returns element `begin + i` of the chosen bucket, or of all buckets in order |
| Menus.Length | js/MenuManager.js:318-336 | `length()` is `max(0, min(end, count) - begin)` |
| Menus.Iterate | js/MenuManager.js:268-285 | iterating yields exactly `length()` items, in index order |
| Menus.RestrictedNarrows | js/MenuManager.js:356-384 | a restricted view never widens the window, shares the buckets, and keeps the category unless given one |
| Menus.RestrictedIndex | js/MenuManager.js:356-384 | item `i` of a restricted view is item `begin + i` of the parent, up to the new end |
| Menus.RestrictedCompose | js/MenuManager.js:356-384 | restricting twice is restricting once |
| Menus.RestrictedTwice | js/MenuManager.js:356-384 | `restricted(0,2).restricted(0,1)` is `restricted(0,1)` |
| Menus.RestrictedFull | js/MenuManager.js:356-384 | restricting the full window to itself changes only the category |
| Menus.NewMenuState | js/MenuManager.js:22-41 | a new manager has the empty filters, all categories, no cache, and the given buffer |
| Menus.FreshView | js/MenuManager.js:179-196 | a fresh build is the full window over the current buckets, on the main category |
| Menus.GetMenuMemo | js/MenuManager.js:179-196 | with the cache up to date, `getMenu` hands out the view a fresh build would |
| Menus.GetMenuTwice | js/MenuManager.js:179-196 | a second `getMenu` hands out the same view |
| Menus.GetMenuIgnoresStock | js/MenuManager.js:179-196 | the cache is keyed on the filters only, so a stock change after caching does not change the view |
| Menus.ClearFilter | js/MenuManager.js:200-202 | `clearFilter()` sets the empty filters and keeps the rest |
| Menus.ModifyFilterFails | js/MenuManager.js:105-167 | the command fails exactly when the new filters equal the old ones |
| Menus.ModifyFilterUndo | js/MenuManager.js:105-167 | undo restores the old filters, and `getMenu` then shows the view it showed before |
| Menus.ModifyFilterRedo | js/MenuManager.js:105-167 | redo restores the new filters and the view right after the perform |
| Menus.ClearFilterFails | js/MenuManager.js:87-89 | `clearFilterCommand` fails exactly on filters that are already empty |
| Menus.FiltersRoundTrip | js/MenuManager.js:47-85 | the filters survive their JSON form when `null` is read as `Infinity` |
| Menus.StateRoundTrip | js/MenuManager.js:47-85 | a restored manager has its filters, main category and buffer, and no cache |
| MenuManagers.MenuManager.constructor | js/MenuManager.js:22-41 | the fields hold `Menus.NewMenuState` |
| MenuManagers.MenuManager.GetMenu | js/MenuManager.js:179-196 | follows `Menus.GetMenu` |
| MenuManagers.MenuManager.ClearFilter | js/MenuManager.js:200-202 | follows `Menus.ClearFilter` |
| MenuManagers.MenuManager.PerformModifyFilter | js/MenuManager.js:105-167 | follows `Menus.PerformModifyFilter` |
| MenuManagers.MenuManager.UndoModifyFilter | js/MenuManager.js:105-167 | follows `Menus.UndoModifyFilter` |
| MenuManagers.MenuManager.RedoModifyFilter | js/MenuManager.js:105-167 | follows `Menus.RedoModifyFilter` |
| MenuManagers.MenuManager.ToJson | js/MenuManager.js:47-54 | gives `Menus.StateToJson` |
| MenusAsWritten.PriceMaxLostOnRestore | js/MenuManager.js:66-71 | as written, restored filters without a price ceiling reject every item priced above 0; read back as intended they accept it |
| MenusAsWritten.BucketsWithoutCandidates | js/MenuManager.js:239-260 | when no item passes the tests made before the stock is read, every bucket is empty (lines 446-484 of the same file) |
| MenusAsWritten.FromJsonStringDropsStock | js/MenuManager.js:79 | as written, a manager restored from a string throws on its first `getMenu` when some item reaches the stock test; restored with its stock it does not |
| OldMenus.BucketMembers | js/OrderMenu/MenuManager.js:232-249 | an item is in a bucket exactly when it passes and its original-case subcategories meet the bucket's capitalised keywords |
| OldMenus.MiscExactlyWhenUnmatched | js/OrderMenu/MenuManager.js:12-26 | an item lands in `misc` exactly when it matches no main category (lines 232-249 of the same file) |
| OldMenus.Initialize | js/OrderMenu/MenuManager.js:232-249 | the loop builds `OldMenus.Buckets` of the database |
| OldMenus.Place | js/OrderMenu/MenuManager.js:235-247 | an accepted item is pushed onto each bucket it belongs to |
| OldMenus.CaseSensitiveExample | js/OrderMenu/MenuManager.js:12-26 | an item of category "ale" joins bucket `ale` in the current version and `misc` in this one |
| OldMenus.FilteredMenu.constructor | js/OrderMenu/MenuManager.js:213-231 | the full window over new buckets |
| OldMenus.FilteredMenu.Index | js/OrderMenu/MenuManager.js:293-310 | the same result as `Menus.MenuIndex` |
| OldMenus.FilteredMenu.Length | js/OrderMenu/MenuManager.js:312-321 | the same result as `Menus.MenuLength` |
| OldMenus.FilteredMenu.Restricted | js/OrderMenu/MenuManager.js:358-372 | gives a new object over the same buckets with the clipped window, inheriting the category when none is given |
| OldMenus.MenuManager.constructor | js/OrderMenu/MenuManager.js:45-55 | empty filters, all categories, no cache |
| OldMenus.MenuManager.GetMenu | js/OrderMenu/MenuManager.js:199-206 | rebuilds only when stale, leaving the replaced cache object untouched; otherwise writes the main category into the cached object; returns that object, now current |
| OldMenus.MenuManager.ClearFilter | js/OrderMenu/MenuManager.js:91-93 | sets the empty filters |
| OldMenus.MenuManager.PerformModifyFilter | js/OrderMenu/MenuManager.js:147-166 | fails on unchanged filters; otherwise installs the new ones; when preserving, records the old filters with exactly the menu `getMenu()` hands out |
| OldMenus.MenuManager.UndoModifyFilter | js/OrderMenu/MenuManager.js:167-185 | restores the old filters and, when preserving, the saved menu, which its own `getMenu()` call leaves untouched and which is then current |
| OldMenus.PreservedUndoRestores | js/OrderMenu/MenuManager.js:143-194 | a preserving filter change undone at once gives back the filters and, as a current cache, the very menu `getMenu()` handed out before the change |
| OldMenus.MenuManager.RedoModifyFilterAsWritten | js/OrderMenu/MenuManager.js:186-192 | as written, redo stores the undone menu in a misspelt field, so the cache keeps what undo left |
| OldMenus.MenuManager.RedoModifyFilter | js/OrderMenu/MenuManager.js:186-192 | redo restores the new filters and, when preserving, the new menu as the cache |
| OldMenus.MenuManager.ToJson | js/OrderMenu/MenuManager.js:62-69 | the same three fields as the current version |
| Paging.CeilDiv | js/Management/Model.js:89-97 | `Math.ceil(n / d)` is the least `r` with `n <= r * d` |
| Paging.MaxPageIx | js/Management/Model.js:89-97 | `max(0, ceil(len / pageSize) - 1)`: the last page that starts inside the menu |
| Paging.PageOccupied | js/Management/Model.js:89-97 | page `i` starts inside a non-empty menu exactly when `i <= maxPageIx()` |
| Paging.GotoPage | js/Management/Model.js:100-104 | the page index changes to `i` exactly when the page is available (lines 122-124 of the same file) |
| Paging.StepPages | js/Management/Model.js:107-130 | stepping back or forward moves by one exactly when it is available, and stays in range |
| Paging.PageEntries | js/Management/Model.js:70-86 | entry `i` of a page is menu entry `pageIx * pageSize + i`, and the page holds `pageSize` entries or what is left |
| Paging.PagesCover | js/Management/Model.js:70-97 | every menu entry lies on an available page |
| Paging.OrderPagingAsWritten | js/OrderMenu/Model.js:69-91 | as written, the order page never changes page, while with `Math.ceil` it would |
| Models.LastPage | js/Management/Model.js:89-97 | the last page index over the view `getMenu()` hands out |
| Models.GotoPageLaws | js/Management/Model.js:100-124 | `gotoPage` moves exactly to the available pages and changes nothing else |
| Models.ModifyFilterCommandLaws | js/Management/Model.js:146-162 | the paged filter command succeeds exactly when the filters change, and perform, undo and redo all reset the page to 0 (also js/OrderMenu/Model.js, lines 105-116) |
| Models.MarkHalf | js/Management/Model.js:134-142 | the marking half always reports success, and its undo unmarks what it marked |
| Models.RefillItemsCommandLaws | js/Management/Model.js:134-142 | the refill command succeeds exactly when the bar holds something, even when all of it was marked already; it marks all and empties the bar |
| Models.Model.Management | js/Management/Model.js:11-38 | the management model starts at page 0 with pages of 12, the stock read from storage, an empty cart and the default menu state |
| Models.Model.Order | js/OrderMenu/Model.js:3-15 | the order model starts at page 0 with pages of 10, the stock read from storage, an empty cart and the default menu state |
| Models.Model.PageItems | js/Management/Model.js:70-86 | the current page's window of the view `getMenu()` hands out (also js/OrderMenu/Model.js, lines 54-67) |
| Models.Model.MaxPageIx | js/Management/Model.js:89-97 | `Paging.MaxPageIx` of the view's length |
| Models.Model.PageAvailable | js/Management/Model.js:122-124 | `0 <= i <= maxPageIx()` |
| Models.Model.GotoPage | js/Management/Model.js:100-104 | follows `Models.MoveToPage` (also js/OrderMenu/Model.js, lines 79-83) |
| Models.Model.PrevPage | js/Management/Model.js:107-110 | `gotoPage(pageIx - 1)` (also js/OrderMenu/Model.js, lines 85-87) |
| Models.Model.NextPage | js/Management/Model.js:127-130 | `gotoPage(pageIx + 1)` (also js/OrderMenu/Model.js, lines 89-91) |
| Models.Model.PrevPageAvailable | js/Management/Model.js:112-115 | true exactly when stepping back moves |
| Models.Model.NextPageAvailable | js/Management/Model.js:117-120 | true exactly when `nextPage()` would move |
| Models.Model.Perform | js/UndoManager.js:9-22 | runs `Commands.Perform` on the model's objects |
| Models.Model.Undo | js/UndoManager.js:9-22 | runs `Commands.Undo` on the model's objects |
| Models.Model.Redo | js/UndoManager.js:9-22 | runs `Commands.Redo` on the model's objects |
| Models.Model.PerformModifyFilterCommand | js/Management/Model.js:146-162 | performs the paged filter command on the model |
| Models.Model.PerformRefillItemsCommand | js/Management/Model.js:134-142 | performs the refill command with the ids in the order list |
| Sessions.CreditOfLast | js/UserSession.js:10-14 | a user without an account row has credit `null`, otherwise that of their last row |
| Sessions.IndexedWellFormed | js/UserSession.js:3-16 | the user indices are well formed and index exactly the ids of the table |
| Sessions.IndexUsers | js/UserSession.js:5-9 | the first loop indexes one object per user row by id and by username, each at its last row |
| Sessions.AssignCredits | js/UserSession.js:10-14 | the second loop gives each account's credit to the object the id index keeps |
| Sessions.ConvertUserDB | js/UserSession.js:3-16 | `convertUserDB` indexes every user by id and username, with the credit of their last account or `null`; an account of an unknown user throws |
| Sessions.UserSession.constructor | js/UserSession.js:18-44 | state from storage; missing maps start empty |
| Sessions.UserSession.Authenticate | js/UserSession.js:67-83 | fails and changes nothing for an unknown username; otherwise the id is authenticated and active |
| Sessions.UserSession.Switch | js/UserSession.js:86-95 | succeeds and sets the active id exactly when it is authenticated or `null` |
| Sessions.UserSession.UnauthenticateAll | js/UserSession.js:98-105 | empties the set and clears the active id |
| Sessions.UserSession.UnauthenticateAllElse | js/UserSession.js:107-116 | removes every authenticated id except the active one |
| Sessions.UserSession.UnauthenticateAllElseAsWritten | js/UserSession.js:107-116 | as written, the string key never equals a numeric active id, so every id is removed and the active user is no longer authenticated |
| Sessions.KeptAsWritten | js/UserSession.js:108-109 | the loop as written keeps nothing when the active id is a number, and otherwise only the active id |
| Sessions.ActiveIdLostAsWritten | js/UserSession.js:108-109 | with the active id a number, the loop as written drops the active id that the intended loop keeps |
| Sessions.UserSession.Unauthenticate | js/UserSession.js:118-138 | true for `null`; removes an authenticated id and clears it if active; false otherwise |
| Sessions.UserSession.Active | js/UserSession.js:140-146 | the active user's object, or `None` |
| Sessions.UserSession.BaseCredit | js/UserSession.js:152-160 | the active user's database credit, `null` read as 0 |
| Sessions.UserSession.GetCredit | js/UserSession.js:152-160 | the base credit plus the stored difference; throws without an active user |
| Sessions.UserSession.SetCredit | js/UserSession.js:162-175 | afterwards `getCredit()` is `credit`, the previous credit is returned; nothing changes without an active user |
| Sessions.UserSession.ModifyCredit | js/UserSession.js:177-190 | afterwards `getCredit()` has risen by `credit`, the previous credit is returned |
| Localization.GetTranslationMap | js/localization.js:232-240 | the map of "en", "se", "zh" or "te", and an error for any other language |
| Localization.LocalizedStringIn | js/localization.js:244-253 | given the looked-up map, the translation when present, the string itself otherwise |
| Localization.LocalizedString | js/localization.js:244-253 | the translation when present, the string itself otherwise |
| Localization.ValidLocalizedKey | js/localization.js:257-259 | true exactly when the string has a translation |
| Localization.LocalizeWords | js/localization.js:276-294 | the inner loop replaces each key word of a line |
| Localization.LocalizeTextIn | js/localization.js:272-295 | given the looked-up map, every word of every line that is a key is replaced by its translation, and a missing map is an error |
| Localization.LocalizeText | js/localization.js:272-295 | every word of every line that is a key is replaced by its translation |
| Localization.LineUnchanged | js/localization.js:272-295 | a line without key words is left as it is |
| Localization.KeyFreeUnchanged | js/localization.js:272-295 | a text without key words comes back unchanged |
| Localization.LinesPreserved | js/localization.js:272-295 | with newline-free translations, the number of lines is kept and each line is localized on its own |
| Localization.CreditExample | js/localization.js:269-271 | the documented example holds |
| Localization.LanguageSetting.constructor | js/localization.js:18-45 | the stored language, or English when none is stored |
| Localization.LanguageSetting.SetLanguage | js/localization.js:33-36 | later lookups use the map of the new language |
| Controllers.CategoryIdRoundTrip | js/Management/Controller.js:281-298 | `idToMainCat(mainCatToId(c)) == c` for `null` and every `c` other than "ALL"; every id starting with "cat-" round-trips the other way |
| Controllers.CategoryButtons | js/Management/Controller.js:281-298 | every main category of the menu, and "all categories", is found again from its button's id |
| Controllers.PropOf | js/Management/Controller.js:224 | `key in studiedFilters` finds a property of that object with that name |
| Controllers.PropNames | js/Management/Controller.js:213-224 | every property of `emptyFilters()` is found by its name in its object, and only those |
| Controllers.Set | js/Management/Controller.js:225-235 | assigning a property changes it and nothing else |
| Controllers.ObjectRoundTrip | js/MenuManager.js:428-442 | a filters value and the page's filters object stand for each other |
| Controllers.StoreAllEntries | js/Management/Controller.js:211-237 | after the loop each property holds what the last input naming it stored, or keeps its value |
| Controllers.GetFilterForm | js/Management/Controller.js:209-239 | the loop reads the form into the object, starting from `emptyFilters()` |
| Controllers.GetFilterFormMeaning | js/Management/Controller.js:209-239 | each property holds what the last input naming it stored, and its default otherwise; an empty number box or an unknown key stores nothing |
| Controllers.StoreAllTyped | js/Management/Controller.js:209-239 | a well-typed form reads as an object standing for a filters value |
| Controllers.FormFilters | js/Management/Controller.js:209-239 | the filters a well-typed form reads as |
| Controllers.ShowAll | js/Management/Controller.js:243-275 | each input of the form shows its property |
| Controllers.SetFilterForm | js/Management/Controller.js:243-275 | the loop writes every input of the form from the filters |
| Controllers.ReadShown | js/Management/Controller.js:225-235 | a value shown in its control and read back is stored again, except an infinite bound, which reads back as no change (lines 257-272 of the same file) |
| Controllers.DrinkUncovered | js/Management/Controller.js:216-224 | no input of a well-typed form edits the nested `drink` object itself |
| Controllers.FilterFormRoundTrip | js/Management/Controller.js:209-275 | after `setFilterForm(f)`, `getFilterForm()` gives back each property some input edits, and the default for the others |
| Controllers.CompleteFormRoundTrip | js/Management/Controller.js:209-275 | on a complete well-typed form `getFilterForm()` gives back exactly the filters written |
| Controllers.SubmitFilteringLaws | js/Management/Controller.js:172-206 | the menu is rendered again exactly when the form's filters differ from those in place; then they are installed, the first page is shown and one undo entry is recorded; otherwise nothing changes |

## Left out

- Persistence is not modelled as storage: `localStorage`, `sessionStorage`, the writes of every `synchronize*` method and the `sync` flags. The constructors of `Stock`, `UserSession` and `LanguageSetting` receive what storage held as a parameter. For the stock, what `synchronize()` writes is stated by Stocks.ToStorage and StockAsWritten.ToStorageAsWritten.
- Models.Model.Management, Models.Model.Order: the stored stock is required to satisfy the ledger invariant, that is, to be one the stock's own operations wrote. The order list starts new, as on a first visit. OrderMenu's `initializeOrderList` restoring a stored list is not modelled in the model's constructor; the restore itself is Carts' JSON round trip.
- Text.ToLower: only ASCII `A`–`Z` and Latin-1 U+00C0–U+00DE (except U+00D7) are lowercased. Other scripts (Latin Extended, Greek, Cyrillic, Armenian, the Kelvin sign) are left unchanged, and mappings that change the length, such as U+0130, are not modelled.
- The pages' HTML decides which MenuManager file (js/MenuManager.js or js/OrderMenu/MenuManager.js) the order page loads, and it is not part of this model. Models.Model.Order is built on the current MenuManagers.MenuManager. OldMenus models js/OrderMenu/MenuManager.js on its own. Models.Model's PageAvailable, PrevPageAvailable, NextPageAvailable and PerformRefillItemsCommand belong to js/Management/Model.js only, and js/OrderMenu/Model.js does not define them.
- Asynchronous loading and promises (js/dbutils.js, the `promises` fields) are not modelled. The models are built once their database is given.
- The DOM, jQuery, rendering and drag-and-drop are not modelled. These are `localizeDOM`, `localizePage`, `invalidateLocalization`, the controller's event wiring, `updatePageIndex` and `renderMenu`.
- js/OrderMenu/Controller.js, js/orderMenuDevelop.js, js/RefillBar.js and the other UI files are not part of this model.
- The `eval`-based `toJSONUnsafe`/`fromJSONUnsafe` are not modelled. Items are a tagged datatype, serialised with their constructor name.
- `Number(...)` parsing is not modelled: parsed values arrive as integers, and floating point is not modelled.
- Callbacks are named by numbers. Their `(ix, arr)` arguments are not passed.
- `unfailing()` is not defined in any file shown. It is modelled by the behaviour its comment states: the wrapped command reports success.
- The Stock commands construct `Action`, which is not defined in any file shown. It is taken to be `Command`.
- `Models.Model` does not hold the undo manager: the undo manager runs commands on a model, and modules may not import each other cyclically.
- The `defaultStock` parameter of the Stock constructor is ignored by the code, which always uses 20. The model has the constant 20 and no such parameter.
- Cart items are serialised in `ids` order. JavaScript would put integer-like keys first, which does not affect the JSON round trip.
- Json.CloneMap: the clone is stated equal to the original as a value. Freshness and aliasing of the nested copies are not modelled, because JSON values are immutable here.
- `deepEqual` is structural equality. The key-order sensitivity of comparing `JSON.stringify` texts is not modelled. Nor is the fact that `Infinity` and `null` print alike. So the model cannot show that a manager restored with a `null` `priceMax` finds its filters deep-equal to the empty ones. Its `clearFilterCommand` would then report that there is nothing to clear, while every item priced above 0 is rejected.
- Items.DbItem keeps only the nine database fields the model reads. js/Item.js:17-19 copies every field of the record into the item, and the `{...object}` copy of js/common.js:20-26 writes them all out. The copied fields that are left out are read by nothing in this model; `verifyItem` reads only `name`, `name2` and `category` of them.
- `validLocalizedKey` and the filter form use `in`, which would also match prototype keys such as `toString`. Only a map's own keys are modelled.
- Localization.LinesPreserved: it is stated for translation maps free of newlines. That the four literal maps have no newline is not proved.
- Sessions.UserSession.Authenticate: the password is not checked, as in the code.
- Sessions.UserSession.UnauthenticateAllElse: this is modelled as intended, removing every id but the active one. The code as written is Sessions.UserSession.UnauthenticateAllElseAsWritten. Whether the active id is a number depends on the `user_id` type of the user database, which is not part of this model, so it is a parameter.
- `UserSession.prototype.authenticated` is not modelled. It calls `.map` on an object, so every call throws.
- Controllers.GetFilterForm: an input whose type does not suit its property (a checkbox on a price, say) is not modelled as JavaScript would coerce it. Show leaves such an input unchanged.
- Controllers.SubmitFiltering: it requires a well-typed form, which the page's HTML (not shown) provides. The augmenting DOM command that re-renders on undo and redo is not modelled.
- Controllers.Route: an input whose key is exactly "drink" would replace the nested drink object. This case is excluded by the well-typed form.
- The order page's `modifyFilterCommand` (js/OrderMenu/Model.js:105-116) is modelled by the same Models.ModifyFilterCommand, without preserving.

## Findings

| source | as written | input that shows it | evidently intended | confidence | as-written member | corrected member |
|---|---|---|---|---|---|---|
| js/Stock.js:44-46 | `synchronizeRefill` stores `this.reservedStock` under the refill key | mark item "7" for refill, then reload: "7" is no longer marked, and `orders` and `items` are | store `this.toRefill` | high (not executed) | StockAsWritten.RefillMarksLostOnReload | Stocks.StorageRoundTrip |
| js/UserSession.js:108-109 | the string `for…in` key is compared with `!==` against the active id, which `authenticate` sets to the user's `id` | user 3 authenticated and active with a numeric `user_id`: afterwards nobody is authenticated | compare `id` with `String(this.activeId)`, or use `!=` | medium (not executed) | Sessions.ActiveIdLostAsWritten | Sessions.UserSession.UnauthenticateAllElse |
| js/OrderList.js:199-201, js/OrderList.js:102 | a second `getItemQuantityById` taking an index replaces the one taking an id, and `removeItemCommand` passes it an id | a cart holding only item "7": removing "7" fails | look the entry up by id | high (not executed) | Carts.RemoveAsWrittenExample | Carts.RemoveCommandUndo |
| js/Stock.js:135 | `commitOrder` subtracts from `this.physicalStock.items[id]`, and `physicalStock.items` is `undefined` | committing any non-empty order throws after the reservation is dropped | `this.modifyPhysicalStock(id, -q, false)`, the inverse of what the undo does | high (not executed) | StockAsWritten.CommitOrderAsWrittenThrows | Ledgers.CommitOrderSpec |
| js/Stock.js:149 | `addCompactOrder` does `+=` on a reserved total that may be missing, giving `NaN` | the first order on a fresh stock | count a missing total as 0 | high (not executed) | StockAsWritten.FirstReservationIsNaN | Ledgers.AddCompactOrderSpec |
| js/Stock.js:96, js/Stock.js:100 | `addOrderCommand` refers to the undeclared `commitedOrder` and `tbl` | any order: the perform throws after reserving | return the table's previous order, and undo by restoring it | high (not executed) | StockAsWritten.AddOrderAsWrittenThrows | Ledgers.AddOrderCommandUndo |
| js/OrderMenu/Model.js:75 | `maxPageIx` calls `Math.ceiling`, which does not exist | `nextPage()` on any order page | `Math.ceil` | high (not executed) | Paging.OrderPagingAsWritten | Paging.MaxPageIx |
| js/OrderMenu/MenuManager.js:189 | redo assigns the misspelt `storedFilterMenu` | perform, undo, redo with `preserve`: the cache keeps the undone state's menu | assign `storedFilteredMenu` | high (not executed) | OldMenus.MenuManager.RedoModifyFilterAsWritten | OldMenus.MenuManager.RedoModifyFilter |
| js/MenuManager.js:79 | `fromJSONString` does not pass `stock` on to `fromJSON` | restoring, then `getMenu()` with one item passing the price tests | pass `stock` | high (not executed) | MenusAsWritten.FromJsonStringDropsStock | Menus.StateRoundTrip |
| js/MenuManager.js:66-71 | `fromJSON` keeps the parsed filters, so a `priceMax` of `Infinity`, written as `null`, stays `null` | the empty filters restored: every item priced above 0 is rejected | read `null` back as `Infinity` | medium (not executed) | MenusAsWritten.PriceMaxLostOnRestore | Menus.FiltersRoundTrip |
