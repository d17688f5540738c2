// Three places where js/Stock.js, as written, does not do what its comments and
// its callers expect. Each is modelled here as written, with a lemma showing the
// discrepancy; the intended behaviour is the one modules Ledgers and Stocks model.
module StockAsWritten {
  import opened Wrappers
  import Items
  import opened Ledgers
  import Stocks

  // ---------------------------------------------------------------------------
  // Reserved totals start from `undefined`

  /** A JavaScript number as far as the reserved totals need one. */
  datatype JsNum = Num(n: int) | NaN

  /** `m[id] += q` (or `-=`) on an object: a missing entry reads as `undefined`, and `undefined + q` is `NaN`. */
  function Bump(m: map<ItemId, JsNum>, id: ItemId, d: int): map<ItemId, JsNum>
  {
    m[id := if id in m && m[id].Num? then Num(m[id].n + d) else NaN]
  }

  /** The reservation loops of `addCompactOrder` and `removeOrder` as written. */
  function ShiftAsWritten(m: map<ItemId, JsNum>, lines: CompactOrder, add: bool): map<ItemId, JsNum>
  {
    if |lines| == 0 then m
    else
      var last := lines[|lines| - 1];
      Bump(ShiftAsWritten(m, lines[..|lines| - 1], add), last.id, Signed(last.qty, add))
  }

  /**
   * As written, an item's total is `NaN` once any line for it meets a missing
   * or `NaN` entry, and it never becomes a number again; a total that was a
   * number moves exactly as in the intended `Shift`.
   */
  lemma {:induction false} ShiftAsWrittenOne(m: map<ItemId, JsNum>, lines: CompactOrder, add: bool, id: ItemId)
    ensures id in LineIds(lines) && (id !in m || m[id].NaN?) ==>
      id in ShiftAsWritten(m, lines, add) && ShiftAsWritten(m, lines, add)[id].NaN?
    ensures id in m && m[id].Num? ==>
      id in ShiftAsWritten(m, lines, add) && ShiftAsWritten(m, lines, add)[id] == Num(m[id].n + Signed(QtyIn(lines, id), add))
    ensures id !in m && id !in LineIds(lines) ==> id !in ShiftAsWritten(m, lines, add)
    ensures id in m && id !in LineIds(lines) ==> id in ShiftAsWritten(m, lines, add) && ShiftAsWritten(m, lines, add)[id] == m[id]
  {
    if |lines| > 0 {
      var init := lines[..|lines| - 1];
      ShiftAsWrittenOne(m, init, add, id);
      assert LineIds(lines) == LineIds(init) + {lines[|lines| - 1].id};
    }
  }

  /**
   * Starting from the empty reservations a fresh stock has, reserving one
   * table's order leaves every item of the order with a `NaN` total, so
   * `getStock` of that item is `NaN`, where the intended ledger holds the
   * order's quantity.
   */
  lemma FirstReservationIsNaN(t: Table, lines: CompactOrder, id: ItemId)
    requires id in LineIds(lines)
    ensures id in ShiftAsWritten(map[], lines, true) && ShiftAsWritten(map[], lines, true)[id].NaN?
    ensures ReservedOf(AddCompactOrder(EmptyLedger, t, lines), id) == QtyIn(lines, id)
  {
    ShiftAsWrittenOne(map[], lines, true, id);
    ShiftOne(map[], lines, true, id);
  }

  // ---------------------------------------------------------------------------
  // `commitOrder` subtracts from a field that does not exist

  /** The end of a call: a returned value, or an exception (a `TypeError` or `ReferenceError`). */
  datatype Outcome<T> = Returned(after: Ledger, value: T) | Threw(after: Ledger)

  /**
   * `commitOrder(tbl)` as written: the reservation is removed first, then
   * the loop reads `physicalStock.items`, which is `undefined`, so the first
   * line throws a `TypeError`. An order without lines returns normally.
   */
  function CommitOrderAsWritten(L: Ledger, t: Table): Outcome<Option<CompactOrder>>
  {
    if t !in L.orders then Returned(L, None)
    else if |L.orders[t]| == 0 then Returned(RemoveOrder(L, t), Some(L.orders[t]))
    else Threw(RemoveOrder(L, t))
  }

  /**
   * Committing a non-empty order as written throws and leaves the reservation
   * dropped with the physical stock untouched, so each item of the order
   * appears more available by its quantity; the intended `CommitOrder`
   * returns the order and leaves availability unchanged.
   */
  lemma CommitOrderAsWrittenThrows(L: Ledger, t: Table)
    requires Valid(L) && t in L.orders && |L.orders[t]| > 0
    ensures var o := CommitOrderAsWritten(L, t);
      o.Threw? && o.after.physical == L.physical && t !in o.after.orders
      && forall id :: Available(o.after, id) == Available(L, id) + QtyIn(L.orders[t], id)
    ensures forall id :: Available(CommitOrder(L, t), id) == Available(L, id)
  {
    RemoveOrderSpec(L, t);
    CommitOrderSpec(L, t);
  }

  // ---------------------------------------------------------------------------
  // `addOrderCommand` refers to names it never declares

  /**
   * `addOrderCommand(order)`'s perform as written: `addOrder` reserves the
   * order, then `commitedOrder` is not declared in that function, so the
   * perform throws a `ReferenceError` with the reservation already made.
   */
  function PerformAddOrderAsWritten(L: Ledger, t: Table, entries: seq<Items.ItemQuantity>): Outcome<Option<CompactOrder>>
  {
    Threw(AddOrder(L, t, entries))
  }

  /**
   * As written the perform never succeeds, yet it changes the reservations,
   * so no undo entry is recorded for a change that did happen. The intended
   * command returns the previous order and its undo restores every total.
   */
  lemma AddOrderAsWrittenThrows(L: Ledger, t: Table, entries: seq<Items.ItemQuantity>)
    requires Valid(L)
    ensures var o := PerformAddOrderAsWritten(L, t, entries);
      o.Threw? && t in o.after.orders && o.after.orders[t] == Compact(entries)
    ensures var (r, prev) := PerformAddOrder(L, t, entries);
      prev == OrderOf(L, t) && SameTotals(UndoAddOrder(r, t, prev), L)
  {
    AddCompactOrderSpec(L, t, Compact(entries));
    AddOrderCommandUndo(L, t, entries);
  }

  // ---------------------------------------------------------------------------
  // The refill marks are stored under the wrong key

  /** The property names of the reserved-stock object `{orders, items}`. */
  const ReservedKeys: set<ItemId> := {"orders", "items"}

  /**
   * `synchronize()` as written: `synchronizeRefill` stores the reserved-stock
   * object under the refill key, so what that key holds is an object whose
   * property names are `orders` and `items`.
   */
  function ToStorageAsWritten(L: Ledger): Stocks.Stored
  {
    Stocks.Stored(Some(L.physical), Some(Stocks.StoredReserved(L.orders, L.reserved)), Some(ReservedKeys))
  }

  /**
   * After a reload from what was written, the marks are lost and `orders`
   * and `items` are marked instead: the ledger comes back only when it
   * marked exactly those two names. A fresh stock with one item marked shows it.
   */
  lemma RefillMarksLostOnReload(L: Ledger)
    ensures Stocks.FromStorage(ToStorageAsWritten(L)).toRefill == ReservedKeys
    ensures Stocks.FromStorage(ToStorageAsWritten(L)) == L <==> L.toRefill == ReservedKeys
    ensures var M := OrderRefill(EmptyLedger, ["7"]);
      "7" in M.toRefill && "7" !in Stocks.FromStorage(ToStorageAsWritten(M)).toRefill
  {
    var M := OrderRefill(EmptyLedger, ["7"]);
    OrderRefillSpec(EmptyLedger, ["7"]);
    assert "7" in Elems(["7"]);
  }
}
