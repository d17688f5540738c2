// The stock ledger of js/Stock.js: physical stock per item (an absent entry
// means the default of 20), the reservations of each table together with the
// per-item reserved totals, and the set of items marked for refill.
//
// This module gives the operations as functions on a `Ledger` value and proves
// what they keep; the class `Stocks.Stock` updates the same four fields in place
// and is proved equal to these functions.
module Ledgers {
  import opened Wrappers
  import Items

  type ItemId = string
  type Table = int

  /** One `[id, quantity]` pair of a compact order. */
  datatype Line = Line(id: ItemId, qty: int)

  type CompactOrder = seq<Line>

  /** The stock an item has when the physical map holds no entry for it. */
  const DefaultStock: int := 20

  datatype Ledger = Ledger(
    physical: map<ItemId, int>,
    orders: map<Table, CompactOrder>,
    reserved: map<ItemId, int>,
    toRefill: set<ItemId>)

  const EmptyLedger := Ledger(map[], map[], map[], {})

  // ---------------------------------------------------------------------------
  // Reading the ledger

  function PhysOf(p: map<ItemId, int>, id: ItemId): int
  {
    if id in p then p[id] else DefaultStock
  }

  function Get0(m: map<ItemId, int>, id: ItemId): int
  {
    if id in m then m[id] else 0
  }

  /** `getPhysicalStock(id)`. */
  function PhysicalOf(L: Ledger, id: ItemId): int
  {
    PhysOf(L.physical, id)
  }

  /** `getReservedOf(id)`. */
  function ReservedOf(L: Ledger, id: ItemId): int
  {
    Get0(L.reserved, id)
  }

  /** `getStock(id)`: what is left once the reservations are taken off the physical stock. */
  function Available(L: Ledger, id: ItemId): (r: int)
    ensures id !in L.physical && id !in L.reserved ==> r == DefaultStock
    ensures r + ReservedOf(L, id) == PhysicalOf(L, id)
  {
    PhysicalOf(L, id) - ReservedOf(L, id)
  }

  /** The quantity of `id` in a compact order, summed over its lines. */
  function QtyIn(lines: CompactOrder, id: ItemId): int
  {
    if |lines| == 0 then 0
    else QtyIn(lines[..|lines| - 1], id) + (if lines[|lines| - 1].id == id then lines[|lines| - 1].qty else 0)
  }

  function LineIds(lines: CompactOrder): set<ItemId>
  {
    set j | 0 <= j < |lines| :: lines[j].id
  }

  // ---------------------------------------------------------------------------
  // The ledger's invariants

  /** No stored physical entry equals the default; `setPhysicalStock` deletes it instead. */
  predicate Canonical(p: map<ItemId, int>)
  {
    forall id | id in p :: p[id] != DefaultStock
  }

  /** The reservations of the tables in `keys`, summed for one item. */
  ghost function TotalOver(orders: map<Table, CompactOrder>, keys: set<Table>, id: ItemId): int
    requires keys <= orders.Keys
    decreases keys
  {
    if keys == {} then 0
    else
      var t := Pick(keys);
      QtyIn(orders[t], id) + TotalOver(orders, keys - {t}, id)
  }

  ghost function Total(orders: map<Table, CompactOrder>, id: ItemId): int
  {
    TotalOver(orders, orders.Keys, id)
  }

  /** Every per-item reserved total is the sum of that item over all tables' reservations. */
  ghost predicate Consistent(L: Ledger)
  {
    forall id :: ReservedOf(L, id) == Total(L.orders, id)
  }

  /** Every item of a reservation has a reserved-total entry. */
  predicate KeysCover(L: Ledger)
  {
    forall t | t in L.orders :: LineIds(L.orders[t]) <= L.reserved.Keys
  }

  ghost predicate Valid(L: Ledger)
  {
    Canonical(L.physical) && Consistent(L) && KeysCover(L)
  }

  /** The sum does not depend on which table is taken first. */
  lemma {:induction false} TotalOverRemove(orders: map<Table, CompactOrder>, keys: set<Table>, t: Table, id: ItemId)
    requires keys <= orders.Keys && t in keys
    ensures TotalOver(orders, keys, id) == QtyIn(orders[t], id) + TotalOver(orders, keys - {t}, id)
    decreases keys
  {
    var u := Pick(keys);
    if u != t {
      TotalOverRemove(orders, keys - {u}, t, id);
      TotalOverRemove(orders, keys - {t}, u, id);
      assert keys - {u} - {t} == keys - {t} - {u};
    }
  }

  lemma {:induction false} TotalOverFrame(o1: map<Table, CompactOrder>, o2: map<Table, CompactOrder>, keys: set<Table>, id: ItemId)
    requires keys <= o1.Keys && keys <= o2.Keys
    requires forall k | k in keys :: o1[k] == o2[k]
    ensures TotalOver(o1, keys, id) == TotalOver(o2, keys, id)
    decreases keys
  {
    if keys != {} {
      var t := Pick(keys);
      TotalOverFrame(o1, o2, keys - {t}, id);
    }
  }

  /** Dropping a table's reservation takes its quantities out of the total. */
  lemma TotalWithout(orders: map<Table, CompactOrder>, t: Table, id: ItemId)
    requires t in orders
    ensures Total(orders - {t}, id) == Total(orders, id) - QtyIn(orders[t], id)
  {
    TotalOverRemove(orders, orders.Keys, t, id);
    assert (orders - {t}).Keys == orders.Keys - {t};
    TotalOverFrame(orders - {t}, orders, orders.Keys - {t}, id);
  }

  /** Adding a reservation for a table that had none adds its quantities to the total. */
  lemma TotalWith(orders: map<Table, CompactOrder>, t: Table, lines: CompactOrder, id: ItemId)
    requires t !in orders
    ensures Total(orders[t := lines], id) == Total(orders, id) + QtyIn(lines, id)
  {
    var o := orders[t := lines];
    TotalOverRemove(o, o.Keys, t, id);
    assert o.Keys - {t} == orders.Keys;
    TotalOverFrame(o, orders, orders.Keys, id);
  }

  /** Two canonical physical maps that report the same stock for every item are equal. */
  lemma CanonicalUnique(p1: map<ItemId, int>, p2: map<ItemId, int>)
    requires Canonical(p1) && Canonical(p2)
    requires forall id :: PhysOf(p1, id) == PhysOf(p2, id)
    ensures p1 == p2
  {
    forall id | id in p1 ensures id in p2 && p1[id] == p2[id] {
      assert PhysOf(p1, id) == PhysOf(p2, id);
    }
    forall id | id in p2 ensures id in p1 {
      assert PhysOf(p1, id) == PhysOf(p2, id);
    }
    assert p1.Keys == p2.Keys;
  }

  // ---------------------------------------------------------------------------
  // Physical stock

  /** `setPhysicalStock(id, q)`: the item now has stock `q`; a default value is stored by deletion. */
  function SetPhysical(L: Ledger, id: ItemId, q: int): (r: Ledger)
    ensures PhysicalOf(r, id) == q
    ensures forall j :: j != id ==> PhysicalOf(r, j) == PhysicalOf(L, j)
    ensures Canonical(L.physical) && q == DefaultStock ==> id !in r.physical
    ensures Canonical(L.physical) ==> Canonical(r.physical)
    ensures r.orders == L.orders && r.reserved == L.reserved && r.toRefill == L.toRefill
  {
    if PhysicalOf(L, id) == q then L
    else if q == DefaultStock then L.(physical := L.physical - {id})
    else L.(physical := L.physical[id := q])
  }

  /** `modifyPhysicalStock(id, d)`: the item's stock rises by `d`. */
  function ModifyPhysical(L: Ledger, id: ItemId, d: int): (r: Ledger)
    ensures PhysicalOf(r, id) == PhysicalOf(L, id) + d
    ensures forall j :: j != id ==> PhysicalOf(r, j) == PhysicalOf(L, j)
    ensures Canonical(L.physical) ==> Canonical(r.physical)
    ensures r.orders == L.orders && r.reserved == L.reserved && r.toRefill == L.toRefill
  {
    SetPhysical(L, id, PhysicalOf(L, id) + d)
  }

  /** Setting the old value back after `setPhysicalStock` restores the ledger exactly. */
  lemma SetPhysicalUndo(L: Ledger, id: ItemId, q: int)
    requires Canonical(L.physical)
    ensures SetPhysical(SetPhysical(L, id, q), id, PhysicalOf(L, id)) == L
  {
    var r := SetPhysical(SetPhysical(L, id, q), id, PhysicalOf(L, id));
    CanonicalUnique(r.physical, L.physical);
  }

  /** A line's quantity, negated when it is being taken away. */
  function Signed(q: int, add: bool): int
  {
    if add then q else -q
  }

  /** `modifyPhysicalStock(id, quantity)` for every line, in order; the quantity is negated unless `add`. */
  function ShiftPhysical(L: Ledger, lines: CompactOrder, add: bool): Ledger
  {
    if |lines| == 0 then L
    else
      var last := lines[|lines| - 1];
      ModifyPhysical(ShiftPhysical(L, lines[..|lines| - 1], add), last.id, Signed(last.qty, add))
  }

  lemma {:induction false} ShiftPhysicalOne(L: Ledger, lines: CompactOrder, add: bool, id: ItemId)
    ensures PhysicalOf(ShiftPhysical(L, lines, add), id) == PhysicalOf(L, id) + Signed(QtyIn(lines, id), add)
  {
    if |lines| > 0 {
      ShiftPhysicalOne(L, lines[..|lines| - 1], add, id);
    }
  }

  lemma {:induction false} ShiftPhysicalFrame(L: Ledger, lines: CompactOrder, add: bool)
    ensures Canonical(L.physical) ==> Canonical(ShiftPhysical(L, lines, add).physical)
    ensures var r := ShiftPhysical(L, lines, add); r.orders == L.orders && r.reserved == L.reserved && r.toRefill == L.toRefill
  {
    if |lines| > 0 {
      ShiftPhysicalFrame(L, lines[..|lines| - 1], add);
    }
  }

  /** Each item's physical stock moves by its quantity in the lines; nothing else changes. */
  lemma ShiftPhysicalAt(L: Ledger, lines: CompactOrder, add: bool)
    ensures forall id :: PhysicalOf(ShiftPhysical(L, lines, add), id) == PhysicalOf(L, id) + Signed(QtyIn(lines, id), add)
    ensures Canonical(L.physical) ==> Canonical(ShiftPhysical(L, lines, add).physical)
    ensures var r := ShiftPhysical(L, lines, add); r.orders == L.orders && r.reserved == L.reserved && r.toRefill == L.toRefill
  {
    forall id ensures PhysicalOf(ShiftPhysical(L, lines, add), id) == PhysicalOf(L, id) + Signed(QtyIn(lines, id), add) {
      ShiftPhysicalOne(L, lines, add, id);
    }
    ShiftPhysicalFrame(L, lines, add);
  }

  // ---------------------------------------------------------------------------
  // Reservations

  /** The per-item totals with each line's quantity added (or taken away), a missing entry counting as 0. */
  function Shift(m: map<ItemId, int>, lines: CompactOrder, add: bool): map<ItemId, int>
  {
    if |lines| == 0 then m
    else
      var last := lines[|lines| - 1];
      var m' := Shift(m, lines[..|lines| - 1], add);
      m'[last.id := Get0(m', last.id) + Signed(last.qty, add)]
  }

  lemma {:induction false} ShiftOne(m: map<ItemId, int>, lines: CompactOrder, add: bool, id: ItemId)
    ensures Get0(Shift(m, lines, add), id) == Get0(m, id) + Signed(QtyIn(lines, id), add)
  {
    if |lines| > 0 {
      ShiftOne(m, lines[..|lines| - 1], add, id);
    }
  }

  lemma {:induction false} ShiftKeys(m: map<ItemId, int>, lines: CompactOrder, add: bool)
    ensures Shift(m, lines, add).Keys == m.Keys + LineIds(lines)
  {
    if |lines| > 0 {
      var init := lines[..|lines| - 1];
      ShiftKeys(m, init, add);
      assert LineIds(lines) == LineIds(init) + {lines[|lines| - 1].id};
    }
  }

  /** Each item's total moves by its quantity in the lines, and the lines' items gain entries. */
  lemma ShiftAt(m: map<ItemId, int>, lines: CompactOrder, add: bool)
    ensures forall id :: Get0(Shift(m, lines, add), id) == Get0(m, id) + Signed(QtyIn(lines, id), add)
    ensures Shift(m, lines, add).Keys == m.Keys + LineIds(lines)
  {
    forall id ensures Get0(Shift(m, lines, add), id) == Get0(m, id) + Signed(QtyIn(lines, id), add) {
      ShiftOne(m, lines, add, id);
    }
    ShiftKeys(m, lines, add);
  }

  /** `removeOrder(tbl)`: the table's reservation, if any, is dropped from the ledger. */
  function RemoveOrder(L: Ledger, t: Table): Ledger
  {
    if t !in L.orders then L
    else L.(reserved := Shift(L.reserved, L.orders[t], false), orders := L.orders - {t})
  }

  /** What `removeOrder(tbl)` returns: the reservation it dropped, or `undefined`. */
  function OrderOf(L: Ledger, t: Table): Option<CompactOrder>
  {
    if t in L.orders then Some(L.orders[t]) else None
  }

  /** `addCompactOrder(tbl, lines)`: any previous reservation of the table is replaced by `lines`. */
  function AddCompactOrder(L: Ledger, t: Table, lines: CompactOrder): Ledger
  {
    var L1 := RemoveOrder(L, t);
    L1.(reserved := Shift(L1.reserved, lines, true), orders := L1.orders[t := lines])
  }

  /** `Array.from(order.order, iQ => [iQ.item.id, iQ.quantity])`. */
  function Compact(entries: seq<Items.ItemQuantity>): (r: CompactOrder)
    ensures |r| == |entries|
    ensures forall j | 0 <= j < |entries| :: r[j] == Line(entries[j].item.id, entries[j].quantity)
  {
    if |entries| == 0 then []
    else Compact(entries[..|entries| - 1]) + [Line(entries[|entries| - 1].item.id, entries[|entries| - 1].quantity)]
  }

  /** `addOrder(order)`: reserve the compact form of the order's items for its table. */
  function AddOrder(L: Ledger, t: Table, entries: seq<Items.ItemQuantity>): Ledger
  {
    AddCompactOrder(L, t, Compact(entries))
  }

  /**
   * `commitOrder(tbl)`, as intended: the reservation is removed and the
   * committed quantities are taken off the physical stock.
   */
  function CommitOrder(L: Ledger, t: Table): Ledger
  {
    if t !in L.orders then L else ShiftPhysical(RemoveOrder(L, t), L.orders[t], false)
  }

  /** `removeOrder` keeps the invariants and lowers each total by the dropped reservation. */
  lemma RemoveOrderSpec(L: Ledger, t: Table)
    requires Valid(L)
    ensures var r := RemoveOrder(L, t);
      Valid(r) && t !in r.orders && r.physical == L.physical && r.toRefill == L.toRefill
      && (t !in L.orders ==> r == L)
      && (t in L.orders ==>
            r.orders == L.orders - {t}
            && forall id :: ReservedOf(r, id) == ReservedOf(L, id) - QtyIn(L.orders[t], id))
  {
    if t in L.orders {
      var r := RemoveOrder(L, t);
      ShiftAt(L.reserved, L.orders[t], false);
      forall id ensures ReservedOf(r, id) == Total(r.orders, id) {
        TotalWithout(L.orders, t, id);
      }
    }
  }

  /** `addCompactOrder` keeps the invariants: the table now holds `lines` and each total tracks it. */
  lemma AddCompactOrderSpec(L: Ledger, t: Table, lines: CompactOrder)
    requires Valid(L)
    ensures var r := AddCompactOrder(L, t, lines);
      Valid(r) && r.orders == L.orders[t := lines] && r.physical == L.physical && r.toRefill == L.toRefill
      && forall id :: ReservedOf(r, id) == ReservedOf(L, id) + QtyIn(lines, id)
                                           - (if t in L.orders then QtyIn(L.orders[t], id) else 0)
  {
    RemoveOrderSpec(L, t);
    var L1 := RemoveOrder(L, t);
    var r := AddCompactOrder(L, t, lines);
    ShiftAt(L1.reserved, lines, true);
    assert r.orders == L.orders[t := lines] by {
      if t in L.orders { assert (L.orders - {t})[t := lines] == L.orders[t := lines]; }
    }
    forall id ensures ReservedOf(r, id) == Total(r.orders, id) {
      TotalWith(L1.orders, t, lines, id);
    }
  }

  /** Putting a removed reservation back restores the ledger exactly (the undo of `removeOrderCommand`). */
  lemma RemoveOrderUndo(L: Ledger, t: Table)
    requires Valid(L) && t in L.orders
    ensures AddCompactOrder(RemoveOrder(L, t), t, L.orders[t]) == L
  {
    var lines := L.orders[t];
    var L1 := RemoveOrder(L, t);
    var r := AddCompactOrder(L1, t, lines);
    ShiftAt(L.reserved, lines, false);
    ShiftAt(L1.reserved, lines, true);
    assert r.reserved.Keys == L.reserved.Keys;
    assert r.reserved == L.reserved by {
      forall id | id in L.reserved ensures r.reserved[id] == L.reserved[id] {
        assert Get0(r.reserved, id) == Get0(L.reserved, id);
      }
    }
    assert r.orders == L.orders;
  }

  /** Committing removes the table's reservation and lowers physical stock, leaving availability unchanged. */
  lemma CommitOrderSpec(L: Ledger, t: Table)
    requires Valid(L) && t in L.orders
    ensures var r := CommitOrder(L, t);
      Valid(r) && r.orders == L.orders - {t} && r.toRefill == L.toRefill
      && (forall id :: PhysicalOf(r, id) == PhysicalOf(L, id) - QtyIn(L.orders[t], id))
      && (forall id :: Available(r, id) == Available(L, id))
  {
    RemoveOrderSpec(L, t);
    var L1 := RemoveOrder(L, t);
    ShiftPhysicalAt(L1, L.orders[t], false);
  }

  /**
   * The undo of `commitOrderCommand`: adding the quantities back and
   * re-reserving the order restores the ledger exactly.
   */
  lemma CommitOrderUndo(L: Ledger, t: Table)
    requires Valid(L) && t in L.orders
    ensures AddCompactOrder(ShiftPhysical(CommitOrder(L, t), L.orders[t], true), t, L.orders[t]) == L
  {
    var lines := L.orders[t];
    RemoveOrderSpec(L, t);
    var L1 := RemoveOrder(L, t);
    var C := CommitOrder(L, t);
    ShiftPhysicalAt(L1, lines, false);
    ShiftPhysicalAt(C, lines, true);
    var U := ShiftPhysical(C, lines, true);
    assert C == ShiftPhysical(L1, lines, false);
    forall id ensures PhysOf(U.physical, id) == PhysOf(L.physical, id) {
      assert PhysicalOf(U, id) == PhysicalOf(C, id) + QtyIn(lines, id);
      assert PhysicalOf(C, id) == PhysicalOf(L1, id) - QtyIn(lines, id);
    }
    CanonicalUnique(U.physical, L.physical);
    assert U == L1;
    RemoveOrderUndo(L, t);
  }

  /** The ledgers agree on everything a caller can read: physical stock, orders, totals and refill marks. */
  ghost predicate SameTotals(A: Ledger, B: Ledger)
  {
    A.physical == B.physical && A.orders == B.orders && A.toRefill == B.toRefill
    && forall id :: ReservedOf(A, id) == ReservedOf(B, id)
  }

  /** `addOrderCommand`'s perform, as its undo expects it: reserve the order and return the table's previous one. */
  function PerformAddOrder(L: Ledger, t: Table, entries: seq<Items.ItemQuantity>): (Ledger, Option<CompactOrder>)
  {
    (AddOrder(L, t, entries), OrderOf(L, t))
  }

  /** `addOrderCommand`'s undo: drop the table's order and re-reserve the previous one, if there was one. */
  function UndoAddOrder(L: Ledger, t: Table, prev: Option<CompactOrder>): Ledger
  {
    if prev.None? then RemoveOrder(L, t) else AddCompactOrder(RemoveOrder(L, t), t, prev.value)
  }

  /**
   * Undoing `addOrderCommand` gives back the same orders, physical stock,
   * marks and reserved totals. The reserved map may keep entries of 0 for the
   * order's items, which `getReservedOf` cannot tell from absent ones.
   */
  lemma AddOrderCommandUndo(L: Ledger, t: Table, entries: seq<Items.ItemQuantity>)
    requires Valid(L)
    ensures var (r, prev) := PerformAddOrder(L, t, entries);
      prev == OrderOf(L, t) && Valid(r) && Valid(UndoAddOrder(r, t, prev)) && SameTotals(UndoAddOrder(r, t, prev), L)
  {
    var c := Compact(entries);
    var A := AddOrder(L, t, entries);
    AddCompactOrderSpec(L, t, c);
    RemoveOrderSpec(A, t);
    var R := RemoveOrder(A, t);
    if t in L.orders {
      var p := L.orders[t];
      AddCompactOrderSpec(R, t, p);
      var U := AddCompactOrder(R, t, p);
      assert U.orders == L.orders;
    } else {
      assert R.orders == L.orders;
    }
  }

  // ---------------------------------------------------------------------------
  // Refill

  /** `orderRefill(ids)` takes one id or an array of them. */
  datatype RefillArg = OneId(id: ItemId) | Ids(ids: seq<ItemId>)

  function AsIds(arg: RefillArg): seq<ItemId>
  {
    match arg
    case OneId(id) => [id]
    case Ids(ids) => ids
  }

  /** `ids.filter(id => !(id in toRefill))`. */
  function NotMarked(ids: seq<ItemId>, marked: set<ItemId>): (r: seq<ItemId>)
    ensures forall id :: id in r <==> id in ids && id !in marked
  {
    if |ids| == 0 then []
    else NotMarked(ids[..|ids| - 1], marked) + (if ids[|ids| - 1] in marked then [] else [ids[|ids| - 1]])
  }

  function Elems(ids: seq<ItemId>): set<ItemId>
  {
    set j | 0 <= j < |ids| :: ids[j]
  }

  /** `orderRefill(ids)`: every id not yet marked is marked. */
  function OrderRefill(L: Ledger, ids: seq<ItemId>): Ledger
  {
    L.(toRefill := L.toRefill + Elems(NotMarked(ids, L.toRefill)))
  }

  /** The undo of `orderRefillCommand`: unmark exactly the ids it marked. */
  function Unmark(L: Ledger, ids: seq<ItemId>): Ledger
  {
    L.(toRefill := L.toRefill - Elems(ids))
  }

  /** Marking returns exactly the new ids, marks every given id, and unmarking the returned ids undoes it. */
  lemma OrderRefillSpec(L: Ledger, ids: seq<ItemId>)
    ensures var added := NotMarked(ids, L.toRefill);
      (forall id :: id in added <==> id in ids && id !in L.toRefill)
      && OrderRefill(L, ids).toRefill == L.toRefill + Elems(ids)
      && Unmark(OrderRefill(L, ids), added) == L
      && (added == [] <==> Elems(ids) <= L.toRefill)
  {
    var added := NotMarked(ids, L.toRefill);
    assert forall id :: id in Elems(added) <==> id in added;
    assert forall id :: id in Elems(ids) <==> id in ids;
    if added != [] { assert added[0] in added; }
  }

  /** `refill()`: every marked item is back at the default stock and nothing stays marked. */
  function Refill(L: Ledger): (r: Ledger)
    ensures forall id :: PhysicalOf(r, id) == if id in L.toRefill then DefaultStock else PhysicalOf(L, id)
    ensures r.toRefill == {} && r.orders == L.orders && r.reserved == L.reserved
    ensures Canonical(L.physical) ==> Canonical(r.physical)
  {
    L.(physical := L.physical - L.toRefill, toRefill := {})
  }

  /** `reset()`: every item is back at the default stock. */
  function Reset(L: Ledger): (r: Ledger)
    ensures forall id :: PhysicalOf(r, id) == DefaultStock
    ensures Canonical(r.physical)
    ensures r.orders == L.orders && r.reserved == L.reserved && r.toRefill == L.toRefill
  {
    L.(physical := map[])
  }

  lemma EmptyLedgerValid()
    ensures Valid(EmptyLedger)
  {
    forall id ensures ReservedOf(EmptyLedger, id) == Total(EmptyLedger.orders, id) { }
  }
}
