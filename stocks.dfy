// The `Stock` object of js/Stock.js. Its four fields are updated in place, with
// loops over the order lines as in the source; every method is proved equal to
// the matching function of module Ledgers and keeps the ledger's invariants.
module Stocks {
  import opened Wrappers
  import Items
  import opened Ledgers

  /** The object stored under `reservedStockRef`: the order of each table and the reserved total of each item. */
  datatype StoredReserved = StoredReserved(orders: map<Table, CompactOrder>, items: map<ItemId, int>)

  /**
   * What the three storage keys of a stock hold when `new Stock()` reads
   * them: `None` for a key holding nothing, and the refill marks as the
   * property names of the stored object.
   */
  datatype Stored = Stored(physicalStock: Option<map<ItemId, int>>, reservedStock: Option<StoredReserved>, toRefill: Option<set<ItemId>>)

  /** Storage on a first visit: nothing under any key. */
  const NothingStored := Stored(None, None, None)

  /** The ledger `new Stock()` starts from: each part read back from its key, and each missing part empty. */
  function FromStorage(st: Stored): Ledger
  {
    Ledger(
      st.physicalStock.GetOr(map[]),
      if st.reservedStock.Some? then st.reservedStock.value.orders else map[],
      if st.reservedStock.Some? then st.reservedStock.value.items else map[],
      st.toRefill.GetOr({}))
  }

  /** What `synchronize()` is meant to write: each part of the ledger under its own key. */
  function ToStorage(L: Ledger): Stored
  {
    Stored(Some(L.physical), Some(StoredReserved(L.orders, L.reserved)), Some(L.toRefill))
  }

  /** A stock built from what `synchronize()` wrote holds the ledger that was written, and empty storage gives the empty ledger. */
  lemma StorageRoundTrip(L: Ledger)
    ensures FromStorage(ToStorage(L)) == L
    ensures FromStorage(NothingStored) == EmptyLedger
  {
  }

  class Stock {
    var physical: map<ItemId, int>
    var orders: map<Table, CompactOrder>
    var reserved: map<ItemId, int>
    var toRefill: set<ItemId>
    const defaultStock: int

    function Model(): Ledger
      reads this
    {
      Ledger(physical, orders, reserved, toRefill)
    }

    ghost predicate Valid()
      reads this
    {
      defaultStock == DefaultStock && Ledgers.Valid(Model())
    }

    /**
     * `new Stock()` on what storage holds: every stored part is read back,
     * and a part missing from storage starts empty. With nothing stored, every
     * item is at the default, nothing is reserved and nothing is marked.
     */
    constructor (stored: Stored)
      ensures Model() == FromStorage(stored)
      ensures Valid() <==> Ledgers.Valid(Model())
      ensures stored == NothingStored ==> Valid() && Model() == EmptyLedger
    {
      physical := stored.physicalStock.GetOr(map[]);
      if stored.reservedStock.Some? {
        orders, reserved := stored.reservedStock.value.orders, stored.reservedStock.value.items;
      } else {
        orders, reserved := map[], map[];
      }
      toRefill := stored.toRefill.GetOr({});
      defaultStock := 20;
      EmptyLedgerValid();
    }

    function GetPhysicalStock(id: ItemId): (r: int)
      reads this
      requires Valid()
      ensures r == PhysicalOf(Model(), id)
    {
      if id in physical then physical[id] else defaultStock
    }

    function GetReservedOf(id: ItemId): (r: int)
      reads this
      ensures r == ReservedOf(Model(), id)
    {
      if id in reserved then reserved[id] else 0
    }

    function GetStock(id: ItemId): (r: int)
      reads this
      requires Valid()
      ensures r == Available(Model(), id)
    {
      GetPhysicalStock(id) - GetReservedOf(id)
    }

    method SetPhysicalStock(id: ItemId, q: int) returns (oldQ: int)
      requires Valid()
      modifies this
      ensures Valid()
      ensures oldQ == PhysicalOf(old(Model()), id)
      ensures Model() == SetPhysical(old(Model()), id, q)
    {
      oldQ := GetPhysicalStock(id);
      if oldQ != q {
        if q == defaultStock {
          physical := physical - {id};
        } else {
          physical := physical[id := q];
        }
      }
    }

    method ModifyPhysicalStock(id: ItemId, d: int) returns (oldQ: int)
      requires Valid()
      modifies this
      ensures Valid()
      ensures oldQ == PhysicalOf(old(Model()), id)
      ensures Model() == ModifyPhysical(old(Model()), id, d)
    {
      var cur := GetPhysicalStock(id);
      oldQ := SetPhysicalStock(id, cur + d);
    }

    method RemoveOrder(t: Table) returns (removed: Option<CompactOrder>)
      requires Valid()
      modifies this
      ensures Valid()
      ensures removed == OrderOf(old(Model()), t)
      ensures Model() == Ledgers.RemoveOrder(old(Model()), t)
    {
      RemoveOrderSpec(Model(), t);
      if t !in orders {
        return None;
      }
      var lines := orders[t];
      var i := 0;
      while i < |lines|
        invariant 0 <= i <= |lines|
        invariant reserved == Shift(old(reserved), lines[..i], false)
        invariant physical == old(physical) && orders == old(orders) && toRefill == old(toRefill)
      {
        assert lines[..i + 1][..i] == lines[..i];
        reserved := reserved[lines[i].id := (if lines[i].id in reserved then reserved[lines[i].id] else 0) - lines[i].qty];
        i := i + 1;
      }
      assert lines[..|lines|] == lines;
      orders := orders - {t};
      removed := Some(lines);
    }

    method AddCompactOrder(t: Table, lines: CompactOrder)
      requires Valid()
      modifies this
      ensures Valid()
      ensures Model() == Ledgers.AddCompactOrder(old(Model()), t, lines)
    {
      AddCompactOrderSpec(Model(), t, lines);
      var _ := RemoveOrder(t);
      var i := 0;
      ghost var start := reserved;
      while i < |lines|
        invariant 0 <= i <= |lines|
        invariant reserved == Shift(start, lines[..i], true)
        invariant Model().(reserved := start) == Ledgers.RemoveOrder(old(Model()), t)
      {
        assert lines[..i + 1][..i] == lines[..i];
        reserved := reserved[lines[i].id := (if lines[i].id in reserved then reserved[lines[i].id] else 0) + lines[i].qty];
        i := i + 1;
      }
      assert lines[..|lines|] == lines;
      orders := orders[t := lines];
    }

    method AddOrder(t: Table, entries: seq<Items.ItemQuantity>)
      requires Valid()
      modifies this
      ensures Valid()
      ensures Model() == Ledgers.AddOrder(old(Model()), t, entries)
    {
      var lines: CompactOrder := [];
      var i := 0;
      while i < |entries|
        invariant 0 <= i <= |entries|
        invariant lines == Compact(entries[..i])
      {
        assert entries[..i + 1][..i] == entries[..i];
        lines := lines + [Line(entries[i].item.id, entries[i].quantity)];
        i := i + 1;
      }
      assert entries[..|entries|] == entries;
      AddCompactOrder(t, lines);
    }

    /** `commitOrder(tbl)`, with the committed quantities taken off the physical stock. */
    method CommitOrder(t: Table) returns (committed: Option<CompactOrder>)
      requires Valid()
      modifies this
      ensures Valid()
      ensures committed == OrderOf(old(Model()), t)
      ensures Model() == Ledgers.CommitOrder(old(Model()), t)
    {
      committed := RemoveOrder(t);
      if committed.None? {
        return;
      }
      var lines := committed.value;
      ghost var start := Model();
      var i := 0;
      while i < |lines|
        invariant 0 <= i <= |lines|
        invariant Valid()
        invariant Model() == ShiftPhysical(start, lines[..i], false)
      {
        assert lines[..i + 1][..i] == lines[..i];
        var _ := ModifyPhysicalStock(lines[i].id, -lines[i].qty);
        i := i + 1;
      }
      assert lines[..|lines|] == lines;
    }

    /** The first half of `commitOrderCommand`'s undo: add each line's quantity back. */
    method RestockLines(lines: CompactOrder)
      requires Valid()
      modifies this
      ensures Valid()
      ensures Model() == ShiftPhysical(old(Model()), lines, true)
    {
      var i := 0;
      while i < |lines|
        invariant 0 <= i <= |lines|
        invariant Valid()
        invariant Model() == ShiftPhysical(old(Model()), lines[..i], true)
      {
        assert lines[..i + 1][..i] == lines[..i];
        var _ := ModifyPhysicalStock(lines[i].id, lines[i].qty);
        i := i + 1;
      }
      assert lines[..|lines|] == lines;
    }

    method Reset()
      requires Valid()
      modifies this
      ensures Valid()
      ensures Model() == Ledgers.Reset(old(Model()))
    {
      physical := map[];
    }

    method Refill()
      requires Valid()
      modifies this
      ensures Valid()
      ensures Model() == Ledgers.Refill(old(Model()))
    {
      var pending := toRefill;
      while pending != {}
        invariant pending <= old(toRefill)
        invariant physical == old(physical) - (old(toRefill) - pending)
        invariant orders == old(orders) && reserved == old(reserved) && toRefill == old(toRefill)
        decreases pending
      {
        var id :| id in pending;
        physical := physical - {id};
        pending := pending - {id};
      }
      toRefill := {};
    }

    method OrderRefill(arg: RefillArg) returns (marked: seq<ItemId>)
      requires Valid()
      modifies this
      ensures Valid()
      ensures marked == NotMarked(AsIds(arg), old(toRefill))
      ensures Model() == Ledgers.OrderRefill(old(Model()), AsIds(arg))
    {
      marked := NotMarked(AsIds(arg), toRefill);
      var i := 0;
      while i < |marked|
        invariant 0 <= i <= |marked|
        invariant toRefill == old(toRefill) + Elems(marked[..i])
        invariant physical == old(physical) && orders == old(orders) && reserved == old(reserved)
      {
        assert Elems(marked[..i + 1]) == Elems(marked[..i]) + {marked[i]};
        toRefill := toRefill + {marked[i]};
        i := i + 1;
      }
      assert marked[..|marked|] == marked;
    }

    /** `markedForRefill.forEach(id => delete this.toRefill[id])`. */
    method UnmarkRefill(ids: seq<ItemId>)
      requires Valid()
      modifies this
      ensures Valid()
      ensures Model() == Unmark(old(Model()), ids)
    {
      var i := 0;
      while i < |ids|
        invariant 0 <= i <= |ids|
        invariant toRefill == old(toRefill) - Elems(ids[..i])
        invariant physical == old(physical) && orders == old(orders) && reserved == old(reserved)
      {
        assert Elems(ids[..i + 1]) == Elems(ids[..i]) + {ids[i]};
        toRefill := toRefill - {ids[i]};
        i := i + 1;
      }
      assert ids[..|ids|] == ids;
    }
  }
}
