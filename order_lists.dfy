// The `OrderList` object of js/OrderList.js: its `items`, `ids` and `max`
// fields are updated in place. Each method is proved equal to the matching
// function of module Carts, and the command methods to the perform and undo
// functions whose laws Carts proves.
module OrderLists {
  import opened Wrappers
  import opened Items
  import Carts

  class OrderList {
    var items: map<Carts.ItemId, ItemQuantity>
    var ids: seq<Carts.ItemId>
    var max: Option<int>

    function Model(): Carts.Cart
      reads this
    {
      Carts.Cart(items, ids, max)
    }

    ghost predicate Valid()
      reads this
    {
      Carts.Valid(Model())
    }

    /** `new OrderList(maxItems)`; `None` is the default `Infinity`. */
    constructor (maxItems: Option<int>)
      ensures Valid() && Model() == Carts.NewCart(maxItems)
    {
      items, ids := map[], [];
      max := if maxItems.None? then None else Some(if maxItems.value < 0 then 0 else maxItems.value);
    }

    /** `length()`: a walk over the iterator, summing quantities. */
    method Length() returns (n: int)
      requires Valid()
      ensures n == Carts.Length(Model())
    {
      n := 0;
      var i := 0;
      while i < |ids|
        invariant 0 <= i <= |ids|
        invariant n == Carts.QtyOver(items, ids[..i])
      {
        assert ids[..i + 1][..i] == ids[..i];
        assert ids[i] in ids;
        n := n + items[ids[i]].quantity;
        i := i + 1;
      }
      assert ids[..|ids|] == ids;
    }

    function IxToId(ix: int): (r: Option<Carts.ItemId>)
      reads this
      ensures r == Carts.IxToId(Model(), ix)
    {
      if 0 <= ix < |ids| then Some(ids[ix]) else None
    }

    function IdToIx(id: Carts.ItemId): (r: int)
      reads this
      ensures r == Carts.IndexOf(Model().ids, id)
    {
      Carts.IndexOf(ids, id)
    }

    /**
     * The intended `getItemQuantityById(id)` of js/OrderList.js:194-196: the
     * entry of `id`, or `undefined`. In the file this definition is replaced
     * by the index-taking one at lines 199-201; that one, as written, is
     * Carts.EntryAsWritten.
     */
    function GetItemQuantityById(id: Carts.ItemId): (r: Option<ItemQuantity>)
      reads this
      ensures r.Some? <==> id in items
      ensures r.Some? ==> r.value == items[id]
    {
      if id in items then Some(items[id]) else None
    }

    /** `addItem(item, q, offset)`: false, and nothing changed, past the cap. */
    method AddItem(item: Item, q: int, offset: int) returns (ok: bool)
      requires Valid()
      modifies this
      ensures Valid()
      ensures ok == Carts.Fits(old(Model()), q)
      ensures Model() == Carts.AddItem(old(Model()), item, q, offset)
    {
      Carts.AddItemValid(Model(), item, q, offset);
      var n := Length();
      if max.Some? && n + q > max.value {
        return false;
      }
      if item.id in items {
        items := items[item.id := items[item.id].(quantity := items[item.id].quantity + q)];
      } else {
        items := items[item.id := ItemQuantity(item, q)];
        var k := Carts.SpliceStart(offset, |ids|);
        ids := ids[..k] + [item.id] + ids[k..];
      }
      ok := true;
    }

    /** `removeItem(id, q)`: the remaining quantity floored at 0, or `None` for an absent id. */
    method RemoveItem(id: Carts.ItemId, q: int) returns (r: Option<int>)
      requires Valid()
      modifies this
      ensures Valid()
      ensures r == Carts.RemoveResult(old(Model()), id, q)
      ensures Model() == Carts.RemoveItem(old(Model()), id, q)
    {
      Carts.RemoveItemValid(Model(), id, q);
      if id !in items {
        return None;
      }
      var oldQuantity := items[id].quantity;
      if oldQuantity <= q {
        items := items - {id};
        var index := IdToIx(id);
        ids := Carts.RemoveAt(ids, index);
      } else {
        items := items[id := items[id].(quantity := items[id].quantity - q)];
      }
      r := Some(if oldQuantity - q < 0 then 0 else oldQuantity - q);
    }

    /** `addItemCommand`'s perform. */
    method PerformAdd(item: Item, q: int, offset: int) returns (success: bool)
      requires Valid()
      modifies this
      ensures Valid()
      ensures (Model(), success) == Carts.PerformAdd(old(Model()), item, q, offset)
    {
      success := AddItem(item, q, offset);
    }

    /** `addItemCommand`'s undo. */
    method UndoAdd(item: Item, q: int) returns (success: bool)
      requires Valid()
      modifies this
      ensures Valid()
      ensures (Model(), success) == Carts.UndoAdd(old(Model()), item, q)
    {
      var res := RemoveItem(item.id, q);
      success := res.Some?;
    }

    /** `removeItemCommand`'s perform: `None` is `{success: false}`. */
    method PerformRemove(id: Carts.ItemId, q: int) returns (result: Option<Carts.RemovedEntry>)
      requires Valid()
      modifies this
      ensures Valid()
      ensures var p := Carts.PerformRemove(old(Model()), id, q);
        (p.None? ==> result.None? && Model() == old(Model()))
        && (p.Some? ==> result == Some(p.value.1) && Model() == p.value.0)
    {
      var prior := GetItemQuantityById(id);
      if prior.None? {
        return None;
      }
      var oldIx := IdToIx(id);
      var toRemove := Carts.ToRemove(prior.value.quantity, q);
      var _ := RemoveItem(id, toRemove);
      result := Some(Carts.RemovedEntry(oldIx, prior.value.item, toRemove));
    }

    /** `removeItemCommand`'s undo. */
    method UndoRemove(e: Carts.RemovedEntry) returns (success: bool)
      requires Valid()
      modifies this
      ensures Valid()
      ensures (Model(), success) == Carts.UndoRemove(old(Model()), e)
    {
      success := AddItem(e.removedItem, e.numRemoved, e.oldIx);
    }

    /** `clearCommand`'s perform: `None` on an empty list, and then nothing changes. */
    method PerformClear() returns (result: Option<Carts.Cleared>)
      requires Valid()
      modifies this
      ensures Valid()
      ensures var p := Carts.PerformClear(old(Model()));
        (p.None? ==> result.None? && Model() == old(Model()))
        && (p.Some? ==> result == Some(p.value.1) && Model() == p.value.0)
    {
      if |ids| == 0 {
        return None;
      }
      result := Some(Carts.Cleared(items, ids));
      items := map[];
      ids := [];
    }

    /** `clearCommand`'s undo: put the recorded entries and ids back. */
    method UndoClear(s: Carts.Cleared)
      modifies this
      ensures Model() == Carts.UndoClear(old(Model()), s)
    {
      items := s.oldItems;
      ids := s.oldIds;
    }
  }
}
