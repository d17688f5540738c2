// The cart of js/OrderList.js as a value: a map from item id to ItemQuantity,
// the ids in display order, and an optional cap on the total quantity
// (`None` is `Infinity`). Module OrderLists holds the class that updates these
// fields in place; this module gives the operations as functions and proves
// their laws, including the undo laws of the three cart commands and the JSON
// round trip.
module Carts {
  import opened Wrappers
  import opened Json
  import opened Items

  type ItemId = string

  datatype Cart = Cart(items: map<ItemId, ItemQuantity>, ids: seq<ItemId>, max: Option<int>)

  /** `new OrderList(maxItems)`: an empty cart whose cap is clamped to at least 0. */
  function NewCart(maxItems: Option<int>): (c: Cart)
    ensures c.items == map[] && c.ids == []
    ensures c.max.None? <==> maxItems.None?
    ensures maxItems.Some? ==> c.max.value >= 0 && c.max.value >= maxItems.value
    ensures maxItems.Some? && maxItems.value >= 0 ==> c.max == maxItems
  {
    Cart(map[], [], if maxItems.None? then None else Some(if maxItems.value < 0 then 0 else maxItems.value))
  }

  predicate NoDup(s: seq<ItemId>)
  {
    forall i, j | 0 <= i < j < |s| :: s[i] != s[j]
  }

  /** `ids` lists every key of `items` exactly once, and each entry is keyed by its item's id. */
  predicate Valid(c: Cart)
  {
    NoDup(c.ids)
    && (forall k | k in c.items :: k in c.ids)
    && (forall k | k in c.ids :: k in c.items)
    && (forall k | k in c.items :: c.items[k].item.id == k)
  }

  /** Every entry holds a positive quantity. */
  predicate Positive(c: Cart)
  {
    forall k | k in c.items :: c.items[k].quantity >= 1
  }

  // ---------------------------------------------------------------------------
  // Reading the cart

  /** The iterator: the entries in `ids` order. */
  function Entries(items: map<ItemId, ItemQuantity>, ids: seq<ItemId>): (r: seq<ItemQuantity>)
    requires forall k | k in ids :: k in items
    ensures |r| == |ids|
    ensures forall i | 0 <= i < |ids| :: r[i] == items[ids[i]]
  {
    if |ids| == 0 then [] else Entries(items, ids[..|ids| - 1]) + [items[ids[|ids| - 1]]]
  }

  function SumQuantities(es: seq<ItemQuantity>): int
  {
    if |es| == 0 then 0 else SumQuantities(es[..|es| - 1]) + es[|es| - 1].quantity
  }

  function QtyOf(m: map<ItemId, ItemQuantity>, k: ItemId): int
  {
    if k in m then m[k].quantity else 0
  }

  /** The total quantity stored under the ids of `ids`. */
  function QtyOver(m: map<ItemId, ItemQuantity>, ids: seq<ItemId>): int
  {
    if |ids| == 0 then 0 else QtyOver(m, ids[..|ids| - 1]) + QtyOf(m, ids[|ids| - 1])
  }

  /** `length()`: the total quantity over the entries, in `ids` order. */
  function Length(c: Cart): int
  {
    QtyOver(c.items, c.ids)
  }

  /** The length is the sum of the quantities the iterator yields. */
  lemma {:induction false} LengthIsIterated(m: map<ItemId, ItemQuantity>, ids: seq<ItemId>)
    requires forall k | k in ids :: k in m
    ensures SumQuantities(Entries(m, ids)) == QtyOver(m, ids)
  {
    if |ids| > 0 {
      var init := ids[..|ids| - 1];
      LengthIsIterated(m, init);
      assert Entries(m, ids)[..|ids| - 1] == Entries(m, init);
    }
  }

  /** `ixToId(ix)`: `ids[ix]`, or `undefined` out of range. */
  function IxToId(c: Cart, ix: int): (r: Option<ItemId>)
    ensures r.Some? <==> 0 <= ix < |c.ids|
    ensures r.Some? ==> r.value == c.ids[ix]
  {
    if 0 <= ix < |c.ids| then Some(c.ids[ix]) else None
  }

  /** `ids.indexOf(x)`: the first position of `x`, or -1. */
  function IndexOf(s: seq<ItemId>, x: ItemId): (r: int)
    ensures -1 <= r < |s|
    ensures r == -1 <==> x !in s
    ensures r >= 0 ==> s[r] == x && forall j | 0 <= j < r :: s[j] != x
  {
    if |s| == 0 then -1
    else if s[0] == x then 0
    else var k := IndexOf(s[1..], x); if k < 0 then -1 else k + 1
  }

  /** `getItemQuantityById(id)`, as `removeItemCommand` means it: the entry for the id. */
  function EntryOf(c: Cart, id: ItemId): Option<ItemQuantity>
  {
    if id in c.items then Some(c.items[id]) else None
  }

  // ---------------------------------------------------------------------------
  // Array splicing

  /** Where `splice(offset, …)` starts: a negative offset counts from the end; both are clamped. */
  function SpliceStart(offset: int, len: nat): (k: nat)
    ensures k <= len
    ensures 0 <= offset <= len ==> k == offset
  {
    if offset < 0 then (if len + offset < 0 then 0 else len + offset)
    else if offset > len then len else offset
  }

  /** `s.splice(offset, 0, x)`. */
  function InsertAt(s: seq<ItemId>, offset: int, x: ItemId): (r: seq<ItemId>)
    ensures |r| == |s| + 1
    ensures var k := SpliceStart(offset, |s|); r == s[..k] + [x] + s[k..]
  {
    var k := SpliceStart(offset, |s|);
    s[..k] + [x] + s[k..]
  }

  /** `s.splice(index, 1)`. */
  function RemoveAt(s: seq<ItemId>, index: int): (r: seq<ItemId>)
    ensures 0 <= index < |s| ==> r == s[..index] + s[index + 1..]
  {
    var k := SpliceStart(index, |s|);
    if k < |s| then s[..k] + s[k + 1..] else s
  }

  // ---------------------------------------------------------------------------
  // Adding and removing

  /** The cap admits `q` more. */
  predicate Fits(c: Cart, q: int)
  {
    c.max.None? || Length(c) + q <= c.max.value
  }

  /** `addItem(item, q, offset)`. */
  function AddItem(c: Cart, item: Item, q: int, offset: int): Cart
  {
    if !Fits(c, q) then c
    else if item.id in c.items then
      c.(items := c.items[item.id := c.items[item.id].(quantity := c.items[item.id].quantity + q)])
    else
      c.(items := c.items[item.id := ItemQuantity(item, q)], ids := InsertAt(c.ids, offset, item.id))
  }

  /** `removeItem(id, q)`. */
  function RemoveItem(c: Cart, id: ItemId, q: int): Cart
  {
    if id !in c.items then c
    else if c.items[id].quantity <= q then
      c.(items := c.items - {id}, ids := RemoveAt(c.ids, IndexOf(c.ids, id)))
    else
      c.(items := c.items[id := c.items[id].(quantity := c.items[id].quantity - q)])
  }

  /** What `removeItem(id, q)` returns: the remaining quantity, floored at 0, or `undefined`. */
  function RemoveResult(c: Cart, id: ItemId, q: int): (r: Option<int>)
    ensures r.Some? <==> id in c.items
    ensures r.Some? ==> r.value >= 0 && r.value >= c.items[id].quantity - q
    ensures r.Some? && c.items[id].quantity > q ==> r.value == c.items[id].quantity - q
    ensures r.Some? && c.items[id].quantity <= q ==> r.value == 0
  {
    if id !in c.items then None
    else var d := c.items[id].quantity - q; Some(if d < 0 then 0 else d)
  }

  lemma {:induction false} QtyOverAppend(m: map<ItemId, ItemQuantity>, s: seq<ItemId>, t: seq<ItemId>)
    ensures QtyOver(m, s + t) == QtyOver(m, s) + QtyOver(m, t)
    decreases |t|
  {
    if |t| == 0 {
      assert s + t == s;
    } else {
      assert (s + t)[..|s + t| - 1] == s + t[..|t| - 1];
      assert (s + t)[|s + t| - 1] == t[|t| - 1];
      QtyOverAppend(m, s, t[..|t| - 1]);
    }
  }

  lemma {:induction false} QtyOverFrame(m1: map<ItemId, ItemQuantity>, m2: map<ItemId, ItemQuantity>, s: seq<ItemId>)
    requires forall k | k in s :: QtyOf(m1, k) == QtyOf(m2, k)
    ensures QtyOver(m1, s) == QtyOver(m2, s)
  {
    if |s| > 0 {
      assert s[|s| - 1] in s;
      QtyOverFrame(m1, m2, s[..|s| - 1]);
    }
  }

  /** One id between two runs contributes its own quantity. */
  lemma QtyOverSplit(m: map<ItemId, ItemQuantity>, s: seq<ItemId>, id: ItemId, t: seq<ItemId>)
    ensures QtyOver(m, s + [id] + t) == QtyOver(m, s + t) + QtyOf(m, id)
  {
    QtyOverAppend(m, s + [id], t);
    QtyOverAppend(m, s, [id]);
    QtyOverAppend(m, s, t);
    assert QtyOver(m, [id]) == QtyOf(m, id) by {
      assert [id][..0] == [];
    }
  }

  /** In a list without repeats, an id occurs exactly at its index. */
  lemma SplitAtId(ids: seq<ItemId>, id: ItemId)
    requires NoDup(ids) && id in ids
    ensures var i := IndexOf(ids, id);
      0 <= i && ids == ids[..i] + [id] + ids[i + 1..] && id !in ids[..i] && id !in ids[i + 1..]
  {
    var i := IndexOf(ids, id);
    assert ids == ids[..i] + [id] + ids[i + 1..];
  }

  /** A concatenation has no repeats when both halves have none and share nothing. */
  lemma NoDupConcat(a: seq<ItemId>, b: seq<ItemId>)
    ensures NoDup(a + b) <==> NoDup(a) && NoDup(b) && (forall x | x in a :: x !in b)
  {
    if NoDup(a + b) {
      forall i, j | 0 <= i < j < |a| ensures a[i] != a[j] {
        assert a[i] == (a + b)[i] && a[j] == (a + b)[j];
      }
      forall i, j | 0 <= i < j < |b| ensures b[i] != b[j] {
        assert b[i] == (a + b)[|a| + i] && b[j] == (a + b)[|a| + j];
      }
      forall x | x in a ensures x !in b {
        var i :| 0 <= i < |a| && a[i] == x;
        assert (a + b)[i] == x;
        forall j | 0 <= j < |b| ensures b[j] != x {
          assert (a + b)[|a| + j] == b[j];
        }
      }
    }
    if NoDup(a) && NoDup(b) && (forall x | x in a :: x !in b) {
      forall i, j | 0 <= i < j < |a + b| ensures (a + b)[i] != (a + b)[j] {
        if j < |a| {
          assert (a + b)[i] == a[i] && (a + b)[j] == a[j];
        } else if i >= |a| {
          assert (a + b)[i] == b[i - |a|] && (a + b)[j] == b[j - |a|];
        } else {
          assert (a + b)[i] == a[i] && (a + b)[j] == b[j - |a|];
          assert a[i] in a && b[j - |a|] in b;
        }
      }
    }
  }

  /** Inserting an id that is not in the list, or deleting one, keeps it free of repeats. */
  lemma NoDupMiddle(s: seq<ItemId>, x: ItemId, t: seq<ItemId>)
    ensures NoDup(s + [x] + t) <==> NoDup(s + t) && x !in s && x !in t
  {
    NoDupConcat(s + [x], t);
    NoDupConcat(s, [x]);
    NoDupConcat(s, t);
  }

  /** `addItem` keeps the cart well formed. */
  lemma AddItemValid(c: Cart, item: Item, q: int, offset: int)
    requires Valid(c)
    ensures Valid(AddItem(c, item, q, offset))
  {
    var r := AddItem(c, item, q, offset);
    if Fits(c, q) && item.id !in c.items {
      var k := SpliceStart(offset, |c.ids|);
      var s, t := c.ids[..k], c.ids[k..];
      assert c.ids == s + t;
      assert r.ids == s + [item.id] + t;
      NoDupMiddle(s, item.id, t);
    }
  }

  /** A successful `addItem` raises the length by exactly `q`. */
  lemma AddItemLength(c: Cart, item: Item, q: int, offset: int)
    requires Valid(c) && Fits(c, q)
    ensures Length(AddItem(c, item, q, offset)) == Length(c) + q
  {
    var r := AddItem(c, item, q, offset);
    if item.id in c.items {
      SplitAtId(c.ids, item.id);
      var i := IndexOf(c.ids, item.id);
      var s, t := c.ids[..i], c.ids[i + 1..];
      QtyOverSplit(c.items, s, item.id, t);
      QtyOverSplit(r.items, s, item.id, t);
      QtyOverFrame(c.items, r.items, s + t);
    } else {
      var k := SpliceStart(offset, |c.ids|);
      var s, t := c.ids[..k], c.ids[k..];
      assert c.ids == s + t;
      QtyOverSplit(r.items, s, item.id, t);
      QtyOverFrame(c.items, r.items, s + t);
    }
  }

  /**
   * `addItem` fails and changes nothing past the cap. Otherwise an existing
   * id gains the quantity with `ids` unchanged, and a new id gets a fresh
   * entry inserted into `ids` at `offset`; either way the length grows by `q`
   * and no other entry changes.
   */
  lemma AddItemSpec(c: Cart, item: Item, q: int, offset: int)
    requires Valid(c)
    ensures var r := AddItem(c, item, q, offset);
      Valid(r) && r.max == c.max
      && (!Fits(c, q) ==> r == c)
      && (Fits(c, q) ==>
            Length(r) == Length(c) + q
            && r.items.Keys == c.items.Keys + {item.id}
            && (forall k | k in c.items && k != item.id :: r.items[k] == c.items[k]))
      && (Fits(c, q) && item.id in c.items ==>
            r.ids == c.ids && r.items[item.id] == c.items[item.id].(quantity := c.items[item.id].quantity + q))
      && (Fits(c, q) && item.id !in c.items ==>
            r.ids == InsertAt(c.ids, offset, item.id) && r.items[item.id] == ItemQuantity(item, q))
  {
    AddItemValid(c, item, q, offset);
    if Fits(c, q) {
      AddItemLength(c, item, q, offset);
    }
  }

  /** `removeItem` keeps the cart well formed. */
  lemma RemoveItemValid(c: Cart, id: ItemId, q: int)
    requires Valid(c)
    ensures Valid(RemoveItem(c, id, q))
  {
    if id in c.items && c.items[id].quantity <= q {
      RemoveWholeValid(c, id);
    }
  }

  lemma RemoveWholeValid(c: Cart, id: ItemId)
    requires Valid(c) && id in c.items
    ensures Valid(c.(items := c.items - {id}, ids := RemoveAt(c.ids, IndexOf(c.ids, id))))
  {
    SplitAtId(c.ids, id);
    var i := IndexOf(c.ids, id);
    RemoveMiddle(c.ids[..i], id, c.ids[i + 1..]);
  }

  /** Taking the one `x` out of a repeat-free sequence leaves it repeat-free with every other member. */
  lemma RemoveMiddle(s: seq<ItemId>, x: ItemId, t: seq<ItemId>)
    requires NoDup(s + [x] + t)
    ensures NoDup(s + t) && forall k :: k in s + t <==> k in s + [x] + t && k != x
  {
    NoDupMiddle(s, x, t);
  }

  /** `removeItem` lowers the length by what it takes away: all of the entry, or `q`. */
  lemma RemoveItemLength(c: Cart, id: ItemId, q: int)
    requires Valid(c) && id in c.items
    ensures Length(RemoveItem(c, id, q)) == Length(c) - (if c.items[id].quantity <= q then c.items[id].quantity else q)
  {
    var r := RemoveItem(c, id, q);
    SplitAtId(c.ids, id);
    var i := IndexOf(c.ids, id);
    var s, t := c.ids[..i], c.ids[i + 1..];
    QtyOverSplit(c.items, s, id, t);
    assert Length(c) == QtyOver(c.items, s + t) + c.items[id].quantity;
    if c.items[id].quantity <= q {
      RemovedLength(c, id, q, s, t);
    } else {
      assert r.ids == c.ids;
      QtyOverSplit(r.items, s, id, t);
      QtyOverFrame(c.items, r.items, s + t);
    }
  }

  lemma RemovedLength(c: Cart, id: ItemId, q: int, s: seq<ItemId>, t: seq<ItemId>)
    requires id in c.items && c.items[id].quantity <= q
    requires IndexOf(c.ids, id) == |s| && c.ids == s + [id] + t && id !in s && id !in t
    ensures Length(RemoveItem(c, id, q)) == QtyOver(c.items, s + t)
  {
    var n := |s|;
    assert c.ids[..n] == s && c.ids[n + 1..] == t;
    assert RemoveAt(c.ids, n) == s + t;
    forall k | k in s + t ensures QtyOf(c.items, k) == QtyOf(c.items - {id}, k) {
      assert k != id;
    }
    QtyOverFrame(c.items, c.items - {id}, s + t);
  }

  /** A full removal deletes the entry and its `ids` slot. */
  lemma RemoveItemWhole(c: Cart, id: ItemId, q: int)
    requires Valid(c) && id in c.items && c.items[id].quantity <= q
    ensures var r := RemoveItem(c, id, q);
      r.items == c.items - {id} && r.max == c.max
      && var i := IndexOf(c.ids, id); r.ids == c.ids[..i] + c.ids[i + 1..]
  {
    assert id in c.ids;
    RemoveWholeShape(c, id, q);
  }

  lemma RemoveWholeShape(c: Cart, id: ItemId, q: int)
    requires id in c.ids && id in c.items && c.items[id].quantity <= q
    ensures var r := RemoveItem(c, id, q);
      r.items == c.items - {id} && r.max == c.max
      && var i := IndexOf(c.ids, id); r.ids == c.ids[..i] + c.ids[i + 1..]
  {
  }

  /** A partial removal lowers the entry's quantity by `q` and leaves `ids` alone. */
  lemma RemoveItemPart(c: Cart, id: ItemId, q: int)
    requires id in c.items && c.items[id].quantity > q
    ensures var r := RemoveItem(c, id, q);
      r.ids == c.ids && r.max == c.max && r.items == c.items[id := c.items[id].(quantity := c.items[id].quantity - q)]
  {
  }

  /**
   * The undo of `addItemCommand`: removing the added quantity after a
   * successful `addItem` restores the cart exactly, provided the earlier
   * entries held positive quantities.
   */
  lemma AddItemUndo(c: Cart, item: Item, q: int, offset: int)
    requires Valid(c) && Positive(c) && Fits(c, q)
    ensures RemoveResult(AddItem(c, item, q, offset), item.id, q).Some?
    ensures RemoveItem(AddItem(c, item, q, offset), item.id, q) == c
  {
    if item.id in c.items {
      AddExistingUndo(c, item.id, q);
    } else {
      AddNewUndo(c, item, q, offset);
    }
  }

  /** Taking `q` back off an entry that `q` was added to restores it. */
  lemma AddExistingUndo(c: Cart, id: ItemId, q: int)
    requires id in c.items && c.items[id].quantity >= 1
    ensures RemoveItem(c.(items := c.items[id := c.items[id].(quantity := c.items[id].quantity + q)]), id, q) == c
  {
    var a := c.(items := c.items[id := c.items[id].(quantity := c.items[id].quantity + q)]);
    assert RemoveItem(a, id, q).items == c.items;
  }

  /** Removing all of a freshly inserted entry deletes it and its `ids` slot again. */
  lemma AddNewUndo(c: Cart, item: Item, q: int, offset: int)
    requires Valid(c) && item.id !in c.items
    ensures RemoveItem(c.(items := c.items[item.id := ItemQuantity(item, q)], ids := InsertAt(c.ids, offset, item.id)), item.id, q) == c
  {
    assert item.id !in c.ids;
    InsertRemove(c.ids, offset, item.id);
    UpdateRemove(c.items, item.id, ItemQuantity(item, q));
  }

  /** Adding a fresh key and removing it again leaves a map as it was. */
  lemma UpdateRemove<K, V>(m: map<K, V>, x: K, v: V)
    requires x !in m
    ensures m[x := v] - {x} == m
  {
    assert (m[x := v] - {x}).Keys == m.Keys;
  }

  /** An id spliced into a sequence that lacks it is found where it went, and removing it there undoes the splice. */
  lemma InsertRemove(s: seq<ItemId>, offset: int, x: ItemId)
    requires x !in s
    ensures var t := InsertAt(s, offset, x); IndexOf(t, x) == SpliceStart(offset, |s|) && RemoveAt(t, IndexOf(t, x)) == s
  {
    var t := InsertAt(s, offset, x);
    var k := SpliceStart(offset, |s|);
    forall j | 0 <= j < k ensures t[j] != x {
      assert t[j] == s[j];
    }
    assert t[k] == x;
    assert IndexOf(t, x) == k;
    assert t[..k] + t[k + 1..] == s;
  }

  /** The total quantity stays within the cap. */
  predicate Bounded(c: Cart)
  {
    c.max.None? || Length(c) <= c.max.value
  }

  /** Adding a positive quantity keeps the cart well formed, positive and within its cap. */
  lemma AddItemInvariant(c: Cart, item: Item, q: int, offset: int)
    requires Valid(c) && Positive(c) && Bounded(c) && q >= 1
    ensures var r := AddItem(c, item, q, offset); Valid(r) && Positive(r) && Bounded(r)
  {
    AddItemValid(c, item, q, offset);
    if Fits(c, q) {
      AddItemLength(c, item, q, offset);
    }
  }

  /** Removing a non-negative quantity keeps the cart well formed, positive and within its cap. */
  lemma RemoveItemInvariant(c: Cart, id: ItemId, q: int)
    requires Valid(c) && Positive(c) && Bounded(c) && q >= 0
    ensures var r := RemoveItem(c, id, q); Valid(r) && Positive(r) && Bounded(r)
  {
    RemoveItemValid(c, id, q);
    if id in c.items {
      RemoveItemLength(c, id, q);
    }
  }

  // ---------------------------------------------------------------------------
  // The cart commands: what `perform` does and records, and what `undo` does with it

  /** What `removeItemCommand`'s perform records for its undo. */
  datatype RemovedEntry = RemovedEntry(oldIx: int, removedItem: Item, numRemoved: int)

  /** The quantity the command removes: at least 0 and at most what is stored. */
  function ToRemove(stored: int, q: int): (r: int)
    ensures r <= stored
    ensures stored >= 0 ==> r >= 0
    ensures 0 <= q <= stored ==> r == q
  {
    var want := if q < 0 then 0 else q;
    if stored < want then stored else want
  }

  /**
   * `removeItemCommand(id, q)`'s perform: it fails on an absent id, and
   * otherwise removes the clamped quantity and records where the entry was.
   */
  function PerformRemove(c: Cart, id: ItemId, q: int): Option<(Cart, RemovedEntry)>
  {
    var prior := EntryOf(c, id);
    if prior.None? then None
    else
      var n := ToRemove(prior.value.quantity, q);
      Some((RemoveItem(c, id, n), RemovedEntry(IndexOf(c.ids, id), prior.value.item, n)))
  }

  /** `removeItemCommand`'s undo: add the removed quantity back at the old index; the success flag is `addItem`'s. */
  function UndoRemove(c: Cart, e: RemovedEntry): (Cart, bool)
  {
    (AddItem(c, e.removedItem, e.numRemoved, e.oldIx), Fits(c, e.numRemoved))
  }

  lemma InsertAtSplit(s: seq<ItemId>, x: ItemId, t: seq<ItemId>)
    ensures InsertAt(s + t, |s|, x) == s + [x] + t
  {
    assert (s + t)[..|s|] == s && (s + t)[|s|..] == t;
  }

  lemma MapRestore(m: map<ItemId, ItemQuantity>, k: ItemId)
    requires k in m
    ensures (m - {k})[k := m[k]] == m
  {
  }

  lemma UndoRemoveWhole(c: Cart, id: ItemId, n: int)
    requires Valid(c) && Bounded(c) && id in c.items && c.items[id].quantity == n
    ensures var r := RemoveItem(c, id, n);
      UndoRemove(r, RemovedEntry(IndexOf(c.ids, id), c.items[id].item, n)) == (c, true)
  {
    var r := RemoveItem(c, id, n);
    var i := IndexOf(c.ids, id);
    SplitAtId(c.ids, id);
    var s, t := c.ids[..i], c.ids[i + 1..];
    RemoveItemWhole(c, id, n);
    RemoveItemLength(c, id, n);
    assert Fits(r, n);
    var it := c.items[id].item;
    assert it.id == id && id !in r.items;
    assert r.ids == s + t && |s| == i;
    InsertAtSplit(s, id, t);
    MapRestore(c.items, id);
    assert ItemQuantity(it, n) == c.items[id];
    var a := AddItem(r, it, n, i);
    assert a == r.(items := r.items[id := ItemQuantity(it, n)], ids := InsertAt(r.ids, i, id));
  }

  lemma UndoRemovePart(c: Cart, id: ItemId, n: int)
    requires Valid(c) && Bounded(c) && id in c.items && n < c.items[id].quantity
    ensures var r := RemoveItem(c, id, n);
      UndoRemove(r, RemovedEntry(IndexOf(c.ids, id), c.items[id].item, n)) == (c, true)
  {
    var r := RemoveItem(c, id, n);
    RemoveItemPart(c, id, n);
    RemoveItemLength(c, id, n);
    RemoveItemValid(c, id, n);
    var a := AddItem(r, c.items[id].item, n, IndexOf(c.ids, id));
    assert a.items == c.items;
  }

  /**
   * `removeItemCommand`: perform fails exactly when the id is absent; on
   * success it removes between 0 and the stored quantity, the remainder is
   * what is left, and undo restores the cart exactly and reports success.
   */
  lemma RemoveCommandUndo(c: Cart, id: ItemId, q: int)
    requires Valid(c) && Bounded(c)
    ensures PerformRemove(c, id, q).None? <==> id !in c.items
    ensures PerformRemove(c, id, q).Some? ==>
      var (r, e) := PerformRemove(c, id, q).value;
      e.numRemoved == ToRemove(c.items[id].quantity, q)
      && r == RemoveItem(c, id, e.numRemoved)
      && UndoRemove(r, e) == (c, true)
  {
    if id in c.items {
      var n := ToRemove(c.items[id].quantity, q);
      if n == c.items[id].quantity {
        UndoRemoveWhole(c, id, n);
      } else {
        UndoRemovePart(c, id, n);
      }
    }
  }

  /** `addItemCommand`'s perform: `addItem`, whose result is the success flag. */
  function PerformAdd(c: Cart, item: Item, q: int, offset: int): (Cart, bool)
  {
    (AddItem(c, item, q, offset), Fits(c, q))
  }

  /** `addItemCommand`'s undo: `removeItem`, successful when the id was there. */
  function UndoAdd(c: Cart, item: Item, q: int): (Cart, bool)
  {
    (RemoveItem(c, item.id, q), RemoveResult(c, item.id, q).Some?)
  }

  /** A successful `addItemCommand` is undone exactly, on a cart whose quantities are positive. */
  lemma AddCommandUndo(c: Cart, item: Item, q: int, offset: int)
    requires Valid(c) && Positive(c)
    ensures PerformAdd(c, item, q, offset).1 <==> Fits(c, q)
    ensures !Fits(c, q) ==> PerformAdd(c, item, q, offset).0 == c
    ensures Fits(c, q) ==> UndoAdd(PerformAdd(c, item, q, offset).0, item, q) == (c, true)
  {
    if Fits(c, q) {
      AddItemUndo(c, item, q, offset);
    }
  }

  /** What `clearCommand`'s perform records: the old entries and ids. */
  datatype Cleared = Cleared(oldItems: map<ItemId, ItemQuantity>, oldIds: seq<ItemId>)

  /** `clearCommand`'s perform: it fails on an empty cart. */
  function PerformClear(c: Cart): Option<(Cart, Cleared)>
  {
    if |c.ids| == 0 then None else Some((c.(items := map[], ids := []), Cleared(c.items, c.ids)))
  }

  function UndoClear(c: Cart, s: Cleared): Cart
  {
    c.(items := s.oldItems, ids := s.oldIds)
  }

  /**
   * `clearCommand`: perform fails exactly on an empty cart; otherwise it leaves
   * a well formed cart of length 0 with the cap kept, and undo restores the cart.
   */
  lemma ClearCommandUndo(c: Cart)
    ensures PerformClear(c).None? <==> c.ids == []
    ensures PerformClear(c).Some? ==>
      var (r, s) := PerformClear(c).value;
      Valid(r) && Length(r) == 0 && r.max == c.max && UndoClear(r, s) == c
  {
  }

  // ---------------------------------------------------------------------------
  // `removeItemCommand` as written

  /**
   * The array index a property name denotes: a decimal numeral without
   * leading zeros. Any other name is an ordinary property, absent on an array.
   */
  function ArrayIndex(s: string): (r: Option<nat>)
    ensures r.Some? ==> |s| > 0 && forall i | 0 <= i < |s| :: '0' <= s[i] <= '9'
    ensures |s| > 1 && s[0] == '0' ==> r.None?
  {
    if |s| == 0 || (|s| > 1 && s[0] == '0') then None else Digits(s)
  }

  function Digits(s: string): (r: Option<nat>)
    ensures r.Some? ==> forall i | 0 <= i < |s| :: '0' <= s[i] <= '9'
  {
    if |s| == 0 then Some(0)
    else
      var init := Digits(s[..|s| - 1]);
      var d := s[|s| - 1];
      if init.None? || !('0' <= d <= '9') then None
      else Some(init.value * 10 + (d as int - '0' as int))
  }

  /**
   * The lookup `removeItemCommand` performs as written: the second definition
   * of `getItemQuantityById` replaces the first and reads its argument as an
   * index into `ids`, so the key used is `ids[id]`, or `"undefined"` when that
   * element does not exist.
   */
  function EntryAsWritten(c: Cart, id: ItemId): Option<ItemQuantity>
  {
    var ix := ArrayIndex(id);
    if ix.Some? && ix.value < |c.ids| then EntryOf(c, c.ids[ix.value]) else EntryOf(c, "undefined")
  }

  /** `removeItemCommand(id, q)`'s perform as written. */
  function PerformRemoveAsWritten(c: Cart, id: ItemId, q: int): Option<(Cart, RemovedEntry)>
  {
    var prior := EntryAsWritten(c, id);
    if prior.None? then None
    else
      var n := ToRemove(prior.value.quantity, q);
      Some((RemoveItem(c, id, n), RemovedEntry(IndexOf(c.ids, id), prior.value.item, n)))
  }

  /**
   * As written, removing an item whose id is not the index of an existing
   * position in `ids` always fails, although the item is in the cart and the
   * intended perform succeeds.
   */
  lemma RemoveAsWrittenFails(c: Cart, id: ItemId, q: int)
    requires Valid(c) && id in c.items && "undefined" !in c.items
    requires ArrayIndex(id).None? || ArrayIndex(id).value >= |c.ids|
    ensures PerformRemoveAsWritten(c, id, q).None?
    ensures PerformRemove(c, id, q).Some?
  {
  }

  /** When the id does read as a position, the as-written perform consults the entry stored there. */
  lemma RemoveAsWrittenReadsPosition(c: Cart, id: ItemId)
    requires ArrayIndex(id).Some? && ArrayIndex(id).value < |c.ids|
    ensures EntryAsWritten(c, id) == EntryOf(c, c.ids[ArrayIndex(id).value])
  {
  }

  /** A cart holding one item with id "7": the id is not a position of a one-element `ids`. */
  lemma RemoveAsWrittenExample()
    ensures var it := Item("7", "7", "Lager", "", "Öl", Some(30), false, false, Drink(Some(5)));
      var c := Cart(map["7" := ItemQuantity(it, 2)], ["7"], None);
      Valid(c) && PerformRemoveAsWritten(c, "7", 1).None? && PerformRemove(c, "7", 1).Some?
  {
    var it := Item("7", "7", "Lager", "", "Öl", Some(30), false, false, Drink(Some(5)));
    var c := Cart(map["7" := ItemQuantity(it, 2)], ["7"], None);
    assert Digits("7"[..0]) == Some(0);
    assert ArrayIndex("7") == Some(7);
  }

  // ---------------------------------------------------------------------------
  // The JSON form of a cart

  function IdsToJson(ids: seq<ItemId>): (r: seq<Json>)
    ensures |r| == |ids|
  {
    if |ids| == 0 then [] else IdsToJson(ids[..|ids| - 1]) + [JStr(ids[|ids| - 1])]
  }

  function IdsFromJson(js: seq<Json>): Option<seq<ItemId>>
  {
    if |js| == 0 then Some([])
    else
      var init := IdsFromJson(js[..|js| - 1]);
      var last := js[|js| - 1];
      if init.None? || !last.JStr? then None else Some(init.value + [last.s])
  }

  /** The `items` object: one member per id, holding that entry's JSON form. */
  function ItemsToJson(items: map<ItemId, ItemQuantity>, ids: seq<ItemId>): (r: seq<Member>)
    requires forall k | k in ids :: k in items
    ensures |r| == |ids|
  {
    if |ids| == 0 then []
    else ItemsToJson(items, ids[..|ids| - 1]) + [Member(ids[|ids| - 1], QuantityToJson(items[ids[|ids| - 1]]))]
  }

  function ItemsFromJson(ms: seq<Member>): Option<map<ItemId, ItemQuantity>>
  {
    if |ms| == 0 then Some(map[])
    else
      var init := ItemsFromJson(ms[..|ms| - 1]);
      var last := ms[|ms| - 1];
      var q := QuantityFromJson(last.value);
      if init.None? || q.None? then None else Some(init.value[last.key := q.value])
  }

  /** `toJSON`: the entries, a copy of `ids`, and `max` with `Infinity` written as `null`. */
  function ToJson(c: Cart): Json
    requires Valid(c)
  {
    JObj([Member("items", JObj(ItemsToJson(c.items, c.ids))),
          Member("ids", JArr(IdsToJson(c.ids))),
          Member("max", if c.max.Some? then JNum(c.max.value) else JNull)])
  }

  /** `OrderList.fromJSON`: a `null` max is read back as `Infinity`. */
  function FromJson(j: Json): Option<Cart>
  {
    var items, ids, max := Field(j, "items"), Field(j, "ids"), Field(j, "max");
    if items.None? || !items.value.JObj? || ids.None? || !ids.value.JArr? || max.None? then None
    else
      var m := ItemsFromJson(items.value.members);
      var s := IdsFromJson(ids.value.elems);
      var cap := if max.value.JNull? then Some(None) else if max.value.JNum? then Some(Some(max.value.n)) else None;
      if m.None? || s.None? || cap.None? then None else Some(Cart(m.value, s.value, cap.value))
  }

  lemma {:induction false} IdsRoundTrip(ids: seq<ItemId>)
    ensures IdsFromJson(IdsToJson(ids)) == Some(ids)
  {
    if |ids| > 0 {
      var init := ids[..|ids| - 1];
      IdsRoundTrip(init);
      assert IdsToJson(ids)[..|ids| - 1] == IdsToJson(init);
      assert ids == init + [ids[|ids| - 1]];
    }
  }

  lemma {:induction false} ItemsRoundTrip(items: map<ItemId, ItemQuantity>, ids: seq<ItemId>)
    requires forall k | k in ids :: k in items
    ensures var r := ItemsFromJson(ItemsToJson(items, ids));
      r.Some? && (forall k :: k in r.value <==> k in ids) && (forall k | k in ids :: r.value[k] == items[k])
  {
    if |ids| > 0 {
      var init := ids[..|ids| - 1];
      var last := ids[|ids| - 1];
      ItemsRoundTrip(items, init);
      var m := ItemsFromJson(ItemsToJson(items, init)).value;
      ItemsFromJsonLast(ItemsToJson(items, init), last, items[last], m);
      MapStep(m, items, ids);
    }
  }

  /** Reading one more member adds its entry. */
  lemma ItemsFromJsonLast(ms: seq<Member>, id: ItemId, iq: ItemQuantity, m: map<ItemId, ItemQuantity>)
    requires ItemsFromJson(ms) == Some(m)
    ensures ItemsFromJson(ms + [Member(id, QuantityToJson(iq))]) == Some(m[id := iq])
  {
    assert (ms + [Member(id, QuantityToJson(iq))])[..|ms|] == ms;
    QuantityRoundTrip(iq);
  }

  /** A map agreeing with `items` on exactly the ids but the last agrees on exactly all of them once the last is added. */
  lemma MapStep<K, V>(m: map<K, V>, items: map<K, V>, ids: seq<K>)
    requires |ids| > 0 && forall k | k in ids :: k in items
    requires forall k :: k in m <==> k in ids[..|ids| - 1]
    requires forall k | k in ids[..|ids| - 1] :: m[k] == items[k]
    ensures var m' := m[ids[|ids| - 1] := items[ids[|ids| - 1]]];
      (forall k :: k in m' <==> k in ids) && (forall k | k in ids :: m'[k] == items[k])
  {
    assert ids == ids[..|ids| - 1] + [ids[|ids| - 1]];
  }

  /** Reading back what `toJSON` writes gives the same items, ids and cap. */
  lemma FromJsonParts(j: Json, ims: seq<Member>, es: seq<Json>, m: map<ItemId, ItemQuantity>, ids: seq<ItemId>, max: Option<int>)
    requires Field(j, "items") == Some(JObj(ims)) && ItemsFromJson(ims) == Some(m)
    requires Field(j, "ids") == Some(JArr(es)) && IdsFromJson(es) == Some(ids)
    requires Field(j, "max") == Some(if max.Some? then JNum(max.value) else JNull)
    ensures FromJson(j) == Some(Cart(m, ids, max))
  {
  }

  lemma JsonRoundTrip(c: Cart)
    requires Valid(c)
    ensures FromJson(ToJson(c)) == Some(c)
  {
    var ims := ItemsToJson(c.items, c.ids);
    var ms := [Member("items", JObj(ims)),
               Member("ids", JArr(IdsToJson(c.ids))),
               Member("max", if c.max.Some? then JNum(c.max.value) else JNull)];
    assert ToJson(c) == JObj(ms);
    LookupFirst(ms, "items", 0);
    LookupFirst(ms, "ids", 1);
    LookupFirst(ms, "max", 2);
    ItemsRoundTrip(c.items, c.ids);
    IdsRoundTrip(c.ids);
    var m := ItemsFromJson(ims).value;
    assert m == c.items by {
      assert forall k :: k in m <==> k in c.items;
    }
    FromJsonParts(JObj(ms), ims, IdsToJson(c.ids), c.items, c.ids, c.max);
  }
}
