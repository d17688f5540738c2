// The command algebra of js/UndoManager.js. A `Command` of the source bundles
// three closures; here it is a tagged value naming one of the concrete
// commands the model layer builds (js/OrderList.js, js/Stock.js,
// js/MenuManager.js, the page reset of the two Model.js files) or the
// composition `augment` makes, and `Perform`, `Undo` and `Redo` interpret it
// over one world: the stock ledger, the cart, the menu manager's state and the
// page index. Class `Models.Model` runs the same interpretation on the
// objects themselves.
module Commands {
  import opened Wrappers
  import opened Items
  import Ledgers
  import Carts
  import Menus

  // ---------------------------------------------------------------------------
  // Results

  /** The `result` values the commands hand from `perform` to `undo` and from `undo` to `redo`. */
  datatype Value =
    | Undefined
    | OldQuantity(q: int)
    | Order(lines: Ledgers.CompactOrder)
    | Marked(ids: seq<Ledgers.ItemId>)
    | Removed(entry: Carts.RemovedEntry)
    | ClearedItems(cleared: Carts.Cleared)
    | OldMenu(saved: Menus.SavedMenu)
    | BothMenus(menus: Menus.MenuPair)
    | Attempt(succeeded: bool, inner: Value)
    | Pair(res1: Value, res2: Value)

  /** What a closure returns: `undefined`, or an object whose `success` may be missing or not a boolean (`None`). */
  datatype Return = Missing | Returned(success: Option<bool>, result: Value)

  /** `{success, result}` as the command hands it on. */
  datatype Outcome = Outcome(success: bool, result: Value)

  /** A closure's return that `convertCommandReturn` accepts. */
  predicate Conforms(ret: Return)
  {
    ret.Missing? || ret.success.Some?
  }

  /**
   * `convertCommandReturn`: `undefined` becomes a success without result, an
   * object without a boolean `success` becomes `undefined` (`None`), and any
   * other object is handed on unchanged.
   */
  function ConvertCommandReturn(ret: Return): (r: Option<Outcome>)
    ensures r.Some? <==> Conforms(ret)
    ensures ret.Missing? ==> r == Some(Outcome(true, Undefined))
    ensures ret.Returned? && r.Some? ==> r.value.success == ret.success.value && r.value.result == ret.result
  {
    match ret
    case Missing => Some(Outcome(true, Undefined))
    case Returned(success, result) => if success.None? then None else Some(Outcome(success.value, result))
  }

  /** The object form of an outcome. */
  function AsReturn(o: Outcome): (ret: Return)
    ensures Conforms(ret)
  {
    Returned(Some(o.success), o.result)
  }

  /** Converting an outcome already in `{success, result}` form gives it back: conversion is idempotent. */
  lemma ConvertPassesOutcome(o: Outcome)
    ensures ConvertCommandReturn(AsReturn(o)) == Some(o)
  {
  }

  function Convert(ret: Return): Outcome
    requires Conforms(ret)
  {
    ConvertCommandReturn(ret).value
  }

  // ---------------------------------------------------------------------------
  // Commands and the world they act on

  /** The filters a `modifyFilterCommand` modifier computes from the current ones. */
  type Modifier = Menus.Filters -> Menus.Filters

  datatype Command =
    | AddItem(item: Item, quantity: int, offset: int)
    | RemoveItem(id: Carts.ItemId, quantity: int)
    | Clear
    | SetPhysical(id: Ledgers.ItemId, quantity: int)
    | ModifyPhysical(id: Ledgers.ItemId, delta: int)
    | RemoveOrder(table: Ledgers.Table)
    | CommitOrder(table: Ledgers.Table)
    | OrderRefill(arg: Ledgers.RefillArg)
    | ModifyFilter(modifier: Modifier, preserve: bool)
    | ResetPage
    | Unfailing(command: Command)
    | Augment(first: Command, second: Command)

  /** A command built by one factory of the model layer rather than by `augment` or `unfailing`. */
  predicate Primitive(c: Command)
  {
    !c.Augment? && !c.Unfailing?
  }

  /** Everything the commands read or change; `db` is the menu manager's database, which none changes. */
  datatype World = World(db: seq<Item>, stock: Ledgers.Ledger, cart: Carts.Cart, menu: Menus.MenuState, pageIx: int)

  /** What the closures of a primitive command return on `perform`. */
  function PerformPrimitive(w: World, c: Command): (r: (World, Return))
    requires Primitive(c)
    ensures Conforms(r.1)
  {
    match c
    case AddItem(item, q, offset) =>
      var (cart, ok) := Carts.PerformAdd(w.cart, item, q, offset);
      (w.(cart := cart), Returned(Some(ok), Undefined))
    case RemoveItem(id, q) =>
      var p := Carts.PerformRemove(w.cart, id, q);
      if p.None? then (w, Returned(Some(false), Undefined))
      else (w.(cart := p.value.0), Returned(Some(true), Removed(p.value.1)))
    case Clear =>
      var p := Carts.PerformClear(w.cart);
      if p.None? then (w, Returned(Some(false), Undefined))
      else (w.(cart := p.value.0), Returned(Some(true), ClearedItems(p.value.1)))
    case SetPhysical(id, q) =>
      var oldQ := Ledgers.PhysicalOf(w.stock, id);
      (w.(stock := Ledgers.SetPhysical(w.stock, id, q)), Returned(Some(oldQ != q), OldQuantity(oldQ)))
    case ModifyPhysical(id, d) =>
      var oldQ := Ledgers.PhysicalOf(w.stock, id);
      (w.(stock := Ledgers.ModifyPhysical(w.stock, id, d)), Returned(Some(d != 0), OldQuantity(oldQ)))
    case RemoveOrder(t) =>
      var removed := Ledgers.OrderOf(w.stock, t);
      if removed.None? then (w, Returned(Some(false), Undefined))
      else (w.(stock := Ledgers.RemoveOrder(w.stock, t)), Returned(Some(true), Order(removed.value)))
    case CommitOrder(t) =>
      var committed := Ledgers.OrderOf(w.stock, t);
      if committed.None? then (w, Returned(Some(false), Undefined))
      else (w.(stock := Ledgers.CommitOrder(w.stock, t)), Returned(Some(true), Order(committed.value)))
    case OrderRefill(arg) =>
      var marked := Ledgers.NotMarked(Ledgers.AsIds(arg), w.stock.toRefill);
      var w1 := w.(stock := Ledgers.OrderRefill(w.stock, Ledgers.AsIds(arg)));
      if |marked| > 0 then (w1, Returned(Some(true), Marked(marked))) else (w1, Returned(Some(false), Undefined))
    case ModifyFilter(modifier, preserve) =>
      var (st, saved) := Menus.PerformModifyFilter(w.menu, w.db, w.stock, modifier(w.menu.filters), preserve);
      if saved.None? then (w.(menu := st), Returned(Some(false), Undefined))
      else (w.(menu := st), Returned(Some(true), OldMenu(saved.value)))
    case ResetPage =>
      (w.(pageIx := 0), Missing)
  }

  /** A recorded filter state whose view, if any, has one bucket per main category. */
  predicate SavedWellFormed(s: Menus.SavedMenu)
  {
    s.storedFilteredMenu.None? || Menus.WellFormed(s.storedFilteredMenu.value)
  }

  /** The menu manager's cached menu, if any, has one bucket per main category. */
  predicate StoredWellFormed(st: Menus.MenuState)
  {
    st.stored.None? || Menus.WellFormed(st.stored.value)
  }

  /** What every command keeps: a well formed cart and a well formed cached menu. */
  predicate Kept(w: World)
  {
    Carts.Valid(w.cart) && StoredWellFormed(w.menu)
  }

  /** The result a successful `perform` of `c` hands to its `undo`. */
  predicate PerformShaped(c: Command, v: Value)
    decreases c
  {
    match c
    case AddItem(_, _, _) => v.Undefined?
    case RemoveItem(_, _) => v.Removed?
    case Clear => v.ClearedItems? && Carts.Valid(Carts.Cart(v.cleared.oldItems, v.cleared.oldIds, None))
    case SetPhysical(_, _) => v.OldQuantity?
    case ModifyPhysical(_, _) => v.OldQuantity?
    case RemoveOrder(_) => v.Order?
    case CommitOrder(_) => v.Order?
    case OrderRefill(_) => v.Marked?
    case ModifyFilter(_, _) => v.OldMenu? && SavedWellFormed(v.saved)
    case ResetPage => v.Undefined?
    case Unfailing(inner) => v.Attempt? && (v.succeeded ==> PerformShaped(inner, v.inner))
    case Augment(first, second) => v.Pair? && PerformShaped(first, v.res1) && PerformShaped(second, v.res2)
  }

  /** The result a successful `undo` of `c` hands to its `redo`; a redo that is `perform` takes anything. */
  predicate UndoShaped(c: Command, v: Value)
    decreases c
  {
    match c
    case ModifyFilter(_, _) => v.BothMenus? && SavedWellFormed(v.menus.oldMenu) && SavedWellFormed(v.menus.undoneMenu)
    case Unfailing(inner) => v.Attempt? && (v.succeeded ==> UndoShaped(inner, v.inner))
    case Augment(first, second) => v.Pair? && UndoShaped(first, v.res1) && UndoShaped(second, v.res2)
    case _ => true
  }

  /** What the undo closure of a primitive command returns, given what its perform returned. */
  function UndoPrimitive(w: World, c: Command, v: Value): (r: (World, Return))
    requires Primitive(c) && PerformShaped(c, v)
    ensures Conforms(r.1)
  {
    match c
    case AddItem(item, q, _) =>
      var (cart, ok) := Carts.UndoAdd(w.cart, item, q);
      (w.(cart := cart), Returned(Some(ok), Undefined))
    case RemoveItem(_, _) =>
      var (cart, ok) := Carts.UndoRemove(w.cart, v.entry);
      (w.(cart := cart), Returned(Some(ok), Undefined))
    case Clear =>
      (w.(cart := Carts.UndoClear(w.cart, v.cleared)), Missing)
    case SetPhysical(id, _) =>
      (w.(stock := Ledgers.SetPhysical(w.stock, id, v.q)), Missing)
    case ModifyPhysical(id, _) =>
      (w.(stock := Ledgers.SetPhysical(w.stock, id, v.q)), Missing)
    case RemoveOrder(t) =>
      (w.(stock := Ledgers.AddCompactOrder(w.stock, t, v.lines)), Missing)
    case CommitOrder(t) =>
      (w.(stock := Ledgers.AddCompactOrder(Ledgers.ShiftPhysical(w.stock, v.lines, true), t, v.lines)), Missing)
    case OrderRefill(_) =>
      (w.(stock := Ledgers.Unmark(w.stock, v.ids)), Missing)
    case ModifyFilter(_, preserve) =>
      var (st, menus) := Menus.UndoModifyFilter(w.menu, w.db, w.stock, v.saved, preserve);
      (w.(menu := st), Returned(Some(true), BothMenus(menus)))
    case ResetPage =>
      (w.(pageIx := 0), Missing)
  }

  // ---------------------------------------------------------------------------
  // `perform`, `undo` and `redo`

  /**
   * `command.perform()`. `augment` performs the argument only after a
   * successful first half and reports the second half's success with both
   * results; a failed first half is reported as it is.
   */
  function Perform(w: World, c: Command): (World, Outcome)
    decreases c
  {
    match c
    case Augment(first, second) =>
      var (w1, o1) := Perform(w, first);
      if o1.success then
        var (w2, o2) := Perform(w1, second);
        (w2, Outcome(o2.success, Pair(o1.result, o2.result)))
      else (w1, o1)
    case Unfailing(inner) =>
      var (w1, o1) := Perform(w, inner);
      (w1, Outcome(true, Attempt(o1.success, o1.result)))
    case _ =>
      var (w1, ret) := PerformPrimitive(w, c);
      (w1, Convert(ret))
  }

  /** `command.undo(result)`: an augmented command undoes its first half first, then the argument. */
  function Undo(w: World, c: Command, v: Value): (World, Outcome)
    requires PerformShaped(c, v)
    decreases c
  {
    match c
    case Augment(first, second) =>
      var (w1, o1) := Undo(w, first, v.res1);
      if o1.success then
        var (w2, o2) := Undo(w1, second, v.res2);
        (w2, Outcome(o2.success, Pair(o1.result, o2.result)))
      else (w1, o1)
    case Unfailing(inner) =>
      if v.succeeded then
        var (w1, o1) := Undo(w, inner, v.inner);
        (w1, Outcome(true, Attempt(o1.success, o1.result)))
      else (w, Outcome(true, Attempt(false, Undefined)))
    case _ =>
      var (w1, ret) := UndoPrimitive(w, c, v);
      (w1, Convert(ret))
  }

  /** `command.redo(result)`: a command built without `redo` performs again. */
  function Redo(w: World, c: Command, v: Value): (World, Outcome)
    requires UndoShaped(c, v)
    decreases c
  {
    match c
    case Augment(first, second) =>
      var (w1, o1) := Redo(w, first, v.res1);
      if o1.success then
        var (w2, o2) := Redo(w1, second, v.res2);
        (w2, Outcome(o2.success, Pair(o1.result, o2.result)))
      else (w1, o1)
    case Unfailing(inner) =>
      if v.succeeded then
        var (w1, o1) := Redo(w, inner, v.inner);
        (w1, Outcome(true, Attempt(o1.success, o1.result)))
      else (w, Outcome(true, Attempt(false, Undefined)))
    case ModifyFilter(_, preserve) =>
      var (st, saved) := Menus.RedoModifyFilter(w.menu, v.menus, preserve);
      (w.(menu := st), Convert(Returned(Some(true), OldMenu(saved))))
    case _ => Perform(w, c)
  }

  // ---------------------------------------------------------------------------
  // Laws

  /** A command without its own `redo` redoes by performing again, whatever it is given. */
  lemma RedoDefaultsToPerform(w: World, c: Command, v: Value)
    requires Primitive(c) && !c.ModifyFilter?
    ensures UndoShaped(c, v) && Redo(w, c, v) == Perform(w, c)
  {
  }

  /**
   * Results flow round: a successful perform or redo yields what undo takes,
   * and a successful undo yields what redo takes. Every step keeps the cart
   * well formed.
   */
  lemma {:induction false} PerformShapes(w: World, c: Command)
    requires Kept(w)
    ensures var (w1, o) := Perform(w, c);
      Kept(w1) && (o.success ==> PerformShaped(c, o.result))
    decreases c
  {
    match c
    case Augment(first, second) =>
      PerformShapes(w, first);
      var (w1, o1) := Perform(w, first);
      if o1.success {
        PerformShapes(w1, second);
      }
    case Unfailing(inner) =>
      PerformShapes(w, inner);
    case AddItem(item, q, offset) =>
      Carts.AddItemValid(w.cart, item, q, offset);
    case RemoveItem(id, q) =>
      if id in w.cart.items {
        Carts.RemoveItemValid(w.cart, id, Carts.ToRemove(w.cart.items[id].quantity, q));
      }
    case _ =>
  }

  lemma {:induction false} UndoShapes(w: World, c: Command, v: Value)
    requires Kept(w) && PerformShaped(c, v)
    ensures var (w1, o) := Undo(w, c, v);
      Kept(w1) && (o.success ==> UndoShaped(c, o.result))
    decreases c
  {
    match c
    case Augment(first, second) =>
      UndoShapes(w, first, v.res1);
      var (w1, o1) := Undo(w, first, v.res1);
      if o1.success {
        UndoShapes(w1, second, v.res2);
      }
    case Unfailing(inner) =>
      if v.succeeded {
        UndoShapes(w, inner, v.inner);
      }
    case AddItem(item, q, _) =>
      Carts.RemoveItemValid(w.cart, item.id, q);
    case RemoveItem(_, _) =>
      Carts.AddItemValid(w.cart, v.entry.removedItem, v.entry.numRemoved, v.entry.oldIx);
    case _ =>
  }

  lemma {:induction false} RedoShapes(w: World, c: Command, v: Value)
    requires Kept(w) && UndoShaped(c, v)
    ensures var (w1, o) := Redo(w, c, v);
      Kept(w1) && (o.success ==> PerformShaped(c, o.result))
    decreases c
  {
    match c
    case Augment(first, second) =>
      RedoShapes(w, first, v.res1);
      var (w1, o1) := Redo(w, first, v.res1);
      if o1.success {
        RedoShapes(w1, second, v.res2);
      }
    case Unfailing(inner) =>
      if v.succeeded {
        RedoShapes(w, inner, v.inner);
      }
    case ModifyFilter(_, _) =>
    case _ =>
      PerformShapes(w, c);
  }

  /**
   * `augment` is associative in its effect: grouping three commands either
   * way changes the world the same way and succeeds alike.
   */
  lemma AugmentAssociative(w: World, a: Command, b: Command, c: Command)
    ensures var (w1, o1) := Perform(w, Augment(Augment(a, b), c));
      var (w2, o2) := Perform(w, Augment(a, Augment(b, c)));
      w1 == w2 && o1.success == o2.success
  {
    var (wa, oa) := Perform(w, a);
    AugmentStep(w, a, b);
    AugmentStep(w, Augment(a, b), c);
    AugmentStep(w, a, Augment(b, c));
    if oa.success {
      AugmentStep(wa, b, c);
    }
  }

  /** `augment(first, second)` runs `second` on what `first` leaves, only when `first` succeeds. */
  lemma AugmentStep(w: World, first: Command, second: Command)
    ensures var (w1, o1) := Perform(w, first);
      var (w2, o2) := Perform(w, Augment(first, second));
      if o1.success then (w2, o2.success) == (Perform(w1, second).0, Perform(w1, second).1.success)
      else (w2, o2.success) == (w1, false)
  {
  }

  /** A world at its start: nothing stored in the stock, an empty uncapped cart, a new menu manager, the first page. */
  function StartWorld(db: seq<Item>, stockMin: int): (w: World)
    ensures w.cart.ids == [] && w.stock == Ledgers.EmptyLedger && w.pageIx == 0
  {
    World(db, Ledgers.EmptyLedger, Carts.NewCart(None), Menus.NewMenuState(stockMin), 0)
  }

  /**
   * `augment` does not roll back its first half when the second fails: the
   * stock change of `SetPhysical` stays although the composite fails on an
   * empty cart, and an undo manager then records nothing that could undo it.
   */
  lemma AugmentNoRollback(db: seq<Item>, stockMin: int, id: Ledgers.ItemId)
    ensures var w := StartWorld(db, stockMin);
      var (w1, o) := Perform(w, Augment(SetPhysical(id, 5), Clear));
      !o.success && Ledgers.PhysicalOf(w1.stock, id) == 5 && Ledgers.PhysicalOf(w.stock, id) == Ledgers.DefaultStock
  {
  }

  /**
   * The undo of `augment` runs the first half's undo before the argument's.
   * When both halves set the same item's stock, undoing the pair leaves the
   * stock the first undo's value overwritten by the second's, not the value
   * before the perform.
   */
  lemma AugmentUndoOrder(db: seq<Item>, stockMin: int, id: Ledgers.ItemId)
    ensures var w := StartWorld(db, stockMin);
      var c := Augment(SetPhysical(id, 5), SetPhysical(id, 7));
      var (w1, o1) := Perform(w, c);
      o1.success && PerformShaped(c, o1.result)
      && Ledgers.PhysicalOf(Undo(w1, c, o1.result).0.stock, id) == 5
  {
    var w := StartWorld(db, stockMin);
    var L1 := Ledgers.SetPhysical(w.stock, id, 5);
    assert Ledgers.PhysicalOf(L1, id) == 5;
    var L2 := Ledgers.SetPhysical(L1, id, 7);
    assert Ledgers.PhysicalOf(L2, id) == 7;
  }

  /** A primitive command's `perform` is its closure's return, converted. */
  lemma PerformIsPrimitive(w: World, c: Command)
    requires Primitive(c)
    ensures Perform(w, c) == (PerformPrimitive(w, c).0, Convert(PerformPrimitive(w, c).1))
  {
  }

  lemma RefillPrimitive(w: World, ids: seq<Ledgers.ItemId>)
    ensures var added := Ledgers.NotMarked(ids, w.stock.toRefill);
      PerformPrimitive(w, OrderRefill(Ledgers.Ids(ids)))
        == (w.(stock := Ledgers.OrderRefill(w.stock, ids)),
            if added == [] then Returned(Some(false), Undefined) else Returned(Some(true), Marked(added)))
  {
  }

  /** A primitive command's `undo` is its undo closure's return, converted. */
  lemma UndoIsPrimitive(w: World, c: Command, v: Value)
    requires Primitive(c) && PerformShaped(c, v)
    ensures Undo(w, c, v) == (UndoPrimitive(w, c, v).0, Convert(UndoPrimitive(w, c, v).1))
  {
  }

  /** The undo closure of `orderRefillCommand` unmarks what its perform reported marked. */
  lemma UnmarkPrimitive(x: World, ids: seq<Ledgers.ItemId>, added: seq<Ledgers.ItemId>)
    ensures UndoPrimitive(x, OrderRefill(Ledgers.Ids(ids)), Marked(added)) == (x.(stock := Ledgers.Unmark(x.stock, added)), Missing)
  {
  }

  /** What `orderRefillCommand(ids)` does to the world and returns. */
  lemma PerformRefill(w: World, ids: seq<Ledgers.ItemId>)
    ensures var added := Ledgers.NotMarked(ids, w.stock.toRefill);
      Perform(w, OrderRefill(Ledgers.Ids(ids)))
        == (w.(stock := Ledgers.OrderRefill(w.stock, ids)),
            if added == [] then Outcome(false, Undefined) else Outcome(true, Marked(added)))
  {
    PerformIsPrimitive(w, OrderRefill(Ledgers.Ids(ids)));
    RefillPrimitive(w, ids);
  }

  /** The undo of `orderRefillCommand(ids)` unmarks what it was given and succeeds. */
  lemma UndoRefill(x: World, ids: seq<Ledgers.ItemId>, added: seq<Ledgers.ItemId>)
    ensures Undo(x, OrderRefill(Ledgers.Ids(ids)), Marked(added)) == (x.(stock := Ledgers.Unmark(x.stock, added)), Outcome(true, Undefined))
  {
    UndoIsPrimitive(x, OrderRefill(Ledgers.Ids(ids)), Marked(added));
    UnmarkPrimitive(x, ids, added);
  }

  /** `unfailing(c)` reports success whatever `c` reported, and its undo undoes `c` only after a successful perform. */
  lemma UnfailingSteps(w: World, x: World, inner: Command, succeeded: bool, v: Value)
    ensures var (w1, o1) := Perform(w, inner);
      Perform(w, Unfailing(inner)) == (w1, Outcome(true, Attempt(o1.success, o1.result)))
    ensures PerformShaped(Unfailing(inner), Attempt(succeeded, v)) <==> (succeeded ==> PerformShaped(inner, v))
    ensures !succeeded ==> Undo(x, Unfailing(inner), Attempt(succeeded, v)) == (x, Outcome(true, Attempt(false, Undefined)))
    ensures succeeded && PerformShaped(inner, v) ==>
      var (x1, p1) := Undo(x, inner, v);
      Undo(x, Unfailing(inner), Attempt(succeeded, v)) == (x1, Outcome(true, Attempt(p1.success, p1.result)))
  {
  }

  /** What the unfailing `orderRefillCommand(ids)` hands to its undo: whether anything was marked, and what. */
  function RefillAttempt(added: seq<Ledgers.ItemId>): Value
  {
    Attempt(added != [], if added == [] then Undefined else Marked(added))
  }

  /** The unfailing `orderRefillCommand(ids)` marks every id, always reports success and hands its undo a well shaped result. */
  lemma PerformUnfailingRefill(w: World, ids: seq<Ledgers.ItemId>)
    ensures var u := Unfailing(OrderRefill(Ledgers.Ids(ids)));
      var added := Ledgers.NotMarked(ids, w.stock.toRefill);
      Perform(w, u) == (w.(stock := Ledgers.OrderRefill(w.stock, ids)), Outcome(true, RefillAttempt(added)))
      && PerformShaped(u, RefillAttempt(added))
  {
    var inner := OrderRefill(Ledgers.Ids(ids));
    PerformRefill(w, ids);
    var o := Perform(w, inner).1;
    UnfailingSteps(w, w, inner, o.success, o.result);
  }

  /** Its undo unmarks exactly what was marked, and succeeds. */
  lemma UndoUnfailingRefill(x: World, ids: seq<Ledgers.ItemId>, added: seq<Ledgers.ItemId>)
    ensures var u := Unfailing(OrderRefill(Ledgers.Ids(ids)));
      PerformShaped(u, RefillAttempt(added))
      && Undo(x, u, RefillAttempt(added))
        == (if added == [] then x else x.(stock := Ledgers.Unmark(x.stock, added)), Outcome(true, Attempt(added != [], Undefined)))
  {
    var inner := OrderRefill(Ledgers.Ids(ids));
    UnfailingSteps(x, x, inner, added != [], Marked(added));
    if added != [] {
      UndoRefill(x, ids, added);
    }
  }

  /** `augment(first, second)` step by step: its perform, the shape of what it hands its undo, and that undo. */
  lemma AugmentSteps(w: World, x: World, first: Command, second: Command, v1: Value, v2: Value)
    ensures var (w1, o1) := Perform(w, first);
      var (w2, o2) := Perform(w1, second);
      Perform(w, Augment(first, second)) == if o1.success then (w2, Outcome(o2.success, Pair(o1.result, o2.result))) else (w1, o1)
    ensures PerformShaped(Augment(first, second), Pair(v1, v2)) <==> PerformShaped(first, v1) && PerformShaped(second, v2)
    ensures PerformShaped(first, v1) && PerformShaped(second, v2) ==>
      var (x1, p1) := Undo(x, first, v1);
      var (x2, p2) := Undo(x1, second, v2);
      Undo(x, Augment(first, second), Pair(v1, v2)) == if p1.success then (x2, Outcome(p2.success, Pair(p1.result, p2.result))) else (x1, p1)
  {
  }

  /** `clearCommand` step by step: it empties a nonempty cart and hands its undo the old contents, which the undo puts back. */
  lemma ClearSteps(w: World, x: World, v: Value)
    ensures var p := Carts.PerformClear(w.cart);
      Perform(w, Clear) == if p.None? then (w, Outcome(false, Undefined)) else (w.(cart := p.value.0), Outcome(true, ClearedItems(p.value.1)))
    ensures PerformShaped(Clear, v) ==> Undo(x, Clear, v) == (x.(cart := Carts.UndoClear(x.cart, v.cleared)), Outcome(true, Undefined))
  {
    PerformIsPrimitive(w, Clear);
    if PerformShaped(Clear, v) {
      UndoIsPrimitive(x, Clear, v);
    }
  }

  /** A world in which every command that can be undone exactly is undone exactly. */
  ghost predicate Sound(w: World)
  {
    Ledgers.Valid(w.stock) && Kept(w) && Carts.Positive(w.cart) && Carts.Bounded(w.cart)
  }

  /** A primitive command acting on the cart or the stock. */
  predicate OnCartOrStock(c: Command)
  {
    c.AddItem? || c.RemoveItem? || c.Clear? || c.SetPhysical? || c.ModifyPhysical?
    || c.RemoveOrder? || c.CommitOrder? || c.OrderRefill?
  }

  /**
   * Each cart and stock command's undo restores the world it was performed
   * in and succeeds, and the redo then repeats the perform exactly.
   */
  lemma PerformUndoRestores(w: World, c: Command)
    requires Sound(w) && OnCartOrStock(c)
    ensures var (w1, o1) := Perform(w, c);
      o1.success ==>
        PerformShaped(c, o1.result)
        && var (w2, o2) := Undo(w1, c, o1.result);
        w2 == w && o2.success && Redo(w2, c, o2.result) == (w1, o1)
  {
    PerformShapes(w, c);
    var L := w.stock;
    match c
    case AddItem(item, q, offset) =>
      Carts.AddCommandUndo(w.cart, item, q, offset);
    case RemoveItem(id, q) =>
      Carts.RemoveCommandUndo(w.cart, id, q);
    case Clear =>
      Carts.ClearCommandUndo(w.cart);
    case SetPhysical(id, q) =>
      Ledgers.SetPhysicalUndo(L, id, q);
    case ModifyPhysical(id, d) =>
      Ledgers.SetPhysicalUndo(L, id, Ledgers.PhysicalOf(L, id) + d);
    case RemoveOrder(t) =>
      if t in L.orders {
        Ledgers.RemoveOrderUndo(L, t);
      }
    case CommitOrder(t) =>
      if t in L.orders {
        Ledgers.CommitOrderUndo(L, t);
      }
    case OrderRefill(arg) =>
      Ledgers.OrderRefillSpec(L, Ledgers.AsIds(arg));
  }
}
