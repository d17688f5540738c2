// The page models of js/Management/Model.js and js/OrderMenu/Model.js: each
// owns a stock, an order list, the drink menu's manager and a page index that
// its paging methods and its filter command update in place. The command
// methods run a `Commands.Command` on these objects and are proved equal to
// the interpretation of module Commands.
module Models {
  import opened Wrappers
  import opened Items
  import Ledgers
  import Carts
  import Stocks
  import OrderLists
  import Menus
  import MenuManagers
  import Commands
  import Paging

  // ---------------------------------------------------------------------------
  // Paging on world values

  /** `maxPageIx()` in world `w`: the last page of the view `getMenu()` hands out. */
  function LastPage(w: Commands.World, pageSize: int): (r: int)
    requires pageSize > 0 && Commands.StoredWellFormed(w.menu)
    ensures r >= 0
  {
    var v := Menus.GetMenu(w.menu, w.db, w.stock).0;
    Paging.MaxPageIx(Menus.MenuLength(v), pageSize)
  }

  /** The world after `getMenu()`: only the cache may change. */
  function AfterGetMenu(w: Commands.World): Commands.World
  {
    w.(menu := Menus.GetMenu(w.menu, w.db, w.stock).1)
  }

  /**
   * `gotoPage(i)`: the page index becomes `i` when it is available. Only a
   * non-negative `i` reaches `maxPageIx()` and with it `getMenu()`.
   */
  function MoveToPage(w: Commands.World, pageSize: int, i: int): Commands.World
    requires pageSize > 0 && Commands.StoredWellFormed(w.menu)
  {
    if i < 0 then w
    else AfterGetMenu(w).(pageIx := Paging.GotoPage(w.pageIx, i, LastPage(w, pageSize)))
  }

  /**
   * With the cache up to date, `gotoPage` moves exactly to the available
   * pages, leaves everything else as it was, keeps the cache up to date,
   * and leaves the number of pages unchanged.
   */
  lemma GotoPageLaws(w: Commands.World, pageSize: int, i: int)
    requires pageSize > 0 && Commands.StoredWellFormed(w.menu) && Menus.Coherent(w.menu, w.db, w.stock)
    ensures var r := MoveToPage(w, pageSize, i);
      Commands.StoredWellFormed(r.menu) && Menus.Coherent(r.menu, r.db, r.stock)
      && (r.pageIx == i <==> Paging.PageAvailable(i, LastPage(w, pageSize)) || i == w.pageIx)
      && (r.pageIx != i ==> r.pageIx == w.pageIx)
      && r.db == w.db && r.stock == w.stock && r.cart == w.cart
      && r.menu.filters == w.menu.filters && r.menu.mainCategory == w.menu.mainCategory
      && LastPage(r, pageSize) == LastPage(w, pageSize)
      && Menus.GetMenu(r.menu, r.db, r.stock).0 == Menus.GetMenu(w.menu, w.db, w.stock).0
  {
    Menus.GetMenuMemo(w.menu, w.db, w.stock);
    var r := MoveToPage(w, pageSize, i);
    Menus.GetMenuMemo(r.menu, r.db, r.stock);
  }

  // ---------------------------------------------------------------------------
  // The filter command and the refill command

  /** `modifyFilterCommand(modifier, preserve)`: the menu's command augmented with a page reset. */
  function ModifyFilterCommand(modifier: Commands.Modifier, preserve: bool): Commands.Command
  {
    Commands.Augment(Commands.ModifyFilter(modifier, preserve), Commands.ResetPage)
  }

  /**
   * The paged filter command succeeds exactly when the filters change, and
   * it then shows the first page; perform, undo and redo all reset the
   * page index, and undo and redo restore the old and new filters and the
   * views `getMenu` showed under them.
   */
  lemma ModifyFilterCommandLaws(w: Commands.World, modifier: Commands.Modifier, preserve: bool)
    requires Commands.Kept(w) && Menus.Coherent(w.menu, w.db, w.stock)
    ensures var c := ModifyFilterCommand(modifier, preserve);
      var (w1, o1) := Commands.Perform(w, c);
      var newFilters := modifier(w.menu.filters);
      (o1.success <==> newFilters != w.menu.filters)
      && w1.menu.filters == newFilters && w1.stock == w.stock && w1.cart == w.cart
      && (o1.success ==> w1.pageIx == 0)
      && (!o1.success ==> w1.pageIx == w.pageIx)
      && (o1.success ==>
            Commands.PerformShaped(c, o1.result)
            && var (w2, o2) := Commands.Undo(w1, c, o1.result);
            o2.success && w2.pageIx == 0 && w2.menu.filters == w.menu.filters
            && w2.stock == w.stock && w2.cart == w.cart
            && Menus.GetMenu(w2.menu, w2.db, w2.stock).0 == Menus.GetMenu(w.menu, w.db, w.stock).0
            && Commands.UndoShaped(c, o2.result)
            && var (w3, o3) := Commands.Redo(w2, c, o2.result);
            o3.success && w3.pageIx == 0 && w3.menu.filters == newFilters
            && Menus.GetMenu(w3.menu, w3.db, w3.stock).0 == Menus.GetMenu(w1.menu, w1.db, w1.stock).0)
  {
    var newFilters := modifier(w.menu.filters);
    if newFilters != w.menu.filters {
      Menus.ModifyFilterUndo(w.menu, w.db, w.stock, newFilters, preserve);
      Menus.ModifyFilterRedo(w.menu, w.db, w.stock, newFilters, preserve);
      var c := ModifyFilterCommand(modifier, preserve);
      Commands.PerformShapes(w, c);
      var (w1, o1) := Commands.Perform(w, c);
      Commands.UndoShapes(w1, c, o1.result);
    }
  }

  /**
   * `refillItemsCommand()`: mark every id in the refill bar, pretending
   * success when all were marked already, then clear the bar.
   */
  function RefillItemsCommand(ids: seq<Carts.ItemId>): Commands.Command
  {
    Commands.Augment(Commands.Unfailing(Commands.OrderRefill(Ledgers.Ids(ids))), Commands.Clear)
  }

  /** The marking half of the refill command always reports success, and its undo unmarks what it marked, whatever the cart holds by then. */
  lemma MarkHalf(w: Commands.World, x: Commands.World, ids: seq<Carts.ItemId>)
    requires x.stock == Ledgers.OrderRefill(w.stock, ids)
    ensures var u := Commands.Unfailing(Commands.OrderRefill(Ledgers.Ids(ids)));
      var (w1, o1) := Commands.Perform(w, u);
      o1.success && w1 == w.(stock := Ledgers.OrderRefill(w.stock, ids))
      && w1.stock.toRefill == w.stock.toRefill + Ledgers.Elems(ids)
      && Commands.PerformShaped(u, o1.result)
      && var (x1, p1) := Commands.Undo(x, u, o1.result);
      p1.success && x1 == x.(stock := w.stock)
  {
    Ledgers.OrderRefillSpec(w.stock, ids);
    Commands.PerformUnfailingRefill(w, ids);
    var added := Ledgers.NotMarked(ids, w.stock.toRefill);
    Commands.UndoUnfailingRefill(x, ids, added);
    if added == [] {
      assert Ledgers.OrderRefill(w.stock, ids) == w.stock;
    }
  }

  /** What the refill command does on `perform`: mark, then clear a nonempty bar. */
  lemma RefillPerform(w: Commands.World)
    requires Carts.Valid(w.cart)
    ensures var c := RefillItemsCommand(w.cart.ids);
      var (w1, o1) := Commands.Perform(w, c);
      var added := Ledgers.NotMarked(w.cart.ids, w.stock.toRefill);
      (o1.success <==> w.cart.ids != [])
      && (o1.success ==>
            var (r, cl) := Carts.PerformClear(w.cart).value;
            w1 == w.(stock := Ledgers.OrderRefill(w.stock, w.cart.ids), cart := r)
            && o1.result == Commands.Pair(Commands.RefillAttempt(added), Commands.ClearedItems(cl))
            && Commands.PerformShaped(c, o1.result))
  {
    var ids := w.cart.ids;
    var m := Commands.Unfailing(Commands.OrderRefill(Ledgers.Ids(ids)));
    var wa := w.(stock := Ledgers.OrderRefill(w.stock, ids));
    Commands.PerformUnfailingRefill(w, ids);
    Carts.ClearCommandUndo(w.cart);
    Commands.ClearSteps(wa, wa, Commands.Undefined);
    if ids != [] {
      var cl := Carts.PerformClear(w.cart).value.1;
      Commands.AugmentSteps(w, w, m, Commands.Clear, Commands.RefillAttempt(Ledgers.NotMarked(ids, w.stock.toRefill)), Commands.ClearedItems(cl));
    } else {
      Commands.AugmentSteps(w, w, m, Commands.Clear, Commands.Undefined, Commands.Undefined);
    }
  }

  /** The undo of a successful refill command puts back the cart and unmarks exactly what it marked. */
  lemma RefillUndo(w: Commands.World)
    requires Carts.Valid(w.cart) && w.cart.ids != []
    ensures var c := RefillItemsCommand(w.cart.ids);
      var (r, cl) := Carts.PerformClear(w.cart).value;
      var added := Ledgers.NotMarked(w.cart.ids, w.stock.toRefill);
      var w1 := w.(stock := Ledgers.OrderRefill(w.stock, w.cart.ids), cart := r);
      var v := Commands.Pair(Commands.RefillAttempt(added), Commands.ClearedItems(cl));
      Commands.PerformShaped(c, v)
      && Commands.Undo(w1, c, v).0 == w && Commands.Undo(w1, c, v).1.success
  {
    var ids := w.cart.ids;
    var m := Commands.Unfailing(Commands.OrderRefill(Ledgers.Ids(ids)));
    var added := Ledgers.NotMarked(ids, w.stock.toRefill);
    Ledgers.OrderRefillSpec(w.stock, ids);
    if added == [] {
      assert Ledgers.OrderRefill(w.stock, ids) == w.stock;
    }
    Carts.ClearCommandUndo(w.cart);
    var (r, cl) := Carts.PerformClear(w.cart).value;
    var w1 := w.(stock := Ledgers.OrderRefill(w.stock, ids), cart := r);
    Commands.AugmentSteps(w1, w1, m, Commands.Clear, Commands.RefillAttempt(added), Commands.ClearedItems(cl));
    Commands.UndoUnfailingRefill(w1, ids, added);
    assert Commands.Undo(w1, m, Commands.RefillAttempt(added)) == (w.(cart := r), Commands.Outcome(true, Commands.Attempt(added != [], Commands.Undefined)));
    Commands.ClearSteps(w1, w.(cart := r), Commands.ClearedItems(cl));
  }

  /**
   * The refill command succeeds exactly when the bar holds something, even
   * if every item in it is already marked; it then marks them all and
   * empties the bar, and its undo restores stock and bar exactly.
   */
  lemma RefillItemsCommandLaws(w: Commands.World)
    requires Carts.Valid(w.cart)
    ensures var c := RefillItemsCommand(w.cart.ids);
      var (w1, o1) := Commands.Perform(w, c);
      (o1.success <==> w.cart.ids != [])
      && (o1.success ==>
            w1.stock.toRefill == w.stock.toRefill + Ledgers.Elems(w.cart.ids)
            && w1.cart.ids == [] && w1.cart.items == map[]
            && Commands.PerformShaped(c, o1.result)
            && var (w2, o2) := Commands.Undo(w1, c, o1.result);
            o2.success && w2 == w)
  {
    RefillPerform(w);
    if w.cart.ids != [] {
      Ledgers.OrderRefillSpec(w.stock, w.cart.ids);
      Carts.ClearCommandUndo(w.cart);
      RefillUndo(w);
    }
  }

  // ---------------------------------------------------------------------------
  // The page model

  class Model {
    const pageSize: int
    const stock: Stocks.Stock
    const orderList: OrderLists.OrderList
    const menu: MenuManagers.MenuManager
    var pageIx: int

    function World(): Commands.World
      reads this, stock, orderList, menu
    {
      Commands.World(menu.dataBase, stock.Model(), orderList.Model(), menu.Model(), pageIx)
    }

    ghost predicate Valid()
      reads this, stock, orderList, menu
    {
      pageSize > 0 && pageIx >= 0 && stock.Valid() && orderList.Valid() && menu.stock == stock
      && Commands.StoredWellFormed(menu.Model())
    }

    /** `new ManagementModel()` once its drink database `db` is loaded: pages of 12. */
    constructor Management(db: seq<Item>, stored: Stocks.Stored)
      requires Ledgers.Valid(Stocks.FromStorage(stored))
      ensures Valid() && pageSize == Paging.ManagementPageSize
      ensures World() == Commands.World(db, Stocks.FromStorage(stored), Carts.NewCart(None), Menus.NewMenuState(Menus.DefaultStockMin), 0)
    {
      pageSize := Paging.ManagementPageSize;
      var s := new Stocks.Stock(stored);
      stock := s;
      orderList := new OrderLists.OrderList(None);
      menu := new MenuManagers.MenuManager(db, s, Menus.DefaultStockMin);
      pageIx := 0;
    }

    /** `new OrderModel()` once its drink database `db` is loaded: pages of 10. */
    constructor Order(db: seq<Item>, stored: Stocks.Stored)
      requires Ledgers.Valid(Stocks.FromStorage(stored))
      ensures Valid() && pageSize == Paging.OrderPageSize
      ensures World() == Commands.World(db, Stocks.FromStorage(stored), Carts.NewCart(None), Menus.NewMenuState(Menus.DefaultStockMin), 0)
    {
      pageSize := Paging.OrderPageSize;
      var s := new Stocks.Stock(stored);
      stock := s;
      orderList := new OrderLists.OrderList(None);
      menu := new MenuManagers.MenuManager(db, s, Menus.DefaultStockMin);
      pageIx := 0;
    }

    /** `pageItems()`: the current page's window of the view `getMenu()` hands out. */
    method PageItems() returns (v: Menus.FilteredMenu)
      requires Valid()
      modifies menu
      ensures Valid()
      ensures World() == AfterGetMenu(old(World()))
      ensures v == Paging.PageOf(Menus.GetMenu(old(menu.Model()), menu.dataBase, stock.Model()).0, pageIx, pageSize)
    {
      var m := menu.GetMenu();
      v := Menus.Restricted(m, pageIx * pageSize, Some((pageIx + 1) * pageSize), None);
    }

    /** `maxPageIx()`: `max(0, ceil(length / pageSize) - 1)` over the view `getMenu()` hands out. */
    method MaxPageIx() returns (r: int)
      requires Valid()
      modifies menu
      ensures Valid()
      ensures World() == AfterGetMenu(old(World()))
      ensures r == LastPage(old(World()), pageSize)
    {
      var m := menu.GetMenu();
      var n := Menus.Length(m);
      var c := Paging.CeilDiv(n, pageSize);
      r := if c - 1 > 0 then c - 1 else 0;
    }

    /** `pageAvailable(i)`. */
    method PageAvailable(i: int) returns (b: bool)
      requires Valid()
      modifies menu
      ensures Valid()
      ensures b == Paging.PageAvailable(i, LastPage(old(World()), pageSize))
      ensures World() == if i < 0 then old(World()) else AfterGetMenu(old(World()))
    {
      if i < 0 {
        return false;
      }
      var m := MaxPageIx();
      b := i <= m;
    }

    /** `gotoPage(i)`. */
    method GotoPage(i: int)
      requires Valid()
      modifies this, menu
      ensures Valid()
      ensures World() == MoveToPage(old(World()), pageSize, i)
    {
      var ok := PageAvailable(i);
      if ok {
        pageIx := i;
      }
    }

    /** `prevPage()`. */
    method PrevPage()
      requires Valid()
      modifies this, menu
      ensures Valid()
      ensures World() == MoveToPage(old(World()), pageSize, old(pageIx) - 1)
    {
      GotoPage(pageIx - 1);
    }

    /** `nextPage()`. */
    method NextPage()
      requires Valid()
      modifies this, menu
      ensures Valid()
      ensures World() == MoveToPage(old(World()), pageSize, old(pageIx) + 1)
    {
      GotoPage(pageIx + 1);
    }

    /** `prevPageAvailable()`: from a valid index, true exactly when stepping back moves. */
    function PrevPageAvailable(): (r: bool)
      reads this
      ensures forall m | Paging.PageAvailable(pageIx, m) :: r <==> Paging.GotoPage(pageIx, pageIx - 1, m) == pageIx - 1
    {
      pageIx > 0
    }

    /** `nextPageAvailable()`: true exactly when `nextPage()` would move. */
    method NextPageAvailable() returns (b: bool)
      requires Valid()
      modifies menu
      ensures Valid()
      ensures World() == AfterGetMenu(old(World()))
      ensures b <==> MoveToPage(old(World()), pageSize, old(pageIx) + 1).pageIx == old(pageIx) + 1
    {
      var m := MaxPageIx();
      b := pageIx < m;
    }

    // -------------------------------------------------------------------------
    // Running commands on the objects

    /** `command.perform()` on this model's objects. */
    method Perform(c: Commands.Command) returns (o: Commands.Outcome)
      requires Valid()
      modifies this, stock, orderList, menu
      ensures Valid()
      ensures (World(), o) == Commands.Perform(old(World()), c)
      decreases c
    {
      ghost var w := World();
      Commands.PerformShapes(w, c);
      match c
      case Augment(first, second) =>
        var o1 := Perform(first);
        if o1.success {
          var o2 := Perform(second);
          o := Commands.Outcome(o2.success, Commands.Pair(o1.result, o2.result));
        } else {
          o := o1;
        }
      case Unfailing(inner) =>
        var o1 := Perform(inner);
        o := Commands.Outcome(true, Commands.Attempt(o1.success, o1.result));
      case AddItem(item, q, offset) =>
        var ok := orderList.PerformAdd(item, q, offset);
        o := Commands.Convert(Commands.Returned(Some(ok), Commands.Undefined));
      case RemoveItem(id, q) =>
        var removed := orderList.PerformRemove(id, q);
        if removed.None? {
          o := Commands.Convert(Commands.Returned(Some(false), Commands.Undefined));
        } else {
          o := Commands.Convert(Commands.Returned(Some(true), Commands.Removed(removed.value)));
        }
      case Clear =>
        var cleared := orderList.PerformClear();
        if cleared.None? {
          o := Commands.Convert(Commands.Returned(Some(false), Commands.Undefined));
        } else {
          o := Commands.Convert(Commands.Returned(Some(true), Commands.ClearedItems(cleared.value)));
        }
      case SetPhysical(id, q) =>
        var oldQ := stock.SetPhysicalStock(id, q);
        o := Commands.Convert(Commands.Returned(Some(oldQ != q), Commands.OldQuantity(oldQ)));
      case ModifyPhysical(id, d) =>
        var oldQ := stock.ModifyPhysicalStock(id, d);
        o := Commands.Convert(Commands.Returned(Some(d != 0), Commands.OldQuantity(oldQ)));
      case RemoveOrder(t) =>
        var removed := stock.RemoveOrder(t);
        if removed.None? {
          o := Commands.Convert(Commands.Returned(Some(false), Commands.Undefined));
        } else {
          o := Commands.Convert(Commands.Returned(Some(true), Commands.Order(removed.value)));
        }
      case CommitOrder(t) =>
        var committed := stock.CommitOrder(t);
        if committed.None? {
          o := Commands.Convert(Commands.Returned(Some(false), Commands.Undefined));
        } else {
          o := Commands.Convert(Commands.Returned(Some(true), Commands.Order(committed.value)));
        }
      case OrderRefill(arg) =>
        var marked := stock.OrderRefill(arg);
        if |marked| > 0 {
          o := Commands.Convert(Commands.Returned(Some(true), Commands.Marked(marked)));
        } else {
          o := Commands.Convert(Commands.Returned(Some(false), Commands.Undefined));
        }
      case ModifyFilter(modifier, preserve) =>
        var saved := menu.PerformModifyFilter(modifier(menu.filters), preserve);
        if saved.None? {
          o := Commands.Convert(Commands.Returned(Some(false), Commands.Undefined));
        } else {
          o := Commands.Convert(Commands.Returned(Some(true), Commands.OldMenu(saved.value)));
        }
      case ResetPage =>
        pageIx := 0;
        o := Commands.Convert(Commands.Missing);
    }

    /** `command.undo(result)` on this model's objects. */
    method Undo(c: Commands.Command, v: Commands.Value) returns (o: Commands.Outcome)
      requires Valid() && Commands.PerformShaped(c, v)
      modifies this, stock, orderList, menu
      ensures Valid()
      ensures (World(), o) == Commands.Undo(old(World()), c, v)
      decreases c
    {
      ghost var w := World();
      Commands.UndoShapes(w, c, v);
      match c
      case Augment(first, second) =>
        var o1 := Undo(first, v.res1);
        if o1.success {
          var o2 := Undo(second, v.res2);
          o := Commands.Outcome(o2.success, Commands.Pair(o1.result, o2.result));
        } else {
          o := o1;
        }
      case Unfailing(inner) =>
        if v.succeeded {
          var o1 := Undo(inner, v.inner);
          o := Commands.Outcome(true, Commands.Attempt(o1.success, o1.result));
        } else {
          o := Commands.Outcome(true, Commands.Attempt(false, Commands.Undefined));
        }
      case AddItem(item, q, _) =>
        var ok := orderList.UndoAdd(item, q);
        o := Commands.Convert(Commands.Returned(Some(ok), Commands.Undefined));
      case RemoveItem(_, _) =>
        var ok := orderList.UndoRemove(v.entry);
        o := Commands.Convert(Commands.Returned(Some(ok), Commands.Undefined));
      case Clear =>
        orderList.UndoClear(v.cleared);
        o := Commands.Convert(Commands.Missing);
      case SetPhysical(id, _) =>
        var _ := stock.SetPhysicalStock(id, v.q);
        o := Commands.Convert(Commands.Missing);
      case ModifyPhysical(id, _) =>
        var _ := stock.SetPhysicalStock(id, v.q);
        o := Commands.Convert(Commands.Missing);
      case RemoveOrder(t) =>
        stock.AddCompactOrder(t, v.lines);
        o := Commands.Convert(Commands.Missing);
      case CommitOrder(t) =>
        stock.RestockLines(v.lines);
        stock.AddCompactOrder(t, v.lines);
        o := Commands.Convert(Commands.Missing);
      case OrderRefill(_) =>
        stock.UnmarkRefill(v.ids);
        o := Commands.Convert(Commands.Missing);
      case ModifyFilter(_, preserve) =>
        var menus := menu.UndoModifyFilter(v.saved, preserve);
        o := Commands.Convert(Commands.Returned(Some(true), Commands.BothMenus(menus)));
      case ResetPage =>
        pageIx := 0;
        o := Commands.Convert(Commands.Missing);
    }

    /** `command.redo(result)` on this model's objects. */
    method Redo(c: Commands.Command, v: Commands.Value) returns (o: Commands.Outcome)
      requires Valid() && Commands.UndoShaped(c, v)
      modifies this, stock, orderList, menu
      ensures Valid()
      ensures (World(), o) == Commands.Redo(old(World()), c, v)
      decreases c
    {
      ghost var w := World();
      Commands.RedoShapes(w, c, v);
      match c
      case Augment(first, second) =>
        var o1 := Redo(first, v.res1);
        if o1.success {
          var o2 := Redo(second, v.res2);
          o := Commands.Outcome(o2.success, Commands.Pair(o1.result, o2.result));
        } else {
          o := o1;
        }
      case Unfailing(inner) =>
        if v.succeeded {
          var o1 := Redo(inner, v.inner);
          o := Commands.Outcome(true, Commands.Attempt(o1.success, o1.result));
        } else {
          o := Commands.Outcome(true, Commands.Attempt(false, Commands.Undefined));
        }
      case ModifyFilter(_, preserve) =>
        var saved := menu.RedoModifyFilter(v.menus, preserve);
        o := Commands.Convert(Commands.Returned(Some(true), Commands.OldMenu(saved)));
      case _ =>
        o := Perform(c);
    }

    /** `modifyFilterCommand(modifier, preserve)`, run on this model. */
    method PerformModifyFilterCommand(modifier: Commands.Modifier, preserve: bool) returns (o: Commands.Outcome)
      requires Valid()
      modifies this, stock, orderList, menu
      ensures Valid()
      ensures (World(), o) == Commands.Perform(old(World()), ModifyFilterCommand(modifier, preserve))
    {
      o := Perform(ModifyFilterCommand(modifier, preserve));
    }

    /** `refillItemsCommand()`, run on this model: the ids are those in the order list now. */
    method PerformRefillItemsCommand() returns (o: Commands.Outcome)
      requires Valid()
      modifies this, stock, orderList, menu
      ensures Valid()
      ensures (World(), o) == Commands.Perform(old(World()), RefillItemsCommand(old(orderList.ids)))
    {
      o := Perform(RefillItemsCommand(orderList.ids));
    }
  }
}
