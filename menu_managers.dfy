// The `MenuManager` object of js/MenuManager.js: `getMenu` and the filter
// command reassign its `storedFilteredMenu` and `filters` fields in place.
// Each method is proved equal to the matching function of module Menus,
// whose laws (memoisation, undo, redo) are proved there.
module MenuManagers {
  import opened Wrappers
  import opened Items
  import Stocks
  import Menus
  import Json

  class MenuManager {
    const dataBase: seq<Item>
    const stock: Stocks.Stock
    var stockMin: int
    var storedFilteredMenu: Option<Menus.FilteredMenu>
    var mainCategory: Option<Menus.Category>
    var filters: Menus.Filters

    function Model(): Menus.MenuState
      reads this
    {
      Menus.MenuState(filters, storedFilteredMenu, mainCategory, stockMin)
    }

    /** `new MenuManager(dataBase, stock, stockMin)`. */
    constructor (dataBase: seq<Item>, stock: Stocks.Stock, stockMin: int)
      ensures this.dataBase == dataBase && this.stock == stock
      ensures Model() == Menus.NewMenuState(stockMin)
    {
      this.dataBase := dataBase;
      this.stock := stock;
      this.stockMin := stockMin;
      storedFilteredMenu := None;
      mainCategory := None;
      filters := Menus.EmptyFilters();
    }

    /** `getMenu()`: rebuild the cache only when it is missing or its filters differ, then hand out a full view. */
    method GetMenu() returns (v: Menus.FilteredMenu)
      modifies this
      ensures (v, Model()) == Menus.GetMenu(old(Model()), dataBase, stock.Model())
    {
      if storedFilteredMenu.None? || storedFilteredMenu.value.filters != filters {
        var m := Menus.NewFilteredMenu(dataBase, stock.Model(), filters, stockMin);
        storedFilteredMenu := Some(m);
      }
      v := Menus.Restricted(storedFilteredMenu.value, 0, None, Some(mainCategory));
    }

    /** `clearFilter()`. */
    method ClearFilter()
      modifies this
      ensures Model() == Menus.ClearFilter(old(Model()))
    {
      filters := Menus.EmptyFilters();
    }

    /** The perform of `modifyFilterCommand`, given the modifier's new filters. */
    method PerformModifyFilter(newFilters: Menus.Filters, preserve: bool) returns (result: Option<Menus.SavedMenu>)
      modifies this
      ensures (Model(), result) == Menus.PerformModifyFilter(old(Model()), dataBase, stock.Model(), newFilters, preserve)
    {
      var oldFilters := filters;
      var saved := None;
      if preserve {
        var v := GetMenu();
        saved := Some(v);
      }
      filters := newFilters;
      if oldFilters == filters {
        return None;
      }
      result := Some(Menus.SavedMenu(oldFilters, saved));
    }

    /** The undo of `modifyFilterCommand`. */
    method UndoModifyFilter(oldMenu: Menus.SavedMenu, preserve: bool) returns (menus: Menus.MenuPair)
      modifies this
      ensures (Model(), menus) == Menus.UndoModifyFilter(old(Model()), dataBase, stock.Model(), oldMenu, preserve)
    {
      var undoneFilters := filters;
      var undone := None;
      if preserve {
        var v := GetMenu();
        undone := Some(v);
        storedFilteredMenu := oldMenu.storedFilteredMenu;
      }
      filters := oldMenu.filters;
      menus := Menus.MenuPair(oldMenu, Menus.SavedMenu(undoneFilters, undone));
    }

    /** The redo of `modifyFilterCommand`. */
    method RedoModifyFilter(menus: Menus.MenuPair, preserve: bool) returns (result: Menus.SavedMenu)
      modifies this
      ensures (Model(), result) == Menus.RedoModifyFilter(old(Model()), menus, preserve)
    {
      filters := menus.undoneMenu.filters;
      if preserve {
        storedFilteredMenu := menus.undoneMenu.storedFilteredMenu;
      }
      result := menus.oldMenu;
    }

    /** `toJSON()`. */
    function ToJson(): (j: Json.Json)
      reads this
      ensures Menus.StateFromJson(j) == Some(Model().(stored := None))
    {
      Menus.StateRoundTrip(Model());
      Menus.StateToJson(Model())
    }
  }
}
