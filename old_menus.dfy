// The older catalog view of js/OrderMenu/MenuManager.js. Its filters,
// `verifyItem`, `subCategoriesOf`, `googlify`, `getSubCategories`, `index`,
// `length` and `restricted` are the same code as in js/MenuManager.js and are
// the members of modules Menus and Searches. What differs is modelled here:
// capitalised main-category keywords matched against the item's category as
// written, a `FilteredMenu` object whose `scope` `getMenu` overwrites in
// place, and a redo that writes a misspelt field.
module OldMenus {
  import opened Wrappers
  import opened Text
  import opened Items
  import Ledgers
  import Stocks
  import Json
  import Menus

  // ---------------------------------------------------------------------------
  // Bucketing

  /** `mainCategories[key]` of this version: capitalised subcategory names; `misc` gathers none. */
  function Keywords(c: Menus.Category): seq<string>
  {
    match c
    case Misc => []
    case Ale => ["Öl", "Ale"]
    case Whisky => ["Whisky"]
    case WhiteWine => ["Vitt vin"]
    case RedWine => ["Rött vin"]
    case MiscWine => ["Mousserande vin", "Fruktvin", "Rosévin", "Vin av flera typer", "Vinsprit"]
    case AlcoholFree => ["Alkoholfritt"]
    case Sherry => ["Sherry"]
    case Vermouth => ["Vermouth"]
    case Cognac => ["Cognac"]
  }

  /** `mainCategories[key].some(str => subCategories.includes(str))`. */
  predicate MatchesIn(subCategories: seq<string>, c: Menus.Category)
  {
    exists kw | kw in Keywords(c) :: kw in subCategories
  }

  /** The bucket `c` an accepted item with these subcategories joins. */
  predicate BelongsIn(subCategories: seq<string>, c: Menus.Category)
  {
    if c == Menus.Misc then forall k | 1 <= k < |Menus.Order| :: !MatchesIn(subCategories, Menus.Order[k])
    else MatchesIn(subCategories, c)
  }

  /** This version splits the category as written, without lower-casing it. */
  predicate Belongs(item: Item, c: Menus.Category)
  {
    BelongsIn(Menus.SubCategoriesOf(item.category), c)
  }

  /** An item with subcategories `sub` lands in `misc` exactly when it lands in no main category. */
  lemma MiscExactlyWhenUnmatched(sub: seq<string>)
    ensures BelongsIn(sub, Menus.Misc) <==> forall c: Menus.Category | c != Menus.Misc :: !BelongsIn(sub, c)
  {
    if !BelongsIn(sub, Menus.Misc) {
      var k :| 1 <= k < |Menus.Order| && MatchesIn(sub, Menus.Order[k]);
      assert Menus.Order[k] != Menus.Misc && BelongsIn(sub, Menus.Order[k]);
    } else {
      forall c: Menus.Category | c != Menus.Misc ensures !BelongsIn(sub, c) {
        assert 1 <= Menus.Pos(c) < |Menus.Order|;
      }
    }
  }

  /** The items of `db`, in order, that bucket `c` of a menu built with these filters holds. */
  function Bucket(db: seq<Item>, c: Menus.Category, L: Ledgers.Ledger, f: Menus.Filters, stockMin: int): seq<Item>
  {
    if |db| == 0 then []
    else
      var item := db[|db| - 1];
      Bucket(db[..|db| - 1], c, L, f, stockMin)
        + (if Menus.VerifyItem(item, L, f, stockMin) && Belongs(item, c) then [item] else [])
  }

  /** An item is in a bucket exactly when it is in the database, passes the filters and belongs there. */
  lemma {:induction false} BucketMembers(db: seq<Item>, c: Menus.Category, L: Ledgers.Ledger, f: Menus.Filters, stockMin: int, x: Item)
    ensures x in Bucket(db, c, L, f, stockMin) <==> x in db && Menus.VerifyItem(x, L, f, stockMin) && Belongs(x, c)
  {
    if |db| > 0 {
      var init := db[..|db| - 1];
      var last := db[|db| - 1];
      BucketMembers(init, c, L, f, stockMin, x);
      InSnoc(Bucket(init, c, L, f, stockMin), last, Menus.VerifyItem(last, L, f, stockMin) && Belongs(last, c), x);
      InLast(db, x);
    }
  }

  function Buckets(db: seq<Item>, L: Ledgers.Ledger, f: Menus.Filters, stockMin: int): (r: seq<seq<Item>>)
    ensures |r| == |Menus.Order|
    ensures forall k | 0 <= k < |Menus.Order| :: r[k] == Bucket(db, Menus.Order[k], L, f, stockMin)
  {
    seq(|Menus.Order|, k requires 0 <= k < |Menus.Order| => Bucket(db, Menus.Order[k], L, f, stockMin))
  }

  lemma BucketStep(db: seq<Item>, i: nat, c: Menus.Category, L: Ledgers.Ledger, f: Menus.Filters, stockMin: int)
    requires i < |db|
    ensures Bucket(db[..i + 1], c, L, f, stockMin) == Bucket(db[..i], c, L, f, stockMin)
      + (if Menus.VerifyItem(db[i], L, f, stockMin) && Belongs(db[i], c) then [db[i]] else [])
  {
    assert db[..i + 1][..i] == db[..i];
  }

  /** `FilteredMenu.prototype.initialize` of this version. */
  method Initialize(db: seq<Item>, L: Ledgers.Ledger, f: Menus.Filters, stockMin: int) returns (buckets: seq<seq<Item>>)
    ensures buckets == Buckets(db, L, f, stockMin)
  {
    buckets := seq(|Menus.Order|, _ => []);
    for i := 0 to |db|
      invariant |buckets| == |Menus.Order|
      invariant forall k | 0 <= k < |Menus.Order| :: buckets[k] == Bucket(db[..i], Menus.Order[k], L, f, stockMin)
    {
      forall k | 0 <= k < |Menus.Order| {
        BucketStep(db, i, Menus.Order[k], L, f, stockMin);
      }
      if Menus.VerifyItem(db[i], L, f, stockMin) {
        buckets := Place(buckets, db[i], Menus.SubCategoriesOf(db[i].category));
      }
    }
    assert db[..|db|] == db;
  }

  /** Push an accepted item with subcategories `sub` onto each bucket it belongs to. */
  method Place(buckets: seq<seq<Item>>, item: Item, sub: seq<string>) returns (r: seq<seq<Item>>)
    requires |buckets| == |Menus.Order|
    ensures |r| == |Menus.Order|
    ensures forall k | 0 <= k < |Menus.Order| :: r[k] == buckets[k] + (if BelongsIn(sub, Menus.Order[k]) then [item] else [])
  {
    r := buckets;
    var mainCatFound := false;
    for k := 1 to |Menus.Order|
      invariant |r| == |Menus.Order|
      invariant mainCatFound <==> exists j | 1 <= j < k :: MatchesIn(sub, Menus.Order[j])
      invariant forall j | 1 <= j < k :: r[j] == buckets[j] + (if MatchesIn(sub, Menus.Order[j]) then [item] else [])
      invariant forall j | j == 0 || k <= j < |Menus.Order| :: r[j] == buckets[j]
    {
      if MatchesIn(sub, Menus.Order[k]) {
        r := r[k := r[k] + [item]];
        mainCatFound := true;
      }
    }
    if !mainCatFound {
      r := r[0 := r[0] + [item]];
    }
  }

  /**
   * Matching is case-sensitive here: an item whose category is "ale" joins
   * the `ale` bucket of the current version but `misc` in this one.
   */
  lemma CaseSensitiveExample(item: Item)
    requires item.category == "ale"
    ensures Menus.Belongs(item, Menus.Ale)
    ensures Belongs(item, Menus.Misc) && !Belongs(item, Menus.Ale)
  {
    PlainAle();
    var sub := Menus.SubCategoriesOf(item.category);
    assert sub == ["ale"];
    assert Menus.SubCategoriesOf(ToLower(item.category)) == sub;
    assert "ale" in Menus.Keywords(Menus.Ale) && "ale" in sub;
    assert Menus.MatchesIn(sub, Menus.Ale);
    NoCapitalMatch(sub);
  }

  /** None of this version's keywords is written in lower case only, so none matches `["ale"]`. */
  lemma NoCapitalMatch(sub: seq<string>)
    requires sub == ["ale"]
    ensures forall c: Menus.Category :: !MatchesIn(sub, c)
  {
    forall c: Menus.Category ensures !MatchesIn(sub, c) {
      forall kw | kw in Keywords(c) ensures kw !in sub {
        assert kw[0] != 'a';
      }
    }
  }

  /** "ale" is already lower case and names a single subcategory. */
  lemma PlainAle()
    ensures ToLower("ale") == "ale"
    ensures Menus.SubCategoriesOf("ale") == ["ale"]
  {
    var s := "ale";
    MissingChar(s, ",", 0);
    MissingChar(s, "och", 0);
    MissingChar(s, "&", 0);
    Menus.SubCategoriesOfPlain(s);
  }

  // ---------------------------------------------------------------------------
  // The `FilteredMenu` object

  /** A `FilteredMenu` of this version: views hand out the object itself, so its `scope` is shared. */
  class FilteredMenu {
    var filters: Menus.Filters
    var stockMin: int
    var scope: Menus.Scope
    var categories: seq<seq<Item>>

    function View(): Menus.FilteredMenu
      reads this
    {
      Menus.FilteredMenu(filters, stockMin, scope, categories)
    }

    predicate Valid()
      reads this
    {
      |categories| == |Menus.Order|
    }

    /** `new FilteredMenu(dataBase, stock, filters, stockMin)`: the full window over new buckets. */
    constructor (db: seq<Item>, L: Ledgers.Ledger, f: Menus.Filters, stockMin: int)
      ensures Valid()
      ensures View() == Menus.FilteredMenu(f, stockMin, Menus.Scope(0, None, None), Buckets(db, L, f, stockMin))
    {
      filters := f;
      this.stockMin := stockMin;
      scope := Menus.Scope(0, None, None);
      var buckets := Initialize(db, L, f, stockMin);
      categories := buckets;
    }

    /** `index(ix)`: the same walk as the current version. */
    method Index(i: int) returns (r: Option<Item>)
      requires Valid()
      ensures r == Menus.MenuIndex(View(), i)
    {
      r := Menus.Index(View(), i);
    }

    /** `length()`: the same clipping as the current version; the total is summed with `reduce`. */
    method Length() returns (n: int)
      requires Valid()
      ensures n == Menus.MenuLength(View())
    {
      n := Menus.Length(View());
    }

    /**
     * `restricted(begin, end, category)`: a new object built over an empty
     * database, given this one's buckets and the clipped window. A category
     * that is `undefined` (`None`) inherits this one's.
     */
    method Restricted(begin: int, end: Option<int>, category: Option<Option<Menus.Category>>) returns (r: FilteredMenu)
      requires Valid()
      ensures fresh(r) && r.Valid()
      ensures r.View() == Menus.Restricted(View(), begin, end, category)
    {
      r := new FilteredMenu([], Ledgers.EmptyLedger, filters, stockMin);
      r.categories := categories;
      var e := Menus.MinEnd(scope.end, Menus.Offset(scope.begin, end));
      var b := if e.Some? && e.value < begin + scope.begin then e.value else begin + scope.begin;
      r.scope := Menus.Scope(b, e, if category.Some? then category.value else scope.category);
    }
  }

  // ---------------------------------------------------------------------------
  // The manager

  /** A view whose `scope.category` has been overwritten with `c`, as `getMenu` does to the cached object. */
  function Recategorized(v: Menus.FilteredMenu, c: Option<Menus.Category>): Menus.FilteredMenu
  {
    v.(scope := v.scope.(category := c))
  }

  /** The record of a filter state; `storedFilteredMenu == null` is the field left out when not preserving. */
  datatype SavedMenu = SavedMenu(filters: Menus.Filters, storedFilteredMenu: FilteredMenu?)

  datatype MenuPair = MenuPair(oldMenu: SavedMenu, undoneMenu: SavedMenu)

  class MenuManager {
    const dataBase: seq<Item>
    const stock: Stocks.Stock
    var stockMin: int
    var storedFilteredMenu: FilteredMenu?
    var mainCategory: Option<Menus.Category>
    var filters: Menus.Filters
    /** The field the redo below writes by mistake; nothing reads it. */
    var storedFilterMenu: FilteredMenu?

    /** The cache is missing or was built for other filters, so `getMenu` builds a new menu. */
    predicate Stale()
      reads this, storedFilteredMenu
    {
      storedFilteredMenu == null || storedFilteredMenu.filters != filters
    }

    /** The menu `getMenu()` builds when the cache is stale: buckets for the filters `f`, cut to the main category. */
    function Built(f: Menus.Filters): Menus.FilteredMenu
      reads this, stock
    {
      Menus.FilteredMenu(f, stockMin, Menus.Scope(0, None, mainCategory), Buckets(dataBase, stock.Model(), f, stockMin))
    }

    /** `new MenuManager(dataBase, stock, stockMin)`. */
    constructor (dataBase: seq<Item>, stock: Stocks.Stock, stockMin: int)
      ensures this.dataBase == dataBase && this.stock == stock && this.stockMin == stockMin
      ensures storedFilteredMenu == null && mainCategory.None? && filters == Menus.EmptyFilters()
    {
      this.dataBase := dataBase;
      this.stock := stock;
      this.stockMin := stockMin;
      storedFilteredMenu := null;
      mainCategory := None;
      filters := Menus.EmptyFilters();
      storedFilterMenu := null;
    }

    /**
     * `getMenu()`: build a new menu when the cache is stale, then write the
     * main category into the cached object's own `scope` and return that
     * object. A previous result that is still the cache sees its category
     * change as well.
     */
    method GetMenu() returns (v: FilteredMenu)
      modifies this, storedFilteredMenu
      ensures v == storedFilteredMenu
      ensures filters == old(filters) && mainCategory == old(mainCategory) && stockMin == old(stockMin)
      ensures old(Stale()) ==> fresh(v) && v.Valid()
      ensures old(Stale()) ==> v.View() == Built(filters)
      ensures old(Stale()) && old(storedFilteredMenu) != null ==> unchanged(old(storedFilteredMenu))
      ensures !old(Stale()) ==> v == old(storedFilteredMenu) && v.View() == Recategorized(old(v.View()), mainCategory)
      ensures !Stale()
      ensures storedFilterMenu == old(storedFilterMenu)
    {
      if storedFilteredMenu == null || storedFilteredMenu.filters != filters {
        storedFilteredMenu := new FilteredMenu(dataBase, stock.Model(), filters, stockMin);
      }
      storedFilteredMenu.scope := storedFilteredMenu.scope.(category := mainCategory);
      v := storedFilteredMenu;
    }

    /** `clearFilter()`. */
    method ClearFilter()
      modifies this
      ensures filters == Menus.EmptyFilters()
      ensures storedFilteredMenu == old(storedFilteredMenu) && mainCategory == old(mainCategory) && stockMin == old(stockMin)
      ensures storedFilterMenu == old(storedFilterMenu)
    {
      filters := Menus.EmptyFilters();
    }

    /** The perform of `modifyFilterCommand`, with the modifier's result given as `newFilters`. */
    method PerformModifyFilter(newFilters: Menus.Filters, preserve: bool) returns (result: Option<SavedMenu>)
      modifies this, storedFilteredMenu
      ensures filters == newFilters && mainCategory == old(mainCategory) && stockMin == old(stockMin)
      ensures result.None? <==> newFilters == old(filters)
      ensures result.Some? ==> result.value.filters == old(filters)
      ensures result.Some? && preserve ==>
        result.value.storedFilteredMenu == storedFilteredMenu && storedFilteredMenu != null && storedFilteredMenu.filters == old(filters)
      ensures result.Some? && !preserve ==> result.value.storedFilteredMenu == null
      ensures preserve && old(Stale()) ==> fresh(storedFilteredMenu) && storedFilteredMenu.View() == Built(old(filters))
      ensures preserve && !old(Stale()) ==>
        storedFilteredMenu == old(storedFilteredMenu) && storedFilteredMenu.View() == Recategorized(old(storedFilteredMenu.View()), mainCategory)
      ensures !preserve ==> storedFilteredMenu == old(storedFilteredMenu) && (storedFilteredMenu != null ==> unchanged(storedFilteredMenu))
      ensures storedFilterMenu == old(storedFilterMenu)
    {
      var oldFilters := filters;
      var saved: FilteredMenu? := null;
      if preserve {
        saved := GetMenu();
      }
      filters := newFilters;
      if oldFilters == filters {
        return None;
      }
      result := Some(SavedMenu(oldFilters, saved));
    }

    /** The undo of `modifyFilterCommand`: put back the saved filters and, when preserving, the saved menu. */
    method UndoModifyFilter(oldMenu: SavedMenu, preserve: bool) returns (menus: MenuPair)
      modifies this, storedFilteredMenu
      ensures filters == oldMenu.filters && mainCategory == old(mainCategory) && stockMin == old(stockMin)
      ensures preserve ==> storedFilteredMenu == oldMenu.storedFilteredMenu
      ensures !preserve ==> storedFilteredMenu == old(storedFilteredMenu)
      ensures menus.oldMenu == oldMenu && menus.undoneMenu.filters == old(filters)
      ensures preserve ==> menus.undoneMenu.storedFilteredMenu != null
      ensures !preserve ==> menus.undoneMenu.storedFilteredMenu == null
      ensures storedFilterMenu == old(storedFilterMenu)
      ensures var saved := oldMenu.storedFilteredMenu;
        preserve && saved != null && (old(Stale()) || saved != old(storedFilteredMenu)) ==> unchanged(saved)
      ensures var saved := oldMenu.storedFilteredMenu;
        preserve && saved != null && saved.filters == oldMenu.filters ==> !Stale()
      ensures !preserve && old(storedFilteredMenu) != null ==> unchanged(old(storedFilteredMenu))
    {
      var undoneFilters := filters;
      var undone: FilteredMenu? := null;
      if preserve {
        undone := GetMenu();
        storedFilteredMenu := oldMenu.storedFilteredMenu;
      }
      filters := oldMenu.filters;
      menus := MenuPair(oldMenu, SavedMenu(undoneFilters, undone));
    }

    /**
     * The redo of `modifyFilterCommand` as written: the undone menu goes
     * into `storedFilterMenu`, so the cache keeps whatever undo left.
     */
    method RedoModifyFilterAsWritten(menus: MenuPair, preserve: bool) returns (result: SavedMenu)
      modifies this
      ensures filters == menus.undoneMenu.filters && result == menus.oldMenu
      ensures storedFilteredMenu == old(storedFilteredMenu)
      ensures preserve ==> storedFilterMenu == menus.undoneMenu.storedFilteredMenu
      ensures mainCategory == old(mainCategory) && stockMin == old(stockMin)
      ensures (old(storedFilteredMenu) != null && old(storedFilteredMenu.filters) == menus.oldMenu.filters
               && menus.oldMenu.filters != menus.undoneMenu.filters) ==> Stale()
    {
      filters := menus.undoneMenu.filters;
      if preserve {
        storedFilterMenu := menus.undoneMenu.storedFilteredMenu;
      }
      result := menus.oldMenu;
    }

    /**
     * The redo as intended: put back the undone filters and, when
     * preserving, the undone menu as the cache, which then is not stale.
     */
    method RedoModifyFilter(menus: MenuPair, preserve: bool) returns (result: SavedMenu)
      modifies this
      ensures filters == menus.undoneMenu.filters && result == menus.oldMenu
      ensures preserve ==> storedFilteredMenu == menus.undoneMenu.storedFilteredMenu
      ensures !preserve ==> storedFilteredMenu == old(storedFilteredMenu)
      ensures mainCategory == old(mainCategory) && stockMin == old(stockMin)
      ensures storedFilterMenu == old(storedFilterMenu)
      ensures (preserve && menus.undoneMenu.storedFilteredMenu != null
               && menus.undoneMenu.storedFilteredMenu.filters == menus.undoneMenu.filters) ==> !Stale()
    {
      filters := menus.undoneMenu.filters;
      if preserve {
        storedFilteredMenu := menus.undoneMenu.storedFilteredMenu;
      }
      result := menus.oldMenu;
    }

    /** `toJSON()`: the same three fields as the current version. */
    function ToJson(): (j: Json.Json)
      reads this
      ensures Menus.StateFromJson(j) == Some(Menus.MenuState(filters, None, mainCategory, stockMin))
    {
      var st := Menus.MenuState(filters, None, mainCategory, stockMin);
      Menus.StateRoundTrip(st);
      Menus.StateToJson(st)
    }
  }

  /**
   * A preserving filter change undone at once: the filters are back, and the
   * cache is again the very menu `getMenu()` handed out before the change,
   * unchanged by the undo and current for the restored filters.
   */
  method PreservedUndoRestores(m: MenuManager, f: Menus.Filters) returns (ok: bool)
    modifies m, m.storedFilteredMenu
    ensures ok <==> f != old(m.filters)
    ensures m.filters == old(m.filters) && m.mainCategory == old(m.mainCategory) && m.stockMin == old(m.stockMin)
    ensures ok ==> m.storedFilteredMenu != null && !m.Stale()
    ensures ok && old(m.Stale()) ==> m.storedFilteredMenu.View() == old(m.Built(m.filters))
    ensures ok && !old(m.Stale()) ==>
      m.storedFilteredMenu == old(m.storedFilteredMenu)
      && m.storedFilteredMenu.View() == Recategorized(old(m.storedFilteredMenu.View()), m.mainCategory)
  {
    var r := m.PerformModifyFilter(f, true);
    if r.None? {
      return false;
    }
    var _ := m.UndoModifyFilter(r.value, true);
    ok := true;
  }
}
