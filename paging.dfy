// The page arithmetic of js/Management/Model.js and js/OrderMenu/Model.js: a
// page is a window of `pageSize` consecutive entries of the current menu, and
// the page index ranges from 0 to the last page that holds anything. Class
// `Models.Model` keeps the page index and calls these functions.
module Paging {
  import opened Wrappers
  import Menus

  /** `pageSize` of the management page. */
  const ManagementPageSize: int := 12

  /** `pageSize` of the order page. */
  const OrderPageSize: int := 10

  /** `Math.ceil(n / d)` for integers. */
  function CeilDiv(n: int, d: int): (r: int)
    requires d > 0
    ensures (r - 1) * d < n <= r * d
  {
    if n % d == 0 then n / d else n / d + 1
  }

  /** `maxPageIx()`: `max(0, ceil(len / pageSize) - 1)`. */
  function MaxPageIx(len: int, pageSize: int): (r: int)
    requires pageSize > 0
    ensures r >= 0
    ensures len > 0 ==> r * pageSize < len <= (r + 1) * pageSize
    ensures len <= 0 ==> r == 0
  {
    var m := CeilDiv(len, pageSize) - 1;
    if m < 0 then 0 else m
  }

  lemma MulMono(a: int, b: int, k: int)
    requires a <= b && k >= 0
    ensures a * k <= b * k
  {
  }

  /** On a non-empty menu, page `i` starts inside the menu exactly when it is at most the last page index. */
  lemma PageOccupied(len: int, pageSize: int, i: int)
    requires pageSize > 0 && len > 0 && i >= 0
    ensures i <= MaxPageIx(len, pageSize) <==> i * pageSize < len
  {
    var r := MaxPageIx(len, pageSize);
    if i <= r {
      MulMono(i, r, pageSize);
    } else {
      MulMono(r + 1, i, pageSize);
    }
  }

  /** `pageAvailable(i)`. */
  predicate PageAvailable(i: int, maxPageIx: int)
  {
    0 <= i <= maxPageIx
  }

  /** `gotoPage(i)`: the page index afterwards. */
  function GotoPage(pageIx: int, i: int, maxPageIx: int): (r: int)
    ensures PageAvailable(i, maxPageIx) ==> r == i
    ensures !PageAvailable(i, maxPageIx) ==> r == pageIx
  {
    if PageAvailable(i, maxPageIx) then i else pageIx
  }

  /**
   * Stepping back or forward from a valid page index moves by one exactly
   * when `prevPageAvailable` or `nextPageAvailable` says so, and never leaves
   * the range of valid indices.
   */
  lemma StepPages(pageIx: int, maxPageIx: int)
    requires PageAvailable(pageIx, maxPageIx)
    ensures var p := GotoPage(pageIx, pageIx - 1, maxPageIx);
      PageAvailable(p, maxPageIx) && (p == pageIx - 1 <==> pageIx > 0) && (pageIx == 0 ==> p == 0)
    ensures var n := GotoPage(pageIx, pageIx + 1, maxPageIx);
      PageAvailable(n, maxPageIx) && (n == pageIx + 1 <==> pageIx < maxPageIx) && (pageIx == maxPageIx ==> n == pageIx)
  {
  }

  /** The window `pageItems()` restricts the menu to. */
  function PageOf(fm: Menus.FilteredMenu, pageIx: int, pageSize: int): Menus.FilteredMenu
  {
    Menus.Restricted(fm, pageIx * pageSize, Some((pageIx + 1) * pageSize), None)
  }

  /**
   * On a full-window menu, entry `i` of page `pageIx` is entry
   * `pageIx * pageSize + i` of the menu for `i` below `pageSize`, and there
   * are no further entries; the page holds `pageSize` entries, or what is
   * left of the menu.
   */
  lemma PageEntries(fm: Menus.FilteredMenu, pageIx: int, pageSize: int, i: int)
    requires Menus.WellFormed(fm) && fm.scope.begin == 0 && fm.scope.end.None?
    requires pageIx >= 0 && pageSize > 0 && i >= 0
    ensures Menus.WellFormed(PageOf(fm, pageIx, pageSize))
    ensures Menus.MenuIndex(PageOf(fm, pageIx, pageSize), i) ==
      if i < pageSize then Menus.MenuIndex(fm, pageIx * pageSize + i) else None
    ensures var rest := Menus.MenuLength(fm) - pageIx * pageSize;
      Menus.MenuLength(PageOf(fm, pageIx, pageSize)) == if rest < 0 then 0 else if rest < pageSize then rest else pageSize
  {
    Menus.RestrictedIndex(fm, pageIx * pageSize, Some((pageIx + 1) * pageSize), None, i);
    MulMono(0, pageIx, pageSize);
  }

  /**
   * The pages cover the menu: entry `j` lies on page `j / pageSize` at
   * position `j % pageSize`, and that page is available.
   */
  lemma PagesCover(fm: Menus.FilteredMenu, pageSize: int, j: int)
    requires Menus.WellFormed(fm) && fm.scope.begin == 0 && fm.scope.end.None?
    requires pageSize > 0 && 0 <= j < Menus.MenuLength(fm)
    ensures PageAvailable(j / pageSize, MaxPageIx(Menus.MenuLength(fm), pageSize))
    ensures Menus.MenuIndex(PageOf(fm, j / pageSize, pageSize), j % pageSize) == Menus.MenuIndex(fm, j)
  {
    var p, k := j / pageSize, j % pageSize;
    assert p * pageSize + k == j;
    PageEntries(fm, p, pageSize, k);
    PageOccupied(Menus.MenuLength(fm), pageSize, p);
  }

  // ---------------------------------------------------------------------------
  // The order page as written

  /**
   * `maxPageIx()` of js/OrderMenu/Model.js as written: it calls
   * `Math.ceiling`, which is not a function, so every call throws (`None`).
   */
  function OrderMaxPageIxAsWritten(len: int): Option<int>
  {
    None
  }

  /** `gotoPage(i)` of the order page as written: `None` where `maxPageIx()` is reached and throws. */
  function OrderGotoPageAsWritten(pageIx: int, i: int, len: int): Option<int>
  {
    if i < 0 then Some(pageIx)
    else
      match OrderMaxPageIxAsWritten(len)
      case None => None
      case Some(m) => Some(GotoPage(pageIx, i, m))
  }

  /**
   * As written the order page never changes page: from any valid index the
   * next page throws, and so does the previous one except on the first
   * page, where nothing happens. With `Math.ceil` the next page is reached
   * whenever the menu extends past the current one.
   */
  lemma OrderPagingAsWritten(pageIx: int, len: int)
    requires pageIx >= 0
    ensures OrderGotoPageAsWritten(pageIx, pageIx + 1, len).None?
    ensures pageIx > 0 ==> OrderGotoPageAsWritten(pageIx, pageIx - 1, len).None?
    ensures OrderGotoPageAsWritten(0, -1, len) == Some(0)
    ensures (pageIx + 1) * OrderPageSize < len ==>
      GotoPage(pageIx, pageIx + 1, MaxPageIx(len, OrderPageSize)) == pageIx + 1
  {
    if (pageIx + 1) * OrderPageSize < len {
      PageOccupied(len, OrderPageSize, pageIx + 1);
    }
  }
}
