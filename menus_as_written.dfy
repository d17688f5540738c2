// Two places where restoring a `MenuManager` from its JSON form, as written in
// js/MenuManager.js, does not give back the manager that was saved. Each is
// modelled as written with a lemma showing the discrepancy; the intended
// behaviour is the one module Menus models.
module MenusAsWritten {
  import opened Wrappers
  import opened Items
  import opened Json
  import Ledgers
  import opened Menus

  // ---------------------------------------------------------------------------
  // `priceMax` comes back as `null`

  /**
   * `fromJSON` keeps the parsed filters as they are, so a `priceMax` of
   * `Infinity`, written as `null`, stays `null`; `price > null` then
   * compares the price with 0, which is a `priceMax` of 0.
   */
  function FiltersFromJsonAsWritten(j: Json): Option<Filters>
  {
    var f := FiltersFromJson(j);
    if f.Some? && f.value.priceMax.None? then Some(f.value.(priceMax := Some(0))) else f
  }

  /**
   * As written, filters without a price ceiling come back from their JSON
   * form rejecting every item priced above 0, whatever the stock; read back
   * as intended they are the saved filters.
   */
  lemma PriceMaxLostOnRestore(f: Filters, item: Item, L: Ledgers.Ledger, stockMin: int)
    requires f.priceMax.None? && item.price.Some? && item.price.value > 0
    ensures var r := FiltersFromJsonAsWritten(FiltersToJson(f));
      r.Some? && r.value == f.(priceMax := Some(0)) && !VerifyItem(item, L, r.value, stockMin)
    ensures FiltersFromJson(FiltersToJson(f)) == Some(f)
  {
    FiltersRoundTrip(f);
  }

  // ---------------------------------------------------------------------------
  // `fromJSONString` drops the stock

  /**
   * No item passes the tests made before the stock is read, so building a
   * menu never reads the stock and every bucket is empty.
   */
  lemma {:induction false} BucketsWithoutCandidates(db: seq<Item>, c: Category, L: Ledgers.Ledger, f: Filters, stockMin: int)
    requires forall x | x in db :: !SimpleChecks(x, f)
    ensures Bucket(db, c, L, f, stockMin) == []
  {
    if |db| > 0 {
      assert db[|db| - 1] in db;
      assert forall x | x in db[..|db| - 1] :: x in db;
      BucketsWithoutCandidates(db[..|db| - 1], c, L, f, stockMin);
    }
  }

  /**
   * `getMenu` of a manager restored by `fromJSONString`, which passes no
   * stock on: with no cache for the current filters, `verifyItem` calls
   * `getStock` on `undefined` and throws a `TypeError` (`None`) at the first
   * item that passes the tests before it.
   */
  function GetMenuWithoutStock(st: MenuState, db: seq<Item>): Option<(FilteredMenu, MenuState)>
  {
    if st.stored.Some? && st.stored.value.filters == st.filters then Some(GetMenu(st, db, Ledgers.EmptyLedger))
    else if exists x | x in db :: SimpleChecks(x, st.filters) then None
    else Some(GetMenu(st, db, Ledgers.EmptyLedger))
  }

  /**
   * A manager restored as written fails its first `getMenu` as soon as one
   * item passes the price, kosher, organic and strength tests; restored with
   * its stock, its first `getMenu` is a fresh build over that stock. When no
   * item passes those tests the missing stock goes unnoticed.
   */
  lemma FromJsonStringDropsStock(j: Json, db: seq<Item>, L: Ledgers.Ledger)
    requires StateFromJson(j).Some?
    ensures var st := StateFromJson(j).value;
      ((exists x | x in db :: SimpleChecks(x, st.filters)) ==> GetMenuWithoutStock(st, db).None?)
      && ((forall x | x in db :: !SimpleChecks(x, st.filters)) ==> GetMenuWithoutStock(st, db) == Some(GetMenu(st, db, L)))
      && GetMenu(st, db, L).0 == FreshView(st, db, L)
  {
    var st := StateFromJson(j).value;
    GetMenuMemo(st, db, L);
    if forall x | x in db :: !SimpleChecks(x, st.filters) {
      forall k | 0 <= k < |Order|
        ensures Bucket(db, Order[k], L, st.filters, st.stockMin) == []
        ensures Bucket(db, Order[k], Ledgers.EmptyLedger, st.filters, st.stockMin) == []
      {
        BucketsWithoutCandidates(db, Order[k], L, st.filters, st.stockMin);
        BucketsWithoutCandidates(db, Order[k], Ledgers.EmptyLedger, st.filters, st.stockMin);
      }
      assert Buckets(db, L, st.filters, st.stockMin) == Buckets(db, Ledgers.EmptyLedger, st.filters, st.stockMin);
    }
  }
}
