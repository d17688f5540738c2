// The filtered catalogue of js/MenuManager.js: the filters and the item test
// `verifyItem`, the category splitting `subCategoriesOf`, the bucketing of a
// `FilteredMenu` into main categories, its window (`index`, `length`,
// `restricted`, the iterator), and the `MenuManager` state that memoises
// `getMenu` and undoes filter changes.
module Menus {
  import opened Wrappers
  import opened Text
  import opened Items
  import Ledgers
  import opened Json

  // ---------------------------------------------------------------------------
  // Main categories

  /** A key of a menu's `categories` object: `misc` or a key of `mainCategories`. */
  datatype Category = Misc | Ale | Whisky | WhiteWine | RedWine | MiscWine | AlcoholFree | Sherry | Vermouth | Cognac

  /** The keys of `categories` in their insertion order: `misc`, then `mainCategories` as declared. */
  const Order: seq<Category> := [Misc, Ale, Whisky, WhiteWine, RedWine, MiscWine, AlcoholFree, Sherry, Vermouth, Cognac]

  /** The position of a category's bucket. */
  function Pos(c: Category): (k: nat)
    ensures k < |Order| && Order[k] == c
  {
    match c
    case Misc => 0
    case Ale => 1
    case Whisky => 2
    case WhiteWine => 3
    case RedWine => 4
    case MiscWine => 5
    case AlcoholFree => 6
    case Sherry => 7
    case Vermouth => 8
    case Cognac => 9
  }

  /** The object key of a category. */
  function Key(c: Category): string
  {
    match c
    case Misc => "misc"
    case Ale => "ale"
    case Whisky => "whisky"
    case WhiteWine => "white_wine"
    case RedWine => "red_wine"
    case MiscWine => "misc_wine"
    case AlcoholFree => "alcoholfree"
    case Sherry => "sherry"
    case Vermouth => "vermouth"
    case Cognac => "cognac"
  }

  /** The category with a given key, if any. */
  function FromKey(s: string): (r: Option<Category>)
    ensures r.Some? ==> Key(r.value) == s
  {
    if s == "misc" then Some(Misc)
    else if s == "ale" then Some(Ale)
    else if s == "whisky" then Some(Whisky)
    else if s == "white_wine" then Some(WhiteWine)
    else if s == "red_wine" then Some(RedWine)
    else if s == "misc_wine" then Some(MiscWine)
    else if s == "alcoholfree" then Some(AlcoholFree)
    else if s == "sherry" then Some(Sherry)
    else if s == "vermouth" then Some(Vermouth)
    else if s == "cognac" then Some(Cognac)
    else None
  }

  /** Every category is found again from its key. */
  lemma KeyRoundTrip(c: Category)
    ensures FromKey(Key(c)) == Some(c)
  {
  }

  /** `mainCategories[key]`: the lower-case subcategories a main category gathers; `misc` gathers none. */
  function Keywords(c: Category): seq<string>
  {
    match c
    case Misc => []
    case Ale => ["öl", "ale"]
    case Whisky => ["whisky"]
    case WhiteWine => ["vitt vin"]
    case RedWine => ["rött vin"]
    case MiscWine => ["mousserande vin", "fruktvin", "rosévin", "vin av flera typer", "vinsprit"]
    case AlcoholFree => ["alkoholfritt"]
    case Sherry => ["sherry"]
    case Vermouth => ["vermouth"]
    case Cognac => ["cognac"]
  }

  // ---------------------------------------------------------------------------
  // Subcategories

  /**
   * `subCategoriesOf(category)`: split on ",", then on "och", then on "&",
   * trim every piece and drop the empty ones. No piece is empty, has white
   * space at either end, or still contains a separator.
   */
  function SubCategoriesOf(category: string): (r: seq<string>)
    ensures forall p | p in r :: p != "" && Trimmed(p)
    ensures Free(r, ",") && Free(r, "och") && Free(r, "&")
  {
    var a := Split(category, ",");
    var b := SplitAll(a, "och");
    var c := SplitAll(b, "&");
    var d := TrimAll(c);
    SplitPiecesFree(category, ",");
    SplitAllKeepsFree(a, "och", ",");
    SplitAllFree(a, "och");
    SplitAllKeepsFree(b, "&", ",");
    SplitAllKeepsFree(b, "&", "och");
    SplitAllFree(b, "&");
    TrimAllKeepsFree(c, ",");
    TrimAllKeepsFree(c, "och");
    TrimAllKeepsFree(c, "&");
    NonEmpty(d)
  }

  /** A category without separators, trimmed and non-empty, is its own single subcategory. */
  lemma SubCategoriesOfPlain(s: string)
    requires s != "" && Trimmed(s)
    requires !Includes(s, ",") && !Includes(s, "och") && !Includes(s, "&")
    ensures SubCategoriesOf(s) == [s]
  {
    SplitAbsent(s, ",");
    SplitAbsent(s, "och");
    SplitAbsent(s, "&");
    assert [s][1..] == [];
    assert SplitAll([s], "och") == [s];
    assert SplitAll([s], "&") == [s];
    TrimTrimmed(s);
    assert TrimAll([s]) == [s];
    NonEmptyKeeps([s]);
  }

  /** The example of the source's comment. */
  lemma SubCategoriesOfExample()
    ensures SubCategoriesOf("Rött vin, Kryddigt & Mustigt") == ["Rött vin", "Kryddigt", "Mustigt"]
  {
    ExampleJoin();
    ExampleFree();
    ExampleTrimmed();
    ExampleShape("Rött vin", " Kryddigt ", " Mustigt", "Kryddigt", "Mustigt");
  }

  /** The example category cut at its comma and its ampersand. */
  lemma ExampleJoin()
    ensures "Rött vin, Kryddigt & Mustigt" == "Rött vin" + [','] + (" Kryddigt " + ['&'] + " Mustigt")
  {
  }

  /** No piece of the example holds a separator. */
  lemma ExampleFree()
    ensures !Includes("Rött vin", ",") && !Includes("Rött vin", "och") && !Includes("Rött vin", "&")
    ensures !Includes(" Kryddigt ", ",") && !Includes(" Kryddigt ", "och") && !Includes(" Kryddigt ", "&")
    ensures !Includes(" Mustigt", ",") && !Includes(" Mustigt", "och") && !Includes(" Mustigt", "&")
    ensures !Includes(" Kryddigt " + ['&'] + " Mustigt", "och")
  {
    SeparatorFree("Rött vin");
    SeparatorFree(" Kryddigt ");
    SeparatorFree(" Mustigt");
    MissingChar(" Kryddigt " + ['&'] + " Mustigt", "och", 0);
  }

  /** The example's pieces are subcategories padded with spaces. */
  lemma ExampleTrimmed()
    ensures " Kryddigt " == [' '] + ("Kryddigt" + [' ']) && " Mustigt" == [' '] + "Mustigt"
    ensures Trimmed("Rött vin") && Trimmed("Kryddigt") && Trimmed("Mustigt")
  {
  }

  /** A piece without a comma, an `o` or an ampersand holds none of the three separators. */
  lemma SeparatorFree(s: string)
    requires forall j | 0 <= j < |s| :: s[j] != ',' && s[j] != 'o' && s[j] != '&'
    ensures !Includes(s, ",") && !Includes(s, "och") && !Includes(s, "&")
  {
    MissingChar(s, ",", 0);
    MissingChar(s, "och", 0);
    MissingChar(s, "&", 0);
  }

  /** The example's steps on any three pieces of the same shape. */
  lemma ExampleShape(x: string, y1: string, y2: string, k: string, m: string)
    requires y1 == [' '] + (k + [' ']) && y2 == [' '] + m
    requires x != "" && k != "" && m != "" && Trimmed(x) && Trimmed(k) && Trimmed(m)
    requires !Includes(x, ",") && !Includes(x, "och") && !Includes(x, "&")
    requires !Includes(y1, ",") && !Includes(y1, "och") && !Includes(y1, "&")
    requires !Includes(y2, ",") && !Includes(y2, "och") && !Includes(y2, "&")
    requires !Includes(y1 + ['&'] + y2, "och")
    ensures SubCategoriesOf(x + [','] + (y1 + ['&'] + y2)) == [x, k, m]
  {
    var y := y1 + ['&'] + y2;
    var a := ExampleComma(x, y1, y2);
    SplitAllNone(a, "och");
    var c := ExampleAmpersand(x, y1, y2);
    ExampleTrim(x, y1, y2, k, m);
  }

  lemma ExampleComma(x: string, y1: string, y2: string) returns (a: seq<string>)
    requires !Includes(x, ",") && !Includes(y1, ",") && !Includes(y2, ",")
    ensures a == [x, y1 + ['&'] + y2] && Split(x + [','] + (y1 + ['&'] + y2), ",") == a
  {
    var y := y1 + ['&'] + y2;
    OccursAtCharFree(y1, y2, ',', '&');
    SplitConcat(x, ',', y);
    SplitAbsent(x, ",");
    SplitAbsent(y, ",");
    a := [x, y];
  }

  lemma ExampleAmpersand(x: string, y1: string, y2: string) returns (c: seq<string>)
    requires !Includes(x, "&") && !Includes(y1, "&") && !Includes(y2, "&")
    ensures c == [x, y1, y2] && SplitAll([x, y1 + ['&'] + y2], "&") == c
  {
    var y := y1 + ['&'] + y2;
    SplitConcat(y1, '&', y2);
    SplitAbsent(y1, "&");
    SplitAbsent(y2, "&");
    SplitAbsent(x, "&");
    assert Split(y, "&") == [y1, y2];
    assert [x, y][1..] == [y];
    assert [y][1..] == [];
    assert SplitAll([y], "&") == [y1, y2];
    assert SplitAll([x, y], "&") == [x] + [y1, y2];
    c := [x, y1, y2];
  }

  lemma ExampleTrim(x: string, y1: string, y2: string, k: string, m: string)
    requires y1 == [' '] + (k + [' ']) && y2 == [' '] + m
    requires x != "" && k != "" && m != "" && Trimmed(x) && Trimmed(k) && Trimmed(m)
    ensures NonEmpty(TrimAll([x, y1, y2])) == [x, k, m]
  {
    var r := TrimAll([x, y1, y2]);
    TrimTrimmed(x);
    TrimPadded(k, y1);
    TrimHeaded(m, y2);
    assert r == [x, k, m];
    NonEmptyKeeps([x, k, m]);
  }

  lemma TrimPadded(k: string, y: string)
    requires Trimmed(k) && y == [' '] + (k + [' '])
    ensures Trim(y) == k
  {
    TrimLeadingSpace(' ', k + [' ']);
    TrimTrailingSpace(k, ' ');
    TrimTrimmed(k);
  }

  lemma TrimHeaded(m: string, y: string)
    requires Trimmed(m) && y == [' '] + m
    ensures Trim(y) == m
  {
    TrimLeadingSpace(' ', m);
    TrimTrimmed(m);
  }

  /** Joining two pieces with a character other than `c` adds no `c`. */
  lemma OccursAtCharFree(y1: string, y2: string, c: char, d: char)
    requires c != d && !Includes(y1, [c]) && !Includes(y2, [c])
    ensures !Includes(y1 + [d] + y2, [c])
  {
    var y := y1 + [d] + y2;
    forall j: nat | j <= |y| ensures !OccursAt(y, [c], j) {
      OccursAtChar(y, c, j);
      if j < |y1| {
        OccursAtChar(y1, c, j);
      } else if j > |y1| && j < |y| {
        OccursAtChar(y2, c, j - |y1| - 1);
      }
    }
  }

  // ---------------------------------------------------------------------------
  // `getSubCategories`

  /** How often `x` occurs in `ps`. */
  function Occurrences(ps: seq<string>, x: string): (n: nat)
    ensures n <= |ps|
    ensures n > 0 <==> x in ps
  {
    if |ps| == 0 then 0
    else Occurrences(ps[..|ps| - 1], x) + (if ps[|ps| - 1] == x then 1 else 0)
  }

  /** The subcategory lists of `items`, in order. */
  function SubCategoryLists(items: seq<Item>): (r: seq<seq<string>>)
    ensures |r| == |items|
    ensures forall j | 0 <= j < |items| :: r[j] == SubCategoriesOf(items[j].category)
  {
    seq(|items|, j requires 0 <= j < |items| => SubCategoriesOf(items[j].category))
  }

  /** How often `x` occurs in all of `lists`. */
  function Tally(lists: seq<seq<string>>, x: string): nat
  {
    if |lists| == 0 then 0
    else Tally(lists[..|lists| - 1], x) + Occurrences(lists[|lists| - 1], x)
  }

  /** A subcategory has a positive tally exactly when some list holds it. */
  lemma {:induction false} TallyPositive(lists: seq<seq<string>>, x: string)
    ensures Tally(lists, x) > 0 <==> exists j | 0 <= j < |lists| :: x in lists[j]
  {
    if |lists| > 0 {
      var init := lists[..|lists| - 1];
      TallyPositive(init, x);
      assert forall j | 0 <= j < |init| :: init[j] == lists[j];
    }
  }

  /** Counting the subcategories of one more item. */
  method CountInto(counts: map<string, nat>, cats: seq<string>) returns (r: map<string, nat>)
    ensures forall x :: x in r <==> x in counts || x in cats
    ensures forall x | x in r :: r[x] == (if x in counts then counts[x] else 0) + Occurrences(cats, x)
  {
    r := counts;
    var k := 0;
    while k < |cats|
      invariant 0 <= k <= |cats|
      invariant forall x :: x in r <==> x in counts || x in cats[..k]
      invariant forall x | x in r :: r[x] == (if x in counts then counts[x] else 0) + Occurrences(cats[..k], x)
    {
      assert cats[..k + 1][..k] == cats[..k];
      var cat := cats[k];
      if cat !in r {
        r := r[cat := 1];
      } else {
        r := r[cat := r[cat] + 1];
      }
      k := k + 1;
    }
    assert cats[..k] == cats;
  }

  /**
   * `getSubCategories(items)`: each subcategory some item lists, with the
   * number of times the items list it.
   */
  method GetSubCategories(items: seq<Item>) returns (counts: map<string, nat>)
    ensures forall x :: x in counts <==> Tally(SubCategoryLists(items), x) > 0
    ensures forall x | x in counts :: counts[x] == Tally(SubCategoryLists(items), x)
  {
    ghost var lists := SubCategoryLists(items);
    counts := map[];
    var n := 0;
    while n < |items|
      invariant 0 <= n <= |items|
      invariant forall x :: x in counts <==> Tally(lists[..n], x) > 0
      invariant forall x | x in counts :: counts[x] == Tally(lists[..n], x)
    {
      assert lists[..n + 1][..n] == lists[..n];
      var cats := SubCategoriesOf(items[n].category);
      assert cats == lists[n];
      counts := CountInto(counts, cats);
      n := n + 1;
    }
    assert lists[..n] == lists;
  }

  // ---------------------------------------------------------------------------
  // Filters

  datatype DrinkFilter = DrinkFilter(percentageMin: int, percentageMax: int)

  /** The filters object; `priceMax == None` is `Infinity`. */
  datatype Filters = Filters(
    priceMin: int,
    priceMax: Option<int>,
    drink: DrinkFilter,
    subCategories: seq<string>,
    searches: seq<string>,
    organic: bool,
    kosher: bool)

  /** `emptyFilters()`. */
  function EmptyFilters(): (f: Filters)
    ensures f.priceMin == 0 && f.priceMax.None?
    ensures f.drink == DrinkFilter(0, 100)
    ensures f.subCategories == [] && f.searches == []
    ensures !f.organic && !f.kosher
  {
    Filters(0, None, DrinkFilter(0, 100), [], [], false, false)
  }

  /** `x < bound` where `None` is `NaN`: false for `NaN`. */
  predicate Below(x: Option<int>, bound: int)
  {
    x.Some? && x.value < bound
  }

  /** `x > bound` where `x == None` is `NaN` and `bound == None` is `Infinity`. */
  predicate Above(x: Option<int>, bound: Option<int>)
  {
    x.Some? && bound.Some? && x.value > bound.value
  }

  /** The tests `verifyItem` makes before it consults the stock: price, kosher, organic and, for a Drink, strength. */
  predicate SimpleChecks(item: Item, f: Filters)
  {
    !(Below(item.price, f.priceMin) || Above(item.price, f.priceMax)
      || (!item.kosher && f.kosher) || (!item.organic && f.organic))
    && !(item.details.Drink?
         && (Below(item.details.strength, f.drink.percentageMin)
             || Above(item.details.strength, Some(f.drink.percentageMax))))
  }

  /**
   * `verifyItem(item, stock, filters, stockMin)`: the tests in the order the
   * source makes them. Booleans compare as numbers, so `item.kosher <
   * filters.kosher` holds when only the filter is set. `L` is the stock.
   */
  predicate VerifyItem(item: Item, L: Ledgers.Ledger, f: Filters, stockMin: int)
  {
    var subcategories := SubCategoriesOf(item.category);
    if !SimpleChecks(item, f) then false
    else if Ledgers.Available(L, item.id) <= stockMin then false
    else if exists cat | cat in f.subCategories :: cat !in subcategories then false
    else if exists s | s in f.searches ::
      !Includes(item.name, s) && !Includes(item.name2, s) && !Includes(item.category, s) then false
    else true
  }

  /**
   * An item passes exactly when every requirement holds. A price or strength
   * that is `NaN` is never out of range.
   */
  lemma VerifyItemIff(item: Item, L: Ledgers.Ledger, f: Filters, stockMin: int)
    ensures VerifyItem(item, L, f, stockMin) <==>
      (item.price.Some? ==> f.priceMin <= item.price.value
                            && (f.priceMax.Some? ==> item.price.value <= f.priceMax.value))
      && (f.kosher ==> item.kosher) && (f.organic ==> item.organic)
      && (item.details.Drink? && item.details.strength.Some? ==>
            f.drink.percentageMin <= item.details.strength.value <= f.drink.percentageMax)
      && Ledgers.Available(L, item.id) > stockMin
      && (forall cat | cat in f.subCategories :: cat in SubCategoriesOf(item.category))
      && (forall s | s in f.searches ::
            Includes(item.name, s) || Includes(item.name2, s) || Includes(item.category, s))
  {
  }

  /** The empty filters hold back only items short of stock, priced below 0, or with a strength outside 0..100. */
  lemma EmptyFiltersAccept(item: Item, L: Ledgers.Ledger, stockMin: int)
    ensures VerifyItem(item, L, EmptyFilters(), stockMin) <==>
      (item.price.Some? ==> item.price.value >= 0)
      && (item.details.Drink? && item.details.strength.Some? ==> 0 <= item.details.strength.value <= 100)
      && Ledgers.Available(L, item.id) > stockMin
  {
    VerifyItemIff(item, L, EmptyFilters(), stockMin);
  }

  // ---------------------------------------------------------------------------
  // Bucketing

  /** Some keyword of main category `c` is among the item's lower-cased subcategories. */
  predicate Matches(item: Item, c: Category)
  {
    MatchesIn(SubCategoriesOf(ToLower(item.category)), c)
  }

  /** `mainCategories[key].some(str => subCategories.includes(str))`. */
  predicate MatchesIn(subCategories: seq<string>, c: Category)
  {
    exists kw | kw in Keywords(c) :: kw in subCategories
  }

  /** The bucket `c` an accepted item joins: each main category it matches, or `misc` when it matches none. */
  predicate Belongs(item: Item, c: Category)
  {
    BelongsIn(SubCategoriesOf(ToLower(item.category)), c)
  }

  predicate BelongsIn(subCategories: seq<string>, c: Category)
  {
    if c == Misc then forall k | 1 <= k < |Order| :: !MatchesIn(subCategories, Order[k])
    else MatchesIn(subCategories, c)
  }

  /** The items of `db`, in order, that bucket `c` of a menu built with these filters holds. */
  function Bucket(db: seq<Item>, c: Category, L: Ledgers.Ledger, f: Filters, stockMin: int): seq<Item>
  {
    if |db| == 0 then []
    else
      var item := db[|db| - 1];
      Bucket(db[..|db| - 1], c, L, f, stockMin)
        + (if VerifyItem(item, L, f, stockMin) && Belongs(item, c) then [item] else [])
  }

  /** An item is in a bucket exactly when it is in the database, passes the filters and belongs there. */
  lemma {:induction false} BucketMembers(db: seq<Item>, c: Category, L: Ledgers.Ledger, f: Filters, stockMin: int, x: Item)
    ensures x in Bucket(db, c, L, f, stockMin) <==> x in db && VerifyItem(x, L, f, stockMin) && Belongs(x, c)
  {
    if |db| > 0 {
      var init := db[..|db| - 1];
      var last := db[|db| - 1];
      BucketMembers(init, c, L, f, stockMin, x);
      InSnoc(Bucket(init, c, L, f, stockMin), last, VerifyItem(last, L, f, stockMin) && Belongs(last, c), x);
      InLast(db, x);
    }
  }

  /** An item with subcategories `sub` lands in `misc` exactly when it lands in no main category. */
  lemma MiscExactlyWhenUnmatched(sub: seq<string>)
    ensures BelongsIn(sub, Misc) <==> forall c: Category | c != Misc :: !BelongsIn(sub, c)
  {
    if !BelongsIn(sub, Misc) {
      var k :| 1 <= k < |Order| && MatchesIn(sub, Order[k]);
      assert Order[k] != Misc && BelongsIn(sub, Order[k]);
    } else {
      forall c: Category | c != Misc ensures !BelongsIn(sub, c) {
        assert 1 <= Pos(c) < |Order|;
      }
    }
  }

  /** The buckets of a menu built from `db`, in `categories` order. */
  function Buckets(db: seq<Item>, L: Ledgers.Ledger, f: Filters, stockMin: int): (r: seq<seq<Item>>)
    ensures |r| == |Order|
    ensures forall k | 0 <= k < |Order| :: r[k] == Bucket(db, Order[k], L, f, stockMin)
  {
    seq(|Order|, k requires 0 <= k < |Order| => Bucket(db, Order[k], L, f, stockMin))
  }

  /** One more database item extends each bucket by that item or by nothing. */
  lemma BucketStep(db: seq<Item>, i: nat, c: Category, L: Ledgers.Ledger, f: Filters, stockMin: int)
    requires i < |db|
    ensures Bucket(db[..i + 1], c, L, f, stockMin) == Bucket(db[..i], c, L, f, stockMin)
      + (if VerifyItem(db[i], L, f, stockMin) && Belongs(db[i], c) then [db[i]] else [])
  {
    assert db[..i + 1][..i] == db[..i];
  }

  /** `FilteredMenu.prototype.initialize`: one pass over the database, pushing each accepted item. */
  method Initialize(db: seq<Item>, L: Ledgers.Ledger, f: Filters, stockMin: int) returns (buckets: seq<seq<Item>>)
    ensures buckets == Buckets(db, L, f, stockMin)
  {
    buckets := seq(|Order|, _ => []);
    for i := 0 to |db|
      invariant |buckets| == |Order|
      invariant forall k | 0 <= k < |Order| :: buckets[k] == Bucket(db[..i], Order[k], L, f, stockMin)
    {
      forall k | 0 <= k < |Order| {
        BucketStep(db, i, Order[k], L, f, stockMin);
      }
      if VerifyItem(db[i], L, f, stockMin) {
        buckets := Place(buckets, db[i], SubCategoriesOf(ToLower(db[i].category)));
      }
    }
    assert db[..|db|] == db;
  }

  /** The body of `initialize` for an accepted item with subcategories `sub`: push it onto each bucket it belongs to. */
  method Place(buckets: seq<seq<Item>>, item: Item, sub: seq<string>) returns (r: seq<seq<Item>>)
    requires |buckets| == |Order|
    ensures |r| == |Order|
    ensures forall k | 0 <= k < |Order| :: r[k] == buckets[k] + (if BelongsIn(sub, Order[k]) then [item] else [])
  {
    r := buckets;
    var mainCatFound := false;
    for k := 1 to |Order|
      invariant |r| == |Order|
      invariant mainCatFound <==> exists j | 1 <= j < k :: MatchesIn(sub, Order[j])
      invariant forall j | 1 <= j < k :: r[j] == buckets[j] + (if MatchesIn(sub, Order[j]) then [item] else [])
      invariant forall j | j == 0 || k <= j < |Order| :: r[j] == buckets[j]
    {
      if MatchesIn(sub, Order[k]) {
        r := r[k := r[k] + [item]];
        mainCatFound := true;
      }
    }
    if !mainCatFound {
      r := r[0 := r[0] + [item]];
    }
  }

  // ---------------------------------------------------------------------------
  // Filtered views

  /**
   * The window of a view: indices `begin <= ix < end` of the chosen bucket,
   * or of all buckets one after another. `end == None` is `Infinity`, and
   * `category == None` is `null` (every bucket).
   */
  datatype Scope = Scope(begin: int, end: Option<int>, category: Option<Category>)

  /** A `FilteredMenu`: the filters it was built with, its window, and the buckets it shares with the views made from it. */
  datatype FilteredMenu = FilteredMenu(filters: Filters, stockMin: int, scope: Scope, categories: seq<seq<Item>>)

  predicate WellFormed(fm: FilteredMenu)
  {
    |fm.categories| == |Order|
  }

  /** `new FilteredMenu(dataBase, stock, filters, stockMin)`: the full window over freshly built buckets. */
  function Build(db: seq<Item>, L: Ledgers.Ledger, f: Filters, stockMin: int): (fm: FilteredMenu)
    ensures WellFormed(fm) && fm.scope == Scope(0, None, None)
    ensures fm.filters == f && fm.stockMin == stockMin
    ensures forall c: Category :: fm.categories[Pos(c)] == Bucket(db, c, L, f, stockMin)
  {
    FilteredMenu(f, stockMin, Scope(0, None, None), Buckets(db, L, f, stockMin))
  }

  /** The constructor, running `initialize`. */
  method NewFilteredMenu(db: seq<Item>, L: Ledgers.Ledger, f: Filters, stockMin: int) returns (fm: FilteredMenu)
    ensures fm == Build(db, L, f, stockMin)
  {
    var buckets := Initialize(db, L, f, stockMin);
    fm := FilteredMenu(f, stockMin, Scope(0, None, None), buckets);
  }

  /** The buckets one after another (`Object.values(this.categories)` flattened). */
  function Concat(ls: seq<seq<Item>>): seq<Item>
  {
    if |ls| == 0 then [] else Concat(ls[..|ls| - 1]) + ls[|ls| - 1]
  }

  lemma {:induction false} ConcatAppend(a: seq<seq<Item>>, b: seq<seq<Item>>)
    ensures Concat(a + b) == Concat(a) + Concat(b)
    decreases |b|
  {
    if |b| > 0 {
      var b0 := b[..|b| - 1];
      assert (a + b)[..|a + b| - 1] == a + b0;
      ConcatAppend(a, b0);
    } else {
      assert a + b == a;
    }
  }

  /** The items a view indexes into before its window applies: the chosen bucket, or every bucket in order. */
  function Pool(fm: FilteredMenu): seq<Item>
    requires WellFormed(fm)
  {
    if fm.scope.category.Some? then fm.categories[Pos(fm.scope.category.value)] else Concat(fm.categories)
  }

  /** What `index(i)` denotes: element `begin + i` of the pool, unless that is past `end` or out of range. */
  function MenuIndex(fm: FilteredMenu, i: int): Option<Item>
    requires WellFormed(fm)
  {
    var ix := i + fm.scope.begin;
    if fm.scope.end.Some? && ix >= fm.scope.end.value then None
    else if 0 <= ix < |Pool(fm)| then Some(Pool(fm)[ix])
    else None
  }

  /** `min(end, count)` where `None` is `Infinity`. */
  function Top(end: Option<int>, count: int): int
  {
    if end.Some? && end.value < count then end.value else count
  }

  /** What `length()` denotes: `max(0, min(end, count) - begin)`. */
  function MenuLength(fm: FilteredMenu): int
    requires WellFormed(fm)
  {
    var n := Top(fm.scope.end, |Pool(fm)|) - fm.scope.begin;
    if n < 0 then 0 else n
  }

  /** For a window that starts at or after 0, `index(i)` is defined for exactly the `i` below `length()`. */
  lemma IndexWithinLength(fm: FilteredMenu, i: int)
    requires WellFormed(fm) && 0 <= fm.scope.begin && 0 <= i
    ensures MenuIndex(fm, i).Some? <==> i < MenuLength(fm)
    ensures i < MenuLength(fm) ==> MenuIndex(fm, i) == Some(Pool(fm)[fm.scope.begin + i])
  {
  }

  /** An index at or past the end of the scope is `undefined`. */
  lemma IndexPastEnd(fm: FilteredMenu, i: int)
    requires WellFormed(fm) && fm.scope.end.Some? && i + fm.scope.begin >= fm.scope.end.value
    ensures MenuIndex(fm, i).None?
  {
  }

  /** `FilteredMenu.prototype.index`: offset by `begin`, then walk the buckets, taking off each one's length. */
  method Index(fm: FilteredMenu, i: int) returns (r: Option<Item>)
    requires WellFormed(fm)
    ensures r == MenuIndex(fm, i)
  {
    var ix := i + fm.scope.begin;
    if fm.scope.end.Some? && ix >= fm.scope.end.value {
      return None;
    }
    if fm.scope.category.Some? {
      var list := fm.categories[Pos(fm.scope.category.value)];
      return if 0 <= ix < |list| then Some(list[ix]) else None;
    }
    ghost var start := ix;
    var k := 0;
    while k < |fm.categories|
      invariant 0 <= k <= |fm.categories|
      invariant ix == start - |Concat(fm.categories[..k])|
      invariant k > 0 ==> ix >= 0
    {
      var list := fm.categories[k];
      ConcatAppend(fm.categories[..k + 1], fm.categories[k + 1..]);
      assert fm.categories[..k + 1] + fm.categories[k + 1..] == fm.categories;
      assert fm.categories[..k + 1][..k] == fm.categories[..k];
      if ix < |list| {
        return if ix >= 0 then Some(list[ix]) else None;
      }
      ix := ix - |list|;
      k := k + 1;
    }
    assert fm.categories[..k] == fm.categories;
    r := None;
  }

  /** `FilteredMenu.prototype.length`: the bucket size, or the sum over all buckets, clipped to the window. */
  method Length(fm: FilteredMenu) returns (n: int)
    requires WellFormed(fm)
    ensures n == MenuLength(fm)
  {
    var count;
    if fm.scope.category.Some? {
      count := |fm.categories[Pos(fm.scope.category.value)]|;
    } else {
      count := 0;
      for k := 0 to |fm.categories|
        invariant count == |Concat(fm.categories[..k])|
      {
        assert fm.categories[..k + 1][..k] == fm.categories[..k];
        count := count + |fm.categories[k]|;
      }
      assert fm.categories[..|fm.categories|] == fm.categories;
    }
    n := Top(fm.scope.end, count) - fm.scope.begin;
    if n < 0 {
      n := 0;
    }
  }

  /**
   * A `for ... of` loop over a view, with `FilteredMenuIterator`: call
   * `index` with 0, 1, ... until it is `undefined`. For a window starting at
   * or after 0 it yields exactly `length()` items, the window of the pool.
   */
  method Iterate(fm: FilteredMenu) returns (xs: seq<Item>)
    requires WellFormed(fm)
    ensures forall j | 0 <= j < |xs| :: MenuIndex(fm, j) == Some(xs[j])
    ensures MenuIndex(fm, |xs|).None?
    ensures 0 <= fm.scope.begin ==>
      |xs| == MenuLength(fm) && forall j | 0 <= j < |xs| :: 0 <= fm.scope.begin + j < |Pool(fm)| && xs[j] == Pool(fm)[fm.scope.begin + j]
  {
    xs := [];
    var item := Index(fm, 0);
    while item.Some?
      invariant forall j | 0 <= j < |xs| :: MenuIndex(fm, j) == Some(xs[j])
      invariant item == MenuIndex(fm, |xs|)
      decreases |Pool(fm)| - fm.scope.begin - |xs|
    {
      xs := xs + [item.value];
      item := Index(fm, |xs|);
    }
    if 0 <= fm.scope.begin {
      IndexWithinLength(fm, |xs|);
      if |xs| > 0 { IndexWithinLength(fm, |xs| - 1); }
      forall j | 0 <= j < |xs| ensures xs[j] == Pool(fm)[fm.scope.begin + j] {
        IndexWithinLength(fm, j);
      }
    }
  }

  /** `min(a, b)` on ends, where `None` is `Infinity`. */
  function MinEnd(a: Option<int>, b: Option<int>): Option<int>
  {
    if a.None? then b else if b.None? then a else Some(if a.value < b.value then a.value else b.value)
  }

  /** `x + e` where `None` is `Infinity`. */
  function Offset(x: int, e: Option<int>): Option<int>
  {
    if e.None? then None else Some(x + e.value)
  }

  /**
   * `restricted(begin, end, category)`: a view sharing the buckets, whose
   * window is `[begin, end)` relative to this one, clipped to it.
   * `category == None` leaves the argument out, which inherits this view's.
   */
  function Restricted(fm: FilteredMenu, begin: int, end: Option<int>, category: Option<Option<Category>>): FilteredMenu
  {
    var e := MinEnd(fm.scope.end, Offset(fm.scope.begin, end));
    var b := if e.Some? && e.value < begin + fm.scope.begin then e.value else begin + fm.scope.begin;
    FilteredMenu(fm.filters, fm.stockMin, Scope(b, e, category.GetOr(fm.scope.category)), fm.categories)
  }

  /** `end` lies within `limit`, where `None` is `Infinity`. */
  predicate EndWithin(end: Option<int>, limit: Option<int>)
  {
    limit.None? || (end.Some? && end.value <= limit.value)
  }

  /** A window is ordered when its start is not past its end. */
  predicate Ordered(s: Scope)
  {
    s.end.None? || s.begin <= s.end.value
  }

  /**
   * With non-negative arguments a restricted view never widens the parent's
   * window, shares its buckets, filters and stock buffer, and keeps its
   * category unless given another.
   */
  lemma RestrictedNarrows(fm: FilteredMenu, begin: int, end: Option<int>, category: Option<Option<Category>>)
    requires 0 <= begin && (end.None? || 0 <= end.value) && Ordered(fm.scope)
    ensures var r := Restricted(fm, begin, end, category);
      fm.scope.begin <= r.scope.begin && Ordered(r.scope) && EndWithin(r.scope.end, fm.scope.end)
      && r.categories == fm.categories && r.filters == fm.filters && r.stockMin == fm.stockMin
      && (category.None? ==> r.scope.category == fm.scope.category)
      && (category.Some? ==> r.scope.category == category.value)
  {
  }

  /**
   * A restricted view indexes the parent: its item `i` is the parent's item
   * `begin + i`, up to the new end, when both look at the same bucket.
   */
  lemma RestrictedIndex(fm: FilteredMenu, begin: int, end: Option<int>, category: Option<Option<Category>>, i: int)
    requires WellFormed(fm) && 0 <= i
    requires category.None? || category.value == fm.scope.category
    ensures MenuIndex(Restricted(fm, begin, end, category), i) ==
      if end.Some? && begin + i >= end.value then None else MenuIndex(fm, begin + i)
  {
  }

  /** Restricting twice is restricting once, to the window of the second call inside the first. */
  lemma RestrictedCompose(fm: FilteredMenu, b1: int, e1: Option<int>, c1: Option<Option<Category>>,
                          b2: int, e2: Option<int>, c2: Option<Option<Category>>)
    requires 0 <= b2 && (e2.None? || 0 <= e2.value)
    ensures Restricted(Restricted(fm, b1, e1, c1), b2, e2, c2)
      == Restricted(fm, b1 + b2, MinEnd(e1, Offset(b1, e2)), Some(c2.GetOr(c1.GetOr(fm.scope.category))))
  {
  }

  /** The instance the source's design relies on: `restricted(0, 2).restricted(0, 1)` is `restricted(0, 1)`. */
  lemma RestrictedTwice(fm: FilteredMenu)
    ensures Restricted(Restricted(fm, 0, Some(2), None), 0, Some(1), None) == Restricted(fm, 0, Some(1), None)
  {
    RestrictedCompose(fm, 0, Some(2), None, 0, Some(1), None);
  }

  /** Restricting the full window to itself changes only the category. */
  lemma RestrictedFull(fm: FilteredMenu, c: Option<Category>)
    requires fm.scope.begin == 0 && fm.scope.end.None?
    ensures Restricted(fm, 0, None, Some(c)) == fm.(scope := Scope(0, None, c))
  {
  }

  // ---------------------------------------------------------------------------
  // The manager's state

  /**
   * The fields of a `MenuManager` besides its database and stock:
   * `storedFilteredMenu == None` is `null`, `mainCategory == None` is `null`.
   */
  datatype MenuState = MenuState(filters: Filters, stored: Option<FilteredMenu>, mainCategory: Option<Category>, stockMin: int)

  /** `new MenuManager(dataBase, stock, stockMin)`. */
  function NewMenuState(stockMin: int): (st: MenuState)
    ensures st.filters == EmptyFilters() && st.stored.None? && st.mainCategory.None? && st.stockMin == stockMin
  {
    MenuState(EmptyFilters(), None, None, stockMin)
  }

  /** The stock buffer when the constructor is given none. */
  const DefaultStockMin: int := 5

  /** The menu `getMenu` restricts: the stored one if its filters equal the current ones, or a new one. */
  function Cached(st: MenuState, db: seq<Item>, L: Ledgers.Ledger): FilteredMenu
  {
    if st.stored.None? || st.stored.value.filters != st.filters then Build(db, L, st.filters, st.stockMin)
    else st.stored.value
  }

  /** `getMenu()`: the view handed out and the state with the cache it leaves. */
  function GetMenu(st: MenuState, db: seq<Item>, L: Ledgers.Ledger): (FilteredMenu, MenuState)
  {
    var c := Cached(st, db, L);
    (Restricted(c, 0, None, Some(st.mainCategory)), st.(stored := Some(c)))
  }

  /** The view a fresh build gives: the full window over the current buckets, on the main category. */
  function FreshView(st: MenuState, db: seq<Item>, L: Ledgers.Ledger): (v: FilteredMenu)
    ensures WellFormed(v) && v.filters == st.filters && v.scope == Scope(0, None, st.mainCategory)
    ensures v.categories == Buckets(db, L, st.filters, st.stockMin)
  {
    Build(db, L, st.filters, st.stockMin).(scope := Scope(0, None, st.mainCategory))
  }

  /** A full-window menu whose buckets are the ones its filters give for this database and stock. */
  predicate Current(m: FilteredMenu, db: seq<Item>, L: Ledgers.Ledger, stockMin: int)
  {
    m.scope.begin == 0 && m.scope.end.None? && m.stockMin == stockMin
    && m.categories == Buckets(db, L, m.filters, stockMin)
  }

  /** The cache, if any, is up to date with the database and stock. */
  predicate Coherent(st: MenuState, db: seq<Item>, L: Ledgers.Ledger)
  {
    st.stored.None? || Current(st.stored.value, db, L, st.stockMin)
  }

  /**
   * While the cache is up to date, memoisation is invisible: `getMenu` hands
   * out the view a fresh build would, and leaves the cache up to date, with
   * the filters, main category and buffer untouched.
   */
  lemma GetMenuMemo(st: MenuState, db: seq<Item>, L: Ledgers.Ledger)
    requires Coherent(st, db, L)
    ensures GetMenu(st, db, L).0 == FreshView(st, db, L)
    ensures var s := GetMenu(st, db, L).1;
      Coherent(s, db, L) && s.filters == st.filters && s.mainCategory == st.mainCategory && s.stockMin == st.stockMin
      && s.stored.Some? && s.stored.value.filters == st.filters
  {
  }

  /** A second `getMenu` finds the cache the first one left and hands out the same view. */
  lemma GetMenuTwice(st: MenuState, db: seq<Item>, L: Ledgers.Ledger)
    ensures var (v, s) := GetMenu(st, db, L); GetMenu(s, db, L) == (v, s)
  {
  }

  /**
   * The cache is keyed on the filters alone: once it holds a menu for the
   * current filters, a change of stock does not change the view handed out.
   */
  lemma GetMenuIgnoresStock(st: MenuState, db: seq<Item>, L1: Ledgers.Ledger, L2: Ledgers.Ledger)
    requires st.stored.Some? && st.stored.value.filters == st.filters
    ensures GetMenu(st, db, L1) == GetMenu(st, db, L2)
  {
  }

  /** `clearFilter()`: the empty filters, not undoable. */
  function ClearFilter(st: MenuState): (r: MenuState)
    ensures r.filters == EmptyFilters() && r.stored == st.stored && r.mainCategory == st.mainCategory && r.stockMin == st.stockMin
  {
    st.(filters := EmptyFilters())
  }

  // ---------------------------------------------------------------------------
  // `modifyFilterCommand`

  /** The record of a filter state: its filters and, when preserving, the view shown under them. */
  datatype SavedMenu = SavedMenu(filters: Filters, storedFilteredMenu: Option<FilteredMenu>)

  /** Undo's result `{oldMenu, undoneMenu}`. */
  datatype MenuPair = MenuPair(oldMenu: SavedMenu, undoneMenu: SavedMenu)

  /**
   * The perform of `modifyFilterCommand(modifier, preserve)`, with the
   * modifier's result given as `newFilters`. `None` is `{success: false}`;
   * the state is then changed only in its cache.
   */
  function PerformModifyFilter(st: MenuState, db: seq<Item>, L: Ledgers.Ledger, newFilters: Filters, preserve: bool): (MenuState, Option<SavedMenu>)
  {
    var (saved, s) := if preserve then var (v, s1) := GetMenu(st, db, L); (Some(v), s1) else (None, st);
    var s2 := s.(filters := newFilters);
    if newFilters == st.filters then (s2, None) else (s2, Some(SavedMenu(st.filters, saved)))
  }

  /** The command's undo: put back the saved filters and, when preserving, the saved view as the cache. */
  function UndoModifyFilter(st: MenuState, db: seq<Item>, L: Ledgers.Ledger, oldMenu: SavedMenu, preserve: bool): (MenuState, MenuPair)
  {
    var (undone, s) := if preserve then var (v, s1) := GetMenu(st, db, L); (Some(v), s1) else (None, st);
    var s2 := if preserve then s.(stored := oldMenu.storedFilteredMenu) else s;
    (s2.(filters := oldMenu.filters), MenuPair(oldMenu, SavedMenu(st.filters, undone)))
  }

  /** The command's redo: put back the undone filters and, when preserving, the undone view. */
  function RedoModifyFilter(st: MenuState, menus: MenuPair, preserve: bool): (MenuState, SavedMenu)
  {
    var s := st.(filters := menus.undoneMenu.filters);
    (if preserve then s.(stored := menus.undoneMenu.storedFilteredMenu) else s, menus.oldMenu)
  }

  /** The command fails exactly when the new filters equal the old ones, and never touches the main category or buffer. */
  lemma ModifyFilterFails(st: MenuState, db: seq<Item>, L: Ledgers.Ledger, newFilters: Filters, preserve: bool)
    ensures var (s, r) := PerformModifyFilter(st, db, L, newFilters, preserve);
      (r.None? <==> newFilters == st.filters) && s.filters == newFilters
      && s.mainCategory == st.mainCategory && s.stockMin == st.stockMin
      && (r.Some? ==> r.value.filters == st.filters)
  {
  }

  /**
   * Perform then undo, with the stock unchanged, gives back the old filters,
   * and `getMenu` then shows the very view it showed before; with or
   * without preserving, the cache stays up to date.
   */
  lemma ModifyFilterUndo(st: MenuState, db: seq<Item>, L: Ledgers.Ledger, newFilters: Filters, preserve: bool)
    requires Coherent(st, db, L) && newFilters != st.filters
    ensures var (s1, saved) := PerformModifyFilter(st, db, L, newFilters, preserve);
      saved.Some? &&
      var (s2, menus) := UndoModifyFilter(s1, db, L, saved.value, preserve);
      s2.filters == st.filters && s2.mainCategory == st.mainCategory && s2.stockMin == st.stockMin
      && Coherent(s2, db, L) && GetMenu(s2, db, L).0 == GetMenu(st, db, L).0
      && menus.oldMenu == saved.value && menus.undoneMenu.filters == newFilters
  {
    var (s1, saved) := PerformModifyFilter(st, db, L, newFilters, preserve);
    GetMenuMemo(st, db, L);
    if preserve {
      GetMenuMemo(s1.(filters := st.filters), db, L);
      GetMenuMemo(s1, db, L);
    }
    var (s2, menus) := UndoModifyFilter(s1, db, L, saved.value, preserve);
    GetMenuMemo(s2, db, L);
  }

  /**
   * Redo after undo gives back the new filters and the view `getMenu`
   * showed right after the perform; the cache stays up to date.
   */
  lemma ModifyFilterRedo(st: MenuState, db: seq<Item>, L: Ledgers.Ledger, newFilters: Filters, preserve: bool)
    requires Coherent(st, db, L) && newFilters != st.filters
    ensures var (s1, saved) := PerformModifyFilter(st, db, L, newFilters, preserve);
      saved.Some? &&
      var (s2, menus) := UndoModifyFilter(s1, db, L, saved.value, preserve);
      var (s3, res) := RedoModifyFilter(s2, menus, preserve);
      s3.filters == newFilters && s3.mainCategory == st.mainCategory && s3.stockMin == st.stockMin
      && res == saved.value && Coherent(s3, db, L) && GetMenu(s3, db, L).0 == GetMenu(s1, db, L).0
  {
    var (s1, saved) := PerformModifyFilter(st, db, L, newFilters, preserve);
    GetMenuMemo(st, db, L);
    assert Coherent(s1, db, L);
    GetMenuMemo(s1, db, L);
    var (s2, menus) := UndoModifyFilter(s1, db, L, saved.value, preserve);
    ModifyFilterUndo(st, db, L, newFilters, preserve);
    var (s3, res) := RedoModifyFilter(s2, menus, preserve);
    GetMenuMemo(s3, db, L);
  }

  /** `clearFilterCommand()`: `modifyFilterCommand` towards the empty filters, without preserving. */
  function PerformClearFilter(st: MenuState, db: seq<Item>, L: Ledgers.Ledger): (MenuState, Option<SavedMenu>)
  {
    PerformModifyFilter(st, db, L, EmptyFilters(), false)
  }

  /** Clearing fails exactly on filters that are already empty. */
  lemma ClearFilterFails(st: MenuState, db: seq<Item>, L: Ledgers.Ledger)
    ensures var (s, r) := PerformClearFilter(st, db, L);
      (r.None? <==> st.filters == EmptyFilters()) && s == ClearFilter(st)
  {
  }

  // ---------------------------------------------------------------------------
  // `toJSON` / `fromJSON`

  function StringsToJson(ss: seq<string>): (r: seq<Json>)
    ensures |r| == |ss| && forall i | 0 <= i < |ss| :: r[i] == JStr(ss[i])
  {
    seq(|ss|, i requires 0 <= i < |ss| => JStr(ss[i]))
  }

  function StringsFromJson(es: seq<Json>): (r: Option<seq<string>>)
    ensures r.Some? <==> forall i | 0 <= i < |es| :: es[i].JStr?
    ensures r.Some? ==> |r.value| == |es| && forall i | 0 <= i < |es| :: es[i] == JStr(r.value[i])
  {
    if forall i | 0 <= i < |es| :: es[i].JStr? then Some(seq(|es|, i requires 0 <= i < |es| => es[i].s)) else None
  }

  /** `JSON.stringify` writes `Infinity` as `null`. */
  function EndToJson(e: Option<int>): Json
  {
    if e.None? then JNull else JNum(e.value)
  }

  /** The filters as `JSON.stringify` writes them, members in the order `emptyFilters` creates them. */
  function FiltersToJson(f: Filters): Json
  {
    JObj([
      Member("priceMin", JNum(f.priceMin)),
      Member("priceMax", EndToJson(f.priceMax)),
      Member("drink", JObj([Member("percentageMin", JNum(f.drink.percentageMin)),
                            Member("percentageMax", JNum(f.drink.percentageMax))])),
      Member("subCategories", JArr(StringsToJson(f.subCategories))),
      Member("searches", JArr(StringsToJson(f.searches))),
      Member("organic", JBool(f.organic)),
      Member("kosher", JBool(f.kosher))])
  }

  function NumField(j: Json, key: string): Option<int>
  {
    var v := Field(j, key);
    if v.Some? && v.value.JNum? then Some(v.value.n) else None
  }

  function BoolField(j: Json, key: string): Option<bool>
  {
    var v := Field(j, key);
    if v.Some? && v.value.JBool? then Some(v.value.b) else None
  }

  function StringsField(j: Json, key: string): Option<seq<string>>
  {
    var v := Field(j, key);
    if v.Some? && v.value.JArr? then StringsFromJson(v.value.elems) else None
  }

  /** An upper bound read back: a number, or `null` for the `Infinity` it was written from. */
  function EndField(j: Json, key: string): Option<Option<int>>
  {
    var v := Field(j, key);
    if v.Some? && v.value.JNum? then Some(Some(v.value.n))
    else if v.Some? && v.value.JNull? then Some(None)
    else None
  }

  /** Filters read back from their JSON form, with `null` taken as the `Infinity` it stands for. */
  function FiltersFromJson(j: Json): Option<Filters>
  {
    var priceMin := NumField(j, "priceMin");
    var priceMax := EndField(j, "priceMax");
    var drink := Field(j, "drink");
    var pMin := if drink.Some? then NumField(drink.value, "percentageMin") else None;
    var pMax := if drink.Some? then NumField(drink.value, "percentageMax") else None;
    var subs := StringsField(j, "subCategories");
    var searches := StringsField(j, "searches");
    var organic := BoolField(j, "organic");
    var kosher := BoolField(j, "kosher");
    if priceMin.Some? && priceMax.Some? && pMin.Some? && pMax.Some? && subs.Some? && searches.Some?
       && organic.Some? && kosher.Some?
    then Some(Filters(priceMin.value, priceMax.value, DrinkFilter(pMin.value, pMax.value),
                      subs.value, searches.value, organic.value, kosher.value))
    else None
  }

  lemma StringsRoundTrip(ss: seq<string>)
    ensures StringsFromJson(StringsToJson(ss)) == Some(ss)
  {
    var es := StringsToJson(ss);
    var r := StringsFromJson(es);
    assert forall i | 0 <= i < |es| :: es[i].JStr?;
    assert |r.value| == |ss|;
    forall i | 0 <= i < |ss| ensures r.value[i] == ss[i] {
      assert es[i] == JStr(r.value[i]) && es[i] == JStr(ss[i]);
    }
    assert r.value == ss;
  }

  /** The filters survive their JSON form. */
  lemma FiltersRoundTrip(f: Filters)
    ensures FiltersFromJson(FiltersToJson(f)) == Some(f)
  {
    var j := FiltersToJson(f);
    StringsRoundTrip(f.subCategories);
    StringsRoundTrip(f.searches);
    var ms := j.members;
    LookupFirst(ms, "priceMin", 0);
    LookupFirst(ms, "priceMax", 1);
    LookupFirst(ms, "drink", 2);
    LookupFirst(ms, "subCategories", 3);
    LookupFirst(ms, "searches", 4);
    LookupFirst(ms, "organic", 5);
    LookupFirst(ms, "kosher", 6);
    assert NumField(j, "priceMin") == Some(f.priceMin);
    assert EndField(j, "priceMax") == Some(f.priceMax);
    var d := JObj([Member("percentageMin", JNum(f.drink.percentageMin)), Member("percentageMax", JNum(f.drink.percentageMax))]);
    assert Field(j, "drink") == Some(d);
    LookupFirst(d.members, "percentageMin", 0);
    LookupFirst(d.members, "percentageMax", 1);
    assert NumField(d, "percentageMin") == Some(f.drink.percentageMin);
    assert NumField(d, "percentageMax") == Some(f.drink.percentageMax);
    assert StringsField(j, "subCategories") == Some(f.subCategories);
    assert StringsField(j, "searches") == Some(f.searches);
    assert BoolField(j, "organic") == Some(f.organic);
    assert BoolField(j, "kosher") == Some(f.kosher);
  }

  function CategoryToJson(c: Option<Category>): Json
  {
    if c.None? then JNull else JStr(Key(c.value))
  }

  /** `toJSON()`: `{mainCategory, filters, stockMin}`; the cache is not written. */
  function StateToJson(st: MenuState): Json
  {
    JObj([Member("mainCategory", CategoryToJson(st.mainCategory)),
          Member("filters", FiltersToJson(st.filters)),
          Member("stockMin", JNum(st.stockMin))])
  }

  /**
   * `MenuManager.fromJSON(jsonRep, dataBase, stock)`: a new manager with the
   * stored buffer (the default 5 when absent), filters and main category,
   * and no cache. `None` is a representation that is not of this form.
   */
  function StateFromJson(j: Json): Option<MenuState>
  {
    var m := Field(j, "mainCategory");
    var cat := if m.Some? && m.value.JNull? then Some(None)
               else if m.Some? && m.value.JStr? && FromKey(m.value.s).Some? then Some(FromKey(m.value.s))
               else None;
    var f := if Field(j, "filters").Some? then FiltersFromJson(Field(j, "filters").value) else None;
    var sm := Field(j, "stockMin");
    var stockMin := if sm.None? then Some(DefaultStockMin) else if sm.value.JNum? then Some(sm.value.n) else None;
    if cat.Some? && f.Some? && stockMin.Some? then Some(MenuState(f.value, None, cat.value, stockMin.value)) else None
  }

  /** A manager read back from its JSON form has its filters, main category and buffer, with an empty cache. */
  lemma StateRoundTrip(st: MenuState)
    ensures StateFromJson(StateToJson(st)) == Some(st.(stored := None))
  {
    var j := StateToJson(st);
    FiltersRoundTrip(st.filters);
    if st.mainCategory.Some? { KeyRoundTrip(st.mainCategory.value); }
    LookupFirst(j.members, "mainCategory", 0);
    LookupFirst(j.members, "filters", 1);
    LookupFirst(j.members, "stockMin", 2);
    assert Field(j, "mainCategory") == Some(CategoryToJson(st.mainCategory));
    assert Field(j, "filters") == Some(FiltersToJson(st.filters));
    assert Field(j, "stockMin") == Some(JNum(st.stockMin));
  }
}
