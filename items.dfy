// Menu items (js/Item.js, and Item.prototype.hasHazards of js/common.js):
// the database record, its conversion into an Item, Drink or Food, and the
// JSON form of items and of ItemQuantity.
module Items {
  import opened Wrappers
  import opened Json

  /**
   * The database fields an item is built from; every value arrives as text.
   * The record's other fields, which the constructor also copies, are read
   * by nothing here and are left out.
   */
  datatype DbItem = DbItem(
    nr: string,
    name: string,
    name2: string,
    category: string,
    priceinclvat: string,
    kosher: string,
    organic: string,
    alcoholstrength: string,
    mass: string)

  /** What distinguishes a Drink or a Food from a plain Item. `None` stands for `NaN`. */
  datatype Details = Plain | Drink(strength: Option<int>) | Food(mass: Option<int>)

  /** A constructed item. `price == None` stands for a price that parsed to `NaN`. */
  datatype Item = Item(
    id: string,
    nr: string,
    name: string,
    name2: string,
    category: string,
    price: Option<int>,
    kosher: bool,
    organic: bool,
    details: Details)

  /**
   * Number conversion of database text (JavaScript `Number`). It is a parameter
   * of the constructors: `None` is `NaN`.
   */
  type Parse = string -> Option<int>

  /** JavaScript `s.slice(0, -1)`: every character but the last. */
  function DropLast(s: string): (r: string)
    ensures |s| > 0 ==> s == r + [s[|s| - 1]]
    ensures |s| == 0 ==> r == ""
  {
    if |s| == 0 then "" else s[..|s| - 1]
  }

  function Base(db: DbItem, number: Parse, details: Details): Item
  {
    Item(db.nr, db.nr, db.name, db.name2, db.category, number(db.priceinclvat),
         db.kosher == "1", db.organic == "1", details)
  }

  /** `new Item(dbItem)`. */
  function MakeItem(db: DbItem, number: Parse): (r: Item)
    ensures r.id == db.nr
    ensures r.kosher <==> db.kosher == "1"
    ensures r.organic <==> db.organic == "1"
    ensures r.price == number(db.priceinclvat)
    ensures r.details == Plain
  {
    Base(db, number, Plain)
  }

  /** `new Drink(dbItem)`: the strength is parsed once its trailing "%" is dropped. */
  function MakeDrink(db: DbItem, number: Parse): (r: Item)
    ensures r.id == db.nr && r.kosher == (db.kosher == "1") && r.organic == (db.organic == "1")
    ensures r.details.Drink? && r.details.strength == number(DropLast(db.alcoholstrength))
  {
    Base(db, number, Drink(number(DropLast(db.alcoholstrength))))
  }

  /** `new Food(dbItem)`. */
  function MakeFood(db: DbItem, number: Parse): (r: Item)
    ensures r.id == db.nr && r.kosher == (db.kosher == "1") && r.organic == (db.organic == "1")
    ensures r.details.Food? && r.details.mass == number(db.mass)
  {
    Base(db, number, Food(number(db.mass)))
  }

  /** `hasHazards`: the item is not both kosher and organic. */
  predicate HasHazards(it: Item)
  {
    !it.kosher || !it.organic
  }

  /** A database kosher/organic flag "1" gives a hazard-free item only when the other flag is "1" too. */
  lemma HazardsOfDb(db: DbItem, number: Parse)
    ensures !HasHazards(MakeItem(db, number)) <==> db.kosher == "1" && db.organic == "1"
  {
  }

  // ---------------------------------------------------------------------------
  // JSON form

  /** A number field; `NaN` is written as `null`, as `JSON.stringify` does. */
  function NumToJson(n: Option<int>): Json
  {
    if n.Some? then JNum(n.value) else JNull
  }

  function NumFromJson(j: Json): Option<Option<int>>
  {
    match j
    case JNum(n) => Some(Some(n))
    case JNull => Some(None)
    case _ => None
  }

  function KindName(d: Details): string
  {
    match d
    case Plain => "Item"
    case Drink(_) => "Drink"
    case Food(_) => "Food"
  }

  /** The item's own fields, keyed as in the object the constructor builds. */
  function ItemFields(it: Item): seq<Member>
  {
    [ Member("nr", JStr(it.nr)), Member("name", JStr(it.name)), Member("name2", JStr(it.name2)),
      Member("category", JStr(it.category)), Member("priceinclvat", NumToJson(it.price)),
      Member("kosher", JBool(it.kosher)), Member("organic", JBool(it.organic)) ]
    + (match it.details
       case Plain => []
       case Drink(s) => [Member("alcoholstrength", NumToJson(s))]
       case Food(m) => [Member("mass", NumToJson(m))])
    + [ Member("id", JStr(it.id)) ]
  }

  /** `Item.prototype.toJSON`: the constructor's name and a copy of the item's fields. */
  function ItemToJson(it: Item): Json
  {
    JObj([Member("constructor", JStr(KindName(it.details))), Member("object", JObj(ItemFields(it)))])
  }

  function StrField(o: Json, key: string): Option<string>
  {
    var v := Field(o, key);
    if v.Some? && v.value.JStr? then Some(v.value.s) else None
  }

  function BoolField(o: Json, key: string): Option<bool>
  {
    var v := Field(o, key);
    if v.Some? && v.value.JBool? then Some(v.value.b) else None
  }

  function NumField(o: Json, key: string): Option<Option<int>>
  {
    var v := Field(o, key);
    if v.Some? then NumFromJson(v.value) else None
  }

  /**
   * Reading an item back from its JSON form, dispatching on the constructor
   * name; `None` for a value that is not the JSON form of an item.
   */
  function ItemFromJson(j: Json): Option<Item>
  {
    var tag := StrField(j, "constructor");
    var o := Field(j, "object");
    if tag.None? || o.None? then None
    else
      var o := o.value;
      var nr, name, name2 := StrField(o, "nr"), StrField(o, "name"), StrField(o, "name2");
      var cat, price := StrField(o, "category"), NumField(o, "priceinclvat");
      var kosher, organic, id := BoolField(o, "kosher"), BoolField(o, "organic"), StrField(o, "id");
      var details :=
        if tag.value == "Item" then Some(Plain)
        else if tag.value == "Drink" then
          (var s := NumField(o, "alcoholstrength"); if s.Some? then Some(Drink(s.value)) else None)
        else if tag.value == "Food" then
          (var m := NumField(o, "mass"); if m.Some? then Some(Food(m.value)) else None)
        else None;
      if nr.None? || name.None? || name2.None? || cat.None? || price.None? || kosher.None?
         || organic.None? || id.None? || details.None?
      then None
      else Some(Item(id.value, nr.value, name.value, name2.value, cat.value, price.value,
                     kosher.value, organic.value, details.value))
  }

  /** Serialising an item and reading it back gives the same item. */
  lemma ItemRoundTrip(it: Item)
    ensures ItemFromJson(ItemToJson(it)) == Some(it)
  {
    var o := JObj(ItemFields(it));
    var top := [Member("constructor", JStr(KindName(it.details))), Member("object", o)];
    LookupFirst(top, "constructor", 0);
    LookupFirst(top, "object", 1);
    NamesRead(it);
    FlagsRead(it);
    DetailsRead(it);
  }

  /** The string fields of an item's object read back. */
  lemma NamesRead(it: Item)
    ensures var o := JObj(ItemFields(it));
      StrField(o, "nr") == Some(it.nr) && StrField(o, "name") == Some(it.name)
      && StrField(o, "name2") == Some(it.name2) && StrField(o, "category") == Some(it.category)
      && StrField(o, "id") == Some(it.id)
  {
    var ms := ItemFields(it);
    LookupFirst(ms, "nr", 0);
    LookupFirst(ms, "name", 1);
    LookupFirst(ms, "name2", 2);
    LookupFirst(ms, "category", 3);
    LookupFirst(ms, "id", |ms| - 1);
  }

  /** The price and the two flags of an item's object read back. */
  lemma FlagsRead(it: Item)
    ensures var o := JObj(ItemFields(it));
      NumField(o, "priceinclvat") == Some(it.price) && BoolField(o, "kosher") == Some(it.kosher)
      && BoolField(o, "organic") == Some(it.organic)
  {
    var ms := ItemFields(it);
    LookupFirst(ms, "priceinclvat", 4);
    LookupFirst(ms, "kosher", 5);
    LookupFirst(ms, "organic", 6);
    assert NumFromJson(NumToJson(it.price)) == Some(it.price);
  }

  /** The strength of a drink and the mass of a food read back. */
  lemma DetailsRead(it: Item)
    ensures var o := JObj(ItemFields(it));
      (it.details.Drink? ==> NumField(o, "alcoholstrength") == Some(it.details.strength))
      && (it.details.Food? ==> NumField(o, "mass") == Some(it.details.mass))
  {
    var ms := ItemFields(it);
    match it.details {
      case Plain =>
      case Drink(s) =>
        LookupFirst(ms, "alcoholstrength", 7);
        assert NumFromJson(NumToJson(s)) == Some(s);
      case Food(m) =>
        LookupFirst(ms, "mass", 7);
        assert NumFromJson(NumToJson(m)) == Some(m);
    }
  }

  // ---------------------------------------------------------------------------
  // ItemQuantity

  /** An item together with how many of it are meant. */
  datatype ItemQuantity = ItemQuantity(item: Item, quantity: int)

  /** `new ItemQuantity(item, quantity = 1)`. */
  function MakeItemQuantity(item: Item, quantity: int := 1): (r: ItemQuantity)
    ensures r.item == item && r.quantity == quantity
  {
    ItemQuantity(item, quantity)
  }

  lemma DefaultQuantity(item: Item)
    ensures MakeItemQuantity(item).quantity == 1
  {
  }

  /** `ItemQuantity.prototype.toJSON`. */
  function QuantityToJson(q: ItemQuantity): Json
  {
    JObj([Member("item", ItemToJson(q.item)), Member("quantity", JNum(q.quantity))])
  }

  /** `ItemQuantity.fromJSON`. */
  function QuantityFromJson(j: Json): Option<ItemQuantity>
  {
    var item := Field(j, "item");
    var quantity := Field(j, "quantity");
    if item.None? || quantity.None? || !quantity.value.JNum? then None
    else
      var it := ItemFromJson(item.value);
      if it.None? then None else Some(MakeItemQuantity(it.value, quantity.value.n))
  }

  /** Serialising an ItemQuantity and reading it back keeps the item and the quantity. */
  lemma QuantityRoundTrip(q: ItemQuantity)
    ensures QuantityFromJson(QuantityToJson(q)) == Some(q)
  {
    var ms := [Member("item", ItemToJson(q.item)), Member("quantity", JNum(q.quantity))];
    LookupFirst(ms, "item", 0);
    LookupFirst(ms, "quantity", 1);
    ItemRoundTrip(q.item);
  }
}
