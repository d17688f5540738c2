// The helpers of js/Management/Controller.js that are not DOM work: the ids
// of the category buttons, the filter form read into and written from the
// filters object, and the filtering submitted through the undo manager.
// The form's `<input>` elements are a sequence of `Input` values; the
// filters object is written out as the JavaScript object it is, a record of
// dynamically typed properties found by name, so that the form's routing by
// key can be modelled as it is written.
module Controllers {
  import opened Wrappers
  import Searches
  import Menus
  import Commands
  import Models
  import UndoManagers

  // ---------------------------------------------------------------------------
  // Category buttons

  /** `mainCatToId(cat)`: the id of a category button; `null` (all categories) is "ALL". */
  function MainCatToId(cat: Option<string>): string
  {
    "cat-" + (if cat.None? then "ALL" else cat.value)
  }

  /** `s.slice(k)` for `k >= 0`: what follows the first `k` characters, or "" when there are fewer. */
  function Slice(s: string, k: nat): string
  {
    if |s| >= k then s[k..] else ""
  }

  /** `idToMainCat(id)`: the category a button id names; "cat-ALL" names all (`null`). */
  function IdToMainCat(id: string): Option<string>
  {
    var cat := Slice(id, 4);
    if cat == "ALL" then None else Some(cat)
  }

  /**
   * The two conversions are inverse: every category other than "ALL", and
   * `null`, comes back from its id; every id that starts with "cat-" comes
   * back from its category. A category literally named "ALL" shares its id
   * with `null`.
   */
  lemma CategoryIdRoundTrip(cat: Option<string>, id: string)
    ensures cat != Some("ALL") ==> IdToMainCat(MainCatToId(cat)) == cat
    ensures |id| >= 4 && id[..4] == "cat-" ==> MainCatToId(IdToMainCat(id)) == id
    ensures MainCatToId(Some("ALL")) == MainCatToId(None)
  {
    var s := MainCatToId(cat);
    assert s[4..] == if cat.None? then "ALL" else cat.value;
    if |id| >= 4 && id[..4] == "cat-" {
      assert id == id[..4] + id[4..];
    }
  }

  /** The main category of a menu as the string the page uses, `null` being all categories. */
  function CategoryName(c: Option<Menus.Category>): Option<string>
  {
    if c.None? then None else Some(Menus.Key(c.value))
  }

  /** Every main category of the menu, and "all categories", is found again from its button's id. */
  lemma CategoryButtons(c: Option<Menus.Category>)
    ensures IdToMainCat(MainCatToId(CategoryName(c))) == CategoryName(c)
    ensures c.Some? ==> Menus.FromKey(IdToMainCat(MainCatToId(CategoryName(c))).value) == c
  {
    if c.Some? {
      assert Menus.Key(c.value) != "ALL" by {
        assert Menus.Key(c.value)[0] != 'A';
      }
      Menus.KeyRoundTrip(c.value);
    }
    CategoryIdRoundTrip(CategoryName(c), "");
  }

  // ---------------------------------------------------------------------------
  // The filters object

  /** A property value of the filters object; `DrinkObject` stands for the nested `drink` object. */
  datatype Field = Flag(b: bool) | Num(n: int) | Infinity | Phrases(ps: seq<string>) | Text(s: string) | DrinkObject

  /** The properties of `emptyFilters()`, those of its nested `drink` object included. */
  datatype Prop = PriceMin | PriceMax | DrinkProp | SubCategories | Searches | Organic | Kosher | PercentageMin | PercentageMax

  /** Which of the two objects an input edits. */
  datatype Slot = Top | Drink

  /** The object holding a property. */
  function PropSlot(p: Prop): Slot
  {
    if p == PercentageMin || p == PercentageMax then Drink else Top
  }

  /** The property's name in its object. */
  function PropKey(p: Prop): string
  {
    match p
    case PriceMin => "priceMin"
    case PriceMax => "priceMax"
    case DrinkProp => "drink"
    case SubCategories => "subCategories"
    case Searches => "searches"
    case Organic => "organic"
    case Kosher => "kosher"
    case PercentageMin => "percentageMin"
    case PercentageMax => "percentageMax"
  }

  /** `key in studiedFilters`: the property a name denotes in an object, if the object has it. */
  function PropOf(slot: Slot, key: string): (r: Option<Prop>)
    ensures r.Some? ==> PropSlot(r.value) == slot && PropKey(r.value) == key
  {
    match slot
    case Drink =>
      if key == "percentageMin" then Some(PercentageMin)
      else if key == "percentageMax" then Some(PercentageMax)
      else None
    case Top =>
      if key == "priceMin" then Some(PriceMin)
      else if key == "priceMax" then Some(PriceMax)
      else if key == "drink" then Some(DrinkProp)
      else if key == "subCategories" then Some(SubCategories)
      else if key == "searches" then Some(Searches)
      else if key == "organic" then Some(Organic)
      else if key == "kosher" then Some(Kosher)
      else None
  }

  /** Every property of `emptyFilters()` is found by its name in its object, and only those. */
  lemma PropNames(p: Prop, slot: Slot, key: string)
    ensures PropOf(slot, key) == Some(p) <==> PropSlot(p) == slot && PropKey(p) == key
  {
  }

  /**
   * The filters object. It never gains a property, since `getFilterForm`
   * sets only those it has, so it is a record of its properties, those of
   * `drink` included.
   */
  datatype FilterObject = FilterObject(
    priceMin: Field, priceMax: Field, drink: Field, subCategories: Field, searches: Field,
    organic: Field, kosher: Field, percentageMin: Field, percentageMax: Field)

  function Get(o: FilterObject, p: Prop): Field
  {
    match p
    case PriceMin => o.priceMin
    case PriceMax => o.priceMax
    case DrinkProp => o.drink
    case SubCategories => o.subCategories
    case Searches => o.searches
    case Organic => o.organic
    case Kosher => o.kosher
    case PercentageMin => o.percentageMin
    case PercentageMax => o.percentageMax
  }

  /** `studiedFilters[key] = v`: property `p` set to `v`, the others unchanged. */
  function Set(o: FilterObject, p: Prop, v: Field): (r: FilterObject)
    ensures Get(r, p) == v
    ensures forall q | q != p :: Get(r, q) == Get(o, q)
  {
    match p
    case PriceMin => o.(priceMin := v)
    case PriceMax => o.(priceMax := v)
    case DrinkProp => o.(drink := v)
    case SubCategories => o.(subCategories := v)
    case Searches => o.(searches := v)
    case Organic => o.(organic := v)
    case Kosher => o.(kosher := v)
    case PercentageMin => o.(percentageMin := v)
    case PercentageMax => o.(percentageMax := v)
  }

  /** The number `priceMax` holds: `Infinity` is `None`. */
  function Bound(x: Option<int>): Field
  {
    if x.None? then Infinity else Num(x.value)
  }

  /** The object a `Menus.Filters` value is in the page. */
  function ObjectOf(f: Menus.Filters): FilterObject
  {
    FilterObject(Num(f.priceMin), Bound(f.priceMax), DrinkObject, Phrases(f.subCategories), Phrases(f.searches),
                 Flag(f.organic), Flag(f.kosher), Num(f.drink.percentageMin), Num(f.drink.percentageMax))
  }

  /** `emptyFilters()` as an object. */
  function EmptyObject(): FilterObject
  {
    ObjectOf(Menus.EmptyFilters())
  }

  /** The filters value an object stands for, when each property holds a value of its kind. */
  function ToFilters(o: FilterObject): Option<Menus.Filters>
  {
    if o.priceMin.Num? && (o.priceMax.Num? || o.priceMax.Infinity?) && o.drink.DrinkObject?
       && o.subCategories.Phrases? && o.searches.Phrases? && o.organic.Flag? && o.kosher.Flag?
       && o.percentageMin.Num? && o.percentageMax.Num?
    then Some(Menus.Filters(o.priceMin.n, if o.priceMax.Num? then Some(o.priceMax.n) else None,
                           Menus.DrinkFilter(o.percentageMin.n, o.percentageMax.n),
                           o.subCategories.ps, o.searches.ps, o.organic.b, o.kosher.b))
    else None
  }

  /**
   * The object of a filters value stands for that value, and an object that
   * stands for a value is that value's object.
   */
  lemma ObjectRoundTrip(f: Menus.Filters, o: FilterObject)
    ensures ToFilters(ObjectOf(f)) == Some(f)
    ensures ToFilters(o).Some? ==> ObjectOf(ToFilters(o).value) == o
  {
  }

  // ---------------------------------------------------------------------------
  // Reading the form

  /** An `<input>` of the filter form, by its `type`. */
  datatype Control =
    | Checkbox(checked: bool)
      /** A number box; its value is `None` when it is empty. */
    | NumberBox(number: Option<int>)
    | SearchBox(text: string)
    | TextBox(text: string)
    | OtherInput

  datatype Input = Input(id: string, control: Control)

  /**
   * The object and property name an input's id gives: "filter-" is dropped
   * (`slice(7)`), and a key that then starts with "drink-" names the
   * property after that prefix in the `drink` object.
   */
  function Route(id: string): (Slot, string)
  {
    var key := Slice(id, 7);
    if |key| >= 6 && key[..6] == "drink-" then (Drink, key[6..]) else (Top, key)
  }

  /** The property an input edits, if its object has that property. */
  function Target(x: Input): Option<Prop>
  {
    var (slot, key) := Route(x.id);
    PropOf(slot, key)
  }

  /**
   * What an input stores into its property: nothing for an empty number box
   * or an input of another type; a search box stores its `googlify`
   * phrases.
   */
  function Read(c: Control): Option<Field>
  {
    match c
    case Checkbox(b) => Some(Flag(b))
    case NumberBox(n) => if n.None? then None else Some(Num(n.value))
    case SearchBox(t) => Some(Phrases(Searches.SearchPhrases(t)))
    case TextBox(t) => Some(Text(t))
    case OtherInput => None
  }

  /** One iteration of `getFilterForm`: only a property the object has is set. */
  function Store(o: FilterObject, x: Input): FilterObject
  {
    var p := Target(x);
    var v := Read(x.control);
    if p.Some? && v.Some? then Set(o, p.value, v.value) else o
  }

  /** The object after storing `inputs` into `o`, in order. */
  function StoreAll(o: FilterObject, inputs: seq<Input>): FilterObject
  {
    if inputs == [] then o else Store(StoreAll(o, inputs[..|inputs| - 1]), inputs[|inputs| - 1])
  }

  /** What the last input editing `p` stores, if any input stores something there. */
  function LastStored(inputs: seq<Input>, p: Prop): Option<Field>
  {
    if inputs == [] then None
    else
      var x := inputs[|inputs| - 1];
      if Target(x) == Some(p) && Read(x.control).Some? then Read(x.control)
      else LastStored(inputs[..|inputs| - 1], p)
  }

  /**
   * After storing a form, a property holds what the last input editing it
   * stored, and keeps its value when no input stored anything there.
   */
  lemma {:induction false} StoreAllEntries(o: FilterObject, inputs: seq<Input>, p: Prop)
    ensures Get(StoreAll(o, inputs), p) == LastStored(inputs, p).GetOr(Get(o, p))
    decreases |inputs|
  {
    if inputs != [] {
      StoreAllEntries(o, inputs[..|inputs| - 1], p);
    }
  }

  /** `getFilterForm()`: the filters object read from the form's inputs, in document order. */
  method GetFilterForm(form: seq<Input>) returns (filters: FilterObject)
    ensures filters == StoreAll(EmptyObject(), form)
  {
    filters := EmptyObject();
    for i := 0 to |form|
      invariant filters == StoreAll(EmptyObject(), form[..i])
    {
      assert form[..i + 1][..i] == form[..i];
      var (slot, key) := Route(form[i].id);
      var p := PropOf(slot, key);
      var v := Read(form[i].control);
      if p.Some? && v.Some? {
        filters := Set(filters, p.value, v.value);
      }
    }
    assert form[..|form|] == form;
  }

  /**
   * `getFilterForm()` starts from `emptyFilters()`; each property holds what
   * the last input naming it stored, and its default when none did (an
   * empty number box stores nothing); an input whose id names no property of
   * `emptyFilters()` changes nothing.
   */
  lemma GetFilterFormMeaning(form: seq<Input>, x: Input, p: Prop)
    ensures Get(StoreAll(EmptyObject(), form), p) == LastStored(form, p).GetOr(Get(EmptyObject(), p))
    ensures LastStored(form, p).None? ==> Get(StoreAll(EmptyObject(), form), p) == Get(EmptyObject(), p)
    ensures Target(x).None? ==> StoreAll(EmptyObject(), form + [x]) == StoreAll(EmptyObject(), form)
    ensures x.control == NumberBox(None) ==> StoreAll(EmptyObject(), form + [x]) == StoreAll(EmptyObject(), form)
  {
    StoreAllEntries(EmptyObject(), form, p);
    assert (form + [x])[..|form|] == form;
  }

  // ---------------------------------------------------------------------------
  // Well-typed forms

  /** The type of `<input>` that edits each property holding a plain value. */
  datatype Kind = FlagKind | NumberKind | PhrasesKind

  function FieldKind(p: Prop): Option<Kind>
  {
    match p
    case PriceMin => Some(NumberKind)
    case PriceMax => Some(NumberKind)
    case DrinkProp => None
    case SubCategories => Some(PhrasesKind)
    case Searches => Some(PhrasesKind)
    case Organic => Some(FlagKind)
    case Kosher => Some(FlagKind)
    case PercentageMin => Some(NumberKind)
    case PercentageMax => Some(NumberKind)
  }

  predicate Fits(c: Control, k: Kind)
  {
    match k
    case FlagKind => c.Checkbox?
    case NumberKind => c.NumberBox?
    case PhrasesKind => c.SearchBox?
  }

  /** An input that edits a property of `emptyFilters()` is an input of that property's kind. */
  predicate WellTypedInput(x: Input)
  {
    Target(x).Some? ==> FieldKind(Target(x).value).Some? && Fits(x.control, FieldKind(Target(x).value).value)
  }

  /** A form whose every input is well typed, as the filter form of the page is. */
  predicate WellTypedForm(form: seq<Input>)
  {
    forall i | 0 <= i < |form| :: WellTypedInput(form[i])
  }

  lemma WellTypedPrefix(form: seq<Input>, n: nat)
    requires WellTypedForm(form) && n <= |form|
    ensures WellTypedForm(form[..n])
  {
    forall i | 0 <= i < n ensures WellTypedInput(form[..n][i]) {
      assert form[..n][i] == form[i];
    }
  }

  /** A well-typed form reads as an object that stands for a filters value. */
  lemma {:induction false} StoreAllTyped(o: FilterObject, form: seq<Input>)
    requires ToFilters(o).Some? && WellTypedForm(form)
    ensures ToFilters(StoreAll(o, form)).Some?
    decreases |form|
  {
    if form != [] {
      var n := |form| - 1;
      WellTypedPrefix(form, n);
      StoreAllTyped(o, form[..n]);
      StoreTyped(StoreAll(o, form[..n]), form[n]);
    }
  }

  /** Storing one well-typed input keeps an object standing for a filters value. */
  lemma StoreTyped(o: FilterObject, x: Input)
    requires ToFilters(o).Some? && WellTypedInput(x)
    ensures ToFilters(Store(o, x)).Some?
  {
  }

  /** The filters a well-typed form reads as. */
  function FormFilters(form: seq<Input>): (f: Menus.Filters)
    requires WellTypedForm(form)
    ensures ObjectOf(f) == StoreAll(EmptyObject(), form)
  {
    StoreAllTyped(EmptyObject(), form);
    ObjectRoundTrip(Menus.EmptyFilters(), StoreAll(EmptyObject(), form));
    ToFilters(StoreAll(EmptyObject(), form)).value
  }

  // ---------------------------------------------------------------------------
  // Writing the form

  /**
   * What `setFilterForm` writes into an input holding control `c` for a
   * property holding `v`, when the input's type suits the value: `Infinity`
   * in a number box shows as an empty box, and phrases as their search text.
   */
  function ShowValue(c: Control, v: Field): Control
  {
    match (c, v)
    case (Checkbox(_), Flag(b)) => Checkbox(b)
    case (NumberBox(_), Num(n)) => NumberBox(Some(n))
    case (NumberBox(_), Infinity) => NumberBox(None)
    case (SearchBox(_), Phrases(ps)) => SearchBox(Searches.SearchText(ps))
    case (TextBox(_), Text(s)) => TextBox(s)
    case _ => c
  }

  /** What `setFilterForm` writes into one input: the value of the property its id names. */
  function Show(o: FilterObject, x: Input): Input
  {
    var p := Target(x);
    if p.None? then x else x.(control := ShowValue(x.control, Get(o, p.value)))
  }

  function ShowAll(o: FilterObject, form: seq<Input>): (r: seq<Input>)
    ensures |r| == |form|
    ensures forall i | 0 <= i < |form| :: r[i] == Show(o, form[i])
  {
    if form == [] then [] else ShowAll(o, form[..|form| - 1]) + [Show(o, form[|form| - 1])]
  }

  /** `setFilterForm(filters)`: every input of the form shows its property of `filters`. */
  method SetFilterForm(filters: Menus.Filters, form: array<Input>)
    modifies form
    ensures form[..] == ShowAll(ObjectOf(filters), old(form[..]))
  {
    var o := ObjectOf(filters);
    for i := 0 to form.Length
      invariant forall j | 0 <= j < i :: form[j] == Show(o, old(form[j]))
      invariant forall j | i <= j < form.Length :: form[j] == old(form[j])
    {
      form[i] := Show(o, form[i]);
    }
  }

  /** Some input of the form edits property `p`. */
  predicate Covers(form: seq<Input>, p: Prop)
  {
    exists i | 0 <= i < |form| :: Target(form[i]) == Some(p)
  }

  /** The phrase lists of a filters value can be written in the search box and read back. */
  predicate Writable(f: Menus.Filters)
  {
    (forall p | p in f.searches :: Searches.Phrase(p)) && (forall p | p in f.subCategories :: Searches.Phrase(p))
  }

  /** A value of the kind of control that edits it, with phrases the search box can carry. */
  predicate Holds(v: Field, k: Kind)
  {
    match k
    case FlagKind => v.Flag?
    case NumberKind => v.Num? || v.Infinity?
    case PhrasesKind => v.Phrases? && forall p | p in v.ps :: Searches.Phrase(p)
  }

  /** A value shown in a control of its kind and read back is stored again, except for an infinite bound. */
  lemma ReadShown(c: Control, v: Field, k: Kind)
    requires Fits(c, k) && Holds(v, k)
    ensures Read(ShowValue(c, v)) == if v.Infinity? then None else Some(v)
  {
    if k == PhrasesKind {
      Searches.SearchTextRoundTrip(v.ps);
    }
  }

  lemma ObjectHolds(f: Menus.Filters, p: Prop)
    requires Writable(f) && FieldKind(p).Some?
    ensures Holds(Get(ObjectOf(f), p), FieldKind(p).value)
  {
  }

  lemma CoversLast(form: seq<Input>, p: Prop)
    requires form != []
    ensures Covers(form, p) <==> Covers(form[..|form| - 1], p) || Target(form[|form| - 1]) == Some(p)
  {
    var n := |form| - 1;
    if Covers(form[..n], p) {
      CoversPrefix(form, n, p);
    }
    if Covers(form, p) && Target(form[n]) != Some(p) {
      CoversInit(form, p);
    }
  }

  lemma CoversPrefix(form: seq<Input>, n: nat, p: Prop)
    requires n <= |form| && Covers(form[..n], p)
    ensures Covers(form, p)
  {
    var i :| 0 <= i < n && Target(form[..n][i]) == Some(p);
    assert form[i] == form[..n][i];
  }

  lemma CoversInit(form: seq<Input>, p: Prop)
    requires form != [] && Covers(form, p) && Target(form[|form| - 1]) != Some(p)
    ensures Covers(form[..|form| - 1], p)
  {
    var n := |form| - 1;
    var i :| 0 <= i < |form| && Target(form[i]) == Some(p);
    assert form[..n][i] == form[i];
  }

  /** No input of a well-typed form edits the nested `drink` object itself. */
  lemma DrinkUncovered(form: seq<Input>)
    requires WellTypedForm(form)
    ensures !Covers(form, DrinkProp)
  {
    forall i | 0 <= i < |form| ensures Target(form[i]) != Some(DrinkProp) {
      assert WellTypedInput(form[i]);
    }
  }

  lemma {:induction false} LastShown(f: Menus.Filters, form: seq<Input>, p: Prop)
    requires Writable(f) && WellTypedForm(form)
    ensures LastStored(ShowAll(ObjectOf(f), form), p) ==
      if Covers(form, p) && Get(ObjectOf(f), p) != Infinity then Some(Get(ObjectOf(f), p)) else None
    decreases |form|
  {
    if form != [] {
      var n := |form| - 1;
      var o := ObjectOf(f);
      var shown := ShowAll(o, form);
      assert shown[..n] == ShowAll(o, form[..n]);
      WellTypedPrefix(form, n);
      LastShown(f, form[..n], p);
      CoversLast(form, p);
      assert Target(shown[n]) == Target(form[n]);
      if Target(form[n]) == Some(p) {
        assert WellTypedInput(form[n]);
        ObjectHolds(f, p);
        ReadShown(form[n].control, Get(o, p), FieldKind(p).value);
      }
    }
  }

  /**
   * `setFilterForm(filters)` followed by `getFilterForm()`, the code's
   * reverse of each other: a property some input of a well-typed form edits
   * comes back as it was, and any other property comes back at its default,
   * for phrase lists the search box can carry.
   */
  lemma FilterFormRoundTrip(f: Menus.Filters, form: seq<Input>, p: Prop)
    requires Writable(f) && WellTypedForm(form)
    ensures Get(StoreAll(EmptyObject(), ShowAll(ObjectOf(f), form)), p) ==
      if Covers(form, p) then Get(ObjectOf(f), p) else Get(EmptyObject(), p)
  {
    StoreAllEntries(EmptyObject(), ShowAll(ObjectOf(f), form), p);
    LastShown(f, form, p);
  }

  /** A form with an input for every property holding a plain value. */
  predicate Complete(form: seq<Input>)
  {
    forall p | FieldKind(p).Some? :: Covers(form, p)
  }

  lemma ShowAllWellTyped(o: FilterObject, form: seq<Input>)
    requires WellTypedForm(form)
    ensures WellTypedForm(ShowAll(o, form))
  {
    var shown := ShowAll(o, form);
    forall i | 0 <= i < |shown| ensures WellTypedInput(shown[i]) {
      assert WellTypedInput(form[i]);
      assert Target(shown[i]) == Target(form[i]);
    }
  }

  /** Two objects agreeing on every property are the same object. */
  lemma ObjectExt(a: FilterObject, b: FilterObject)
    requires forall p :: Get(a, p) == Get(b, p)
    ensures a == b
  {
    assert Get(a, PriceMin) == Get(b, PriceMin) && Get(a, PriceMax) == Get(b, PriceMax);
    assert Get(a, DrinkProp) == Get(b, DrinkProp) && Get(a, SubCategories) == Get(b, SubCategories);
    assert Get(a, Searches) == Get(b, Searches) && Get(a, Organic) == Get(b, Organic);
    assert Get(a, Kosher) == Get(b, Kosher) && Get(a, PercentageMin) == Get(b, PercentageMin);
    assert Get(a, PercentageMax) == Get(b, PercentageMax);
  }

  /** A complete well-typed form gives every property back as it was shown. */
  lemma CompleteFormRestores(f: Menus.Filters, form: seq<Input>, p: Prop)
    requires Writable(f) && WellTypedForm(form) && Complete(form)
    ensures Get(StoreAll(EmptyObject(), ShowAll(ObjectOf(f), form)), p) == Get(ObjectOf(f), p)
  {
    FilterFormRoundTrip(f, form, p);
    if p == DrinkProp {
      DrinkUncovered(form);
    } else {
      assert FieldKind(p).Some?;
    }
  }

  lemma CompleteFormStores(f: Menus.Filters, form: seq<Input>)
    requires Writable(f) && WellTypedForm(form) && Complete(form)
    ensures StoreAll(EmptyObject(), ShowAll(ObjectOf(f), form)) == ObjectOf(f)
  {
    var r := StoreAll(EmptyObject(), ShowAll(ObjectOf(f), form));
    forall p ensures Get(r, p) == Get(ObjectOf(f), p) {
      CompleteFormRestores(f, form, p);
    }
    ObjectExt(r, ObjectOf(f));
  }

  /** Writing a filters value into a complete well-typed form and reading the form gives that value back. */
  lemma CompleteFormRoundTrip(f: Menus.Filters, form: seq<Input>)
    requires Writable(f) && WellTypedForm(form) && Complete(form)
    ensures WellTypedForm(ShowAll(ObjectOf(f), form))
    ensures FormFilters(ShowAll(ObjectOf(f), form)) == f
  {
    var shown := ShowAll(ObjectOf(f), form);
    ShowAllWellTyped(ObjectOf(f), form);
    CompleteFormStores(f, form);
    var g := FormFilters(shown);
    assert ObjectOf(g) == ObjectOf(f);
    ObjectRoundTrip(f, ObjectOf(f));
    ObjectRoundTrip(g, ObjectOf(g));
  }

  // ---------------------------------------------------------------------------
  // Submitting the filter form

  /**
   * `submitFiltering()`: the paged filter command, with the filters read
   * from the form, is performed through the undo manager; the third
   * component says whether the menu is rendered again.
   */
  function SubmitFiltering(w: Commands.World, h: UndoManagers.History, form: seq<Input>): (r: (Commands.World, UndoManagers.History, bool))
    requires Commands.Kept(w) && UndoManagers.Shaped(h) && WellTypedForm(form)
  {
    var f := FormFilters(form);
    var (w1, h1, o) := UndoManagers.PerformStep(w, h, Models.ModifyFilterCommand((_: Menus.Filters) => f, false));
    (w1, h1, o.success)
  }

  /**
   * Submitting renders again exactly when the filters read from the form
   * differ from those in place; the filters then become the form's, the
   * first page is shown and the command is pushed onto the undo stack, and
   * otherwise nothing is recorded and the page stays.
   */
  lemma SubmitFilteringLaws(w: Commands.World, h: UndoManagers.History, form: seq<Input>)
    requires Commands.Kept(w) && Menus.Coherent(w.menu, w.db, w.stock) && UndoManagers.Shaped(h) && WellTypedForm(form)
    ensures var (w1, h1, rerender) := SubmitFiltering(w, h, form);
      (rerender <==> FormFilters(form) != w.menu.filters)
      && w1.menu.filters == FormFilters(form) && w1.stock == w.stock && w1.cart == w.cart
      && (rerender ==> w1.pageIx == 0 && |h1.undoList| == |h.undoList| + 1 && h1.redoList == [])
      && (!rerender ==> h1 == h && w1.pageIx == w.pageIx)
  {
    var f := FormFilters(form);
    Models.ModifyFilterCommandLaws(w, (_: Menus.Filters) => f, false);
  }
}
