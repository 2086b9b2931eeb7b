/**
 * The "add recipe" dialog: the menu items a new recipe may be written for,
 * the ingredient sets being edited (one for the menu item, one per option
 * choice), the edits on them, and what the dialog submits to `POST /api/bom`.
 */
module BomActions {
  import opened Common
  import opened Js
  import BomRoute

  datatype Choice = Choice(id: int, nameTH: string)
  datatype OrderOption = OrderOption(id: int, nameTH: string, choices: seq<Choice>)

  /** A menu item as `/api/menu-items` returns it; `hasBom` says whether its `bom` is set. */
  datatype MenuEntry = MenuEntry(id: int, nameTH: string, hasBom: bool, orderOptions: seq<OrderOption>)

  /** One ingredient row: both fields are the text of their inputs. */
  datatype Ingredient = Ingredient(inventoryId: string, quantity: string)

  /** `{ id, type, targetId, targetName, ingredients }`. */
  datatype IngredientSet = IngredientSet(id: string, kind: string, targetId: int, targetName: string,
                                         ingredients: seq<Ingredient>)

  /** The two inputs of an ingredient row. */
  datatype Field = InventoryId | Quantity

  /** The row a new set or `addIngredient` starts with. */
  const EmptyIngredient := Ingredient("", "")

  /** The error raised when nothing can be submitted. */
  const NoIngredientMessage := "กรุณาระบุวัตถุดิบอย่างน้อย 1 รายการ"

  /** `menuData.filter((item) => !item.bom)`: menu items that have no recipe yet. */
  function Available(items: seq<MenuEntry>): (r: seq<MenuEntry>)
    ensures |r| <= |items|
    ensures forall m :: m in r <==> m in items && !m.hasBom
  {
    if |items| == 0 then []
    else (if !items[0].hasBom then [items[0]] else []) + Available(items[1..])
  }

  /** The filter keeps the menu items in their order. */
  lemma {:induction false} AvailableAppend(a: seq<MenuEntry>, b: seq<MenuEntry>)
    ensures Available(a + b) == Available(a) + Available(b)
  {
    if a == [] {
      assert a + b == b;
    } else {
      assert (a + b)[1..] == a[1..] + b;
      AvailableAppend(a[1..], b);
    }
  }

  /** `menuItems.find((m) => m.id.toString() === menuId)`. */
  function FindMenu(items: seq<MenuEntry>, menuId: string): (r: Option<MenuEntry>)
    ensures r.Some? ==> r.value in items && IntToString(r.value.id) == menuId
    ensures r.None? ==> forall m :: m in items ==> IntToString(m.id) != menuId
  {
    if |items| == 0 then None
    else if IntToString(items[0].id) == menuId then Some(items[0])
    else FindMenu(items[1..], menuId)
  }

  /** `selectedMenu?.orderOptions.find((o) => o.id.toString() === optionId)`. */
  function FindOption(options: seq<OrderOption>, optionId: string): (r: Option<OrderOption>)
    ensures r.Some? ==> r.value in options && IntToString(r.value.id) == optionId
    ensures r.None? ==> forall o :: o in options ==> IntToString(o.id) != optionId
  {
    if |options| == 0 then None
    else if IntToString(options[0].id) == optionId then Some(options[0])
    else FindOption(options[1..], optionId)
  }

  /** `selectedOption?.choices.find((c) => c.id.toString() === choiceId)`. */
  function FindChoice(choices: seq<Choice>, choiceId: string): (r: Option<Choice>)
    ensures r.Some? ==> r.value in choices && IntToString(r.value.id) == choiceId
    ensures r.None? ==> forall c :: c in choices ==> IntToString(c.id) != choiceId
  {
    if |choices| == 0 then None
    else if IntToString(choices[0].id) == choiceId then Some(choices[0])
    else FindChoice(choices[1..], choiceId)
  }

  /** Looking an item up by the text of its id finds the first item with that id. */
  lemma {:induction false} FindMenuById(items: seq<MenuEntry>, id: int)
    ensures var r := FindMenu(items, IntToString(id));
      (r.Some? <==> exists m :: m in items && m.id == id) &&
      (r.Some? ==> r.value.id == id)
  {
    if |items| > 0 {
      if IntToString(items[0].id) == IntToString(id) {
        IntToStringInjective(items[0].id, id);
      } else {
        FindMenuById(items[1..], id);
        assert forall m :: m in items ==> m == items[0] || m in items[1..];
      }
    }
  }

  /** The set `handleMenuChange` opens for a menu item. */
  function MenuSet(menu: MenuEntry): (s: IngredientSet)
    ensures s.id == "menu-" + IntToString(menu.id) && s.kind == "menu"
    ensures s.targetId == menu.id && s.targetName == menu.nameTH && s.ingredients == [EmptyIngredient]
  {
    IngredientSet("menu-" + IntToString(menu.id), "menu", menu.id, menu.nameTH, [EmptyIngredient])
  }

  /** The set `handleChoiceChange` opens for a choice of an option. */
  function ChoiceSet(option: OrderOption, choice: Choice): (s: IngredientSet)
    ensures s.id == "choice-" + IntToString(choice.id) && s.kind == "option"
    ensures s.targetId == choice.id && s.targetName == option.nameTH + " - " + choice.nameTH
    ensures s.ingredients == [EmptyIngredient]
  {
    IngredientSet("choice-" + IntToString(choice.id), "option", choice.id,
                  option.nameTH + " - " + choice.nameTH, [EmptyIngredient])
  }

  /** `addIngredient`: one empty row more in every set with `setId`. */
  function AddRow(sets: seq<IngredientSet>, setId: string): (r: seq<IngredientSet>)
    ensures |r| == |sets|
    ensures forall k :: 0 <= k < |sets| && sets[k].id != setId ==> r[k] == sets[k]
    ensures forall k :: 0 <= k < |sets| && sets[k].id == setId ==>
      r[k].ingredients == sets[k].ingredients + [EmptyIngredient] &&
      r[k] == sets[k].(ingredients := r[k].ingredients)
  {
    if |sets| == 0 then []
    else
      var s := sets[0];
      [if s.id == setId then s.(ingredients := s.ingredients + [EmptyIngredient]) else s] + AddRow(sets[1..], setId)
  }

  /** `removeIngredient`: row `index` leaves every set with `setId`. */
  function RemoveRow(sets: seq<IngredientSet>, setId: string, index: int): (r: seq<IngredientSet>)
    ensures |r| == |sets|
    ensures forall k :: 0 <= k < |sets| && sets[k].id != setId ==> r[k] == sets[k]
    ensures forall k :: 0 <= k < |sets| && sets[k].id == setId ==>
      r[k] == sets[k].(ingredients := DropIndex(sets[k].ingredients, index, 0))
  {
    if |sets| == 0 then []
    else
      var s := sets[0];
      [if s.id == setId then s.(ingredients := DropIndex(s.ingredients, index, 0)) else s]
        + RemoveRow(sets[1..], setId, index)
  }

  /** `{ ...ing, [field]: value }`. */
  function SetField(ing: Ingredient, field: Field, value: string): Ingredient
  {
    match field
    case InventoryId => ing.(inventoryId := value)
    case Quantity => ing.(quantity := value)
  }

  /** `ingredients.map((ing, i) => i === index ? { ...ing, [field]: value } : ing)`. */
  function ChangeAt(ings: seq<Ingredient>, index: int, field: Field, value: string, offset: int): (r: seq<Ingredient>)
    ensures |r| == |ings|
    ensures forall i :: 0 <= i < |ings| && i + offset != index ==> r[i] == ings[i]
    ensures forall i :: 0 <= i < |ings| && i + offset == index ==> r[i] == SetField(ings[i], field, value)
  {
    if |ings| == 0 then []
    else
      var first := if offset == index then SetField(ings[0], field, value) else ings[0];
      [first] + ChangeAt(ings[1..], index, field, value, offset + 1)
  }

  /** `handleIngredientChange`: one field of one row changes, in every set with `setId`. */
  function ChangeRow(sets: seq<IngredientSet>, setId: string, index: int, field: Field, value: string): (r: seq<IngredientSet>)
    ensures |r| == |sets|
    ensures forall k :: 0 <= k < |sets| && sets[k].id != setId ==> r[k] == sets[k]
    ensures forall k :: 0 <= k < |sets| && sets[k].id == setId ==>
      r[k] == sets[k].(ingredients := ChangeAt(sets[k].ingredients, index, field, value, 0))
  {
    if |sets| == 0 then []
    else
      var s := sets[0];
      [if s.id == setId then s.(ingredients := ChangeAt(s.ingredients, index, field, value, 0)) else s]
        + ChangeRow(sets[1..], setId, index, field, value)
  }

  /** `ing.inventoryId && ing.quantity && parseFloat(ing.quantity) > 0`. */
  predicate Usable(ing: Ingredient)
  {
    ing.inventoryId != "" && ing.quantity != "" && ParseFloat(ing.quantity).Finite? && ParseFloat(ing.quantity).value > 0.0
  }

  /** `validateIngredients`. */
  function ValidateIngredients(ings: seq<Ingredient>): (r: seq<Ingredient>)
    ensures |r| <= |ings|
    ensures forall x :: x in r <==> x in ings && Usable(x)
  {
    if |ings| == 0 then []
    else (if Usable(ings[0]) then [ings[0]] else []) + ValidateIngredients(ings[1..])
  }

  /** `ingredientSets.filter((set) => validateIngredients(set.ingredients).length > 0)`. */
  function ValidSets(sets: seq<IngredientSet>): (r: seq<IngredientSet>)
    ensures |r| <= |sets|
    ensures forall s :: s in r <==> s in sets && ValidateIngredients(s.ingredients) != []
  {
    if |sets| == 0 then []
    else (if ValidateIngredients(sets[0].ingredients) != [] then [sets[0]] else []) + ValidSets(sets[1..])
  }

  /** The filter keeps the sets' order: filtering a concatenation filters each part. */
  lemma {:induction false} ValidSetsAppend(a: seq<IngredientSet>, b: seq<IngredientSet>)
    ensures ValidSets(a + b) == ValidSets(a) + ValidSets(b)
  {
    if a == [] {
      assert a + b == b;
    } else {
      assert (a + b)[1..] == a[1..] + b;
      ValidSetsAppend(a[1..], b);
    }
  }

  /** The body sent for one set. */
  datatype Form = Form(kind: string, itemId: int, name: string, ingredients: seq<Ingredient>)

  function FormOf(s: IngredientSet): Form
  {
    Form(s.kind, s.targetId, s.targetName, ValidateIngredients(s.ingredients))
  }

  function FormsOf(sets: seq<IngredientSet>): (r: seq<Form>)
    ensures |r| == |sets|
    ensures forall k :: 0 <= k < |sets| ==> r[k] == FormOf(sets[k])
  {
    if |sets| == 0 then [] else [FormOf(sets[0])] + FormsOf(sets[1..])
  }

  /**
   * What submitting sends: one form per set that has a usable row, each
   * carrying only its usable rows; nothing when no set has one.
   */
  function Requests(sets: seq<IngredientSet>): (r: Option<seq<Form>>)
    ensures r.None? <==> forall s :: s in sets ==> ValidateIngredients(s.ingredients) == []
    ensures r.Some? ==> |r.value| > 0 && forall f :: f in r.value ==> f.ingredients != [] && forall x :: x in f.ingredients ==> Usable(x)
    // One form per set with a usable row, in order, with that set's type, target and usable rows.
    ensures r.Some? ==>
      var valid := ValidSets(sets);
      |r.value| == |valid| &&
      forall k :: 0 <= k < |valid| ==>
        r.value[k].kind == valid[k].kind && r.value[k].itemId == valid[k].targetId &&
        r.value[k].name == valid[k].targetName &&
        r.value[k].ingredients == ValidateIngredients(valid[k].ingredients)
  {
    var valid := ValidSets(sets);
    if |valid| == 0 then None
    else
      assert valid[0] in valid;
      Some(FormsOf(valid))
  }

  /** How the submit ended. */
  datatype Outcome = Rejected(message: string) | Failed(sent: seq<Form>) | Saved(sent: seq<Form>)

  /** The dialog's state. */
  class BomForm {
    var menuItems: seq<MenuEntry>
    var selectedMenu: Option<MenuEntry>
    var selectedOption: Option<OrderOption>
    var sets: seq<IngredientSet>
    var dialogOpen: bool

    /** Mounting loads the menu; `fetchFault` says whether either request fails. */
    constructor (menuData: seq<MenuEntry>, fetchFault: bool)
      ensures menuItems == (if fetchFault then [] else Available(menuData))
      ensures selectedMenu.None? && selectedOption.None? && sets == [] && !dialogOpen
    {
      menuItems := if fetchFault then [] else Available(menuData);
      selectedMenu := None;
      selectedOption := None;
      sets := [];
      dialogOpen := false;
    }

    /** `handleMenuChange`: an unknown id is logged and changes nothing. */
    method HandleMenuChange(menuId: string)
      modifies this
      ensures var menu := FindMenu(menuItems, menuId);
        if menu.None? then selectedMenu == old(selectedMenu) && sets == old(sets)
        else selectedMenu == menu && sets == [MenuSet(menu.value)]
      ensures menuItems == old(menuItems) && selectedOption == old(selectedOption) && dialogOpen == old(dialogOpen)
    {
      var menu := FindMenu(menuItems, menuId);
      if menu.None? {
        return;
      }
      selectedMenu := menu;
      sets := [MenuSet(menu.value)];
    }

    /** `handleOptionChange`: the option of the selected menu item with that id, or none. */
    method HandleOptionChange(optionId: string)
      modifies this
      ensures selectedOption == (if old(selectedMenu).None? then None else FindOption(old(selectedMenu).value.orderOptions, optionId))
      ensures menuItems == old(menuItems) && selectedMenu == old(selectedMenu) && sets == old(sets) && dialogOpen == old(dialogOpen)
    {
      if selectedMenu.None? {
        selectedOption := None;
      } else {
        selectedOption := FindOption(selectedMenu.value.orderOptions, optionId);
      }
    }

    /** `handleChoiceChange`: appends a set for the choice, even when one for it is already open. */
    method HandleChoiceChange(choiceId: string)
      modifies this
      ensures var choice := if old(selectedOption).None? then None else FindChoice(old(selectedOption).value.choices, choiceId);
        if choice.None? then sets == old(sets)
        else sets == old(sets) + [ChoiceSet(old(selectedOption).value, choice.value)]
      ensures menuItems == old(menuItems) && selectedMenu == old(selectedMenu) && selectedOption == old(selectedOption)
      ensures dialogOpen == old(dialogOpen)
    {
      if selectedOption.None? {
        return;
      }
      var choice := FindChoice(selectedOption.value.choices, choiceId);
      if choice.None? {
        return;
      }
      sets := sets + [ChoiceSet(selectedOption.value, choice.value)];
    }

    method AddIngredient(setId: string)
      modifies this`sets
      ensures sets == AddRow(old(sets), setId)
    {
      sets := AddRow(sets, setId);
    }

    method RemoveIngredient(setId: string, index: int)
      modifies this`sets
      ensures sets == RemoveRow(old(sets), setId, index)
    {
      sets := RemoveRow(sets, setId, index);
    }

    method HandleIngredientChange(setId: string, index: int, field: Field, value: string)
      modifies this`sets
      ensures sets == ChangeRow(old(sets), setId, index, field, value)
    {
      sets := ChangeRow(sets, setId, index, field, value);
    }

    /**
     * `handleSubmit`. Every request is sent before any answer is awaited;
     * `failed` says whether some request is answered with an error. Only a
     * fully successful submit closes the dialog and clears the sets.
     */
    method HandleSubmit(failed: bool) returns (r: Outcome)
      modifies this`dialogOpen, this`sets
      ensures Requests(old(sets)).None? ==> r == Rejected(NoIngredientMessage) && sets == old(sets) && dialogOpen == old(dialogOpen)
      ensures Requests(old(sets)).Some? && failed ==>
        r == Failed(Requests(old(sets)).value) && sets == old(sets) && dialogOpen == old(dialogOpen)
      ensures Requests(old(sets)).Some? && !failed ==> r == Saved(Requests(old(sets)).value) && sets == [] && !dialogOpen
    {
      var requests := Requests(sets);
      if requests.None? {
        return Rejected(NoIngredientMessage);
      }
      if failed {
        return Failed(requests.value);
      }
      dialogOpen := false;
      sets := [];
      r := Saved(requests.value);
    }
  }

  /** Choosing the same choice twice opens two sets with the same id, and a row added to one is added to both. */
  lemma DuplicateChoiceSets(sets: seq<IngredientSet>, option: OrderOption, choice: Choice)
    ensures var twice := sets + [ChoiceSet(option, choice)] + [ChoiceSet(option, choice)];
      var n := |sets|;
      twice[n].id == twice[n + 1].id &&
      AddRow(twice, twice[n].id)[n].ingredients == [EmptyIngredient, EmptyIngredient] &&
      AddRow(twice, twice[n].id)[n + 1].ingredients == [EmptyIngredient, EmptyIngredient]
  {
  }

  /** The form body as `POST /api/bom` reads it. */
  function ServerBody(f: Form): BomRoute.Body
  {
    BomRoute.Body(Str(f.kind), Num(f.itemId as real), Str(f.name), Some(ServerIngredients(f.ingredients)))
  }

  function ServerIngredient(ing: Ingredient): BomRoute.Ingredient
  {
    BomRoute.Ingredient(Str(ing.inventoryId), Str(ing.quantity))
  }

  function ServerIngredients(ings: seq<Ingredient>): (r: seq<BomRoute.Ingredient>)
    ensures |r| == |ings|
    ensures forall k :: 0 <= k < |ings| ==> r[k] == ServerIngredient(ings[k])
  {
    if |ings| == 0 then [] else [ServerIngredient(ings[0])] + ServerIngredients(ings[1..])
  }

  /** A row the server keeps is a row the dialog accepts. */
  lemma ServerKeptIsUsable(ing: Ingredient)
    requires BomRoute.Kept(ServerIngredient(ing))
    ensures Usable(ing)
  {
    PositiveAgreesWithParseFloat(Str(ing.quantity));
  }

  /** The converse fails: the dialog reads `"2kg"` as 2, the server's `Number` reads it as NaN. */
  lemma UsableNotKept()
    ensures Usable(Ingredient("5", "2kg"))
    ensures !BomRoute.Kept(ServerIngredient(Ingredient("5", "2kg")))
  {
    var q := "2kg";
    assert LeadingSpaces(q) == 0 && TrimStart(q) == q;
    assert TrailingSpaces(q) == 0 && Trim(q) == q;
    assert DigitRun(q[1..]) == 0;
    assert DigitRun(q) == 1;
    assert q[..1] == "2" && q[1..] == "kg";
    assert ScanUnsigned(q) == Numeral("", "2", false, "", "kg");
    assert SignLength(q) == 0;
    var m := ScanNumeral(q);
    assert m == Numeral("", "2", false, "", "kg");
    assert DigitsValue("2") == 2;
    assert m.Value() == 2.0;
  }

  /** A set for a menu item is stored against the menu item, a choice set against the choice. */
  lemma SubmittedTargets(s: IngredientSet)
    requires s.kind == "menu" || s.kind == "option"
    ensures var t := BomRoute.TargetOf(ServerBody(FormOf(s)).kind, ServerBody(FormOf(s)).itemId);
      (s.kind == "menu" ==> t == BomRoute.MenuItemTarget(Num(s.targetId as real))) &&
      (s.kind == "option" ==> t == BomRoute.ChoiceTarget(Num(s.targetId as real)))
  {
  }
}
