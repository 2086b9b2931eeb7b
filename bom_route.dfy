/**
 * `POST /api/bom`: creates a bill of materials (a recipe) for a menu item
 * or an option choice from the ingredients that pass the filter.
 */
module BomRoute {
  import opened Common
  import opened Js

  /** One ingredient as the body carries it. */
  datatype Ingredient = Ingredient(inventoryId: Val, quantity: Val)

  /** One ingredient as it is created. */
  datatype NewIngredient = NewIngredient(inventoryId: Number, quantity: Number)

  /** What the recipe belongs to. */
  datatype Target = MenuItemTarget(menuItemId: Val) | ChoiceTarget(optionChoiceId: Val)

  datatype NewBom = NewBom(name: Val, target: Target, ingredients: seq<NewIngredient>)

  /** The body; `ingredients` is `None` when it is absent. */
  datatype Body = Body(kind: Val, itemId: Val, name: Val, ingredients: Option<seq<Ingredient>>)

  datatype Response = Created(bom: NewBom) | BadRequest | ServerError

  /**
   * `ing.inventoryId && !isNaN(ing.quantity) && ing.quantity > 0`: both
   * numeric tests convert the quantity with `Number`.
   */
  predicate Kept(ing: Ingredient)
  {
    Truthy(ing.inventoryId) && ToNumber(ing.quantity).Finite? && ToNumber(ing.quantity).value > 0.0
  }

  /** `ingredients.filter(...)`. */
  function ValidIngredients(ings: seq<Ingredient>): (r: seq<Ingredient>)
    ensures |r| <= |ings|
    ensures forall x :: x in r <==> x in ings && Kept(x)
  {
    if ings == [] then []
    else (if Kept(ings[0]) then [ings[0]] else []) + ValidIngredients(ings[1..])
  }

  /** The filter keeps the ingredients in the order they were given. */
  lemma {:induction false} ValidIngredientsAppend(a: seq<Ingredient>, b: seq<Ingredient>)
    ensures ValidIngredients(a + b) == ValidIngredients(a) + ValidIngredients(b)
  {
    if a == [] {
      assert a + b == b;
    } else {
      assert (a + b)[1..] == a[1..] + b;
      ValidIngredientsAppend(a[1..], b);
    }
  }

  /** `{ inventoryId: parseInt(ing.inventoryId), quantity: parseFloat(ing.quantity) }`. */
  function Converted(ing: Ingredient): NewIngredient
  {
    NewIngredient(ParseIntVal(ing.inventoryId), ParseFloatVal(ing.quantity))
  }

  function ConvertAll(ings: seq<Ingredient>): (r: seq<NewIngredient>)
    ensures |r| == |ings|
    ensures forall k :: 0 <= k < |ings| ==> r[k] == Converted(ings[k])
  {
    if ings == [] then [] else [Converted(ings[0])] + ConvertAll(ings[1..])
  }

  /** `type === 'menu' ? { menuItemId: itemId } : { optionChoiceId: itemId }`. */
  function TargetOf(kind: Val, itemId: Val): (t: Target)
    ensures t.MenuItemTarget? <==> kind == Str("menu")
    ensures t.MenuItemTarget? ==> t.menuItemId == itemId
    ensures t.ChoiceTarget? ==> t.optionChoiceId == itemId
  {
    if kind == Str("menu") then MenuItemTarget(itemId) else ChoiceTarget(itemId)
  }

  /**
   * The handler. Without ingredients the filter throws (500); with none
   * kept the answer is 400 and nothing is created; `fault` says whether the
   * store's create throws.
   */
  function Post(b: Body, fault: bool): (r: Response)
    ensures r.ServerError? <==> b.ingredients.None? || (ValidIngredients(b.ingredients.value) != [] && fault)
    ensures r.BadRequest? <==> b.ingredients.Some? && forall x :: x in b.ingredients.value ==> !Kept(x)
    ensures r.Created? ==>
      r.bom.name == b.name &&
      r.bom.target == TargetOf(b.kind, b.itemId) &&
      r.bom.ingredients == ConvertAll(ValidIngredients(b.ingredients.value))
  {
    if b.ingredients.None? then ServerError
    else
      var valid := ValidIngredients(b.ingredients.value);
      if |valid| == 0 then
        BadRequest
      else
        assert valid[0] in valid;
        if fault then ServerError
        else Created(NewBom(b.name, TargetOf(b.kind, b.itemId), ConvertAll(valid)))
  }

  /**
   * A kept ingredient given as text or as a number is stored with a
   * positive quantity equal to its `Number` reading.
   */
  lemma StoredQuantityPositive(ing: Ingredient)
    requires Kept(ing) && (ing.quantity.Str? || ing.quantity.Num?)
    ensures Converted(ing).quantity == ToNumber(ing.quantity)
    ensures Converted(ing).quantity.Finite? && Converted(ing).quantity.value > 0.0
  {
    PositiveAgreesWithParseFloat(ing.quantity);
  }

  /** A quantity of `true` passes the filter but is stored as NaN. */
  lemma BooleanQuantityKept()
    ensures Kept(Ingredient(Str("1"), Bool(true)))
    ensures Converted(Ingredient(Str("1"), Bool(true))).quantity == NaN
  {
    BooleanQuantityDisagrees();
  }
}
