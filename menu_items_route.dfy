/**
 * `POST /api/menu-items`: validates a new menu item, creates it, then
 * publishes the whole item list to the kiosks.
 */
module MenuItemsRoute {
  import opened Common
  import opened Js
  import opened Entities
  import opened Mqtt

  /** The body; a `None` name is absent or `null`. */
  datatype Body = Body(nameTH: Option<string>, nameEN: Option<string>, price: Val, menuCategoryId: Val)

  /** The fields of the item to create, after validation. */
  datatype Draft = Draft(nameTH: string, nameEN: string, price: real, categoryId: Option<int>)

  /**
   * `menuCategoryId ? parseInt(menuCategoryId) : undefined`: `None` for a
   * falsy id, otherwise what `parseInt` reads.
   */
  function ParsedCategory(v: Val): (r: Option<Number>)
    ensures r.None? <==> !Truthy(v)
  {
    if Truthy(v) then Some(ParseIntVal(v)) else None
  }

  /**
   * The validation chain: both names must be non-empty, the price must be
   * a number to `parseFloat`, and a truthy category id must be an integer
   * to `parseInt`. `None` is the 400 answer.
   */
  function Check(b: Body): (d: Option<Draft>)
    ensures d.Some? <==>
      b.nameTH.Some? && b.nameTH.value != "" && b.nameEN.Some? && b.nameEN.value != "" &&
      ParseFloatVal(b.price).Finite? &&
      (Truthy(b.menuCategoryId) ==> ParseIntVal(b.menuCategoryId).Finite?)
    ensures d.Some? ==>
      d.value.nameTH == b.nameTH.value && d.value.nameEN == b.nameEN.value &&
      d.value.price == ParseFloatVal(b.price).value &&
      (d.value.categoryId.None? <==> !Truthy(b.menuCategoryId)) &&
      (d.value.categoryId.Some? ==> d.value.categoryId.value == ParseIntVal(b.menuCategoryId).value.Floor)
  {
    if b.nameTH.None? || b.nameTH.value == "" || b.nameEN.None? || b.nameEN.value == "" then None
    else
      var price := ParseFloatVal(b.price);
      if price.NaN? then None
      else
        var category := ParsedCategory(b.menuCategoryId);
        if category.Some? && category.value.NaN? then None
        else
          Some(Draft(b.nameTH.value, b.nameEN.value, price.value,
            if category.Some? then Some(category.value.value.Floor) else None))
  }

  /** A falsy category id, such as `0` or `''`, leaves the item without a category. */
  lemma FalsyCategoryIgnored(nameTH: string, nameEN: string, price: real)
    requires nameTH != "" && nameEN != ""
    ensures var d := Check(Body(Some(nameTH), Some(nameEN), Num(price), Num(0.0)));
      d.Some? && d.value.categoryId.None?
    ensures var d := Check(Body(Some(nameTH), Some(nameEN), Num(price), Str("")));
      d.Some? && d.value.categoryId.None?
  {
  }

  /** The category with `id`, as the created item's relation is loaded. */
  function FindCategory(categories: seq<Category>, id: int): (r: Option<Category>)
    ensures r.Some? ==> r.value in categories && r.value.id == id
    ensures r.None? ==> forall c :: c in categories ==> c.id != id
  {
    if categories == [] then None
    else if categories[0].id == id then Some(categories[0])
    else FindCategory(categories[1..], id)
  }

  /** The item a draft becomes under the id `id`. */
  function ItemOf(d: Draft, id: int, categories: seq<Category>): MenuItem
  {
    MenuItem(id, d.nameTH, d.nameEN, d.price, d.categoryId,
      if d.categoryId.Some? then FindCategory(categories, d.categoryId.value) else None)
  }

  /** The menu item table with its auto-increment counter. */
  class MenuTable {
    var items: seq<MenuItem>
    var categories: seq<Category>
    var nextId: int

    ghost predicate Valid()
      reads this
    {
      forall i :: 0 <= i < |items| ==> items[i].id < nextId
    }

    constructor (categories: seq<Category>)
      ensures Valid() && items == [] && this.categories == categories && nextId == 1
    {
      items := [];
      this.categories := categories;
      nextId := 1;
    }

    /** `prisma.menuItem.create`; `fault` says whether it throws. */
    method Create(d: Draft, fault: bool) returns (item: Option<MenuItem>)
      requires Valid()
      modifies this`items, this`nextId
      ensures Valid()
      ensures fault ==> item.None? && items == old(items) && nextId == old(nextId)
      ensures !fault ==> item == Some(ItemOf(d, old(nextId), categories))
      ensures !fault ==> items == old(items) + [item.value] && nextId == old(nextId) + 1
      ensures item.Some? ==> forall x :: x in old(items) ==> x.id != item.value.id
    {
      if fault {
        return None;
      }
      var created := ItemOf(d, nextId, categories);
      items := items + [created];
      nextId := nextId + 1;
      item := Some(created);
    }
  }

  /** 201 with the item, 400, 500, or no answer because the connection never settles. */
  datatype Reply = Created(item: MenuItem) | BadRequest | ServerError | NoReply

  /**
   * The handler. `createFault` and `listFault` say whether the store's
   * create and its `findMany` of all items throw; `first` and `publishErr`
   * are the broker's answers to the publish.
   */
  method Post(table: MenuTable, bridge: MqttBridge, b: Body, createFault: bool, listFault: bool,
              first: FirstEvent, publishErr: bool) returns (r: Reply)
    requires table.Valid() && bridge.Valid()
    modifies table`items, table`nextId, bridge
    ensures table.Valid() && bridge.Valid()
    ensures Check(b).None? ==> r == BadRequest && table.items == old(table.items) && bridge.log == old(bridge.log)
    ensures Check(b).Some? && createFault ==>
      r == ServerError && table.items == old(table.items) && bridge.log == old(bridge.log)
    ensures Check(b).Some? && !createFault ==>
      table.items == old(table.items) + [ItemOf(Check(b).value, old(table.nextId), table.categories)]
    ensures r.Created? <==> Check(b).Some? && !createFault && !listFault && bridge.Live() && !publishErr
    ensures r.Created? ==>
      r.item == ItemOf(Check(b).value, old(table.nextId), table.categories) &&
      |bridge.log| > 0 &&
      bridge.log[|bridge.log| - 1] == Publish(bridge.mqttClient.value, TopicName(MenuItems), Stringify(ItemList(table.items)))
    ensures Check(b).Some? && !createFault && !listFault && bridge.Live() && publishErr ==> r == ServerError
    // A failing listing answers 500 before anything is published.
    ensures Check(b).Some? && !createFault && listFault ==> r == ServerError && bridge.log == old(bridge.log)
    // With a connected client the whole list goes out in one publish.
    ensures Check(b).Some? && !createFault && !listFault && old(bridge.Live()) ==>
      bridge.log == old(bridge.log) + [Publish(old(bridge.mqttClient).value, TopicName(MenuItems), Stringify(ItemList(table.items)))]
    // No connection: a connect error answers 500, a timeout never answers.
    ensures Check(b).Some? && !createFault && !listFault && !bridge.Live() ==>
      r == (if first == ConnError then ServerError else NoReply)
  {
    var d := Check(b);
    if d.None? {
      return BadRequest;
    }
    var item := table.Create(d.value, createFault);
    if item.None? {
      return ServerError;
    }
    if listFault {
      return ServerError;
    }
    var all := table.items;
    var published := bridge.PublishToTopic(MenuItems, ItemList(all), first, publishErr);
    match published {
      case Done => r := Created(item.value);
      case Errored => r := ServerError;
      case Hangs => r := NoReply;
    }
  }
}
