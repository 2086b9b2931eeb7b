/**
 * `GET /api/best-sellers`: quantities of completed orders' items summed per
 * menu item, sorted by that sum and cut to a limit.
 */
module BestSellers {
  import opened Common
  import opened Js
  import opened Entities
  import opened Sorting

  const DefaultLimit: real := 5.0
  const PlaceholderImage := "/placeholder.svg"

  /** `Number(searchParams.get('limit')) || 5`; an absent parameter is `null`. */
  function Limit(param: Option<string>): (n: real)
    ensures n != 0.0
  {
    var x := ToNumber(if param.Some? then Str(param.value) else Null);
    if NumberTruthy(x) then x.value else DefaultLimit
  }

  /** A missing, empty, zero or non-numeric parameter gives the default of five. */
  lemma LimitDefaults()
    ensures Limit(None) == DefaultLimit
    ensures Limit(Some("")) == DefaultLimit
    ensures Limit(Some("0")) == DefaultLimit
    ensures Limit(Some("x")) == DefaultLimit
  {
    assert Trim("") == "";
    SingleCharacterNumber('0');
    SingleCharacterNumber('x');
    var z := ScanNumeral("0");
    assert z.whole == "0" && z.fraction == "" && z.sign == "";
    assert DigitsValue("0") == 0 by { assert "0"[..0] == ""; }
    assert z.Value() == 0.0;
  }

  /** How a one-character text that is not whitespace is scanned. */
  lemma SingleCharacterNumber(c: char)
    requires !IsSpace(c) && c != '+' && c != '-' && c != '.'
    ensures Trim([c]) == [c]
    ensures ScanNumeral([c]) == if IsDigit(c) then Numeral("", [c], false, "", "") else Numeral("", "", false, "", [c])
  {
    assert LeadingSpaces([c]) == 0;
    assert TrailingSpaces([c]) == 0;
    assert [c][0..] == [c] && [c][..1] == [c];
    if IsDigit(c) {
      assert DigitRun([c]) == 1 by { assert [c][1..] == []; }
    } else {
      assert DigitRun([c]) == 0;
    }
  }

  /** One aggregated entry: `{ menuName, category, totalSales }`. */
  datatype Group = Group(menuName: string, category: string, totalSales: int)

  /** The grouping key `${menuName}-${category}`. */
  function ItemKey(menuName: string, category: string): string
  {
    menuName + "-" + category
  }

  function KeyOf(g: Group): string
  {
    ItemKey(g.menuName, g.category)
  }

  /**
   * The key is a plain concatenation, so two different items can share it:
   * their quantities then land in one group named after the first of them.
   */
  lemma KeyCollision(a: string, b: string, c: string)
    ensures ItemKey(a + "-" + b, c) == ItemKey(a, b + "-" + c)
    ensures Group(a + "-" + b, c, 0) != Group(a, b + "-" + c, 0)
  {
    assert |a + "-" + b| != |a|;
  }

  /** The position of the group with `key`, or `|groups|` when there is none. */
  function IndexOfKey(groups: seq<Group>, key: string): (i: nat)
    ensures i <= |groups|
    ensures i < |groups| ==> KeyOf(groups[i]) == key
    ensures forall j :: 0 <= j < i ==> KeyOf(groups[j]) != key
  {
    if groups == [] then 0
    else if KeyOf(groups[0]) == key then 0
    else 1 + IndexOfKey(groups[1..], key)
  }

  /** One step of the reduce: start the item's group at zero if needed, then add its quantity. */
  function AddItem(groups: seq<Group>, item: OrderItem): seq<Group>
  {
    var i := IndexOfKey(groups, ItemKey(item.menuName, item.category));
    if i == |groups| then groups + [Group(item.menuName, item.category, item.quantity)]
    else groups[i := groups[i].(totalSales := groups[i].totalSales + item.quantity)]
  }

  /** The accumulator after every item, in order; its values in insertion order. */
  function Aggregate(items: seq<OrderItem>): seq<Group>
  {
    if items == [] then []
    else AddItem(Aggregate(items[..|items| - 1]), items[|items| - 1])
  }

  /** The items of the orders the store returns for `where: { status: 'เสร็จสิ้น' }`, in order. */
  function CompletedItems(orders: seq<HistoryOrder>): seq<OrderItem>
  {
    if orders == [] then []
    else
      var last := orders[|orders| - 1];
      CompletedItems(orders[..|orders| - 1]) + (if last.status == Completed then last.items else [])
  }

  function TotalSales(groups: seq<Group>): int
  {
    if groups == [] then 0 else groups[0].totalSales + TotalSales(groups[1..])
  }

  function TotalQuantity(items: seq<OrderItem>): int
  {
    if items == [] then 0 else items[0].quantity + TotalQuantity(items[1..])
  }

  /** The summed quantity of the items whose key is `key`. */
  function QuantityFor(items: seq<OrderItem>, key: string): int
  {
    if items == [] then 0
    else (if ItemKey(items[0].menuName, items[0].category) == key then items[0].quantity else 0)
         + QuantityFor(items[1..], key)
  }

  lemma {:induction false} TotalSalesAppend(a: seq<Group>, b: seq<Group>)
    ensures TotalSales(a + b) == TotalSales(a) + TotalSales(b)
  {
    if a == [] {
      assert a + b == b;
    } else {
      assert (a + b)[1..] == a[1..] + b;
      TotalSalesAppend(a[1..], b);
    }
  }

  lemma {:induction false} TotalSalesUpdate(groups: seq<Group>, i: nat, d: int)
    requires i < |groups|
    ensures TotalSales(groups[i := groups[i].(totalSales := groups[i].totalSales + d)]) == TotalSales(groups) + d
  {
    if i > 0 {
      var u := groups[i := groups[i].(totalSales := groups[i].totalSales + d)];
      assert u[1..] == groups[1..][i - 1 := groups[i].(totalSales := groups[i].totalSales + d)];
      TotalSalesUpdate(groups[1..], i - 1, d);
    }
  }

  lemma {:induction false} TotalQuantitySnoc(items: seq<OrderItem>, x: OrderItem)
    ensures TotalQuantity(items + [x]) == TotalQuantity(items) + x.quantity
  {
    if items != [] {
      assert (items + [x])[1..] == items[1..] + [x];
      TotalQuantitySnoc(items[1..], x);
    }
  }

  lemma {:induction false} QuantityForSnoc(items: seq<OrderItem>, x: OrderItem, key: string)
    ensures QuantityFor(items + [x], key) ==
      QuantityFor(items, key) + (if ItemKey(x.menuName, x.category) == key then x.quantity else 0)
  {
    if items != [] {
      assert (items + [x])[1..] == items[1..] + [x];
      QuantityForSnoc(items[1..], x, key);
    }
  }

  /** Before the cut, the group totals add up to the quantity of every completed item. */
  lemma {:induction false} Conservation(items: seq<OrderItem>)
    ensures TotalSales(Aggregate(items)) == TotalQuantity(items)
  {
    if items != [] {
      var init, x := items[..|items| - 1], items[|items| - 1];
      assert items == init + [x];
      Conservation(init);
      TotalQuantitySnoc(init, x);
      var g := Aggregate(init);
      var i := IndexOfKey(g, ItemKey(x.menuName, x.category));
      if i == |g| {
        TotalSalesAppend(g, [Group(x.menuName, x.category, x.quantity)]);
        assert TotalSales([Group(x.menuName, x.category, x.quantity)]) == x.quantity;
      } else {
        TotalSalesUpdate(g, i, x.quantity);
      }
    }
  }

  /**
   * The accumulator has one group per key, each key occurring among the
   * items, and each group's total is the quantity summed over its key.
   */
  lemma {:induction false} GroupsByKey(items: seq<OrderItem>)
    ensures forall i, j :: 0 <= i < j < |Aggregate(items)| ==> KeyOf(Aggregate(items)[i]) != KeyOf(Aggregate(items)[j])
    ensures forall i :: 0 <= i < |Aggregate(items)| ==>
      Aggregate(items)[i].totalSales == QuantityFor(items, KeyOf(Aggregate(items)[i]))
    ensures forall key :: (exists g :: g in Aggregate(items) && KeyOf(g) == key) <==> QuantityHolder(items, key)
  {
    if items != [] {
      var init, x := items[..|items| - 1], items[|items| - 1];
      assert items == init + [x];
      GroupsByKey(init);
      var g := Aggregate(init);
      var key := ItemKey(x.menuName, x.category);
      var i := IndexOfKey(g, key);
      var r := Aggregate(items);
      forall k | 0 <= k < |r|
        ensures r[k].totalSales == QuantityFor(items, KeyOf(r[k]))
      {
        QuantityForSnoc(init, x, KeyOf(r[k]));
        if k < |g| {
          if KeyOf(r[k]) == key {
            assert k == i;
          }
        } else {
          assert i == |g| && KeyOf(r[k]) == key;
          QuantityForAbsent(init, key);
        }
      }
      forall key' ensures (exists h :: h in r && KeyOf(h) == key') <==> QuantityHolder(items, key')
      {
        HolderSnoc(init, x, key');
        if key' == key {
          if i == |g| {
            assert r[|g|] in r;
          } else {
            assert r[i] in r;
          }
        } else if QuantityHolder(init, key') {
          var h :| h in g && KeyOf(h) == key';
          var k :| 0 <= k < |g| && g[k] == h;
          assert r[k] in r && KeyOf(r[k]) == key';
        } else {
          forall h | h in r ensures KeyOf(h) != key'
          {
            var k :| 0 <= k < |r| && r[k] == h;
            if k < |g| {
              assert g[k] in g;
            }
          }
        }
      }
    }
  }

  /** Some item has the key `key`. */
  predicate QuantityHolder(items: seq<OrderItem>, key: string)
  {
    exists k :: 0 <= k < |items| && ItemKey(items[k].menuName, items[k].category) == key
  }

  lemma HolderSnoc(items: seq<OrderItem>, x: OrderItem, key: string)
    ensures QuantityHolder(items + [x], key) <==>
      QuantityHolder(items, key) || ItemKey(x.menuName, x.category) == key
  {
    var all := items + [x];
    if QuantityHolder(items, key) {
      var k :| 0 <= k < |items| && ItemKey(items[k].menuName, items[k].category) == key;
      assert all[k] == items[k];
    }
    if QuantityHolder(all, key) {
      var k :| 0 <= k < |all| && ItemKey(all[k].menuName, all[k].category) == key;
      if k < |items| {
        assert all[k] == items[k];
      }
    }
    if ItemKey(x.menuName, x.category) == key {
      assert all[|items|] == x;
    }
  }

  lemma {:induction false} QuantityForAbsent(items: seq<OrderItem>, key: string)
    requires !QuantityHolder(items, key)
    ensures QuantityFor(items, key) == 0
  {
    if items != [] {
      assert !QuantityHolder(items[1..], key) by {
        forall k | 0 <= k < |items[1..]|
          ensures ItemKey(items[1..][k].menuName, items[1..][k].category) != key
        {
          assert items[1..][k] == items[k + 1];
        }
      }
      QuantityForAbsent(items[1..], key);
    }
  }

  lemma AggregateSnoc(items: seq<OrderItem>, x: OrderItem)
    ensures Aggregate(items + [x]) == AddItem(Aggregate(items), x)
  {
    assert (items + [x])[..|items|] == items;
  }

  lemma CompletedItemsSnoc(orders: seq<HistoryOrder>, i: nat)
    requires i < |orders|
    ensures CompletedItems(orders[..i + 1]) ==
      CompletedItems(orders[..i]) + (if orders[i].status == Completed then orders[i].items else [])
  {
    assert orders[..i + 1][..i] == orders[..i];
  }

  /** The `reduce` of the route, run as the loops over orders and their items. */
  method SalesByItem(orders: seq<HistoryOrder>) returns (groups: seq<Group>)
    ensures groups == Aggregate(CompletedItems(orders))
  {
    groups := [];
    var i := 0;
    while i < |orders|
      invariant i <= |orders|
      invariant groups == Aggregate(CompletedItems(orders[..i]))
    {
      CompletedItemsSnoc(orders, i);
      if orders[i].status == Completed {
        groups := AddOrderItems(groups, CompletedItems(orders[..i]), orders[i].items);
      } else {
        assert CompletedItems(orders[..i]) + [] == CompletedItems(orders[..i]);
      }
      i := i + 1;
    }
    assert orders[..i] == orders;
  }

  /** The inner `forEach` over one order's items. */
  method AddOrderItems(groups: seq<Group>, ghost done: seq<OrderItem>, items: seq<OrderItem>)
    returns (r: seq<Group>)
    requires groups == Aggregate(done)
    ensures r == Aggregate(done + items)
  {
    assert done + items[..0] == done;
    r := groups;
    var j := 0;
    while j < |items|
      invariant j <= |items|
      invariant r == Aggregate(done + items[..j])
    {
      ghost var seen := done + items[..j];
      AggregateSnoc(seen, items[j]);
      assert seen + [items[j]] == done + items[..j + 1] by {
        assert items[..j + 1] == items[..j] + [items[j]];
      }
      r := AddItem(r, items[j]);
      j := j + 1;
    }
    assert items[..j] == items;
  }

  /** One entry of the answer. */
  datatype BestSeller = BestSeller(menuName: string, category: string, totalSales: int, imageUrl: string)

  function WithImage(g: Group): BestSeller
  {
    BestSeller(g.menuName, g.category, g.totalSales, PlaceholderImage)
  }

  function WithImages(gs: seq<Group>): (r: seq<BestSeller>)
    ensures |r| == |gs|
    ensures forall i :: 0 <= i < |gs| ==> r[i] == WithImage(gs[i])
  {
    if gs == [] then [] else [WithImage(gs[0])] + WithImages(gs[1..])
  }

  /** The group an entry of the answer was made from. */
  function GroupOf(b: BestSeller): Group
  {
    Group(b.menuName, b.category, b.totalSales)
  }

  function GroupsOf(bs: seq<BestSeller>): (r: seq<Group>)
    ensures |r| == |bs|
    ensures forall i :: 0 <= i < |bs| ==> r[i] == GroupOf(bs[i])
  {
    if bs == [] then [] else [GroupOf(bs[0])] + GroupsOf(bs[1..])
  }

  /** The sort key of a group. */
  function Sales(g: Group): int
  {
    g.totalSales
  }

  /**
   * `top` is the first `limit` groups by descending sales: as many as `slice`
   * keeps of the unsorted groups, in sales order, each taken from the groups
   * at most once, and outselling every group left out.
   */
  predicate TopGroups(top: seq<Group>, groups: seq<Group>, limit: real)
  {
    |top| == |SliceTo(groups, limit)| &&
    SortedDesc(top, Sales) &&
    multiset(top) <= multiset(groups) &&
    forall g, i :: g in multiset(groups) - multiset(top) && 0 <= i < |top| ==> g.totalSales <= top[i].totalSales
  }

  /** Sorting keeps the length, so `slice` keeps as many sorted groups as unsorted ones. */
  lemma SliceLength<T>(a: seq<T>, b: seq<T>, limit: real)
    requires |a| == |b|
    ensures |SliceTo(a, limit)| == |SliceTo(b, limit)|
  {
  }

  /** Sorting and cutting picks the top sellers. */
  lemma CutIsTop(groups: seq<Group>, limit: real)
    ensures TopGroups(SliceTo(SortDesc(groups, Sales), limit), groups, limit)
  {
    var sorted := SortDesc(groups, Sales);
    var cut := SliceTo(sorted, limit);
    SliceLength(sorted, groups, limit);
    SplitRanks(sorted, Sales, |cut|);
    assert cut == sorted[..|cut|];
    assert multiset(groups) - multiset(cut) == multiset(sorted[|cut|..]);
  }

  /** The answer: 500 when the store throws, else the list. */
  datatype Answer = Ok(list: seq<BestSeller>) | ServerError

  /**
   * The handler: aggregate, sort by `totalSales` descending (stable), cut to
   * the limit and attach the placeholder image.
   */
  method Get(orders: seq<HistoryOrder>, limitParam: Option<string>, fault: bool) returns (r: Answer)
    ensures r.ServerError? <==> fault
    ensures r.Ok? ==> TopGroups(GroupsOf(r.list), Aggregate(CompletedItems(orders)), Limit(limitParam))
    ensures r.Ok? ==> forall i :: 0 <= i < |r.list| ==> r.list[i].imageUrl == PlaceholderImage
  {
    if fault {
      return ServerError;
    }
    var groups := SalesByItem(orders);
    var sorted := SortDesc(groups, Sales);
    var cut := SliceTo(sorted, Limit(limitParam));
    CutIsTop(groups, Limit(limitParam));
    r := Ok(WithImages(cut));
    assert GroupsOf(r.list) == cut;
  }
}
