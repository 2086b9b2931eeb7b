/**
 * The sales-by-category pie chart: every item of every order in the order
 * history adds `price * quantity` to its category, the categories become
 * the slices in the order they first appear, and each slice gets a colour
 * from a cycle of six and a percentage label when it is large enough.
 *
 * Category names are not array indices, so the record of categories lists
 * them in insertion order (see the Tally module).
 */
module SalesByCategory {
  import opened Common
  import opened Entities
  import opened Tally

  /** The slice colours, used in turn. */
  const Colors: seq<string> := ["#0088FE", "#00C49F", "#FFBB28", "#FF8042", "#FF6B6B", "#4ECDC4"]

  /** One slice: `{ name, value }`. */
  datatype Slice = Slice(name: string, value: real)

  /** `item.price * item.quantity`. */
  function ItemSales(item: OrderItem): real
  {
    item.price * item.quantity as real
  }

  /** One order's items, each filed under its category with its sales. */
  function ItemEntries(items: seq<OrderItem>): (es: seq<Entry>)
    ensures |es| == |items|
    ensures forall k :: 0 <= k < |items| ==> es[k] == Entry(items[k].category, ItemSales(items[k]))
  {
    if |items| == 0 then []
    else ItemEntries(items[..|items| - 1]) + [Entry(items[|items| - 1].category, ItemSales(items[|items| - 1]))]
  }

  /** Every item of every order, in the order the `reduce` and `forEach` visit them. */
  function SaleEntries(orders: seq<HistoryOrder>): seq<Entry>
  {
    if |orders| == 0 then []
    else SaleEntries(orders[..|orders| - 1]) + ItemEntries(orders[|orders| - 1].items)
  }

  /** The sales of a list of items. */
  function ItemsTotal(items: seq<OrderItem>): real
  {
    if |items| == 0 then 0.0 else ItemsTotal(items[..|items| - 1]) + ItemSales(items[|items| - 1])
  }

  /** The sales of all items of all orders. */
  function GrandTotal(orders: seq<HistoryOrder>): real
  {
    if |orders| == 0 then 0.0 else GrandTotal(orders[..|orders| - 1]) + ItemsTotal(orders[|orders| - 1].items)
  }

  /** Some item of some order is in `category`. */
  predicate Sold(orders: seq<HistoryOrder>, category: string)
  {
    exists o, item :: o in orders && item in o.items && item.category == category
  }

  lemma {:induction false} ItemEntriesAmount(items: seq<OrderItem>)
    ensures AmountOf(ItemEntries(items)) == ItemsTotal(items)
  {
    if |items| > 0 {
      var es := ItemEntries(items);
      assert es[..|es| - 1] == ItemEntries(items[..|items| - 1]);
      ItemEntriesAmount(items[..|items| - 1]);
    }
  }

  /** The entries carry exactly the grand total. */
  lemma {:induction false} SaleEntriesAmount(orders: seq<HistoryOrder>)
    ensures AmountOf(SaleEntries(orders)) == GrandTotal(orders)
  {
    if |orders| > 0 {
      var init, last := orders[..|orders| - 1], orders[|orders| - 1];
      SaleEntriesAmount(init);
      ItemEntriesAmount(last.items);
      AmountOfAppend(SaleEntries(init), ItemEntries(last.items));
    }
  }

  lemma HoldsAppend(a: seq<Entry>, b: seq<Entry>, key: string)
    ensures Holds(a + b, key) <==> Holds(a, key) || Holds(b, key)
  {
    var es := a + b;
    if Holds(es, key) {
      var k :| 0 <= k < |es| && es[k].key == key;
      if k < |a| {
        assert a[k] == es[k];
      } else {
        assert b[k - |a|] == es[k];
      }
    }
    if Holds(a, key) {
      var k :| 0 <= k < |a| && a[k].key == key;
      assert es[k] == a[k];
    }
    if Holds(b, key) {
      var k :| 0 <= k < |b| && b[k].key == key;
      assert es[|a| + k] == b[k];
    }
  }

  /** Some item of `items` is in `category`. */
  predicate InItems(items: seq<OrderItem>, category: string)
  {
    exists item :: item in items && item.category == category
  }

  lemma ItemsHold(items: seq<OrderItem>, category: string)
    ensures Holds(ItemEntries(items), category) <==> InItems(items, category)
  {
    var es := ItemEntries(items);
    if Holds(es, category) {
      var k :| 0 <= k < |es| && es[k].key == category;
      assert items[k] in items;
    }
    if InItems(items, category) {
      var item :| item in items && item.category == category;
      var k :| 0 <= k < |items| && items[k] == item;
      assert es[k].key == category;
    }
  }

  lemma SoldSnoc(orders: seq<HistoryOrder>, category: string)
    requires |orders| > 0
    ensures Sold(orders, category) <==>
      Sold(orders[..|orders| - 1], category) || InItems(orders[|orders| - 1].items, category)
  {
    var init, last := orders[..|orders| - 1], orders[|orders| - 1];
    assert orders == init + [last];
    if Sold(orders, category) {
      var o, item :| o in orders && item in o.items && item.category == category;
      if o != last {
        assert o in init;
      }
    }
    if Sold(init, category) {
      var o, item :| o in init && item in o.items && item.category == category;
      assert o in orders;
    }
    if InItems(last.items, category) {
      var item :| item in last.items && item.category == category;
      assert last in orders;
    }
  }

  /** A category has an entry exactly when some item of some order is in it. */
  lemma {:induction false} HoldsIffSold(orders: seq<HistoryOrder>, category: string)
    ensures Holds(SaleEntries(orders), category) <==> Sold(orders, category)
  {
    if |orders| > 0 {
      var init, last := orders[..|orders| - 1], orders[|orders| - 1];
      HoldsIffSold(init, category);
      HoldsAppend(SaleEntries(init), ItemEntries(last.items), category);
      ItemsHold(last.items, category);
      SoldSnoc(orders, category);
    }
  }

  lemma ItemEntriesSnoc(items: seq<OrderItem>, j: nat)
    requires j < |items|
    ensures ItemEntries(items[..j + 1]) == ItemEntries(items[..j]) + [Entry(items[j].category, ItemSales(items[j]))]
  {
    assert items[..j + 1][..j] == items[..j];
  }

  lemma TotalsStep(before: seq<Entry>, items: seq<OrderItem>, j: nat)
    requires j < |items|
    ensures Totals(before + ItemEntries(items[..j + 1])) ==
      Add(Totals(before + ItemEntries(items[..j])), Entry(items[j].category, ItemSales(items[j])))
  {
    var e := Entry(items[j].category, ItemSales(items[j]));
    ItemEntriesSnoc(items, j);
    assert before + ItemEntries(items[..j + 1]) == (before + ItemEntries(items[..j])) + [e];
    TotalsSnoc(before + ItemEntries(items[..j]), e);
  }

  /** `acc[e.key] = (acc[e.key] || 0) + e.amount`, with the group's count kept beside it. */
  method AddSale(acc: seq<Total>, e: Entry) returns (r: seq<Total>)
    ensures r == Add(acc, e)
  {
    var k := IndexOf(acc, e.key);
    if k == |acc| {
      r := acc + [Total(e.key, 1, e.amount)];
    } else {
      r := acc[k := acc[k].(count := acc[k].count + 1, sum := acc[k].sum + e.amount)];
    }
  }

  /** The `reduce` callback: one order's `forEach` over its items. */
  method AddOrder(acc: seq<Total>, ghost before: seq<Entry>, items: seq<OrderItem>) returns (r: seq<Total>)
    requires acc == Totals(before)
    ensures r == Totals(before + ItemEntries(items))
  {
    r := acc;
    var j := 0;
    assert before + ItemEntries(items[..0]) == before;
    while j < |items|
      invariant j <= |items|
      invariant r == Totals(before + ItemEntries(items[..j]))
    {
      var e := Entry(items[j].category, ItemSales(items[j]));
      TotalsStep(before, items, j);
      r := AddSale(r, e);
      j := j + 1;
    }
    assert items[..j] == items;
  }

  /** The `reduce` over the orders, starting from the empty record. */
  method CategorySales(orders: seq<HistoryOrder>) returns (acc: seq<Total>)
    ensures acc == Totals(SaleEntries(orders))
  {
    acc := [];
    var i := 0;
    while i < |orders|
      invariant i <= |orders|
      invariant acc == Totals(SaleEntries(orders[..i]))
    {
      acc := AddOrder(acc, SaleEntries(orders[..i]), orders[i].items);
      assert orders[..i + 1][..i] == orders[..i];
      i := i + 1;
    }
    assert orders[..i] == orders;
  }

  /** `Object.entries(categorySales).map(([name, value]) => ({ name, value }))`. */
  function ChartData(ts: seq<Total>): (r: seq<Slice>)
    ensures |r| == |ts| && forall k :: 0 <= k < |ts| ==> r[k] == Slice(ts[k].key, ts[k].sum)
  {
    seq(|ts|, k requires 0 <= k < |ts| => Slice(ts[k].key, ts[k].sum))
  }

  /** The sum of the slices' values. */
  function Values(d: seq<Slice>): real
  {
    if |d| == 0 then 0.0 else d[0].value + Values(d[1..])
  }

  lemma {:induction false} ValuesOfChartData(ts: seq<Total>)
    ensures Values(ChartData(ts)) == Sums(ts)
  {
    if |ts| > 0 {
      assert ChartData(ts)[1..] == ChartData(ts[1..]);
      ValuesOfChartData(ts[1..]);
    }
  }

  /**
   * The chart has one slice per category that was sold, each category
   * once, each slice worth the sales of its category, and the slices
   * together worth all the sales.
   */
  lemma SlicesPerCategory(orders: seq<HistoryOrder>)
    ensures var d := ChartData(Totals(SaleEntries(orders)));
      (forall i, j :: 0 <= i < j < |d| ==> d[i].name != d[j].name) &&
      (forall i :: 0 <= i < |d| ==> d[i].value == SumOf(SaleEntries(orders), d[i].name)) &&
      (forall name :: (exists s :: s in d && s.name == name) <==> Sold(orders, name)) &&
      Values(d) == GrandTotal(orders)
  {
    var es := SaleEntries(orders);
    var ts := Totals(es);
    var d := ChartData(ts);
    GroupsByKey(es);
    forall name
      ensures (exists s :: s in d && s.name == name) <==> Sold(orders, name)
    {
      HoldsIffSold(orders, name);
      if exists s :: s in d && s.name == name {
        var s :| s in d && s.name == name;
        var k :| 0 <= k < |d| && d[k] == s;
        assert ts[k] in ts;
      }
      if exists t :: t in ts && t.key == name {
        var t :| t in ts && t.key == name;
        var k :| 0 <= k < |ts| && ts[k] == t;
        assert d[k] in d;
      }
    }
    Conservation(es);
    ValuesOfChartData(ts);
    SaleEntriesAmount(orders);
  }

  /** `COLORS[index % COLORS.length]`. */
  function ColorOf(index: nat): (c: string)
    ensures c in Colors
  {
    Colors[index % |Colors|]
  }

  /** The colours repeat every six slices, and any six consecutive slices get six different colours. */
  lemma ColorsCycle(i: nat, j: nat)
    ensures ColorOf(i + 6) == ColorOf(i)
    ensures i < j < i + 6 ==> ColorOf(i) != ColorOf(j)
  {
    if i < j < i + 6 {
      assert i == 6 * (i / 6) + i % 6 && j == 6 * (j / 6) + j % 6;
      assert i % 6 != j % 6;
    }
  }

  /** `percent > 0.05`: the label is drawn only for a slice above five percent. */
  predicate LabelShown(percent: real)
  {
    percent > 0.05
  }

  /** With `percent` the slice's share of a positive total, the label shows when the slice exceeds a twentieth of it. */
  lemma LabelShownIff(value: real, total: real)
    requires total > 0.0
    ensures LabelShown(value / total) <==> 20.0 * value > total
  {
    var p := value / total;
    assert p * total == value;
    if p > 0.05 {
      assert (p - 0.05) * total > 0.0;
    } else {
      assert (0.05 - p) * total >= 0.0;
    }
  }

  /** What the panel shows. */
  datatype Screen = Loading | NoData | Pie(slices: seq<Slice>)

  /** `isLoading || !data.length` shows a message instead of the chart. */
  function View(isLoading: bool, data: seq<Slice>): (s: Screen)
    ensures s.Pie? <==> !isLoading && |data| > 0
    ensures s.Pie? ==> s.slices == data
    ensures s == Loading <==> isLoading
  {
    if isLoading then Loading else if |data| == 0 then NoData else Pie(data)
  }

  /** The panel's state. */
  class SalesPanel {
    var data: seq<Slice>
    var isLoading: bool

    constructor ()
      ensures data == [] && isLoading
    {
      data := [];
      isLoading := true;
    }

    /**
     * `fetchAndProcessData`; `history` is the parsed order history, `None`
     * when the fetch or the parse throws or the body is not a list.
     */
    method FetchAndProcess(history: Option<seq<HistoryOrder>>)
      modifies this
      ensures !isLoading
      ensures history.None? ==> data == []
      ensures history.Some? ==> data == ChartData(Totals(SaleEntries(history.value)))
    {
      match history {
        case None =>
          data := [];
        case Some(orders) =>
          var acc := CategorySales(orders);
          data := ChartData(acc);
      }
      isLoading := false;
    }
  }
}
