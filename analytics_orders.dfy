/**
 * `GET /api/analytics/orders`: the order chart. The range parameter picks a
 * start date and a grouping; the fetched orders are then bucketed by hour,
 * by day, by month of the year, or by formatted month key. The calendar
 * (start dates, day arithmetic, Thai-locale labels) is an input: each
 * order arrives with its clock hour, day of month, month and month label.
 */
module AnalyticsOrders {
  import opened Common
  import opened Js
  import opened Tally

  const DefaultRange := "week"

  /** A month index as `Date.getMonth()` reports it. */
  type Month = m: nat | m < 12

  /** An order as the route selects it (`date`, `totalPrice`), with its calendar fields. */
  datatype Stamp = Stamp(hour: Hour, day: nat, month: Month, monthKey: string, totalPrice: real)

  /** A calendar date produced by the chart's own day arithmetic, with its label. */
  datatype CalendarDay = CalendarDay(day: nat, month: Month, name: string)

  datatype Start = StartOfDay | StartOfWeek | StartOfMonth | StartOfYear | StartOfPreviousYear
  datatype Grouping = ByHour | ByDay | ByMonth
  datatype Settings = Settings(start: Start, dateFormat: string, groupBy: Grouping)

  /** `searchParams.get('range') || 'week'`. */
  function RangeOf(param: Option<string>): string
  {
    if param.Some? && param.value != "" then param.value else DefaultRange
  }

  /** The `switch (range)`. */
  function SettingsFor(range: string): Settings
  {
    match range
    case "today" => Settings(StartOfDay, "HH:00", ByHour)
    case "week" => Settings(StartOfWeek, "EEEE", ByDay)
    case "month" => Settings(StartOfMonth, "d MMM", ByDay)
    case "year" => Settings(StartOfYear, "MMMM", ByMonth)
    case "all" => Settings(StartOfPreviousYear, "MMM yyyy", ByMonth)
    case _ => Settings(StartOfWeek, "EEEE", ByDay)
  }

  /** Which branch builds the chart. */
  datatype View = AllMonths | Hours | Days(count: nat) | Months

  function ViewOf(range: string): View
  {
    if range == "all" then AllMonths
    else match SettingsFor(range).groupBy
      case ByHour => Hours
      case ByDay => Days(if range == "week" then 7 else 31)
      case ByMonth => Months
  }

  /**
   * A missing or empty range means the week view. An unrecognised range
   * gets the week's settings, but the day count compares the range with
   * 'week' again, so it draws 31 day buckets, as 'month' does.
   */
  lemma RangeDefaults(param: Option<string>)
    ensures param.None? || param.value == "" ==> ViewOf(RangeOf(param)) == Days(7)
    ensures RangeOf(param) !in {"today", "week", "month", "year", "all"} ==>
      SettingsFor(RangeOf(param)) == SettingsFor("week") && ViewOf(RangeOf(param)) == Days(31)
  {
  }

  /** Each range's branch and start date. */
  lemma RangeViews()
    ensures ViewOf("today") == Hours && SettingsFor("today").start == StartOfDay
    ensures ViewOf("week") == Days(7) && SettingsFor("week").start == StartOfWeek
    ensures ViewOf("month") == Days(31) && SettingsFor("month").start == StartOfMonth
    ensures ViewOf("year") == Months && SettingsFor("year").start == StartOfYear
    ensures ViewOf("all") == AllMonths && SettingsFor("all").start == StartOfPreviousYear
  {
  }

  // ---------------------------------------------------------------------
  // fixed buckets

  /** What a fixed bucket compares: the order's clock hour or its month. */
  datatype KeyKind = HourOfDay | MonthOfYear

  function KeyOf(o: Stamp, kind: KeyKind): nat
  {
    match kind
    case HourOfDay => o.hour
    case MonthOfYear => o.month
  }

  /** `orders.filter((order) => <its hour or month> === k)`. */
  function WithKey(orders: seq<Stamp>, kind: KeyKind, k: nat): (r: seq<Stamp>)
    ensures |r| <= |orders|
    ensures forall o :: o in r <==> o in orders && KeyOf(o, kind) == k
  {
    if orders == [] then []
    else
      var last := orders[|orders| - 1];
      WithKey(orders[..|orders| - 1], kind, k) + (if KeyOf(last, kind) == k then [last] else [])
  }

  /** The filter keeps the orders in their order. */
  lemma {:induction false} WithKeyAppend(a: seq<Stamp>, b: seq<Stamp>, kind: KeyKind, k: nat)
    ensures WithKey(a + b, kind, k) == WithKey(a, kind, k) + WithKey(b, kind, k)
    decreases |b|
  {
    if b == [] {
      assert a + b == a;
    } else {
      var init := b[..|b| - 1];
      assert (a + b)[..|a + b| - 1] == a + init;
      assert b[..|b| - 1] == init;
      WithKeyAppend(a, init, kind, k);
    }
  }

  /** `orders.filter(...)` on day of month and month. */
  function OnDate(orders: seq<Stamp>, d: CalendarDay): (r: seq<Stamp>)
    ensures |r| <= |orders|
    ensures forall o :: o in r <==> o in orders && o.day == d.day && o.month == d.month
  {
    if orders == [] then []
    else
      var last := orders[|orders| - 1];
      OnDate(orders[..|orders| - 1], d) + (if last.day == d.day && last.month == d.month then [last] else [])
  }

  /** `reduce((sum, order) => sum + order.totalPrice, 0)`. */
  function PriceSum(orders: seq<Stamp>): real
  {
    if orders == [] then 0.0 else PriceSum(orders[..|orders| - 1]) + orders[|orders| - 1].totalPrice
  }

  /** One chart entry `{ name, orders, sales }` for the orders that matched. */
  function Tallied(name: string, matched: seq<Stamp>): Total
  {
    Total(name, |matched|, PriceSum(matched))
  }

  /** `String(hour).padStart(2, '0') + ':00'`. */
  function HourName(h: Hour): string
  {
    var s := NatToString(h);
    (if |s| < 2 then "0" + s else s) + ":00"
  }

  /** Hour h is named by its two decimal digits followed by ':00'. */
  lemma HourNameDigits(h: Hour)
    ensures HourName(h) == [DigitChar(h / 10), DigitChar(h % 10), ':', '0', '0']
  {
    if h >= 10 {
      assert NatToString(h / 10) == [DigitChar(h / 10)];
    }
  }

  /** Different hours have different names. */
  lemma HourNamesDistinct(h: Hour, k: Hour)
    requires h != k
    ensures HourName(h) != HourName(k)
  {
    HourNameDigits(h);
    HourNameDigits(k);
  }

  /** The names of the 24 hour buckets. */
  function HourNames(): (names: seq<string>)
    ensures |names| == 24
  {
    seq(24, i requires 0 <= i < 24 => HourName(i))
  }

  /** One bucket per name, bucket i holding the orders whose key is i. */
  function KeyedView(orders: seq<Stamp>, kind: KeyKind, names: seq<string>): (r: seq<Total>)
    ensures |r| == |names|
  {
    seq(|names|, i requires 0 <= i < |names| => Tallied(names[i], WithKey(orders, kind, i)))
  }

  /** The 'today' view: 24 hour buckets. */
  function HourView(orders: seq<Stamp>): seq<Total>
  {
    KeyedView(orders, HourOfDay, HourNames())
  }

  /** The 'year' view: 12 month buckets named by the calendar. */
  function MonthView(orders: seq<Stamp>, monthNames: seq<string>): seq<Total>
  {
    KeyedView(orders, MonthOfYear, monthNames)
  }

  /** The day views: bucket i is the i-th calendar day from the start, matched by day of month and month. */
  function DayView(orders: seq<Stamp>, dates: seq<CalendarDay>): (r: seq<Total>)
    ensures |r| == |dates|
    ensures forall i :: 0 <= i < |dates| ==> r[i].key == dates[i].name
    ensures forall i :: 0 <= i < |dates| ==>
      r[i].count == |OnDate(orders, dates[i])| && r[i].sum == PriceSum(OnDate(orders, dates[i]))
  {
    seq(|dates|, i requires 0 <= i < |dates| => Tallied(dates[i].name, OnDate(orders, dates[i])))
  }

  lemma KeyedViewLast(orders: seq<Stamp>, kind: KeyKind, names: seq<string>)
    requires orders != [] && KeyOf(orders[|orders| - 1], kind) < |names|
    ensures var o := orders[|orders| - 1];
      KeyedView(orders, kind, names) ==
      Bump(KeyedView(orders[..|orders| - 1], kind, names), KeyOf(o, kind), o.totalPrice)
  {
    var init, o := orders[..|orders| - 1], orders[|orders| - 1];
    var v, w := KeyedView(init, kind, names), KeyedView(orders, kind, names);
    var k := KeyOf(o, kind);
    forall i | 0 <= i < |names|
      ensures w[i] == Bump(v, k, o.totalPrice)[i]
    {
      var m := WithKey(init, kind, i);
      assert v[i] == Tallied(names[i], m);
      if k == i {
        assert WithKey(orders, kind, i) == m + [o];
        assert (m + [o])[..|m|] == m;
        assert PriceSum(m + [o]) == PriceSum(m) + o.totalPrice;
        assert w[i] == Tallied(names[i], m + [o]);
      } else {
        assert WithKey(orders, kind, i) == m + [] == m;
        assert w[i] == v[i];
      }
    }
  }

  lemma {:induction false} EmptySums(ts: seq<Total>)
    requires forall i :: 0 <= i < |ts| ==> ts[i].count == 0 && ts[i].sum == 0.0
    ensures Counts(ts) == 0 && Sums(ts) == 0.0
  {
    if ts != [] {
      EmptySums(ts[1..]);
    }
  }

  /**
   * When every order's key names one of the buckets, the bucket counts add
   * up to the number of orders and the bucket sales to their total price.
   */
  lemma {:induction false} KeyedConservation(orders: seq<Stamp>, kind: KeyKind, names: seq<string>)
    requires forall o :: o in orders ==> KeyOf(o, kind) < |names|
    ensures Counts(KeyedView(orders, kind, names)) == |orders|
    ensures Sums(KeyedView(orders, kind, names)) == PriceSum(orders)
  {
    if orders == [] {
      EmptySums(KeyedView(orders, kind, names));
    } else {
      var init, o := orders[..|orders| - 1], orders[|orders| - 1];
      assert forall x :: x in init ==> x in orders;
      KeyedConservation(init, kind, names);
      KeyedViewLast(orders, kind, names);
      CountsUpdate(KeyedView(init, kind, names), KeyOf(o, kind), o.totalPrice);
    }
  }

  // ---------------------------------------------------------------------
  // 'all'

  /** Each order filed under its formatted month. */
  function MonthEntries(orders: seq<Stamp>): (es: seq<Entry>)
    ensures |es| == |orders|
    ensures forall i :: 0 <= i < |orders| ==> es[i] == Entry(orders[i].monthKey, orders[i].totalPrice)
  {
    if orders == [] then []
    else MonthEntries(orders[..|orders| - 1]) + [Entry(orders[|orders| - 1].monthKey, orders[|orders| - 1].totalPrice)]
  }

  lemma {:induction false} MonthEntriesAmount(orders: seq<Stamp>)
    ensures AmountOf(MonthEntries(orders)) == PriceSum(orders)
  {
    if orders != [] {
      var es := MonthEntries(orders);
      assert es[..|es| - 1] == MonthEntries(orders[..|orders| - 1]);
      MonthEntriesAmount(orders[..|orders| - 1]);
    }
  }

  /** Some order has the formatted month `key`. */
  predicate HasMonth(orders: seq<Stamp>, key: string)
  {
    exists o :: o in orders && o.monthKey == key
  }

  lemma HoldsIffHasMonth(orders: seq<Stamp>, key: string)
    ensures Holds(MonthEntries(orders), key) <==> HasMonth(orders, key)
  {
    var es := MonthEntries(orders);
    if Holds(es, key) {
      var k :| 0 <= k < |es| && es[k].key == key;
      assert orders[k] in orders;
    }
    if HasMonth(orders, key) {
      var o :| o in orders && o.monthKey == key;
      var k :| 0 <= k < |orders| && orders[k] == o;
      assert es[k].key == key;
    }
  }

  /** The `forEach` that fills `months`, then `Object.entries(months)`. */
  method AllMonthsView(orders: seq<Stamp>) returns (chart: seq<Total>)
    ensures chart == Totals(MonthEntries(orders))
  {
    chart := [];
    var i := 0;
    while i < |orders|
      invariant i <= |orders|
      invariant chart == Totals(MonthEntries(orders[..i]))
    {
      var key, price := orders[i].monthKey, orders[i].totalPrice;
      ghost var es := MonthEntries(orders[..i]);
      assert orders[..i + 1][..i] == orders[..i];
      assert MonthEntries(orders[..i + 1]) == es + [Entry(key, price)];
      TotalsSnoc(es, Entry(key, price));
      var k := IndexOf(chart, key);
      if k == |chart| {
        chart := chart + [Total(key, 1, price)];
      } else {
        chart := chart[k := chart[k].(count := chart[k].count + 1, sum := chart[k].sum + price)];
      }
      i := i + 1;
    }
    assert orders[..i] == orders;
  }

  // ---------------------------------------------------------------------
  // the handler

  /**
   * The calendar around the request: the 31 days from the range's start
   * date (`startDate` plus i days) and the names of the 12 months from
   * January.
   */
  datatype Calendar = Calendar(days: seq<CalendarDay>, monthNames: seq<string>)

  predicate Complete(c: Calendar)
  {
    |c.days| == 31 && |c.monthNames| == 12
  }

  datatype Answer = Ok(chart: seq<Total>) | ServerError

  /**
   * The handler over the orders the store returns from the range's start
   * date on, in ascending date order; `fault` says whether the store throws.
   */
  method Get(param: Option<string>, orders: seq<Stamp>, calendar: Calendar, fault: bool) returns (r: Answer)
    requires Complete(calendar)
    ensures r.ServerError? <==> fault
    ensures r.Ok? && ViewOf(RangeOf(param)) == Hours ==>
      |r.chart| == 24 &&
      (forall h: Hour :: r.chart[h].key == HourName(h) && r.chart[h].count == |WithKey(orders, HourOfDay, h)| &&
        r.chart[h].sum == PriceSum(WithKey(orders, HourOfDay, h))) &&
      Counts(r.chart) == |orders| && Sums(r.chart) == PriceSum(orders)
    ensures r.Ok? && ViewOf(RangeOf(param)).Days? ==>
      r.chart == DayView(orders, calendar.days[..ViewOf(RangeOf(param)).count])
    ensures r.Ok? && ViewOf(RangeOf(param)) == Months ==>
      |r.chart| == 12 &&
      (forall m: Month :: r.chart[m].key == calendar.monthNames[m] &&
        r.chart[m].count == |WithKey(orders, MonthOfYear, m)| &&
        r.chart[m].sum == PriceSum(WithKey(orders, MonthOfYear, m))) &&
      Counts(r.chart) == |orders| && Sums(r.chart) == PriceSum(orders)
    ensures r.Ok? && ViewOf(RangeOf(param)) == AllMonths ==> r.chart == Totals(MonthEntries(orders))
    ensures r.Ok? && ViewOf(RangeOf(param)) == AllMonths ==>
      (forall i, j :: 0 <= i < j < |r.chart| ==> r.chart[i].key != r.chart[j].key) &&
      (forall i :: 0 <= i < |r.chart| ==>
        r.chart[i].count == CountOf(MonthEntries(orders), r.chart[i].key) &&
        r.chart[i].sum == SumOf(MonthEntries(orders), r.chart[i].key)) &&
      (forall key :: (exists t :: t in r.chart && t.key == key) <==> HasMonth(orders, key)) &&
      Counts(r.chart) == |orders| && Sums(r.chart) == PriceSum(orders)
  {
    if fault {
      return ServerError;
    }
    var view := ViewOf(RangeOf(param));
    match view {
      case AllMonths =>
        var chart := AllMonthsView(orders);
        var es := MonthEntries(orders);
        GroupsByKey(es);
        Conservation(es);
        MonthEntriesAmount(orders);
        forall key ensures Holds(es, key) <==> HasMonth(orders, key)
        {
          HoldsIffHasMonth(orders, key);
        }
        r := Ok(chart);
      case Hours =>
        KeyedConservation(orders, HourOfDay, HourNames());
        r := Ok(HourView(orders));
      case Days(n) =>
        assert n <= 31;
        r := Ok(DayView(orders, calendar.days[..n]));
      case Months =>
        KeyedConservation(orders, MonthOfYear, calendar.monthNames);
        r := Ok(MonthView(orders, calendar.monthNames));
    }
  }
}
