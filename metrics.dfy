/**
 * `GET /api/analytics/metrics`: the dashboard's headline numbers. The store's
 * aggregates (`_count`, `_sum`, `_avg`, `groupBy`) are inputs; the route's
 * own arithmetic over them is modelled. Hours are the local clock hours of
 * today's orders, as `getHours()` gives them.
 */
module Metrics {
  import opened Common
  import opened Entities

  const HoursPerDay: nat := 24
  const DaysPerWeek: real := 7.0

  // ---------------------------------------------------------------------
  // hourCounts

  /** The counts per hour of the orders in `hours`, index h holding hour h. */
  function CountsOf(hours: seq<Hour>): (c: seq<nat>)
    ensures |c| == HoursPerDay
  {
    if hours == [] then seq(HoursPerDay, _ => 0)
    else
      var c := CountsOf(hours[..|hours| - 1]);
      var h := hours[|hours| - 1];
      c[h := c[h] + 1]
  }

  /** Entry h counts exactly the orders placed in hour h. */
  lemma {:induction false} CountsAreOccurrences(hours: seq<Hour>, h: Hour)
    ensures CountsOf(hours)[h] == multiset(hours)[h]
  {
    if hours != [] {
      var init := hours[..|hours| - 1];
      assert hours == init + [hours[|hours| - 1]];
      CountsAreOccurrences(init, h);
    }
  }

  /** The counts add up to the number of orders fetched. */
  lemma {:induction false} CountsSum(hours: seq<Hour>)
    ensures SumInt(CountsOf(hours)) == |hours|
  {
    if hours == [] {
      SumIntZeros(HoursPerDay);
    } else {
      var init := hours[..|hours| - 1];
      CountsSum(init);
      var c := CountsOf(init);
      var h := hours[|hours| - 1];
      SumIntUpdate(c, h, 1);
    }
  }

  /** The `forEach` that fills `hourCounts`. */
  method HourCounts(hours: seq<Hour>) returns (counts: seq<nat>)
    ensures counts == CountsOf(hours)
  {
    counts := seq(HoursPerDay, _ => 0);
    var i := 0;
    while i < |hours|
      invariant i <= |hours|
      invariant counts == CountsOf(hours[..i])
    {
      assert hours[..i + 1][..i] == hours[..i];
      counts := counts[hours[i] := counts[hours[i]] + 1];
      i := i + 1;
    }
    assert hours[..i] == hours;
  }

  // ---------------------------------------------------------------------
  // mostActiveHour

  /**
   * The `reduce` over `Object.entries(hourCounts)`, which visits the hours
   * that have orders in ascending order. `best` is the accumulator
   * `[hour, count]`; an entry replaces it only when its count exceeds the
   * count recorded for the accumulator's hour. Hours without orders have
   * count 0 here and can never replace it, as they are absent there.
   */
  function MostActiveFrom(counts: seq<nat>, h: nat, best: (Hour, nat)): (Hour, nat)
    requires |counts| == HoursPerDay && h <= HoursPerDay
    decreases HoursPerDay - h
  {
    if h == HoursPerDay then best
    else if counts[h] > counts[best.0] then MostActiveFrom(counts, h + 1, (h, counts[h]))
    else MostActiveFrom(counts, h + 1, best)
  }

  /** The reduce started from `['0', 0]`. */
  function MostActive(counts: seq<nat>): (Hour, nat)
    requires |counts| == HoursPerDay
  {
    MostActiveFrom(counts, 0, (0, 0))
  }

  /** What the accumulator satisfies after the hours below `h` were visited. */
  predicate Leading(counts: seq<nat>, h: nat, best: (Hour, nat))
    requires |counts| == HoursPerDay && h <= HoursPerDay
  {
    (best.0 == 0 || best.0 < h) &&
    (forall j :: 0 <= j < h ==> counts[j] <= counts[best.0]) &&
    (forall j :: 0 <= j < best.0 ==> counts[j] < counts[best.0]) &&
    best.1 == (if best.0 == 0 then 0 else counts[best.0])
  }

  lemma {:induction false} MostActiveFromLeads(counts: seq<nat>, h: nat, best: (Hour, nat))
    requires |counts| == HoursPerDay && h <= HoursPerDay
    requires Leading(counts, h, best)
    ensures Leading(counts, HoursPerDay, MostActiveFrom(counts, h, best))
    decreases HoursPerDay - h
  {
    if h < HoursPerDay {
      if counts[h] > counts[best.0] {
        MostActiveFromLeads(counts, h + 1, (h, counts[h]));
      } else {
        MostActiveFromLeads(counts, h + 1, best);
      }
    }
  }

  /**
   * The reported hour has a count at least that of every hour, every lower
   * hour has strictly fewer orders (ties go to the lower hour), and the
   * reported count is that hour's count, except that it stays 0 when hour 0
   * wins.
   */
  lemma MostActiveIsBusiest(counts: seq<nat>)
    requires |counts| == HoursPerDay
    ensures var (hour, reported) := MostActive(counts);
      (forall j :: 0 <= j < HoursPerDay ==> counts[j] <= counts[hour]) &&
      (forall j :: 0 <= j < hour ==> counts[j] < counts[hour]) &&
      reported == (if hour == 0 then 0 else counts[hour])
  {
    MostActiveFromLeads(counts, 0, (0, 0));
  }

  /** With no orders today the answer is hour 0 with 0 orders. */
  lemma {:induction false} MostActiveOfNoOrders()
    ensures MostActive(CountsOf([])) == (0, 0)
  {
    var c := CountsOf([]);
    MostActiveFromLeads(c, 0, (0, 0));
    var r := MostActive(c);
    assert c[r.0] == 0;
  }

  // ---------------------------------------------------------------------
  // growth

  /**
   * The growth rule shared by orders and sales: relative change in percent
   * when yesterday had some, 100 when only today has some, 0 otherwise.
   */
  function Growth(today: real, yesterday: real): (r: real)
    ensures today >= 0.0 && yesterday >= 0.0 ==>
      (r > 0.0 <==> today > yesterday) && (r == 0.0 <==> today == yesterday) && r >= -100.0
    ensures yesterday > 0.0 ==> r * yesterday == (today - yesterday) * 100.0
    ensures yesterday <= 0.0 ==> r == (if today > 0.0 then 100.0 else 0.0)
  {
    if yesterday > 0.0 then
      var r := (today - yesterday) / yesterday * 100.0;
      GrowthSign(today, yesterday);
      r
    else if today > 0.0 then 100.0
    else 0.0
  }

  lemma GrowthSign(today: real, yesterday: real)
    requires yesterday > 0.0
    ensures var r := (today - yesterday) / yesterday * 100.0;
      r * yesterday == (today - yesterday) * 100.0 &&
      (r > 0.0 <==> today > yesterday) && (r == 0.0 <==> today == yesterday) &&
      (today >= 0.0 ==> r >= -100.0)
  {
    var q := (today - yesterday) / yesterday;
    assert q * yesterday == today - yesterday;
    if q > 0.0 {
      assert q * yesterday > 0.0;
    }
    if q < 0.0 {
      assert q * yesterday < 0.0;
    }
  }

  // ---------------------------------------------------------------------
  // delivery stats

  /** One row of the store's `groupBy(['deliveryType'])`. */
  datatype DeliveryGroup = DeliveryGroup(deliveryType: string, count: nat, sales: Option<real>)

  /** One entry of `deliveryStats`. */
  datatype DeliveryStat = DeliveryStat(kind: string, count: nat, sales: real)

  /** `find` by delivery type. */
  function FindGroup(groups: seq<DeliveryGroup>, kind: string): (r: Option<DeliveryGroup>)
    ensures r.Some? ==> r.value in groups && r.value.deliveryType == kind
    ensures r.None? ==> forall g :: g in groups ==> g.deliveryType != kind
  {
    if groups == [] then None
    else if groups[0].deliveryType == kind then Some(groups[0])
    else FindGroup(groups[1..], kind)
  }

  /** `?._count || 0` and `?._sum?.totalPrice || 0` for one type. */
  function StatFor(groups: seq<DeliveryGroup>, kind: string): DeliveryStat
  {
    var g := FindGroup(groups, kind);
    DeliveryStat(kind,
      if g.Some? then g.value.count else 0,
      if g.Some? && g.value.sales.Some? then g.value.sales.value else 0.0)
  }

  /**
   * Always two entries, dine-in first; a type the store has no group for
   * reports 0 orders and 0 sales, and a type it has reports that group.
   */
  function DeliveryStats(groups: seq<DeliveryGroup>): (r: seq<DeliveryStat>)
    ensures |r| == 2 && r[0].kind == DineIn && r[1].kind == Takeaway
    ensures forall i :: 0 <= i < 2 ==>
      ((forall g :: g in groups ==> g.deliveryType != r[i].kind) ==> r[i].count == 0 && r[i].sales == 0.0)
    ensures forall i, g :: 0 <= i < 2 && g in groups && g.deliveryType == r[i].kind ==>
      ((forall h :: h in groups && h.deliveryType == g.deliveryType ==> h == g) ==>
        r[i].count == g.count && r[i].sales == (if g.sales.Some? then g.sales.value else 0.0))
  {
    [StatFor(groups, DineIn), StatFor(groups, Takeaway)]
  }

  // ---------------------------------------------------------------------
  // weekly stats

  /** The accumulator `{ totalOrders, totalSales }`. */
  datatype Weekly = Weekly(totalOrders: nat, totalSales: real)

  /** The `reduce` over the last seven days' orders, given by their `totalPrice`. */
  function WeeklyFrom(acc: Weekly, prices: seq<real>): Weekly
    decreases |prices|
  {
    if prices == [] then acc
    else WeeklyFrom(Weekly(acc.totalOrders + 1, acc.totalSales + prices[0]), prices[1..])
  }

  /** The reduce counts the orders and sums their prices. */
  lemma {:induction false} WeeklyCountsAndSums(acc: Weekly, prices: seq<real>)
    ensures WeeklyFrom(acc, prices) == Weekly(acc.totalOrders + |prices|, acc.totalSales + SumReal(prices))
    decreases |prices|
  {
    if prices != [] {
      WeeklyCountsAndSums(Weekly(acc.totalOrders + 1, acc.totalSales + prices[0]), prices[1..]);
    }
  }

  // ---------------------------------------------------------------------
  // the response

  /** What the store answers for one `aggregate` query. */
  datatype Aggregate = Aggregate(count: nat, sum: Option<real>, avg: Option<real>)

  /** The store's answers the route combines. */
  datatype StoreAnswers = StoreAnswers(
    today: Aggregate,
    yesterday: Aggregate,
    total: Aggregate,
    todayHours: seq<Hour>,
    deliveryGroups: seq<DeliveryGroup>,
    weeklyPrices: seq<real>)

  datatype Report = Report(
    todayOrders: nat,
    totalOrders: nat,
    todaySales: real,
    totalSales: real,
    orderGrowth: real,
    salesGrowth: real,
    avgOrderValue: real,
    totalAvgOrderValue: real,
    mostActiveHour: Hour,
    mostActiveHourOrders: nat,
    weeklyOrders: nat,
    weeklySales: real,
    deliveryStats: seq<DeliveryStat>,
    dailyAverage: real)

  /** `x || 0` for a possibly-null sum or average. */
  function OrZero(x: Option<real>): real
  {
    if x.Some? then x.value else 0.0
  }

  datatype Answer = Ok(report: Report) | ServerError

  /** The handler; `fault` says whether a store query throws. */
  method Get(store: StoreAnswers, fault: bool) returns (r: Answer)
    ensures r.ServerError? <==> fault
    ensures r.Ok? ==>
      var m := r.report;
      m.orderGrowth == Growth(store.today.count as real, store.yesterday.count as real) &&
      m.salesGrowth == Growth(OrZero(store.today.sum), OrZero(store.yesterday.sum)) &&
      (forall h :: 0 <= h < HoursPerDay ==>
        multiset(store.todayHours)[h] <= multiset(store.todayHours)[m.mostActiveHour]) &&
      (forall h :: 0 <= h < m.mostActiveHour ==>
        multiset(store.todayHours)[h] < multiset(store.todayHours)[m.mostActiveHour]) &&
      m.mostActiveHourOrders == (if m.mostActiveHour == 0 then 0 else multiset(store.todayHours)[m.mostActiveHour]) &&
      m.weeklyOrders == |store.weeklyPrices| &&
      m.weeklySales == SumReal(store.weeklyPrices) &&
      m.dailyAverage * DaysPerWeek == m.weeklySales &&
      m.deliveryStats == DeliveryStats(store.deliveryGroups)
    // The figures the store answers are passed through, a null sum or average as 0.
    ensures r.Ok? ==>
      var m := r.report;
      m.todayOrders == store.today.count && m.totalOrders == store.total.count &&
      m.todaySales == OrZero(store.today.sum) && m.totalSales == OrZero(store.total.sum) &&
      m.avgOrderValue == OrZero(store.today.avg) && m.totalAvgOrderValue == OrZero(store.total.avg)
  {
    if fault {
      return ServerError;
    }
    var counts := HourCounts(store.todayHours);
    MostActiveIsBusiest(counts);
    var (hour, hourOrders) := MostActive(counts);
    forall h: Hour ensures counts[h] == multiset(store.todayHours)[h]
    {
      CountsAreOccurrences(store.todayHours, h);
    }
    var todayOrders := store.today.count;
    var yesterdayOrders := store.yesterday.count;
    var todaySales := OrZero(store.today.sum);
    var yesterdaySales := OrZero(store.yesterday.sum);
    var weekly := WeeklyFrom(Weekly(0, 0.0), store.weeklyPrices);
    WeeklyCountsAndSums(Weekly(0, 0.0), store.weeklyPrices);
    r := Ok(Report(
      todayOrders, store.total.count, todaySales, OrZero(store.total.sum),
      Growth(todayOrders as real, yesterdayOrders as real),
      Growth(todaySales, yesterdaySales),
      OrZero(store.today.avg), OrZero(store.total.avg),
      hour, hourOrders,
      weekly.totalOrders, weekly.totalSales,
      DeliveryStats(store.deliveryGroups),
      weekly.totalSales / DaysPerWeek));
  }
}
