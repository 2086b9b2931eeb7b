/**
 * `/api/order-history`: `POST` files a finished kiosk order into the order
 * history, normalising its fields; `GET` lists the history, newest first,
 * optionally for one day and up to a limit.
 */
module OrderHistoryRoute {
  import opened Common
  import opened Js
  import opened Entities
  import opened Sorting

  // ---------------------------------------------------------------------
  // POST

  /** One item as the body carries it; a `None` field is absent or `null`. */
  datatype RawItem = RawItem(
    menuName: Val,
    category: Option<string>,
    quantity: Val,
    price: Val,
    options: Option<seq<ItemOption>>)

  /**
   * The body's `items`: a JSON text, given by what `JSON.parse` makes of it
   * (`None` when it throws), an array, or absent.
   */
  datatype ItemsField = Text(parsed: Option<seq<RawItem>>) | List(items: seq<RawItem>) | NoItems

  /** The body; `None` marks an absent field. */
  datatype Body = Body(
    id: Val,
    date: Option<string>,
    time: Option<string>,
    totalQuantity: Val,
    totalPrice: Val,
    deliveryType: Option<string>,
    items: ItemsField)

  /** The arguments of `new Date(year, month, day, hours, minutes, seconds)`. */
  datatype DateParts = DateParts(
    year: Number, month: Number, day: Number,
    hours: Number, minutes: Number, seconds: Number)

  /** One item as it is created. */
  datatype StoredItem = StoredItem(menuName: Val, category: string, quantity: Val, price: Val, options: seq<ItemOption>)

  /** The order-history row as it is created. */
  datatype Record = Record(
    orderId: Val,
    date: DateParts,
    time: string,
    totalQuantity: Val,
    totalPrice: Val,
    deliveryType: string,
    status: string,
    items: seq<StoredItem>)

  /** The body as JSON, or 500 when something throws. */
  datatype Created = Stored(record: Record) | ServerError

  /** `Number(x) - 1`; NaN stays NaN. */
  function MinusOne(x: Number): Number
  {
    if x.Finite? then Finite(x.value - 1.0) else NaN
  }

  /** The `new Date(...)` arguments from `date.split('-')` and `time.split(':')`. */
  function PartsOf(date: string, time: string): DateParts
  {
    var d, t := Split(date, '-'), Split(time, ':');
    DateParts(
      ToNumber(Nth(d, 0)), MinusOne(ToNumber(Nth(d, 1))), ToNumber(Nth(d, 2)),
      ToNumber(Nth(t, 0)), ToNumber(Nth(t, 1)), ToNumber(Nth(t, 2)))
  }

  /**
   * Whether `new Date(...)` of these arguments is a valid date: a NaN
   * argument gives an Invalid Date, which the store refuses to write.
   */
  predicate ValidDate(p: DateParts)
  {
    p.year.Finite? && p.month.Finite? && p.day.Finite? &&
    p.hours.Finite? && p.minutes.Finite? && p.seconds.Finite?
  }

  /** `item.category || ''` and `item.options || []`. */
  function StoreItem(i: RawItem): (s: StoredItem)
    ensures s.category == (if i.category.Some? then i.category.value else "")
    ensures s.options == (if i.options.Some? then i.options.value else [])
    ensures s.menuName == i.menuName && s.quantity == i.quantity && s.price == i.price
  {
    StoredItem(i.menuName,
      if i.category.Some? && i.category.value != "" then i.category.value else "",
      i.quantity, i.price,
      if i.options.Some? then i.options.value else [])
  }

  function StoreItems(items: seq<RawItem>): (r: seq<StoredItem>)
    ensures |r| == |items|
    ensures forall k :: 0 <= k < |items| ==> r[k] == StoreItem(items[k])
  {
    if items == [] then [] else [StoreItem(items[0])] + StoreItems(items[1..])
  }

  /** `deliveryType.toUpperCase() === 'ทานที่ร้าน' ? 'ทานที่ร้าน' : 'สั่งกลับบ้าน'`. */
  function NormalDelivery(deliveryType: string): string
  {
    if ToUpper(deliveryType) == DineIn then DineIn else Takeaway
  }

  /**
   * Only the exact dine-in text is kept as dine-in (it has no Latin letters
   * for upper-casing to match); every other value, including 'dine-in' in
   * any case, is filed as take-away.
   */
  lemma DeliveryNormalised(deliveryType: string)
    ensures NormalDelivery(deliveryType) == DineIn <==> deliveryType == DineIn
    ensures NormalDelivery(deliveryType) == Takeaway <==> deliveryType != DineIn
  {
    UpperMatchesOnlyItself(deliveryType, DineIn);
  }

  /** The items as an array: a JSON text is parsed, an array is used as it is. */
  function ItemsOf(f: ItemsField): Option<seq<RawItem>>
  {
    match f
    case Text(parsed) => parsed
    case List(items) => Some(items)
    case NoItems => None
  }

  /**
   * The handler. A missing date, time, delivery type or item list, an items
   * text that is not JSON, a date or time that makes an Invalid Date, or a
   * store failure (`fault`) ends in 500 with nothing created.
   */
  function Post(b: Body, fault: bool): (r: Created)
    ensures r.ServerError? <==>
      fault || b.date.None? || b.time.None? || b.deliveryType.None? || ItemsOf(b.items).None? ||
      !ValidDate(PartsOf(b.date.value, b.time.value))
    ensures r.Stored? ==>
      r.record.status == Completed &&
      r.record.orderId == b.id && r.record.time == b.time.value &&
      r.record.totalQuantity == b.totalQuantity && r.record.totalPrice == b.totalPrice &&
      (r.record.deliveryType == DineIn <==> b.deliveryType.value == DineIn) &&
      (r.record.deliveryType != DineIn ==> r.record.deliveryType == Takeaway) &&
      r.record.date == PartsOf(b.date.value, b.time.value) &&
      r.record.items == StoreItems(ItemsOf(b.items).value)
  {
    var items := ItemsOf(b.items);
    if b.date.None? || b.time.None? || b.deliveryType.None? || items.None? || fault then ServerError
    else if !ValidDate(PartsOf(b.date.value, b.time.value)) then ServerError
    else
      DeliveryNormalised(b.deliveryType.value);
      Stored(Record(b.id, PartsOf(b.date.value, b.time.value), b.time.value,
        b.totalQuantity, b.totalPrice, NormalDelivery(b.deliveryType.value),
        Completed, StoreItems(items.value)))
  }

  lemma SplitAt(a: string, rest: string, sep: char)
    requires sep !in a
    ensures Split(a + [sep] + rest, sep) == [a] + Split(rest, sep)
  {
    var s := a + [sep] + rest;
    assert s[|a|] == sep;
    var i := FirstIndex(s, sep);
    assert i == |a|;
    assert s[..i] == a && s[i + 1..] == rest;
  }

  /** Three fields without the separator split back into those three fields. */
  lemma SplitThree(x: string, y: string, z: string, sep: char)
    requires sep !in x && sep !in y && sep !in z
    ensures Split(x + [sep] + y + [sep] + z, sep) == [x, y, z]
  {
    var tail := y + [sep] + z;
    assert x + [sep] + y + [sep] + z == x + [sep] + tail;
    SplitAt(x, tail, sep);
    SplitAt(y, z, sep);
    SplitNone(z, sep);
    assert Split(tail, sep) == [y, z];
  }

  /**
   * A date 'Y-M-D' and a time 'H:M:S' give `new Date` the six fields in
   * order, the month made zero-based.
   */
  lemma DateSplit(y: string, m: string, d: string, hh: string, mm: string, ss: string)
    requires '-' !in y && '-' !in m && '-' !in d
    requires ':' !in hh && ':' !in mm && ':' !in ss
    ensures PartsOf(y + "-" + m + "-" + d, hh + ":" + mm + ":" + ss) ==
      DateParts(StringToNumber(y), MinusOne(StringToNumber(m)), StringToNumber(d),
                StringToNumber(hh), StringToNumber(mm), StringToNumber(ss))
  {
    SplitThree(y, m, d, '-');
    SplitThree(hh, mm, ss, ':');
  }

  /** A text without the separator splits into itself alone. */
  lemma SplitNone(a: string, sep: char)
    requires sep !in a
    ensures Split(a, sep) == [a]
  {
  }

  /** A date with no day part ('2024-01') gives no day, so nothing is stored. */
  lemma DayMissingRefused(b: Body, y: string, m: string, fault: bool)
    requires '-' !in y && '-' !in m
    requires b.date == Some(y + "-" + m) && b.time.Some?
    ensures Post(b, fault).ServerError?
  {
    SplitAt(y, m, '-');
    SplitNone(m, '-');
    assert PartsOf(b.date.value, b.time.value).day == NaN;
  }

  // ---------------------------------------------------------------------
  // GET

  /** Milliseconds from local midnight to 23:59:59.999. */
  const LastMillisecond: int := 23 * 3600000 + 59 * 60000 + 59 * 1000 + 999

  /**
   * The query the handler builds: an optional window `[from, before)` on
   * the order date, newest first, and an optional `take`.
   */
  datatype Query = Query(window: Option<(int, int)>, take: Option<real>)

  /** `Number(searchParams.get('limit')) || undefined`. */
  function TakeOf(limitParam: Option<string>): (t: Option<real>)
    ensures t.Some? ==> t.value != 0.0
  {
    var x := ToNumber(if limitParam.Some? then Str(limitParam.value) else Null);
    if NumberTruthy(x) then Some(x.value) else None
  }

  /** An absent, empty or zero limit means no limit. */
  lemma TakeDefaults()
    ensures TakeOf(None).None? && TakeOf(Some("")).None? && TakeOf(Some("0")).None?
  {
    assert Trim("") == "";
    ZeroText();
  }

  lemma ZeroText()
    ensures StringToNumber("0") == Finite(0.0)
  {
    assert LeadingSpaces("0") == 0 && TrailingSpaces("0") == 0;
    assert "0"[0..] == "0" && "0"[..1] == "0";
    assert Trim("0") == "0";
    assert DigitRun("0") == 1 by { assert "0"[1..] == ""; }
    var z := ScanNumeral("0");
    assert z.whole == "0" && z.fraction == "" && z.sign == "";
    assert DigitsValue("0") == 0 by { assert "0"[..0] == ""; }
  }

  /**
   * The query for a date and a limit parameter. `midnight` is the local
   * midnight of `new Date(dateParam)` in milliseconds, `None` when the text
   * is not a date; a non-empty date parameter windows the query on that day
   * up to, but not including, 23:59:59.999.
   */
  function QueryOf(dateParam: Option<string>, limitParam: Option<string>, midnight: Option<int>): (q: Query)
    ensures q.take == TakeOf(limitParam)
    ensures q.window.Some? <==> dateParam.Some? && dateParam.value != "" && midnight.Some?
    ensures q.window.Some? ==> q.window.value == (midnight.value, midnight.value + LastMillisecond)
  {
    var w := if dateParam.Some? && dateParam.value != "" && midnight.Some? then
      Some((midnight.value, midnight.value + LastMillisecond)) else None;
    Query(w, TakeOf(limitParam))
  }

  /** A stored order with its date in milliseconds. */
  datatype HistoryRow = HistoryRow(at: int, order: HistoryOrder)

  function At(r: HistoryRow): int { r.at }

  function InWindow(rows: seq<HistoryRow>, w: (int, int)): (r: seq<HistoryRow>)
    ensures forall x :: x in r <==> x in rows && w.0 <= x.at < w.1
  {
    if rows == [] then []
    else (if w.0 <= rows[0].at < w.1 then [rows[0]] else []) + InWindow(rows[1..], w)
  }

  /** Prisma's `take` is an integer; a fractional value fails the query's validation. */
  predicate WholeTake(t: Option<real>)
  {
    t.None? || t.value == t.value.Floor as real
  }

  /** The rows the query's `where` keeps. */
  function Matched(rows: seq<HistoryRow>, q: Query): seq<HistoryRow>
  {
    if q.window.Some? then InWindow(rows, q.window.value) else rows
  }

  /** How many rows a `take` returns out of `n`: all without one, else at most its magnitude. */
  function Taken(t: Option<real>, n: nat): nat
  {
    if t.None? then n
    else
      var k := if t.value.Floor >= 0 then t.value.Floor else -t.value.Floor;
      if k <= n then k else n
  }

  /** `take` applied to rows already ordered newest first. */
  function TakeRows(sorted: seq<HistoryRow>, t: Option<real>): (r: seq<HistoryRow>)
    requires WholeTake(t) && SortedDesc(sorted, At)
    ensures SortedDesc(r, At)
    ensures |r| == Taken(t, |sorted|)
    ensures multiset(r) <= multiset(sorted)
    ensures t.None? ==> r == sorted
    ensures t.Some? && t.value >= 0.0 ==>
      forall x, i :: x in multiset(sorted) - multiset(r) && 0 <= i < |r| ==> x.at <= r[i].at
    ensures t.Some? && t.value < 0.0 ==>
      forall x, i :: x in multiset(sorted) - multiset(r) && 0 <= i < |r| ==> r[i].at <= x.at
  {
    var n := Taken(t, |sorted|);
    if t.None? then sorted
    else if t.value >= 0.0 then
      FrontIsNewest(sorted, n);
      sorted[..n]
    else
      BackIsOldest(sorted, |sorted| - n);
      sorted[|sorted| - n..]
  }

  lemma FrontIsNewest(s: seq<HistoryRow>, k: nat)
    requires k <= |s| && SortedDesc(s, At)
    ensures SortedDesc(s[..k], At) && multiset(s[..k]) <= multiset(s)
    ensures forall x, i :: x in multiset(s) - multiset(s[..k]) && 0 <= i < k ==> x.at <= s[..k][i].at
  {
    assert s == s[..k] + s[k..];
    SortedParts(s, At, k);
    assert multiset(s) - multiset(s[..k]) == multiset(s[k..]);
    Outranks(s, k);
  }

  lemma BackIsOldest(s: seq<HistoryRow>, k: nat)
    requires k <= |s| && SortedDesc(s, At)
    ensures SortedDesc(s[k..], At) && multiset(s[k..]) <= multiset(s)
    ensures forall x, i :: x in multiset(s) - multiset(s[k..]) && 0 <= i < |s| - k ==> s[k..][i].at <= x.at
  {
    assert s == s[..k] + s[k..];
    SortedParts(s, At, k);
    assert multiset(s) - multiset(s[k..]) == multiset(s[..k]);
    Outranks(s, k);
  }

  /** In rows sorted newest first, each row before position `k` is no older than each row from it on. */
  lemma Outranks(s: seq<HistoryRow>, k: nat)
    requires k <= |s| && SortedDesc(s, At)
    ensures forall x, i :: x in multiset(s[k..]) && 0 <= i < k ==> x.at <= s[..k][i].at
    ensures forall x, i :: x in multiset(s[..k]) && 0 <= i < |s| - k ==> s[k..][i].at <= x.at
  {
    forall x, i | x in multiset(s[k..]) && 0 <= i < k
      ensures x.at <= s[..k][i].at
    {
      var j :| 0 <= j < |s| - k && s[k..][j] == x;
      assert At(s[i]) >= At(s[k + j]);
    }
    forall x, i | x in multiset(s[..k]) && 0 <= i < |s| - k
      ensures s[k..][i].at <= x.at
    {
      var j :| 0 <= j < k && s[..k][j] == x;
      assert At(s[j]) >= At(s[k + i]);
    }
  }

  /**
   * The store's evaluation of the query: the rows in the window, newest
   * first; a positive `take` keeps that many from the front, a negative one
   * that many from the back, still newest first.
   */
  function Evaluate(rows: seq<HistoryRow>, q: Query): (r: seq<HistoryRow>)
    requires WholeTake(q.take)
    ensures SortedDesc(r, At)
    ensures |r| == Taken(q.take, |Matched(rows, q)|)
    ensures multiset(r) <= multiset(Matched(rows, q))
    ensures forall x :: x in r ==> x in rows && (q.window.Some? ==> q.window.value.0 <= x.at < q.window.value.1)
    // A positive take keeps the newest rows, a negative one the oldest.
    ensures q.take.Some? && q.take.value >= 0.0 ==>
      forall x, i :: x in multiset(Matched(rows, q)) - multiset(r) && 0 <= i < |r| ==> x.at <= r[i].at
    ensures q.take.Some? && q.take.value < 0.0 ==>
      forall x, i :: x in multiset(Matched(rows, q)) - multiset(r) && 0 <= i < |r| ==> r[i].at <= x.at
  {
    var matched := Matched(rows, q);
    var r := TakeRows(SortDesc(matched, At), q.take);
    EvaluateMembers(matched, r);
    r
  }

  /** A row taken from the window is a row of the window. */
  lemma EvaluateMembers(matched: seq<HistoryRow>, r: seq<HistoryRow>)
    requires multiset(r) <= multiset(matched)
    ensures forall x :: x in r ==> x in matched
  {
    forall x | x in r ensures x in matched
    {
      assert x in multiset(r);
    }
  }

  /**
   * The last millisecond of the requested day falls outside the window,
   * every earlier moment of that day inside it.
   */
  lemma WindowEndsEarly(midnight: int, t: int)
    ensures var q := QueryOf(Some("d"), None, Some(midnight));
      q.window.Some? &&
      (q.window.value.0 <= t < q.window.value.1 <==> midnight <= t < midnight + 86399999)
  {
  }

  /** The answer: what the store returns for the query, or 500 with an empty list. */
  datatype Listing = Listed(query: Query) | ListError

  /**
   * The handler: the query handed to the store, or 500 when the store
   * throws. A date parameter that is not a date makes both bounds invalid
   * dates, and a fractional limit is no integer `take`; the store refuses
   * both, so they end in 500 as well.
   */
  function Get(dateParam: Option<string>, limitParam: Option<string>, midnight: Option<int>, fault: bool): (r: Listing)
    ensures r.ListError? <==>
      fault || (dateParam.Some? && dateParam.value != "" && midnight.None?) || !WholeTake(TakeOf(limitParam))
    ensures r.Listed? ==> (r.query.take == TakeOf(limitParam) && WholeTake(r.query.take) &&
      (r.query.window.Some? <==> dateParam.Some? && dateParam.value != ""))
  {
    if fault || (dateParam.Some? && dateParam.value != "" && midnight.None?) || !WholeTake(TakeOf(limitParam))
    then ListError
    else Listed(QueryOf(dateParam, limitParam, midnight))
  }
}
