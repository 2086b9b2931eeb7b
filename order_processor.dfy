/**
 * `processOrder`: validates an order event received from a kiosk and upserts
 * it into the staging table under the order's external id.
 */
module OrderProcessor {
  import opened Common
  import opened Js
  import opened Entities
  import opened Staging

  /**
   * The parsed order message. `id`, `date` and `time` are absent (`None`) when
   * the message leaves them out; the totals are whatever JSON value arrived,
   * because nothing checks that they are numbers.
   */
  datatype OrderEvent = OrderEvent(
    id: Option<string>,
    date: Option<string>,
    time: Option<string>,
    totalQuantity: Val,
    totalPrice: Val,
    deliveryType: string,
    status: string,
    items: seq<OrderItem>)

  /** A present, non-empty string: the truthy strings of JavaScript. */
  predicate Filled(o: Option<string>)
  {
    o.Some? && o.value != ""
  }

  /** The check `!orderData.id || !orderData.date` fails. */
  predicate Acceptable(e: OrderEvent)
  {
    Filled(e.id) && Filled(e.date)
  }

  /** `orderData.time || formatTime()`, the clock reading being `clock`. */
  function TimeOf(e: OrderEvent, clock: string): string
  {
    if Filled(e.time) then e.time.value else clock
  }

  /** The row written for an accepted event (by update and by create alike). */
  function StagedRow(e: OrderEvent, clock: string): (r: Row)
    requires Acceptable(e)
  {
    Row(e.id.value, e.date.value, TimeOf(e, clock),
        ToNumber(e.totalQuantity), ToNumber(e.totalPrice),
        e.deliveryType, e.status, e.items)
  }

  /** How one call of `processOrder` ends. */
  datatype Outcome = Invalid | StoreError | Updated(row: Row) | Created(row: Row)
  {
    predicate Staged() { Updated? || Created? }
  }

  /**
   * The outcome of processing `e` against the table `rows`, where `fault`
   * says whether a store call throws.
   */
  function Process(rows: map<string, Row>, e: OrderEvent, clock: string, fault: bool): (r: Outcome)
    ensures r.Invalid? <==> !Acceptable(e)
    ensures r.StoreError? <==> Acceptable(e) && fault
    ensures r.Updated? <==> Acceptable(e) && !fault && e.id.value in rows
    ensures r.Created? <==> Acceptable(e) && !fault && e.id.value !in rows
    ensures r.Staged() ==>
      r.row.id == e.id.value && r.row.date == e.date.value &&
      (Filled(e.time) ==> r.row.time == e.time.value) &&
      (!Filled(e.time) ==> r.row.time == clock) &&
      r.row.totalQuantity == ToNumber(e.totalQuantity) &&
      r.row.totalPrice == ToNumber(e.totalPrice) &&
      r.row.items == e.items
  {
    if !Acceptable(e) then Invalid
    else if fault then StoreError
    else if e.id.value in rows then Updated(StagedRow(e, clock))
    else Created(StagedRow(e, clock))
  }

  /**
   * The table after a successful call: the event's row is under its id and
   * every other row is as it was.
   */
  function Apply(rows: map<string, Row>, e: OrderEvent, clock: string): (r: map<string, Row>)
    ensures !Acceptable(e) ==> r == rows
    ensures Acceptable(e) ==> e.id.value in r && r[e.id.value] == StagedRow(e, clock)
    ensures forall k :: k in rows ==> k in r
    ensures forall k :: k in r && (!Acceptable(e) || k != e.id.value) ==> k in rows && r[k] == rows[k]
    ensures Keyed(rows) ==> Keyed(r)
  {
    if Acceptable(e) then rows[e.id.value := StagedRow(e, clock)] else rows
  }

  /** `processOrder` against the staging table. */
  method ProcessOrder(table: TempOrderTable, e: OrderEvent, clock: string, findFault: bool, writeFault: bool)
    returns (out: Outcome)
    requires table.Valid()
    modifies table
    ensures table.Valid()
    ensures out == Process(old(table.rows), e, clock, findFault || writeFault)
    ensures table.rows == if out.Staged() then Apply(old(table.rows), e, clock) else old(table.rows)
  {
    if !Filled(e.id) || !Filled(e.date) {
      return Invalid;
    }
    var row := StagedRow(e, clock);
    var existing := table.FindUnique(row.id, findFault);
    if existing.Failed? {
      return StoreError;
    }
    var ok;
    if existing.Found? {
      ok := table.Update(row, writeFault);
      out := if ok then Updated(row) else StoreError;
    } else {
      ok := table.Create(row, writeFault);
      out := if ok then Created(row) else StoreError;
    }
  }

  /** Processing the same event a second time, at the same clock reading, changes nothing. */
  lemma ApplyIdempotent(rows: map<string, Row>, e: OrderEvent, clock: string)
    ensures Apply(Apply(rows, e, clock), e, clock) == Apply(rows, e, clock)
  {
  }

  /** A message delivered to `processOrder`, with the clock reading at that moment. */
  datatype Delivery = Delivery(event: OrderEvent, clock: string)

  /** The table after every delivery in `ds` was processed successfully, in order. */
  function Replay(rows: map<string, Row>, ds: seq<Delivery>): map<string, Row>
  {
    if ds == [] then rows
    else
      var d := ds[|ds| - 1];
      Apply(Replay(rows, ds[..|ds| - 1]), d.event, d.clock)
  }

  /** The row staged by the last accepted delivery whose id is `k`, if any. */
  function LastStaged(ds: seq<Delivery>, k: string): Option<Row>
  {
    if ds == [] then None
    else
      var d := ds[|ds| - 1];
      if Acceptable(d.event) && d.event.id.value == k then Some(StagedRow(d.event, d.clock))
      else LastStaged(ds[..|ds| - 1], k)
  }

  /**
   * After a replay, the row under `k` comes from the latest accepted delivery
   * with that id, and a key no accepted delivery names is untouched.
   */
  lemma {:induction false} ReplayLastWins(rows: map<string, Row>, ds: seq<Delivery>, k: string)
    ensures LastStaged(ds, k).Some? ==> k in Replay(rows, ds) && Replay(rows, ds)[k] == LastStaged(ds, k).value
    ensures LastStaged(ds, k).None? ==>
      (k in Replay(rows, ds) <==> k in rows) &&
      (k in rows ==> Replay(rows, ds)[k] == rows[k])
  {
    if ds != [] {
      ReplayLastWins(rows, ds[..|ds| - 1], k);
    }
  }

  /** Replaying the same deliveries again leaves the table as the first replay left it. */
  lemma ReplayTwice(rows: map<string, Row>, ds: seq<Delivery>)
    ensures Replay(Replay(rows, ds), ds) == Replay(rows, ds)
  {
    var once := Replay(rows, ds);
    var twice := Replay(once, ds);
    forall k
      ensures (k in twice <==> k in once) && (k in once ==> twice[k] == once[k])
    {
      ReplayLastWins(rows, ds, k);
      ReplayLastWins(once, ds, k);
    }
    assert twice.Keys == once.Keys;
  }

  /** A replay keeps every row under its own key. */
  lemma {:induction false} ReplayKeyed(rows: map<string, Row>, ds: seq<Delivery>)
    requires Keyed(rows)
    ensures Keyed(Replay(rows, ds))
  {
    if ds != [] {
      ReplayKeyed(rows, ds[..|ds| - 1]);
    }
  }
}
