/**
 * `POST /api/orders`: the second, insert-only writer of the staging table.
 */
module OrdersRoute {
  import opened Common
  import opened Js
  import opened Entities
  import opened Staging

  /** The request body; `time` is absent or a string. */
  datatype Body = Body(
    id: Option<string>,
    date: Option<string>,
    time: Option<string>,
    totalQuantity: Val,
    totalPrice: Val,
    deliveryType: string,
    status: string,
    items: seq<OrderItem>)

  /** The HTTP answer: 201 with the created row, 400 or 500. */
  datatype Response = Created(row: Row) | BadRequest | ServerError

  /** `orderData.time` is truthy. */
  predicate HasTime(b: Body)
  {
    b.time.Some? && b.time.value != ""
  }

  /**
   * The row the handler asks the store to create. The schema's `id` and `date`
   * are required columns, so a body without them cannot become a row.
   */
  function NewRow(b: Body): (r: Option<Row>)
    requires HasTime(b)
    ensures r.Some? <==> b.id.Some? && b.date.Some?
    ensures r.Some? ==>
      r.value.id == b.id.value && r.value.time == b.time.value &&
      r.value.totalQuantity == ToNumber(b.totalQuantity) &&
      r.value.totalPrice == ToNumber(b.totalPrice) &&
      r.value.items == b.items
  {
    if b.id.Some? && b.date.Some? then
      Some(Row(b.id.value, b.date.value, b.time.value,
               ToNumber(b.totalQuantity), ToNumber(b.totalPrice),
               b.deliveryType, b.status, b.items))
    else None
  }

  /**
   * The answer for `b` against the table `rows`; `fault` says whether the
   * store throws for another reason.
   */
  function Answer(rows: map<string, Row>, b: Body, fault: bool): (r: Response)
    ensures r.BadRequest? <==> !HasTime(b)
    ensures r.Created? <==>
      HasTime(b) && b.id.Some? && b.date.Some? && !fault && b.id.value !in rows
    ensures r.Created? ==> r.row.id == b.id.value && r.row.time == b.time.value
  {
    if !HasTime(b) then BadRequest
    else
      var row := NewRow(b);
      if row.None? || fault || row.value.id in rows then ServerError
      else Created(row.value)
  }

  /**
   * The table after the handler: only a 201 adds a row, and no existing row
   * is ever replaced.
   */
  function After(rows: map<string, Row>, b: Body, fault: bool): (r: map<string, Row>)
    ensures forall k :: k in rows ==> k in r && r[k] == rows[k]
    ensures !Answer(rows, b, fault).Created? ==> r == rows
    ensures Answer(rows, b, fault).Created? ==>
      r.Keys == rows.Keys + {b.id.value} && r[b.id.value] == Answer(rows, b, fault).row
    ensures Keyed(rows) ==> Keyed(r)
  {
    var a := Answer(rows, b, fault);
    if a.Created? then rows[a.row.id := a.row] else rows
  }

  method Post(table: TempOrderTable, b: Body, fault: bool) returns (r: Response)
    requires table.Valid()
    modifies table
    ensures table.Valid()
    ensures r == Answer(old(table.rows), b, fault)
    ensures table.rows == After(old(table.rows), b, fault)
  {
    if b.time.None? || b.time.value == "" {
      return BadRequest;
    }
    var row := NewRow(b);
    if row.None? {
      return ServerError;
    }
    var ok := table.Create(row.value, fault);
    r := if ok then Created(row.value) else ServerError;
  }
}
