/**
 * The `tempOrder` staging table that kiosk orders are written to before they
 * are confirmed. Prisma's store is reduced to a map from primary key to row;
 * a store fault (a lost connection, a constraint the schema enforces) is an
 * input of each store operation.
 */
module Staging {
  import opened Common
  import opened Js
  import opened Entities

  /**
   * A staging row. `items` is the item list that the row's JSON text
   * (`JSON.stringify(items)`) encodes; the text itself is not modelled.
   */
  datatype Row = Row(
    id: string,
    date: string,
    time: string,
    totalQuantity: Number,
    totalPrice: Number,
    deliveryType: string,
    status: string,
    items: seq<OrderItem>)

  /** Every row is stored under its own primary key. */
  predicate Keyed(rows: map<string, Row>)
  {
    forall k :: k in rows ==> rows[k].id == k
  }

  /** The answer of a keyed lookup. */
  datatype Lookup = Found(row: Row) | Absent | Failed

  class TempOrderTable {
    var rows: map<string, Row>

    ghost predicate Valid()
      reads this
    {
      Keyed(rows)
    }

    constructor ()
      ensures Valid() && rows == map[]
    {
      rows := map[];
    }

    /** `findUnique({ where: { id } })`. */
    method FindUnique(id: string, fault: bool) returns (r: Lookup)
      requires Valid()
      ensures r.Failed? <==> fault
      ensures r.Found? <==> !fault && id in rows
      ensures r.Found? ==> r.row == rows[id] && r.row.id == id
    {
      if fault {
        r := Failed;
      } else if id in rows {
        r := Found(rows[id]);
      } else {
        r := Absent;
      }
    }

    /** `update({ where: { id }, data })`: throws when no row has the key. */
    method Update(data: Row, fault: bool) returns (ok: bool)
      requires Valid()
      modifies this
      ensures Valid()
      ensures ok == (!fault && data.id in old(rows))
      ensures rows == if ok then old(rows)[data.id := data] else old(rows)
    {
      ok := !fault && data.id in rows;
      if ok {
        rows := rows[data.id := data];
      }
    }

    /** `create({ data })`: throws when the key is already taken. */
    method Create(data: Row, fault: bool) returns (ok: bool)
      requires Valid()
      modifies this
      ensures Valid()
      ensures ok == (!fault && data.id !in old(rows))
      ensures rows == if ok then old(rows)[data.id := data] else old(rows)
    {
      ok := !fault && data.id !in rows;
      if ok {
        rows := rows[data.id := data];
      }
    }
  }
}
