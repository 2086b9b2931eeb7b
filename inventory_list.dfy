/**
 * The inventory page's stock rules: the status label of one item, computed
 * from `quantity / reorderPoint`, and the low-stock notifications.
 *
 * The division is IEEE division: a zero reorder point gives an infinity or
 * NaN, and every comparison with NaN is false. Rounding of finite quotients
 * is not modelled; they are exact.
 */
module InventoryList {

  datatype InventoryItem = InventoryItem(id: int, name: string, quantity: real, unit: string, reorderPoint: real)

  /** A quotient as floating point division produces it. */
  datatype Quotient = Finite(value: real) | PosInf | NegInf | NaN

  /** `quantity / reorderPoint`. */
  function Divide(q: real, r: real): (d: Quotient)
    ensures r != 0.0 ==> d == Finite(q / r)
    ensures r == 0.0 ==> (d.NaN? <==> q == 0.0) && (d.PosInf? <==> q > 0.0) && (d.NegInf? <==> q < 0.0)
  {
    if r != 0.0 then Finite(q / r)
    else if q > 0.0 then PosInf
    else if q < 0.0 then NegInf
    else NaN
  }

  /** `d <= bound` under IEEE comparison. */
  predicate AtMost(d: Quotient, bound: real)
  {
    match d
    case Finite(v) => v <= bound
    case NegInf => true
    case _ => false
  }

  /** The three statuses, each with its label. */
  datatype Status = Critical | Reorder | Normal
  {
    function Label(): string
    {
      match this
      case Critical => "วัตถุดิบใกล้หมด"
      case Reorder => "ควรสั่งซื้อเพิ่ม"
      case Normal => "ปกติ"
    }
  }

  /** `getStatus`: at most half the reorder point is critical, at most the reorder point is reorder. */
  function GetStatus(item: InventoryItem): (s: Status)
    ensures s.Critical? <==> AtMost(Divide(item.quantity, item.reorderPoint), 0.5)
    ensures s.Reorder? <==>
      !AtMost(Divide(item.quantity, item.reorderPoint), 0.5) && AtMost(Divide(item.quantity, item.reorderPoint), 1.0)
  {
    var ratio := Divide(item.quantity, item.reorderPoint);
    if AtMost(ratio, 0.5) then Critical
    else if AtMost(ratio, 1.0) then Reorder
    else Normal
  }

  /** With a positive reorder point the status compares the quantity with half and all of it. */
  lemma StatusWithPositiveReorderPoint(item: InventoryItem)
    requires item.reorderPoint > 0.0
    ensures GetStatus(item).Critical? <==> 2.0 * item.quantity <= item.reorderPoint
    ensures GetStatus(item).Reorder? <==> item.reorderPoint < 2.0 * item.quantity <= 2.0 * item.reorderPoint
    ensures GetStatus(item).Normal? <==> item.quantity > item.reorderPoint
  {
    RatioAtMost(item.quantity, item.reorderPoint, 0.5);
    RatioAtMost(item.quantity, item.reorderPoint, 1.0);
  }

  /** Dividing by a positive number keeps the order: `q / r <= c` exactly when `q <= c * r`. */
  lemma RatioAtMost(q: real, r: real, c: real)
    requires r > 0.0
    ensures q / r <= c <==> q <= c * r
  {
    var d := q / r;
    assert d * r == q;
    if d <= c {
      assert (c - d) * r >= 0.0;
    } else {
      assert (d - c) * r > 0.0;
    }
  }

  /** `item.quantity <= item.reorderPoint`. */
  predicate Low(item: InventoryItem)
  {
    item.quantity <= item.reorderPoint
  }

  /** `getLowStockItems`. */
  function GetLowStockItems(inventory: seq<InventoryItem>): (r: seq<InventoryItem>)
    ensures |r| <= |inventory|
    ensures forall x :: x in r <==> x in inventory && Low(x)
  {
    if |inventory| == 0 then []
    else (if Low(inventory[0]) then [inventory[0]] else []) + GetLowStockItems(inventory[1..])
  }

  /** The notifications keep the inventory's order: filtering a concatenation concatenates the filtered parts. */
  lemma {:induction false} LowStockAppend(a: seq<InventoryItem>, b: seq<InventoryItem>)
    ensures GetLowStockItems(a + b) == GetLowStockItems(a) + GetLowStockItems(b)
  {
    if |a| == 0 {
      assert a + b == b;
    } else {
      assert (a + b)[1..] == a[1..] + b;
      LowStockAppend(a[1..], b);
    }
  }

  /** With a positive reorder point an item is in the notifications exactly when its status is not normal. */
  lemma LowIffNotNormal(item: InventoryItem)
    requires item.reorderPoint > 0.0
    ensures Low(item) <==> !GetStatus(item).Normal?
  {
    StatusWithPositiveReorderPoint(item);
  }

  /**
   * Without a positive reorder point the two rules part: an empty item with
   * reorder point 0 is listed as low but shown as normal (0/0 is NaN), and
   * so is an item with quantity -4 and reorder point -2 (the ratio is 2).
   */
  lemma NonPositiveReorderPointDisagrees()
    ensures var item := InventoryItem(1, "", 0.0, "", 0.0); Low(item) && GetStatus(item).Normal?
    ensures var item := InventoryItem(1, "", -4.0, "", -2.0); Low(item) && GetStatus(item).Normal?
  {
  }
}
