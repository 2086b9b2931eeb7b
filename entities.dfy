/**
 * Records shared by several parts of the dashboard: the items of a kiosk
 * order and the menu snapshot that is published to the kiosks.
 */
module Entities {
  import opened Common

  /** One selected option of an ordered item (`{ name, value }`). */
  datatype ItemOption = ItemOption(name: string, value: string)

  /** One line of a kiosk order. */
  datatype OrderItem = OrderItem(
    id: string,
    menuName: string,
    category: string,
    quantity: int,
    price: real,
    options: seq<ItemOption>)

  /** A menu category row; only its identity matters here. */
  datatype Category = Category(id: int, name: string)

  /** A menu item row as loaded together with its category relation. */
  datatype MenuItem = MenuItem(
    id: int,
    nameTH: string,
    nameEN: string,
    price: real,
    menuCategoryId: Option<int>,
    menuCategory: Option<Category>)

  /** A confirmed order as stored in the order history, with its items. */
  datatype HistoryOrder = HistoryOrder(
    status: string,
    deliveryType: string,
    totalPrice: real,
    items: seq<OrderItem>)

  /** The status of a completed order. */
  const Completed := "เสร็จสิ้น"

  /** The two delivery types: eat in, and take away. */
  const DineIn := "ทานที่ร้าน"
  const Takeaway := "สั่งกลับบ้าน"
}
