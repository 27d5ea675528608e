/** The records the storefront exchanges with its backend (the models directory) and
    the constants of utils/constants.ts. */
module Models {

  datatype Option<T> = None | Some(value: T)

  /** A value, or the message of the error that was thrown instead. */
  datatype Result<T> = Ok(value: T) | Err(message: string)

  const ROLE_ADMIN: int := 0
  const ROLE_USER: int := 1

  /** NotificationEnum: the audience a notification is addressed to. */
  const TO_ADMIN: string := "TO_ADMIN"
  const TO_USER: string := "TO_USER"

  /** BaseItemState. The record carries the price as a string of decimal
      digits; the model keeps the value of that string. */
  datatype Item = Item(
    itemId: int,
    itemName: string,
    price: nat,
    category: string,
    description: string,
    availability: int,
    imageUrl: string)

  /** OrderItem: one line of a placed order. */
  datatype OrderLine = OrderLine(
    itemId: int,
    itemName: string,
    quantity: int,
    price: nat,
    imageUrl: string)

  /** OrderDetail: what checkout sends per cart line. */
  datatype OrderDetail = OrderDetail(itemId: int, quantity: int)

  /** OrderInfo: an order header with its lines. Status codes are
      0 Canceled, 1 Pending, 2 Ready, 3 Received. */
  datatype Order = Order(
    orderId: int,
    orderDate: string,
    status: int,
    note: string,
    total: nat,
    userId: int,
    details: seq<OrderLine>)

  /** NotificationState. */
  datatype Notification = Notification(
    notiId: int,
    isNew: bool,
    title: string,
    notiType: string,
    describe: string,
    createdAt: string)

  /** UserState: the signed-in profile; `null` ids are None. */
  datatype UserState = UserState(
    userId: Option<int>,
    name: string,
    email: string,
    phone: string,
    address: string,
    avatarUrl: string,
    roleId: Option<int>)

  /** SliderMenuItem without its icon; `caption` is its label. */
  datatype MenuEntry = MenuEntry(key: string, caption: string, roles: seq<int>)
}
