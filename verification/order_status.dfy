/** The order status codes and the two moves the client side can make: the
    administrator marks a Pending order Ready (src/pages/admin/manage-order.tsx)
    and the customer confirms receipt of a Ready one
    (src/pages/account/orders.tsx). */
module OrderStatus {
  import opened Models
  import Seqs

  const CANCELED: int := 0
  const PENDING: int := 1
  const READY: int := 2
  const RECEIVED: int := 3

  function HasOrderId(id: int): Order -> bool
  {
    (o: Order) => o.orderId == id
  }

  function WithStatus(status: int): Order -> Order
  {
    (o: Order) => o.(status := status)
  }

  /** `orders.map(o => o.order_id === id ? { ...o, status } : o)`. */
  function SetStatus(orders: seq<Order>, id: int, status: int): (r: seq<Order>)
    ensures |r| == |orders|
    ensures forall i :: 0 <= i < |orders| ==> r[i].orderId == orders[i].orderId
    ensures forall i :: 0 <= i < |orders| && orders[i].orderId == id ==> r[i] == orders[i].(status := status)
    ensures forall i :: 0 <= i < |orders| && orders[i].orderId != id ==> r[i] == orders[i]
  {
    Seqs.MapWhere(orders, HasOrderId(id), WithStatus(status))
  }

  /** Setting a status twice is setting it once, and an id that is not in the
      list changes nothing. */
  lemma SetStatusIdempotent(orders: seq<Order>, id: int, status: int)
    ensures SetStatus(SetStatus(orders, id, status), id, status) == SetStatus(orders, id, status)
    ensures (forall i :: 0 <= i < |orders| ==> orders[i].orderId != id) ==> SetStatus(orders, id, status) == orders
  {
  }

  /** The two buttons the client offers. */
  datatype ClientAction = MarkReady | ConfirmReceipt

  /** "Ready to Delivery" shows only on a Pending order, "Confirm receipt of
      items" only on a Ready one. */
  predicate Offered(status: int, a: ClientAction) {
    match a
    case MarkReady => status == PENDING
    case ConfirmReceipt => status == READY
  }

  /** The status an action writes. */
  function Target(a: ClientAction): int
  {
    match a
    case MarkReady => READY
    case ConfirmReceipt => RECEIVED
  }

  /** One click on an order's status: an offered action moves it one step
      forward; there is no button otherwise, so nothing happens. */
  function Click(status: int, a: ClientAction): (s: int)
    ensures Offered(status, a) ==> s == status + 1
    ensures !Offered(status, a) ==> s == status
  {
    if Offered(status, a) then Target(a) else status
  }

  /** The client can only move an order forward along Pending, Ready,
      Received; Canceled and Received offer nothing. */
  lemma ClientTransitions(status: int, a: ClientAction)
    ensures Click(status, a) != status ==> (status == PENDING && Click(status, a) == READY) || (status == READY && Click(status, a) == RECEIVED)
    ensures status == CANCELED || status == RECEIVED ==> Click(status, a) == status
  {
  }

  /** The status after a run of clicks. */
  function ClickAll(status: int, actions: seq<ClientAction>): int
    decreases |actions|
  {
    if |actions| == 0 then status else ClickAll(Click(status, actions[0]), actions[1..])
  }

  /** Whatever the customer and the administrator click, a known status
      never goes backwards and never leaves 0..3, and a Canceled order stays
      Canceled. */
  lemma {:induction false} ClickAllMonotone(status: int, actions: seq<ClientAction>)
    requires CANCELED <= status <= RECEIVED
    ensures status <= ClickAll(status, actions) <= RECEIVED
    ensures status == CANCELED ==> ClickAll(status, actions) == CANCELED
    decreases |actions|
  {
    if |actions| > 0 {
      ClickAllMonotone(Click(status, actions[0]), actions[1..]);
    }
  }

  /** A Pending order reaches Received by exactly the two clicks in order. */
  lemma PendingToReceived()
    ensures ClickAll(PENDING, [MarkReady, ConfirmReceipt]) == RECEIVED
    ensures ClickAll(PENDING, [ConfirmReceipt, MarkReady]) == READY
  {
    assert [MarkReady, ConfirmReceipt][1..] == [ConfirmReceipt];
    assert [ConfirmReceipt, MarkReady][1..] == [MarkReady];
  }
}
