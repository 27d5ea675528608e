/** The customer's order history (src/pages/account/orders.tsx): the status
    tabs, the status captions and "Confirm receipt of items". */
module AccountOrders {
  import opened Models
  import opened Text
  import Seqs
  import OrderStatus
  import Global

  /** The page's caption table, keyed by the status rendered in decimal. */
  function CustomerStatusLabel(status: int): (caption: Option<string>)
    ensures caption.Some? <==> OrderStatus.CANCELED <= status <= OrderStatus.RECEIVED
    ensures status == OrderStatus.READY ==> caption == Some("Ready for Delivery")
  {
    var key := IntToString(status);
    KeyOfStatus(status, 0);
    KeyOfStatus(status, 1);
    KeyOfStatus(status, 2);
    KeyOfStatus(status, 3);
    if key == "0" then Some("Canceled")
    else if key == "1" then Some("Pending")
    else if key == "2" then Some("Ready for Delivery")
    else if key == "3" then Some("Received")
    else None
  }

  /** A status renders as the one-digit key `d` exactly when it is `d`. */
  lemma KeyOfStatus(status: int, d: int)
    requires 0 <= d < 10
    ensures IntToString(status) == [DigitChar(d)] <==> status == d
  {
    SmallIntToString(d);
    if IntToString(status) == [DigitChar(d)] {
      IntToStringInjective(status, d);
    }
  }

  /** The tab test: the status rendered in decimal equals the tab key. */
  function InTab(tab: string): Order -> bool
  {
    (o: Order) => IntToString(o.status) == tab
  }

  function HasStatus(status: int): Order -> bool
  {
    (o: Order) => o.status == status
  }

  /** `filteredOrders`: every order on "all", otherwise the orders whose
      status string is the tab key, in their order. */
  function TabFilter(orders: seq<Order>, tab: string): (r: seq<Order>)
    ensures tab == "all" ==> r == orders
    ensures tab != "all" ==> forall i :: 0 <= i < |r| ==> IntToString(r[i].status) == tab
    ensures tab != "all" ==> forall i :: 0 <= i < |orders| && IntToString(orders[i].status) == tab ==> orders[i] in r
  {
    if tab == "all" then orders else Seqs.Filter(orders, InTab(tab))
  }

  /** The tab keyed by a status shows exactly the orders with that status. */
  lemma TabOfStatus(orders: seq<Order>, status: int)
    requires IntToString(status) != "all"
    ensures TabFilter(orders, IntToString(status)) == Seqs.Filter(orders, HasStatus(status))
  {
    forall i | 0 <= i < |orders|
      ensures InTab(IntToString(status))(orders[i]) == HasStatus(status)(orders[i])
    {
      if InTab(IntToString(status))(orders[i]) {
        IntToStringInjective(orders[i].status, status);
      }
    }
    Seqs.FilterCongruent(orders, InTab(IntToString(status)), HasStatus(status));
  }

  /** The four status tabs split the orders: when every status is a known
      one, each order shows on exactly one of them. */
  lemma {:induction false} TabsPartition(orders: seq<Order>)
    requires forall i :: 0 <= i < |orders| ==> OrderStatus.CANCELED <= orders[i].status <= OrderStatus.RECEIVED
    ensures |TabFilter(orders, "0")| + |TabFilter(orders, "1")| + |TabFilter(orders, "2")| + |TabFilter(orders, "3")| == |orders|
    decreases |orders|
  {
    if |orders| > 0 {
      TabsPartition(orders[1..]);
      var o := orders[0];
      KeyOfStatus(o.status, 0);
      KeyOfStatus(o.status, 1);
      KeyOfStatus(o.status, 2);
      KeyOfStatus(o.status, 3);
      TabStep(orders, "0");
      TabStep(orders, "1");
      TabStep(orders, "2");
      TabStep(orders, "3");
    }
  }

  /** A status tab of a non-empty list is the first order's share plus the
      tab of the rest. */
  lemma TabStep(orders: seq<Order>, tab: string)
    requires |orders| > 0 && tab != "all"
    ensures |TabFilter(orders, tab)| == (if InTab(tab)(orders[0]) then 1 else 0) + |TabFilter(orders[1..], tab)|
  {
  }

  /** handleConfirmReceipt after the server answered: the order becomes
      Received; the others stay as they were. */
  function ConfirmReceipt(orders: seq<Order>, id: int): (r: seq<Order>)
    ensures |r| == |orders|
    ensures forall i :: 0 <= i < |orders| ==>
      r[i] == if orders[i].orderId == id then orders[i].(status := OrderStatus.RECEIVED) else orders[i]
  {
    OrderStatus.SetStatus(orders, id, OrderStatus.RECEIVED)
  }

  /** handleConfirmReceipt around the updateReceiveStatus call: the order
      becomes Received when the call answered; when it threw, the list stays
      and toastError's text is shown. */
  function HandleConfirmReceipt(orders: seq<Order>, id: int, call: Global.Call<()>): (o: Global.Handled<seq<Order>>)
    ensures o.toast.Some? <==> call.Threw?
    ensures o.toast.Some? ==> o.state == orders
    ensures call.Threw? ==> o.toast == Some(Global.ToastError(call.error))
    ensures call.Answered? ==> o.state == ConfirmReceipt(orders, id)
    ensures |o.state| == |orders|
  {
    match call
    case Threw(e) => Global.Handled(orders, Some(Global.ToastError(e)))
    case Answered(_) => Global.Handled(ConfirmReceipt(orders, id), None)
  }

  /** A confirmed order leaves the "Ready" tab and shows on "Received". */
  lemma ConfirmMovesTab(orders: seq<Order>, k: int)
    requires 0 <= k < |orders|
    ensures var r := ConfirmReceipt(orders, orders[k].orderId);
      && r[k] in TabFilter(r, "3")
      && forall i :: 0 <= i < |TabFilter(r, "2")| ==> TabFilter(r, "2")[i].orderId != orders[k].orderId
  {
    var r := ConfirmReceipt(orders, orders[k].orderId);
    SmallIntToString(3);
    assert InTab("3")(r[k]);
    forall i | 0 <= i < |TabFilter(r, "2")|
      ensures TabFilter(r, "2")[i].orderId != orders[k].orderId
    {
      SmallIntToString(2);
      SmallIntToString(3);
    }
  }

  /** The line total shown for a placed order's line. */
  function LineTotal(line: OrderLine): (amount: int)
    ensures line.quantity >= 0 ==> amount >= 0
    ensures line.quantity > 0 ==> amount >= line.price
  {
    line.price * line.quantity
  }
}
