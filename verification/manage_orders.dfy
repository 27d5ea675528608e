/** The order management page (src/pages/admin/manage-order.tsx): the
    order-id search, the status filter, the status labels and the
    "Ready to Delivery" update. */
module ManageOrders {
  import opened Models
  import opened Text
  import Seqs
  import OrderStatus
  import Global

  /** ORDER_STATUS_LABELS: the text shown for each known status. */
  function AdminStatusLabel(status: int): (caption: Option<string>)
    ensures caption.Some? <==> OrderStatus.CANCELED <= status <= OrderStatus.RECEIVED
  {
    if status == 0 then Some("Canceled")
    else if status == 1 then Some("Pending")
    else if status == 2 then Some("Ready")
    else if status == 3 then Some("Received")
    else None
  }

  /** Each known status has its own label. */
  lemma AdminStatusLabelsDistinct(s: int, t: int)
    requires AdminStatusLabel(s).Some? && AdminStatusLabel(s) == AdminStatusLabel(t)
    ensures s == t
  {
  }

  datatype OrdersPage = OrdersPage(
    original: seq<Order>,
    processing: seq<Order>,
    searchText: string,
    statusFilter: Option<string>)

  /** The search test: the decimal order id contains the text. */
  function IdMatches(searchText: string): Order -> bool
  {
    (o: Order) => Contains(IntToString(o.orderId), searchText)
  }

  /** The status test: the decimal status equals the filter value. */
  function StatusMatches(statusFilter: string): Order -> bool
  {
    (o: Order) => IntToString(o.status) == statusFilter
  }

  predicate FilterSet(statusFilter: Option<string>) {
    statusFilter.Some? && statusFilter.value != ""
  }

  function Passes(searchText: string, statusFilter: Option<string>): Order -> bool
  {
    (o: Order) =>
      && (searchText == "" || IdMatches(searchText)(o))
      && (!FilterSet(statusFilter) || StatusMatches(statusFilter.value)(o))
  }

  /** The effect on [searchText, statusFilter, originalData]. */
  function ApplyFilters(original: seq<Order>, searchText: string, statusFilter: Option<string>): (r: seq<Order>)
    ensures searchText == "" && !FilterSet(statusFilter) ==> r == original
    ensures forall i :: 0 <= i < |r| ==> Passes(searchText, statusFilter)(r[i])
    ensures forall i :: 0 <= i < |original| && Passes(searchText, statusFilter)(original[i]) ==> original[i] in r
    ensures r == Seqs.Filter(original, Passes(searchText, statusFilter))
  {
    var afterSearch := if searchText != "" then Seqs.Filter(original, IdMatches(searchText)) else original;
    var r := if FilterSet(statusFilter) then Seqs.Filter(afterSearch, StatusMatches(statusFilter.value)) else afterSearch;
    ApplyFiltersIsOneFilter(original, searchText, statusFilter, r);
    r
  }

  /** The two filters in a row are one filter by Passes. */
  lemma ApplyFiltersIsOneFilter(original: seq<Order>, searchText: string, statusFilter: Option<string>, r: seq<Order>)
    requires r == (var afterSearch := if searchText != "" then Seqs.Filter(original, IdMatches(searchText)) else original;
                   if FilterSet(statusFilter) then Seqs.Filter(afterSearch, StatusMatches(statusFilter.value)) else afterSearch)
    ensures r == Seqs.Filter(original, Passes(searchText, statusFilter))
  {
    var pass := Passes(searchText, statusFilter);
    if searchText != "" && FilterSet(statusFilter) {
      Seqs.FilterFilter(original, IdMatches(searchText), StatusMatches(statusFilter.value), pass);
    } else if searchText != "" {
      Seqs.FilterCongruent(original, IdMatches(searchText), pass);
    } else if FilterSet(statusFilter) {
      Seqs.FilterCongruent(original, StatusMatches(statusFilter.value), pass);
    } else {
      Seqs.FilterCongruent(original, (o: Order) => true, pass);
    }
  }

  /** The status filter "1" shows exactly the Pending orders: the decimal
      rendering tells statuses apart. */
  lemma StatusFilterSelectsStatus(o: Order, s: int)
    ensures StatusMatches(IntToString(s))(o) <==> o.status == s
  {
    if IntToString(o.status) == IntToString(s) {
      ParseIntString(o.status);
      ParseIntString(s);
    }
  }

  predicate Synced(p: OrdersPage) {
    p.processing == ApplyFilters(p.original, p.searchText, p.statusFilter)
  }

  /** What the filter effect leaves once it has run. */
  function Settle(p: OrdersPage): (r: OrdersPage)
    ensures Synced(r) && r.original == p.original
  {
    p.(processing := ApplyFilters(p.original, p.searchText, p.statusFilter))
  }

  /** handleClearFilters. */
  function ClearFilters(p: OrdersPage): (r: OrdersPage)
    ensures Synced(r)
    ensures r.processing == p.original && r.original == p.original
  {
    OrdersPage(p.original, p.original, "", None)
  }

  /** handleUpdateDeliveryStatus as written: the shown list with the order
      set to Ready becomes BOTH lists, so every order the filters were hiding
      is dropped from originalData. */
  function MarkReadyAsWritten(p: OrdersPage, id: int): (r: OrdersPage)
    ensures r.original == r.processing
    ensures |r.original| == |p.processing|
  {
    var updated := OrderStatus.SetStatus(p.processing, id, OrderStatus.READY);
    p.(original := updated, processing := updated)
  }

  /** The update as intended: the order is set to Ready in both lists and
      nothing is dropped. */
  function MarkReady(p: OrdersPage, id: int): (r: OrdersPage)
    ensures |r.original| == |p.original| && |r.processing| == |p.processing|
    ensures forall i :: 0 <= i < |p.original| ==> r.original[i].orderId == p.original[i].orderId
    ensures forall i :: 0 <= i < |p.original| ==>
      r.original[i] == if p.original[i].orderId == id then p.original[i].(status := OrderStatus.READY) else p.original[i]
    ensures forall i :: 0 <= i < |p.processing| ==>
      r.processing[i] == if p.processing[i].orderId == id then p.processing[i].(status := OrderStatus.READY) else p.processing[i]
    ensures r.searchText == p.searchText && r.statusFilter == p.statusFilter
  {
    p.(original := OrderStatus.SetStatus(p.original, id, OrderStatus.READY),
       processing := OrderStatus.SetStatus(p.processing, id, OrderStatus.READY))
  }

  /** handleUpdateDeliveryStatus as written, around the updateDeliveryStatus
      call: the written update when the call answered; when it threw, both
      lists stay and toastError's text is shown. */
  function HandleMarkReadyAsWritten(p: OrdersPage, id: int, call: Global.Call<()>): (o: Global.Handled<OrdersPage>)
    ensures o.toast.Some? <==> call.Threw?
    ensures o.toast.Some? ==> o.state == p
    ensures call.Threw? ==> o.toast == Some(Global.ToastError(call.error))
    ensures call.Answered? ==> o.state == MarkReadyAsWritten(p, id) && o.state.original == o.state.processing
  {
    match call
    case Threw(e) => Global.Handled(p, Some(Global.ToastError(e)))
    case Answered(_) => Global.Handled(MarkReadyAsWritten(p, id), None)
  }

  /** The handler with the intended update: a failed call changes nothing,
      an answered one keeps every order of both lists. */
  function HandleMarkReady(p: OrdersPage, id: int, call: Global.Call<()>): (o: Global.Handled<OrdersPage>)
    ensures o.toast.Some? <==> call.Threw?
    ensures o.toast.Some? ==> o.state == p
    ensures call.Threw? ==> o.toast == Some(Global.ToastError(call.error))
    ensures call.Answered? ==> o.state == MarkReady(p, id)
    ensures |o.state.original| == |p.original| && |o.state.processing| == |p.processing|
  {
    match call
    case Threw(e) => Global.Handled(p, Some(Global.ToastError(e)))
    case Answered(_) => Global.Handled(MarkReady(p, id), None)
  }

  /** With no filter active the two agree: the defect needs a filter. */
  lemma MarkReadyAgreesWithoutFilters(p: OrdersPage, id: int)
    requires Synced(p) && p.searchText == "" && !FilterSet(p.statusFilter)
    ensures MarkReadyAsWritten(p, id) == MarkReady(p, id)
  {
  }

  /** Every order of the full list is still there after the intended
      update, whatever the filters hid. */
  lemma MarkReadyKeepsEveryOrder(p: OrdersPage, id: int, k: int)
    requires 0 <= k < |p.original|
    ensures exists j :: 0 <= j < |MarkReady(p, id).original| && MarkReady(p, id).original[j].orderId == p.original[k].orderId
  {
    assert MarkReady(p, id).original[k].orderId == p.original[k].orderId;
  }

  /** The written update loses an order: with the status filter on Pending,
      a Received order (#2) is hidden, and marking order #1 Ready leaves
      originalData with order #1 only. */
  lemma MarkReadyAsWrittenLosesHiddenOrder()
    ensures var o1 := Order(1, "", OrderStatus.PENDING, "", 0, 7, []);
      var o2 := Order(2, "", OrderStatus.RECEIVED, "", 0, 7, []);
      var p := OrdersPage([o1, o2], [o1], "", Some("1"));
      && Synced(p)
      && MarkReadyAsWritten(p, 1).original == [o1.(status := OrderStatus.READY)]
      && |MarkReady(p, 1).original| == 2
      && MarkReady(p, 1).original[1] == o2
  {
    var o1 := Order(1, "", OrderStatus.PENDING, "", 0, 7, []);
    var o2 := Order(2, "", OrderStatus.RECEIVED, "", 0, 7, []);
    var p := OrdersPage([o1, o2], [o1], "", Some("1"));
    assert NatToString(1) == [DigitChar(1)] == "1";
    assert NatToString(3) == [DigitChar(3)] == "3";
    assert StatusMatches("1")(o1) && !StatusMatches("1")(o2);
    var pass := Passes("", Some("1"));
    assert pass(o1) && !pass(o2);
    assert [o1, o2][1..] == [o2];
    assert Seqs.Filter([o2], pass) == [];
    assert ApplyFilters(p.original, "", Some("1")) == [o1];
  }
}
