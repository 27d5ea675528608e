/** The cart page (src/pages/cart.tsx): the guard in front of updateQuantity
    and the checkout handler that turns the cart into a payment request. */
module CartPage {
  import opened Models
  import opened Cart
  import Global

  /** `value || 1` on the InputNumber's value: null and 0 become 1. */
  function InputValue(value: Option<int>): (v: int)
    ensures v != 0
    ensures value.None? || value == Some(0) ==> v == 1
    ensures value.Some? && value.value != 0 ==> v == value.value
  {
    match value
    case None => 1
    case Some(n) => if n == 0 then 1 else n
  }

  /** handleQuantityChange: only a positive value reaches updateQuantity, so
      the cart invariant survives every input. */
  function HandleQuantityChange(c: CartState, id: int, value: int): (r: CartState)
    ensures value <= 0 ==> r == c
    ensures Valid(c) ==> Valid(r)
    ensures |r.items| == |c.items|
  {
    if value > 0 then UpdateQuantity(c, id, value) else c
  }

  /** The InputNumber's onChange: `handleQuantityChange(id, value || 1)`.
      Clearing the field or typing 0 sets the line's quantity to 1. */
  function OnQuantityInput(c: CartState, id: int, value: Option<int>): (r: CartState)
    ensures Valid(c) ==> Valid(r)
    ensures |r.items| == |c.items|
    ensures Valid(c) && (value.None? || value == Some(0)) ==>
      forall i :: 0 <= i < |c.items| ==>
        r.items[i] == if c.items[i].item.itemId == id then c.items[i].(quantity := 1) else c.items[i]
  {
    var r := HandleQuantityChange(c, id, InputValue(value));
    if Valid(c) && (value.None? || value == Some(0)) then
      UpdateQuantityEffect(c, id, 1);
      r
    else r
  }

  /** CreateOrderState as built by handleCheckout. */
  datatype OrderDraft = OrderDraft(userId: Option<int>, status: int, note: string, details: seq<OrderDetail>)

  /** CreatePaymentState: the body of the payment-link request. */
  datatype PaymentRequest = PaymentRequest(total: int, userId: Option<int>, note: string, details: seq<OrderDetail>)

  /** What the payment-link call did: threw (the error the catch block hands
      to toastError), or returned (checkoutUrl "" when the response carries
      none). */
  datatype PaymentResponse = PaymentThrew(error: Global.ErrorValue) | PaymentLink(checkoutUrl: string)

  /** The request sent, the cart left behind, where the browser goes, and
      the error toast, if one was shown. */
  datatype CheckoutOutcome = CheckoutOutcome(
    request: PaymentRequest,
    cart: CartState,
    redirect: Option<string>,
    succeeded: bool,
    toast: Option<string>)

  /** `cartItems.map(item => ({ item_id, quantity }))`. */
  function OrderDetails(lines: seq<CartLine>): (d: seq<OrderDetail>)
    ensures |d| == |lines|
    ensures forall i :: 0 <= i < |lines| ==>
      d[i].itemId == lines[i].item.itemId && d[i].quantity == lines[i].quantity
  {
    if |lines| == 0 then []
    else [OrderDetail(lines[0].item.itemId, lines[0].quantity)] + OrderDetails(lines[1..])
  }

  /** The order handleCheckout prepares: always status 1 (Pending). */
  function BuildOrder(c: CartState, user: UserState, note: string): (o: OrderDraft)
    ensures o.status == 1
    ensures o.userId == user.userId && o.note == note
    ensures o.details == OrderDetails(c.items)
  {
    OrderDraft(user.userId, 1, note, OrderDetails(c.items))
  }

  /** handleCheckout. The request is built from the cart and the
      selectCartTotal value; the cart is emptied only when the payment-link
      call returned, and the browser follows a non-empty checkoutUrl. When
      the call threw, the cart stays and the catch block shows toastError's
      text for the error. */
  function Checkout(c: CartState, user: UserState, note: string, response: PaymentResponse): (r: CheckoutOutcome)
    ensures r.request.total == CartTotal(c)
    ensures r.request.details == BuildOrder(c, user, note).details
    ensures r.request.userId == user.userId && r.request.note == note
    ensures r.succeeded <==> response.PaymentLink?
    ensures !r.succeeded ==> r.cart == c && r.redirect.None?
    ensures r.succeeded ==> r.cart.items == []
    ensures r.redirect.Some? <==> response.PaymentLink? && response.checkoutUrl != ""
    ensures r.redirect.Some? ==> r.redirect.value == response.checkoutUrl
    ensures r.toast.Some? <==> !r.succeeded
    ensures response.PaymentThrew? ==> r.toast == Some(Global.ToastError(response.error))
    ensures response.PaymentThrew? && response.error.PlainString? ==> r.toast == Some(Global.DEFAULT_ERROR)
  {
    var order := BuildOrder(c, user, note);
    var request := PaymentRequest(CartTotal(c), order.userId, order.note, order.details);
    match response
    case PaymentThrew(e) => CheckoutOutcome(request, c, None, false, Some(Global.ToastError(e)))
    case PaymentLink(url) =>
      CheckoutOutcome(request, ClearCart(c), if url != "" then Some(url) else None, true, None)
  }

  /** The details of a valid cart name each item once with a positive
      quantity, in cart order. */
  lemma OrderDetailsOfValidCart(c: CartState)
    requires Valid(c)
    ensures var d := OrderDetails(c.items);
      && (forall i, j :: 0 <= i < j < |d| ==> d[i].itemId != d[j].itemId)
      && (forall i :: 0 <= i < |d| ==> d[i].quantity >= 1)
  {
  }
}
