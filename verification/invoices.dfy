/** The customer's invoices (src/pages/account/invoices.tsx): the invoice
    number, the payment status tag, the line totals and the notes line. */
module Invoices {
  import opened Text
  import opened Models
  import AccountOrders

  const INVOICE_DIGITS: nat := 6

  /** `invoice_id.toString().padStart(6, "0")`. */
  function InvoiceNumber(id: int): (r: string)
    ensures |r| == if |IntToString(id)| >= INVOICE_DIGITS then |IntToString(id)| else INVOICE_DIGITS
    ensures r[|r| - |IntToString(id)|..] == IntToString(id)
    ensures id >= 0 ==> AllDigits(r) && DigitsValue(r) == id
  {
    var r := PadStart(IntToString(id), INVOICE_DIGITS, '0');
    if id >= 0 then
      PadStartZerosValue(NatToString(id), INVOICE_DIGITS);
      r
    else r
  }

  function Pow10(k: nat): (p: nat)
    ensures p >= 1
  {
    if k == 0 then 1 else 10 * Pow10(k - 1)
  }

  /** A number below 10^k takes at most k digits (one, for k = 0). */
  lemma {:induction false} NumeralLength(n: nat, k: nat)
    requires n < Pow10(k)
    ensures |NatToString(n)| <= if k == 0 then 1 else k
    decreases k
  {
    if n >= 10 {
      NumeralLength(n / 10, k - 1);
    }
  }

  /** A non-negative id below a million shows as six digits. */
  lemma InvoiceNumberWidth(id: int)
    requires 0 <= id < 1000000
    ensures |InvoiceNumber(id)| == 6
  {
    assert Pow10(6) == 1000000;
    NumeralLength(id, 6);
  }

  /** Different invoices get different numbers. */
  lemma InvoiceNumberInjective(a: int, b: int)
    requires a >= 0 && b >= 0
    requires InvoiceNumber(a) == InvoiceNumber(b)
    ensures a == b
  {
  }

  /** getOrderStatusTag. */
  datatype PaymentTag = Success | Canceled | Processing

  function StatusTag(paymentStatus: string): (t: PaymentTag)
    ensures t == Success <==> paymentStatus == "success"
    ensures t == Canceled <==> paymentStatus == "canceled"
  {
    if paymentStatus == "success" then Success
    else if paymentStatus == "canceled" then Canceled
    else Processing
  }

  /** `note || "No notes provided"`. */
  function NoteText(note: string): (shown: string)
    ensures shown != ""
    ensures note != "" ==> shown == note
    ensures note == "" ==> shown == "No notes provided"
  {
    if note != "" then note else "No notes provided"
  }

  /** The Total column, `record.price * record.quantity`, is the order
      page's line total: one unit costs the price, and each unit more or
      less moves the total by the price. */
  lemma LineTotalPerUnit(line: OrderLine, q: int)
    ensures AccountOrders.LineTotal(line.(quantity := 1)) == line.price
    ensures AccountOrders.LineTotal(line.(quantity := q)) - AccountOrders.LineTotal(line) == line.price * (q - line.quantity)
  {
    assert line.price * q - line.price * line.quantity == line.price * (q - line.quantity);
  }
}
