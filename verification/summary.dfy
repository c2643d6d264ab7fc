/** The purchase summary printed when a session closes with a positive total,
    and the payment step that follows it. */
module Summary {
  import opened Wrappers
  import opened Sums
  import opened Cart
  import opened Prompts

  /** One printed row: product name, units bought, accumulated amount. */
  datatype Row = Row(name: string, quantity: int, amount: int)

  /** Rows in cart order, the total number of units and the total amount. */
  datatype Summary = Summary(rows: seq<Row>, totalQuantity: int, totalAmount: int)

  /** The summary, the payment answer read after it, and the amount charged in
      hundredths of a peso. */
  datatype Receipt = Receipt(summary: Summary, credit: bool, finalCents: int)

  function RowQuantity(r: Row): int { r.quantity }
  function RowAmount(r: Row): int { r.amount }

  /** The row printed for a cart line; the product id is not shown. */
  function RowOf(l: Line): Row { Row(l.name, l.quantity, l.subtotal) }

  /** One row per cart line, in the cart's insertion order. */
  function Rows(cart: Cart): (rows: seq<Row>)
    ensures |rows| == |cart|
    ensures forall i :: 0 <= i < |cart| ==> rows[i] == Row(cart[i].name, cart[i].quantity, cart[i].subtotal)
  {
    seq(|cart|, i requires 0 <= i < |cart| => RowOf(cart[i]))
  }

  /** The summary exists exactly when the running total is positive. Its rows
      follow the cart line by line, its total quantity is the sum of the rows'
      quantities, and its total amount is the running total. */
  function Summarize(cart: Cart, total: int): (r: Option<Summary>)
    ensures r.Some? <==> total > 0
    ensures r.Some? ==> r.value.rows == Rows(cart)
    ensures r.Some? ==> r.value.totalQuantity == Sum(r.value.rows, RowQuantity)
    ensures r.Some? ==> r.value.totalAmount == total
  {
    if total > 0 then
      var rows := Rows(cart);
      SumPointwise(cart, Quantity, rows, RowQuantity);
      Some(Summary(rows, Sum(cart, Quantity), total))
    else
      None
  }

  /** The amount charged, in hundredths: credit removes 3% of the total, debit
      charges the total. Integer hundredths are exact here because a 3% cut of a
      whole-peso total has at most two decimals. */
  function FinalCents(total: int, credit: bool): (cents: int)
    ensures credit ==> cents == 97 * total
    ensures !credit ==> cents == 100 * total
    ensures total >= 0 ==> 0 <= cents <= 100 * total
  {
    var discountCents := if credit then 3 * total else 0;
    100 * total - discountCents
  }

  /** Reads the payment answer after the summary has been shown. */
  function Pay(s: Summary, answer: string): (r: Receipt)
    ensures r.summary == s
    ensures r.credit <==> Strip(answer) == "2"
    ensures r.credit ==> r.finalCents + 3 * s.totalAmount == 100 * s.totalAmount
    ensures !r.credit ==> r.finalCents == 100 * s.totalAmount
  {
    var credit := PaysByCredit(answer);
    Receipt(s, credit, FinalCents(s.totalAmount, credit))
  }

  /** When every line's subtotal agrees with the running total, the summary's
      amount is the sum of its own rows' amounts: the printed total cannot drift
      from the printed rows. */
  lemma SummaryAmountIsRowSum(cart: Cart, total: int)
    requires total == Sum(cart, Subtotal)
    requires total > 0
    ensures Summarize(cart, total).Some?
    ensures Summarize(cart, total).value.totalAmount == Sum(Summarize(cart, total).value.rows, RowAmount)
  {
    SumPointwise(cart, Subtotal, Rows(cart), RowAmount);
  }
}
