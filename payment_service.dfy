/**
 * The amount to charge for a borrowing and the request sent to the payment
 * gateway. The gateway itself is not modelled: its answer is an input.
 */
module PaymentService {
  import opened Wrappers
  import opened Books
  import opened Payments

  function InvalidTypeMessage(transactionType: string): string {
    "Invalid transaction type: " + transactionType
  }

  /**
   * The amount for a transaction type: the daily fee times the rental days
   * for a payment, twice the daily fee times the overdue days for a fine,
   * and an error for any other type. The day counts are inputs: the
   * borrowing's day-count helpers are not part of this model.
   */
  function CalculateAmount(dailyFee: Cents, transactionType: string, durationDays: int, overdueDays: int)
    : (r: Result<Cents, string>)
    ensures r.Ok? <==> ParseTransactionType(transactionType).Some?
    ensures transactionType == TypeCode(PaymentType) ==> r == Ok(dailyFee * durationDays)
    ensures transactionType == TypeCode(FineType) ==> r == Ok(2 * dailyFee * overdueDays)
    ensures r.Err? ==> r.error == InvalidTypeMessage(transactionType)
  {
    match ParseTransactionType(transactionType)
    case Some(PaymentType) => Ok(dailyFee * durationDays)
    case Some(FineType) => Ok((dailyFee * 2) * overdueDays)
    case None => Err(InvalidTypeMessage(transactionType))
  }

  /** For the same number of days, a fine is exactly twice the rental. */
  lemma FineIsTwiceRental(dailyFee: Cents, days: int, otherDays: int)
    ensures CalculateAmount(dailyFee, "FINE", otherDays, days).Ok?
    ensures CalculateAmount(dailyFee, "PAYMENT", days, otherDays).Ok?
    ensures CalculateAmount(dailyFee, "FINE", otherDays, days).value
         == 2 * CalculateAmount(dailyFee, "PAYMENT", days, otherDays).value
  {
  }

  function Abs(n: int): nat { if n < 0 then -n else n }

  /** Python's `int()` of the quotient `n / d`: truncation toward zero. */
  function TruncateTowardZero(n: int, d: int): (q: int)
    requires d > 0
    ensures (n >= 0 ==> q >= 0) && (n <= 0 ==> q <= 0)
    ensures Abs(q) == Abs(n) / d
  {
    if n >= 0 then n / d else -((-n) / d)
  }

  /**
   * `int(amount * 100)`: the charge in the smallest currency unit. An amount
   * with two decimal places times 100 is a whole number, so nothing is lost.
   */
  function UnitAmount(amount: Cents): (u: int)
    ensures u == amount
  {
    TruncateTowardZero(amount * 100, 100)
  }

  const Currency: string := "usd"

  /** What is sent to the gateway: one line item and the borrowing's metadata. */
  datatype SessionRequest = SessionRequest(
    productName: string,
    unitAmount: int,
    currency: string,
    quantity: nat,
    borrowingId: int,        // metadata
    transactionType: string) // metadata

  function SessionRequestFor(borrowingId: int, title: string, transactionType: string, amount: Cents)
    : (q: SessionRequest)
    ensures q.unitAmount == amount && q.quantity == 1 && q.currency == Currency
    ensures q.borrowingId == borrowingId && q.transactionType == transactionType
    ensures q.productName == transactionType + " for " + title
  {
    SessionRequest(transactionType + " for " + title, UnitAmount(amount), Currency, 1, borrowingId, transactionType)
  }

  /** The gateway's answer: a session, or the text of the exception it raised. */
  datatype GatewayOutcome = Session(sessionId: string, url: string) | GatewayError(message: string)

  /**
   * What the checkout call does for its caller: an invalid type is raised;
   * otherwise a string is returned, the session URL or the gateway's error
   * text, which the caller cannot tell apart.
   */
  datatype CheckoutOutcome = Raised(message: string) | Returned(text: string)
}
