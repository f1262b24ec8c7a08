/** Payment records: status and transaction type choices and the row itself. */
module Payments {
  import opened Wrappers
  import opened Books

  /** `max_length` of the status and type columns. */
  const ChoiceMaxLength: nat := 7

  datatype PaymentStatus = Pending | Paid

  /** The model default of the status field. */
  const DefaultStatus: PaymentStatus := Pending

  function StatusCode(s: PaymentStatus): (code: string)
    ensures 0 < |code| <= ChoiceMaxLength
  {
    match s
    case Pending => "PENDING"
    case Paid => "PAID"
  }

  function ParseStatus(code: string): (r: Option<PaymentStatus>)
    ensures forall s :: r == Some(s) <==> StatusCode(s) == code
  {
    if code == "PENDING" then Some(Pending)
    else if code == "PAID" then Some(Paid)
    else None
  }

  /** The type field has no default: every payment names one. */
  datatype TransactionType = PaymentType | FineType

  function TypeCode(t: TransactionType): (code: string)
    ensures 0 < |code| <= ChoiceMaxLength
  {
    match t
    case PaymentType => "PAYMENT"
    case FineType => "FINE"
  }

  /** Comparing a given transaction type with the two choices; anything else is no type. */
  function ParseTransactionType(code: string): (r: Option<TransactionType>)
    ensures forall t :: r == Some(t) <==> TypeCode(t) == code
  {
    if code == "PAYMENT" then Some(PaymentType)
    else if code == "FINE" then Some(FineType)
    else None
  }

  datatype Payment = Payment(
    id: int,
    status: PaymentStatus,
    kind: TransactionType,
    borrowing: int,       // the one borrowing this payment belongs to
    sessionUrl: string,
    sessionId: string,
    moneyToPay: Cents)
}
