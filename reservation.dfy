/**
 * Reserving a unit of a book: the stock check made when the request is
 * validated, the decision the locked block takes on the inventory it
 * re-reads, and what a sequence of such reservations does to one book.
 */
module Reservation {
  import opened Wrappers
  import opened Seqs
  import opened Books

  const OutOfStockMessage: string := "This book is out of stock"

  /** Request validation: a book with no units left is refused. */
  function ValidateBook(b: Book): (r: Result<Book, string>)
    ensures r.Ok? <==> b.inventory > 0
    ensures r.Ok? ==> r.value == b
    ensures r.Err? ==> r.error == OutOfStockMessage
  {
    if b.inventory <= 0 then Err(OutOfStockMessage) else Ok(b)
  }

  /**
   * The locked block's decision on the book it re-read: with a unit left it
   * takes one, otherwise it refuses. It never produces a negative counter
   * from a positive one.
   */
  function ReserveUnit(b: Book): (r: Option<Book>)
    ensures r.Some? <==> b.inventory > 0
    ensures r.Some? ==> r.value == ReduceInventory(b) && r.value.inventory >= 0
  {
    if b.inventory > 0 then Some(ReduceInventory(b)) else None
  }

  /** Validation and the locked re-check accept the same books when nothing intervenes. */
  lemma ValidationAgreesWithLock(b: Book)
    ensures ValidateBook(b).Ok? <==> ReserveUnit(b).Some?
  {
  }

  /** `n` reservations of the same book one after the other: how many succeed, and the book afterwards. */
  function ReserveRun(b: Book, n: nat): (r: (nat, Book))
    decreases n
  {
    if n == 0 then (0, b)
    else
      match ReserveUnit(b)
      case Some(b') => var t := ReserveRun(b', n - 1); (t.0 + 1, t.1)
      case None => ReserveRun(b, n - 1)
  }

  /** With K units, N reservations succeed exactly min(N, K) times and leave K - min(N, K) units. */
  lemma {:induction false} ReserveRunCount(b: Book, n: nat)
    requires b.inventory >= 0
    ensures ReserveRun(b, n).0 == Min(n, b.inventory)
    ensures ReserveRun(b, n).1 == b.(inventory := b.inventory - Min(n, b.inventory))
    ensures ReserveRun(b, n).1.inventory >= 0
    decreases n
  {
    if n > 0 {
      if b.inventory > 0 {
        ReserveRunCount(ReduceInventory(b), n - 1);
      } else {
        ReserveRunCount(b, n - 1);
      }
    }
  }

  /** A book whose counter is already negative is never reserved and never changed. */
  lemma {:induction false} ReserveRunNegativeStock(b: Book, n: nat)
    requires b.inventory < 0
    ensures ReserveRun(b, n) == (0, b)
    decreases n
  {
    if n > 0 {
      ReserveRunNegativeStock(b, n - 1);
    }
  }
}
