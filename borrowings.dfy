/**
 * Borrowing records: who borrowed which book, when, when it is due and
 * when (if ever) it came back. Dates are day numbers.
 */
module Borrowings {
  import opened Wrappers

  type Day = int

  /** The requesting user; the user model itself is not part of this model. */
  datatype User = User(id: int, email: string, isStaff: bool)

  datatype Borrowing = Borrowing(
    id: int,
    user: int,
    book: int,
    borrowingDate: Day,
    expectedReturnDate: Day,
    actualReturnDate: Option<Day>)

  /** A borrowing is active exactly while it has no actual return date. */
  predicate IsActive(b: Borrowing) {
    b.actualReturnDate.None?
  }

  /** Overdue: still active and due strictly before `today`. */
  predicate IsOverdue(b: Borrowing, today: Day) {
    IsActive(b) && b.expectedReturnDate < today
  }

  /** The only fields a client supplies when creating a borrowing. */
  datatype BorrowingRequest = BorrowingRequest(book: int, expectedReturnDate: Day)

  /**
   * The row inserted for a request: the borrowing date is the creation day
   * (never client input), there is no actual return date, and the owner is
   * the requesting user. The expected return date is not checked.
   */
  function NewBorrowing(id: int, user: int, req: BorrowingRequest, today: Day): (b: Borrowing)
    ensures IsActive(b)
    ensures b.id == id && b.user == user && b.book == req.book
    ensures b.borrowingDate == today && b.expectedReturnDate == req.expectedReturnDate
  {
    Borrowing(id, user, req.book, today, req.expectedReturnDate, None)
  }

  /** The return transition exercised by the return tests: the borrowing stops being active. */
  function MarkReturned(b: Borrowing, today: Day): (r: Borrowing)
    requires IsActive(b)
    ensures !IsActive(r) && !IsOverdue(r, today) && r.actualReturnDate == Some(today)
    ensures r.(actualReturnDate := None) == b
  {
    b.(actualReturnDate := Some(today))
  }

  /** A borrowing due exactly today is not overdue: the comparison is strict. */
  lemma DueTodayIsNotOverdue(b: Borrowing, today: Day)
    requires b.expectedReturnDate == today
    ensures !IsOverdue(b, today)
  {
  }
}
