/**
 * Telegram notifications: the messages sent when a borrowing is created
 * and by the daily overdue scan, and the sending wrapper that never lets a
 * bot failure escape. Sending is modelled as handing a message over; the
 * bot transport and the HTML text are not modelled, only which fields a
 * message carries.
 */
module Notifications {
  import opened Wrappers
  import opened Seqs
  import opened Books
  import opened Borrowings
  import Reservation

  datatype Message =
    | OverdueAlert(email: string, title: string, expectedReturn: Day)
    | NoneOverdue   // the single "no borrowings overdue today" message
    | BorrowingCreated(email: string, title: string, left: int, expectedReturn: Day)

  /** The result of one send: delivered, or the bot's exception written to the log. */
  datatype Delivery = Delivered(message: Message) | LoggedError(log: string)

  /**
   * Sending a message. A bot failure is caught and logged; the result type
   * has no error case, so no failure reaches the caller.
   */
  function SendNotification(m: Message, botError: Option<string>): (d: Delivery)
    ensures d.Delivered? <==> botError.None?
    ensures d.Delivered? ==> d.message == m
    ensures d.LoggedError? ==> d.log == "Failed to send Telegram message: " + botError.value
  {
    match botError
    case None => Delivered(m)
    case Some(e) => LoggedError("Failed to send Telegram message: " + e)
  }

  /** The message announcing a new borrowing; it reports one unit fewer than the book it is given. */
  function BorrowingCreateNotification(b: Borrowing, user: User, book: Book): (m: Message)
    ensures m.BorrowingCreated?
    ensures m.email == user.email && m.title == book.title
    ensures m.left == book.inventory - 1 && m.expectedReturn == b.expectedReturnDate
  {
    BorrowingCreated(user.email, book.title, book.inventory - 1, b.expectedReturnDate)
  }

  /**
   * Given the book as it was before its unit was reserved, the reported
   * stock is the stock the reservation left, and is never negative.
   */
  lemma CreateNotificationReportsRemainingStock(b: Borrowing, user: User, book: Book)
    requires Reservation.ReserveUnit(book).Some?
    ensures BorrowingCreateNotification(b, user, book).left == Reservation.ReserveUnit(book).value.inventory
    ensures BorrowingCreateNotification(b, user, book).left >= 0
  {
  }

  /** The overdue query: active borrowings due strictly before today. */
  function Overdue(rows: seq<Borrowing>, today: Day): (r: seq<Borrowing>)
    ensures |r| <= |rows|
    ensures forall b :: b in r <==> b in rows && b.actualReturnDate.None? && b.expectedReturnDate < today
  {
    Filter(rows, (b: Borrowing) => IsOverdue(b, today))
  }

  /** Every row's user and book can be followed (the foreign keys hold). */
  predicate Resolvable(rows: seq<Borrowing>, users: map<int, User>, books: map<int, Book>) {
    forall b :: b in rows ==> b.user in users && b.book in books
  }

  function AlertFor(b: Borrowing, users: map<int, User>, books: map<int, Book>): Message
    requires b.user in users && b.book in books
  {
    OverdueAlert(users[b.user].email, books[b.book].title, b.expectedReturnDate)
  }

  /**
   * The overdue scan over a snapshot of the borrowing table: one alert per
   * overdue borrowing, in query order, or the single fallback message when
   * there is none; so max(1, |overdue|) messages in all. It reads the
   * table and changes nothing.
   */
  method CheckOverdueBorrowings(rows: seq<Borrowing>, users: map<int, User>, books: map<int, Book>, today: Day)
    returns (sent: seq<Message>)
    requires Resolvable(rows, users, books)
    ensures |sent| == Max(1, |Overdue(rows, today)|)
    ensures Overdue(rows, today) == [] ==> sent == [NoneOverdue]
    ensures forall i :: 0 <= i < |Overdue(rows, today)| ==>
      sent[i] == AlertFor(Overdue(rows, today)[i], users, books)
  {
    var overdue := Overdue(rows, today);
    if |overdue| > 0 {
      sent := [];
      for i := 0 to |overdue|
        invariant |sent| == i
        invariant forall k :: 0 <= k < i ==> sent[k] == AlertFor(overdue[k], users, books)
      {
        sent := sent + [AlertFor(overdue[i], users, books)];
      }
    } else {
      sent := [NoneOverdue];
    }
  }
}
