/**
 * The tables of the service and the operations that change them: admin
 * book maintenance, reserving a book (the locked block of the create
 * serializer and the POST path around it), returning a borrowing, opening
 * a checkout session, and the cascading deletes the foreign keys declare.
 * Each method is one transaction; concurrent interleavings are not modelled.
 */
module Store {
  import opened Wrappers
  import opened Books
  import opened Borrowings
  import opened Payments
  import opened PaymentService
  import Reservation
  import Views

  datatype BookError = InvalidPayload | BookNotFound
  datatype CreateError = BookDoesNotExist | OutOfStock
  datatype ReturnError = NotFound | AlreadyReturned

  class Library {
    var users: map<int, User>
    var books: map<int, Book>
    var borrowings: map<int, Borrowing>
    var payments: map<int, Payment>
    var nextBookId: int
    var nextBorrowingId: int
    var nextPaymentId: int

    /** Every key is its record's id and below the next id; every foreign key resolves. */
    ghost predicate Valid()
      reads this
    {
      && (forall id :: id in users ==> users[id].id == id)
      && (forall id :: id in books ==> books[id].id == id && id < nextBookId)
      && (forall id :: id in borrowings ==>
            borrowings[id].id == id && id < nextBorrowingId
            && borrowings[id].user in users && borrowings[id].book in books)
      && (forall id :: id in payments ==>
            payments[id].id == id && id < nextPaymentId && payments[id].borrowing in borrowings)
    }

    /** No book has a negative counter. */
    ghost predicate StockNonNegative()
      reads this
    {
      forall id :: id in books ==> books[id].inventory >= 0
    }

    /** An empty catalogue over the given users (the user table is managed elsewhere). */
    constructor (users: map<int, User>)
      requires forall id :: id in users ==> users[id].id == id
      ensures Valid() && StockNonNegative()
      ensures this.users == users && books == map[] && borrowings == map[] && payments == map[]
    {
      this.users := users;
      books, borrowings, payments := map[], map[], map[];
      nextBookId, nextBorrowingId, nextPaymentId := 1, 1, 1;
    }

    // ----- Admin book maintenance -----

    /** Admin create: a valid payload is stored field for field under a fresh id. */
    method CreateBook(p: BookPayload) returns (r: Result<int, BookError>)
      requires Valid()
      modifies this`books, this`nextBookId
      ensures Valid()
      ensures !ValidPayload(p) ==> r == Err(InvalidPayload) && books == old(books)
      ensures ValidPayload(p) ==>
        r == Ok(old(nextBookId)) && r.value !in old(books)
        && books == old(books)[r.value := BookFromPayload(r.value, p)]
    {
      if !ValidPayload(p) {
        return Err(InvalidPayload);
      }
      var id := nextBookId;
      books := books[id := BookFromPayload(id, p)];
      nextBookId := id + 1;
      r := Ok(id);
    }

    /** Admin update: an unknown id is not found, an invalid payload refused, otherwise every field is stored as given. */
    method UpdateBook(id: int, p: BookPayload) returns (r: Result<(), BookError>)
      requires Valid()
      modifies this`books
      ensures Valid()
      ensures id !in old(books) ==> r == Err(BookNotFound)
      ensures id in old(books) && !ValidPayload(p) ==> r == Err(InvalidPayload)
      ensures r.Ok? <==> id in old(books) && ValidPayload(p)
      ensures r.Err? ==> books == old(books)
      ensures r.Ok? ==> id in old(books) && ValidPayload(p) && books == old(books)[id := UpdatedBook(old(books[id]), p)]
    {
      if id !in books {
        return Err(BookNotFound);
      }
      if !ValidPayload(p) {
        return Err(InvalidPayload);
      }
      books := books[id := UpdatedBook(books[id], p)];
      r := Ok(());
    }

    /** Admin delete: the book goes, and with it (cascade) its borrowings and their payments. */
    method DeleteBook(id: int) returns (r: Result<(), BookError>)
      requires Valid()
      modifies this`books, this`borrowings, this`payments
      ensures Valid()
      ensures r.Err? <==> id !in old(books)
      ensures r.Err? ==>
        r.error == BookNotFound && books == old(books) && borrowings == old(borrowings) && payments == old(payments)
      ensures r.Ok? ==> books == old(books) - {id}
      ensures forall k :: k in borrowings <==> k in old(borrowings) && (r.Err? || old(borrowings)[k].book != id)
      ensures forall k :: k in borrowings ==> borrowings[k] == old(borrowings)[k]
      ensures forall k :: k in payments <==> k in old(payments) && old(payments)[k].borrowing in borrowings
      ensures forall k :: k in payments ==> payments[k] == old(payments)[k]
    {
      if id !in books {
        return Err(BookNotFound);
      }
      books := books - {id};
      borrowings := map k | k in borrowings && borrowings[k].book != id :: borrowings[k];
      payments := map k | k in payments && payments[k].borrowing in borrowings :: payments[k];
      r := Ok(());
    }

    // ----- Borrowings -----

    /**
     * The create serializer's locked block: re-read the book, and only if a
     * unit is left take it and insert the borrowing; otherwise refuse and
     * change nothing. Only the chosen book and the new row change.
     */
    method Create(user: int, req: BorrowingRequest, today: Day) returns (r: Result<int, CreateError>)
      requires Valid() && user in users
      modifies this`books, this`borrowings, this`nextBorrowingId
      ensures Valid()
      ensures r.Ok? <==> req.book in old(books) && old(books[req.book].inventory) > 0
      ensures req.book !in old(books) ==> r == Err(BookDoesNotExist)
      ensures req.book in old(books) && old(books[req.book].inventory) <= 0 ==> r == Err(OutOfStock)
      ensures r.Err? ==>
        books == old(books) && borrowings == old(borrowings) && nextBorrowingId == old(nextBorrowingId)
      ensures r.Ok? ==>
        && Reservation.ReserveUnit(old(books[req.book])).Some?
        && books == old(books)[req.book := Reservation.ReserveUnit(old(books[req.book])).value]
        && r.value == old(nextBorrowingId) && r.value !in old(borrowings)
        && borrowings == old(borrowings)[r.value := NewBorrowing(r.value, user, req, today)]
      ensures r.Ok? ==> books[req.book].inventory >= 0
      ensures old(StockNonNegative()) ==> StockNonNegative()
    {
      if req.book !in books {
        return Err(BookDoesNotExist);
      }
      match Reservation.ReserveUnit(books[req.book])
      case None =>
        r := Err(OutOfStock);
      case Some(locked) =>
        books := books[req.book := locked];
        var id := nextBorrowingId;
        borrowings := borrowings[id := NewBorrowing(id, user, req, today)];
        nextBorrowingId := id + 1;
        r := Ok(id);
    }

    /**
     * The POST path: the book must exist and pass validation, then the
     * borrowing is saved with the requesting user as its owner.
     */
    method PostBorrowing(viewer: User, req: BorrowingRequest, today: Day) returns (r: Result<int, CreateError>)
      requires Valid() && viewer.id in users
      modifies this`books, this`borrowings, this`nextBorrowingId
      ensures Valid()
      ensures r.Ok? <==> req.book in old(books) && Reservation.ValidateBook(old(books[req.book])).Ok?
      ensures r.Err? ==> books == old(books) && borrowings == old(borrowings)
      ensures r.Ok? ==>
        r.value !in old(borrowings) && r.value in borrowings
        && borrowings[r.value].user == viewer.id && borrowings[r.value].book == req.book
        && IsActive(borrowings[r.value]) && borrowings[r.value].borrowingDate == today
        && req.book in books && books[req.book].inventory == old(books[req.book].inventory) - 1
      ensures r.Ok? ==>
        && req.book in old(books)
        && books == old(books)[req.book := ReduceInventory(old(books[req.book]))]
        && borrowings == old(borrowings)[r.value := NewBorrowing(r.value, viewer.id, req, today)]
        && borrowings[r.value].expectedReturnDate == req.expectedReturnDate
    {
      if req.book !in books {
        return Err(BookDoesNotExist);
      }
      if Reservation.ValidateBook(books[req.book]).Err? {
        return Err(OutOfStock);
      }
      r := Create(viewer.id, req, today);
    }

    /**
     * Returning a borrowing (the behaviour the return tests expect): a
     * borrowing the viewer cannot see is not found, a returned one is
     * refused, an active one gets today's date and gives its unit back.
     */
    method Return(id: int, viewer: User, today: Day) returns (r: Result<(), ReturnError>)
      requires Valid()
      modifies this`books, this`borrowings
      ensures Valid()
      ensures !(id in old(borrowings) && Views.CanSee(viewer, old(borrowings[id]))) ==> r == Err(NotFound)
      ensures id in old(borrowings) && Views.CanSee(viewer, old(borrowings[id])) && !IsActive(old(borrowings[id]))
        ==> r == Err(AlreadyReturned)
      ensures r.Ok? <==> id in old(borrowings) && Views.CanSee(viewer, old(borrowings[id])) && IsActive(old(borrowings[id]))
      ensures r.Err? ==> books == old(books) && borrowings == old(borrowings)
      ensures r.Ok? ==>
        && id in old(borrowings) && IsActive(old(borrowings[id]))
        && borrowings == old(borrowings)[id := MarkReturned(old(borrowings[id]), today)]
        && var bk := old(borrowings[id]).book;
           bk in old(books) && books == old(books)[bk := IncreaseInventory(old(books[bk]))]
    {
      if id !in borrowings || !Views.CanSee(viewer, borrowings[id]) {
        return Err(NotFound);
      }
      var b := borrowings[id];
      if !IsActive(b) {
        return Err(AlreadyReturned);
      }
      borrowings := borrowings[id := MarkReturned(b, today)];
      books := books[b.book := IncreaseInventory(books[b.book])];
      r := Ok(());
    }

    /** Deleting a borrowing deletes (cascade) every payment that belongs to it. */
    method DeleteBorrowing(id: int)
      requires Valid()
      modifies this`borrowings, this`payments
      ensures Valid()
      ensures borrowings == old(borrowings) - {id}
      ensures forall k :: k in payments <==> k in old(payments) && old(payments)[k].borrowing != id
      ensures forall k :: k in payments ==> payments[k] == old(payments)[k]
    {
      borrowings := borrowings - {id};
      payments := map k | k in payments && payments[k].borrowing != id :: payments[k];
    }

    // ----- Payments -----

    /**
     * Opening a checkout session for a borrowing. The amount is computed
     * first, so an invalid type raises before the gateway is asked and
     * nothing is stored. A gateway failure returns its text and stores
     * nothing. A session stores exactly one pending payment for the amount
     * and returns the session URL.
     */
    method CreateCheckoutSession(
      borrowingId: int, transactionType: string, gateway: GatewayOutcome, durationDays: int, overdueDays: int)
      returns (request: Option<SessionRequest>, outcome: CheckoutOutcome)
      requires Valid() && borrowingId in borrowings
      modifies this`payments, this`nextPaymentId
      ensures Valid()
      ensures
        var b := borrowings[borrowingId];
        var amount := CalculateAmount(books[b.book].dailyFee, transactionType, durationDays, overdueDays);
        && (amount.Err? ==>
              request == None && outcome == Raised(amount.error)
              && payments == old(payments) && nextPaymentId == old(nextPaymentId))
        && (amount.Ok? ==>
              request == Some(SessionRequestFor(borrowingId, books[b.book].title, transactionType, amount.value)))
        && (amount.Ok? && gateway.GatewayError? ==>
              outcome == Returned(gateway.message)
              && payments == old(payments) && nextPaymentId == old(nextPaymentId))
        && (amount.Ok? && gateway.Session? ==>
              outcome == Returned(gateway.url)
              && old(nextPaymentId) !in old(payments)
              && payments == old(payments)[old(nextPaymentId) := Payment(
                   old(nextPaymentId), DefaultStatus, ParseTransactionType(transactionType).value,
                   borrowingId, gateway.url, gateway.sessionId, amount.value)]
              && |payments| == |old(payments)| + 1)
    {
      var b := borrowings[borrowingId];
      var book := books[b.book];
      var amount := CalculateAmount(book.dailyFee, transactionType, durationDays, overdueDays);
      if amount.Err? {
        return None, Raised(amount.error);
      }
      request := Some(SessionRequestFor(borrowingId, book.title, transactionType, amount.value));
      match gateway
      case GatewayError(message) =>
        outcome := Returned(message);
      case Session(sessionId, url) =>
        var id := nextPaymentId;
        payments := payments[id := Payment(
          id, Pending, ParseTransactionType(transactionType).value, borrowingId, url, sessionId, amount.value)];
        nextPaymentId := id + 1;
        outcome := Returned(url);
    }
  }
}
