/**
 * What the borrowing and payment endpoints let a user see: the querysets
 * the two viewsets build for a request, looking a row up in them, and the
 * serializer each action uses.
 */
module Views {
  import opened Wrappers
  import opened Seqs
  import opened Borrowings
  import opened Payments

  // ----- Borrowings -----

  /** A query parameter counts when it is present and non-empty, whatever it says ("false" included). */
  predicate Truthy(param: Option<string>) {
    param.Some? && param.value != ""
  }

  /** Staff see every borrowing; anyone else only their own. */
  predicate CanSee(viewer: User, b: Borrowing) {
    viewer.isStaff || b.user == viewer.id
  }

  /** The borrowing queryset for a request with an optional `is_active` parameter. */
  function BorrowingQueryset(rows: seq<Borrowing>, viewer: User, isActive: Option<string>): (r: seq<Borrowing>)
    ensures |r| <= |rows|
    ensures forall b :: b in r <==> b in rows && CanSee(viewer, b) && (Truthy(isActive) ==> IsActive(b))
  {
    var visible := if viewer.isStaff then rows else Filter(rows, (b: Borrowing) => b.user == viewer.id);
    if Truthy(isActive) then Filter(visible, (b: Borrowing) => IsActive(b)) else visible
  }

  /** Without `is_active`, staff get the whole table, in its order. */
  lemma StaffSeeAllBorrowings(rows: seq<Borrowing>, viewer: User)
    requires viewer.isStaff
    ensures BorrowingQueryset(rows, viewer, None) == rows
  {
  }

  /** `is_active=false` still restricts the list to active borrowings. */
  lemma IsActiveFalseStillFilters(rows: seq<Borrowing>, viewer: User, b: Borrowing)
    requires b in rows && CanSee(viewer, b) && !IsActive(b)
    ensures b !in BorrowingQueryset(rows, viewer, Some("false"))
    ensures b in BorrowingQueryset(rows, viewer, None)
  {
  }

  /** The detail endpoint: the row with this id in the request's queryset. */
  function RetrieveBorrowing(rows: seq<Borrowing>, viewer: User, isActive: Option<string>, id: int)
    : (r: Option<Borrowing>)
    ensures r.Some? ==> r.value in rows && r.value.id == id && CanSee(viewer, r.value)
    ensures r.Some? && Truthy(isActive) ==> IsActive(r.value)
    ensures r.None? <==>
      forall b :: b in rows && b.id == id ==> !(CanSee(viewer, b) && (Truthy(isActive) ==> IsActive(b)))
  {
    FindFirst(BorrowingQueryset(rows, viewer, isActive), (b: Borrowing) => b.id == id)
  }

  /** Another user's borrowing is not found by a non-staff user. */
  lemma OtherUsersBorrowingNotFound(rows: seq<Borrowing>, viewer: User, isActive: Option<string>, id: int)
    requires !viewer.isStaff
    requires forall b :: b in rows && b.id == id ==> b.user != viewer.id
    ensures RetrieveBorrowing(rows, viewer, isActive, id) == None
  {
  }

  /** Staff find every borrowing that is in the table (and active, if asked). */
  lemma StaffRetrieveAnyBorrowing(rows: seq<Borrowing>, viewer: User, b: Borrowing)
    requires viewer.isStaff && b in rows
    ensures RetrieveBorrowing(rows, viewer, None, b.id).Some?
  {
  }

  datatype BorrowingSerializer =
    | BorrowingBase | BorrowingCreate
    | BorrowingListForUser | BorrowingDetailForUser
    | BorrowingListForAdmin | BorrowingDetailForAdmin

  /** The serializer per action: admin variants for staff on list and retrieve, the create serializer on create. */
  function BorrowingSerializerClass(action: string, viewer: User): (s: BorrowingSerializer)
    ensures s in {BorrowingListForAdmin, BorrowingDetailForAdmin} <==> viewer.isStaff && action in {"list", "retrieve"}
    ensures s in {BorrowingListForUser, BorrowingDetailForUser} <==> !viewer.isStaff && action in {"list", "retrieve"}
    ensures s in {BorrowingListForAdmin, BorrowingListForUser} <==> action == "list"
    ensures s == BorrowingCreate <==> action == "create"
    ensures s == BorrowingBase <==> action !in {"list", "retrieve", "create"}
  {
    if action == "list" then
      if viewer.isStaff then BorrowingListForAdmin else BorrowingListForUser
    else if action == "retrieve" then
      if viewer.isStaff then BorrowingDetailForAdmin else BorrowingDetailForUser
    else if action == "create" then BorrowingCreate
    else BorrowingBase
  }

  // ----- Payments -----

  /** The payment viewset is read-only: list and retrieve are its only actions. */
  const PaymentActions: set<string> := {"list", "retrieve"}

  /** A payment belongs to the viewer when its borrowing is the viewer's. */
  predicate OwnsPayment(borrowings: map<int, Borrowing>, viewer: User, p: Payment) {
    p.borrowing in borrowings && borrowings[p.borrowing].user == viewer.id
  }

  /** The payment queryset: on list and retrieve, staff see all and others their own; any other action is unfiltered. */
  function PaymentQueryset(rows: seq<Payment>, borrowings: map<int, Borrowing>, viewer: User, action: string)
    : (r: seq<Payment>)
    ensures |r| <= |rows|
    ensures action in PaymentActions && !viewer.isStaff ==>
      forall p :: p in r <==> p in rows && OwnsPayment(borrowings, viewer, p)
    ensures action !in PaymentActions || viewer.isStaff ==> r == rows
  {
    if action in PaymentActions && !viewer.isStaff then
      Filter(rows, (p: Payment) => OwnsPayment(borrowings, viewer, p))
    else rows
  }

  function RetrievePayment(rows: seq<Payment>, borrowings: map<int, Borrowing>, viewer: User, id: int)
    : (r: Option<Payment>)
    ensures r.Some? ==> r.value in rows && r.value.id == id
    ensures r.Some? && !viewer.isStaff ==> OwnsPayment(borrowings, viewer, r.value)
    ensures r.None? <==>
      forall p :: p in rows && p.id == id ==> !viewer.isStaff && !OwnsPayment(borrowings, viewer, p)
  {
    FindFirst(PaymentQueryset(rows, borrowings, viewer, "retrieve"), (p: Payment) => p.id == id)
  }

  /** A payment of another user's borrowing is not found by a non-staff user. */
  lemma OtherUsersPaymentNotFound(rows: seq<Payment>, borrowings: map<int, Borrowing>, viewer: User, id: int)
    requires !viewer.isStaff
    requires forall p :: p in rows && p.id == id ==> !OwnsPayment(borrowings, viewer, p)
    ensures RetrievePayment(rows, borrowings, viewer, id) == None
  {
  }

  datatype PaymentSerializer = PaymentListSerializer | PaymentFullSerializer

  function PaymentSerializerClass(action: string): (s: PaymentSerializer)
    ensures s == PaymentListSerializer <==> action == "list"
  {
    if action == "list" then PaymentListSerializer else PaymentFullSerializer
  }
}
