/**
 * Book records of the catalogue: the cover choices, the money field as
 * integer cents, the inventory counter and its one-unit updates, the
 * admin create/update payload, the string form and the default ordering
 * of book listings by title.
 */
module Books {
  import opened Wrappers

  /** A DecimalField with two decimal places, held as an integer number of cents. */
  type Cents = int

  /** `max_digits=10, decimal_places=2`: at most ten digits in all, i.e. fewer than 10^10 cents. */
  const MoneyCentsBound: int := 10_000_000_000

  predicate FitsMoneyField(c: Cents) {
    -MoneyCentsBound < c < MoneyCentsBound
  }

  /** `max_length` of the title and author columns. */
  const TextMaxLength: nat := 255

  /** `max_length` of the cover column. */
  const CoverMaxLength: nat := 4

  datatype Cover = Hard | Soft

  /** The model default of the cover field. */
  const DefaultCover: Cover := Hard

  /** The value stored in the cover column. */
  function CoverCode(c: Cover): (code: string)
    ensures 0 < |code| <= CoverMaxLength
  {
    match c
    case Hard => "HARD"
    case Soft => "SOFT"
  }

  /** Reading the cover column back: only the two choices are accepted. */
  function ParseCover(code: string): (r: Option<Cover>)
    ensures forall c :: r == Some(c) <==> CoverCode(c) == code
  {
    if code == "HARD" then Some(Hard)
    else if code == "SOFT" then Some(Soft)
    else None
  }

  datatype Book = Book(
    id: int,
    title: string,
    author: string,
    cover: Cover,
    inventory: int,   // an IntegerField: nothing in the model keeps it non-negative
    dailyFee: Cents)

  /** The string form of a book: its title followed by its author. */
  function BookLabel(b: Book): (s: string)
    ensures |s| == |b.title| + |b.author| + 11
    ensures s[..|b.title|] == b.title
    ensures s[|b.title|..|b.title| + 10] == " (author: "
    ensures s[|s| - |b.author| - 1..|s| - 1] == b.author && s[|s| - 1] == ')'
  {
    b.title + " (author: " + b.author + ")"
  }

  /**
   * `reduce_inventory` is called on the locked book but its definition is not
   * part of this model; it is taken to lower the counter by exactly one.
   */
  function ReduceInventory(b: Book): (r: Book)
    ensures r.inventory == b.inventory - 1
    ensures r.(inventory := b.inventory) == b
  {
    b.(inventory := b.inventory - 1)
  }

  /** Returning a book gives its unit back (the behaviour the return tests expect). */
  function IncreaseInventory(b: Book): (r: Book)
    ensures r.inventory == b.inventory + 1
    ensures r.(inventory := b.inventory) == b
  {
    b.(inventory := b.inventory + 1)
  }

  lemma ReturnUndoesReservation(b: Book)
    ensures IncreaseInventory(ReduceInventory(b)) == b
  {
  }

  // ----- Admin create and update -----

  /** The fields an admin sends; `cover` may be omitted. */
  datatype BookPayload = BookPayload(
    title: string,
    author: string,
    cover: Option<Cover>,
    inventory: int,
    dailyFee: Cents)

  /** Field validation: non-blank texts within their length, a fee within the decimal field. */
  predicate ValidPayload(p: BookPayload) {
    0 < |p.title| <= TextMaxLength && 0 < |p.author| <= TextMaxLength && FitsMoneyField(p.dailyFee)
  }

  /** A created book stores every field as given; an omitted cover takes the default. */
  function BookFromPayload(id: int, p: BookPayload): (b: Book)
    ensures b.id == id
    ensures b.title == p.title && b.author == p.author
    ensures b.inventory == p.inventory && b.dailyFee == p.dailyFee
    ensures p.cover.Some? ==> b.cover == p.cover.value
    ensures p.cover.None? ==> b.cover == DefaultCover
  {
    Book(id, p.title, p.author, p.cover.GetOr(DefaultCover), p.inventory, p.dailyFee)
  }

  /** An updated book stores every field as given; an omitted cover is left as it was. */
  function UpdatedBook(b: Book, p: BookPayload): (r: Book)
    ensures r.id == b.id
    ensures r.title == p.title && r.author == p.author
    ensures r.inventory == p.inventory && r.dailyFee == p.dailyFee
    ensures r.cover == if p.cover.Some? then p.cover.value else b.cover
  {
    Book(b.id, p.title, p.author, p.cover.GetOr(b.cover), p.inventory, p.dailyFee)
  }

  // ----- Default ordering: by title, ascending -----

  /** Lexicographic order on titles, character by character. */
  predicate TitleLe(a: string, b: string) {
    if a == [] then true
    else if b == [] then false
    else if a[0] != b[0] then a[0] < b[0]
    else TitleLe(a[1..], b[1..])
  }

  lemma {:induction false} TitleLeTotal(a: string, b: string)
    ensures TitleLe(a, b) || TitleLe(b, a)
  {
    if a != [] && b != [] && a[0] == b[0] {
      TitleLeTotal(a[1..], b[1..]);
    }
  }

  lemma {:induction false} TitleLeTransitive(a: string, b: string, c: string)
    requires TitleLe(a, b) && TitleLe(b, c)
    ensures TitleLe(a, c)
  {
    if a != [] && b != [] && c != [] && a[0] == b[0] && b[0] == c[0] {
      TitleLeTransitive(a[1..], b[1..], c[1..]);
    }
  }

  /** Each listed book's title is at most the next one's. */
  predicate OrderedByTitle(s: seq<Book>) {
    forall i :: 0 < i < |s| ==> TitleLe(s[i - 1].title, s[i].title)
  }

  function InsertByTitle(x: Book, s: seq<Book>): (r: seq<Book>)
    requires OrderedByTitle(s)
    ensures OrderedByTitle(r)
    ensures multiset(r) == multiset(s) + multiset{x}
    ensures r[0] == x || (s != [] && r[0] == s[0])
  {
    if s == [] then [x]
    else if TitleLe(x.title, s[0].title) then [x] + s
    else
      TitleLeTotal(x.title, s[0].title);
      var tail := InsertByTitle(x, s[1..]);
      assert s == [s[0]] + s[1..];
      [s[0]] + tail
  }

  /** A book listing in the model's default order. */
  function OrderByTitle(s: seq<Book>): (r: seq<Book>)
    ensures OrderedByTitle(r)
    ensures multiset(r) == multiset(s)
  {
    if s == [] then []
    else
      assert s == [s[0]] + s[1..];
      InsertByTitle(s[0], OrderByTitle(s[1..]))
  }

  /** Adjacent order is enough: any earlier book's title is at most any later one's. */
  lemma {:induction false} OrderedByTitleAllPairs(s: seq<Book>, i: nat, j: nat)
    requires OrderedByTitle(s) && i <= j < |s|
    ensures TitleLe(s[i].title, s[j].title)
    decreases j - i
  {
    if i == j {
      TitleLeTotal(s[i].title, s[i].title);
    } else {
      OrderedByTitleAllPairs(s, i + 1, j);
      TitleLeTransitive(s[i].title, s[i + 1].title, s[j].title);
    }
  }
}
