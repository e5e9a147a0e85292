/**
 The plain data of the bookstore: order statuses, publications (books and
 magazines) and orders, together with the setters the order logic relies on.
 Java's mutable beans become immutable datatypes; a setter becomes a function
 that returns the updated value.
 */
module Models {

  /** Java's 32-bit `int`, the type of a magazine's issue number. */
  type Int32 = x: int | -0x8000_0000 <= x < 0x8000_0000

  /** A price in whole cents (the Java class keeps prices as `float`). */
  type Price = int

  /** The four states of an order. */
  datatype OrderStatus = Pending | Shipped | Delivered | Cancelled

  /** The enum constants in declaration order. */
  const AllStatuses: seq<OrderStatus> := [Pending, Shipped, Delivered, Cancelled]

  /** The enum has exactly four constants, each listed once. */
  lemma StatusesAreExactlyFour()
    ensures forall s: OrderStatus :: s in AllStatuses
    ensures |AllStatuses| == 4
    ensures forall i, j :: 0 <= i < j < |AllStatuses| ==> AllStatuses[i] != AllStatuses[j]
  {
    forall s: OrderStatus
      ensures s in AllStatuses
    {
      match s
      case Pending => assert AllStatuses[0] == s;
      case Shipped => assert AllStatuses[1] == s;
      case Delivered => assert AllStatuses[2] == s;
      case Cancelled => assert AllStatuses[3] == s;
    }
  }

  /**
   A publication is a book or a magazine. Both variants carry the fields of the
   abstract base class (id, title, publishDate, price); a book adds author and
   isbn, a magazine adds issueNumber and publisher.
   */
  datatype Publication =
    | Book(id: string, title: string, publishDate: string, price: Price,
           author: string, isbn: string)
    | Magazine(id: string, title: string, publishDate: string, price: Price,
               issueNumber: Int32, publisher: string)

  /** The fields held by the base class, shared by every variant. */
  datatype Common = Common(id: string, title: string, publishDate: string, price: Price)

  /** The base-class view of a publication. */
  function CommonOf(p: Publication): Common
  {
    Common(p.id, p.title, p.publishDate, p.price)
  }

  /** `q` is the same variant as `p` and agrees with it on the variant's own fields. */
  predicate SameVariant(p: Publication, q: Publication)
  {
    && p.Book? == q.Book?
    && (p.Book? ==> p.author == q.author && p.isbn == q.isbn)
    && (p.Magazine? ==> p.issueNumber == q.issueNumber && p.publisher == q.publisher)
  }

  /** The `Book` constructor: the base constructor stores the common fields, then the book's own. */
  function NewBook(base: Common, author: string, isbn: string): (p: Publication)
    ensures p.Book?
    ensures CommonOf(p) == base
    ensures p.author == author && p.isbn == isbn
  {
    Book(base.id, base.title, base.publishDate, base.price, author, isbn)
  }

  /** The `Magazine` constructor: the base constructor stores the common fields, then the magazine's own. */
  function NewMagazine(base: Common, issueNumber: Int32, publisher: string): (p: Publication)
    ensures p.Magazine?
    ensures CommonOf(p) == base
    ensures p.issueNumber == issueNumber && p.publisher == publisher
  {
    Magazine(base.id, base.title, base.publishDate, base.price, issueNumber, publisher)
  }

  /** Every publication is exactly one variant, built from its common part and its own fields. */
  lemma PublicationIsOneVariant(p: Publication)
    ensures p.Book? != p.Magazine?
    ensures p.Book? ==> p == NewBook(CommonOf(p), p.author, p.isbn)
    ensures p.Magazine? ==> p == NewMagazine(CommonOf(p), p.issueNumber, p.publisher)
  {
  }

  // Setters of the base class: each changes one common field and keeps the variant.

  function SetPublicationId(p: Publication, id: string): (q: Publication)
    ensures CommonOf(q) == CommonOf(p).(id := id)
    ensures SameVariant(p, q)
  {
    p.(id := id)
  }

  function SetTitle(p: Publication, title: string): (q: Publication)
    ensures CommonOf(q) == CommonOf(p).(title := title)
    ensures SameVariant(p, q)
  {
    p.(title := title)
  }

  function SetPublishDate(p: Publication, publishDate: string): (q: Publication)
    ensures CommonOf(q) == CommonOf(p).(publishDate := publishDate)
    ensures SameVariant(p, q)
  {
    p.(publishDate := publishDate)
  }

  function SetPrice(p: Publication, price: Price): (q: Publication)
    ensures CommonOf(q) == CommonOf(p).(price := price)
    ensures SameVariant(p, q)
  {
    p.(price := price)
  }

  // Setters of the subclasses: only defined on their own variant, and they keep the common fields.

  function SetAuthor(p: Publication, author: string): (q: Publication)
    requires p.Book?
    ensures q.Book? && q.author == author && q.isbn == p.isbn
    ensures CommonOf(q) == CommonOf(p)
  {
    p.(author := author)
  }

  function SetIsbn(p: Publication, isbn: string): (q: Publication)
    requires p.Book?
    ensures q.Book? && q.isbn == isbn && q.author == p.author
    ensures CommonOf(q) == CommonOf(p)
  {
    p.(isbn := isbn)
  }

  function SetIssueNumber(p: Publication, issueNumber: Int32): (q: Publication)
    requires p.Magazine?
    ensures q.Magazine? && q.issueNumber == issueNumber && q.publisher == p.publisher
    ensures CommonOf(q) == CommonOf(p)
  {
    p.(issueNumber := issueNumber)
  }

  function SetPublisher(p: Publication, publisher: string): (q: Publication)
    requires p.Magazine?
    ensures q.Magazine? && q.publisher == publisher && q.issueNumber == p.issueNumber
    ensures CommonOf(q) == CommonOf(p)
  {
    p.(publisher := publisher)
  }

  /** An order as stored: the datatype constructor stores its five fields as given. */
  datatype Order = Order(id: string, customerId: string, items: seq<Publication>,
                         totalPrice: Price, status: OrderStatus)

  /** `a` and `b` agree on every field except possibly the status. */
  predicate SameExceptStatus(a: Order, b: Order)
  {
    a.id == b.id && a.customerId == b.customerId && a.items == b.items && a.totalPrice == b.totalPrice
  }

  /** The status is the only field `SameExceptStatus` leaves open. */
  lemma StatusIsTheOnlyOtherField(a: Order, b: Order)
    requires SameExceptStatus(a, b)
    ensures a.status == b.status <==> a == b
  {
  }

  /** `setStatus`: the status becomes `status`, nothing else changes. */
  function SetStatus(o: Order, status: OrderStatus): (q: Order)
    ensures q.status == status
    ensures SameExceptStatus(o, q)
  {
    o.(status := status)
  }

  /** Setting a status twice keeps only the last one; setting the current one changes nothing. */
  lemma SetStatusLastWriteWins(o: Order, s: OrderStatus, t: OrderStatus)
    ensures SetStatus(SetStatus(o, s), t) == SetStatus(o, t)
    ensures SetStatus(o, o.status) == o
  {
  }
}
