/**
 * The book handlers that are implemented: the dashboard, the book list,
 * book detail and the two delete handlers. Each only reads the store, so
 * each is a function of the store; none returns a new store.
 */
module BookController {
  import opened Base
  import opened JsValues
  import opened AuthorModel
  import opened Catalog

  const BookListUrl := "/catalog/books"

  function CountStatus(instances: seq<BookInstance>, status: Status): nat
  {
    Count(instances, (c: BookInstance) => c.status == status)
  }

  /** The five counts `async.parallel` gathers for the home page. */
  function Dashboard(db: Store): (c: Counts)
    ensures c.bookCount == |db.books|
    ensures c.bookInstanceCount == |db.instances|
    ensures c.bookInstanceAvailableCount == |Filter(db.instances, (i: BookInstance) => i.status == Available)|
    ensures c.bookInstanceAvailableCount <= c.bookInstanceCount
    ensures c.authorCount == |db.authors|
    ensures c.genreCount == |db.genres|
  {
    Counts(|db.books|, |db.instances|, CountStatus(db.instances, Available), |db.authors|, |db.genres|)
  }

  /** Every copy has exactly one of the four statuses, so the per-status counts add up to the total. */
  lemma {:induction false} StatusCountsAddUp(instances: seq<BookInstance>)
    ensures CountStatus(instances, Available) + CountStatus(instances, Maintenance)
            + CountStatus(instances, Loaned) + CountStatus(instances, Reserved) == |instances|
  {
    if instances != [] {
      StatusCountsAddUp(instances[1..]);
    }
  }

  /**
   * GET home page. The handler renders whether or not a count failed,
   * passing the error along; on failure the counts are not modelled.
   */
  function Index(db: Store, storeFault: bool): (r: Response)
    ensures storeFault ==> r == Rendered("index", "Local Library Home", IndexPage(true, None))
    ensures !storeFault ==> r.Rendered? && r.view == "index" && r.page == IndexPage(false, Some(Dashboard(db)))
  {
    Rendered("index", "Local Library Home",
             if storeFault then IndexPage(true, None) else IndexPage(false, Some(Dashboard(db))))
  }

  /** `Book.find({}, 'title author').populate('author')`: one summary per book, in store order. */
  function Summaries(books: seq<Book>, authors: seq<Author>): (r: seq<BookSummary>)
    ensures |r| == |books|
    ensures forall i :: 0 <= i < |books| ==>
              r[i].id == books[i].id && r[i].title == books[i].title
              && r[i].author == FindAuthor(authors, books[i].author)
    ensures forall i :: 0 <= i < |books| && r[i].author.Some? ==> r[i].author.value.id == books[i].author
  {
    if books == [] then []
    else
      var b := books[0];
      [BookSummary(b.id, b.title, FindAuthor(authors, b.author))] + Summaries(books[1..], authors)
  }

  /** GET book list. */
  function BookList(db: Store, storeFault: bool): (r: Response)
    ensures storeFault ==> r == StoreError(QueryFailed)
    ensures !storeFault ==> r == Rendered("book_list", "Book List", BookListPage(Summaries(db.books, db.authors)))
    ensures !storeFault ==> |r.page.bookList| == |db.books|
  {
    if storeFault then StoreError(QueryFailed)
    else Rendered("book_list", "Book List", BookListPage(Summaries(db.books, db.authors)))
  }

  /** `populate('author').populate('genre')` on one book. */
  function Populate(db: Store, b: Book): (p: PopulatedBook)
    ensures p.id == b.id && p.title == b.title && p.summary == b.summary && p.isbn == b.isbn
    ensures p.author.Some? <==> FindAuthor(db.authors, b.author).Some?
    ensures p.author.Some? ==> p.author.value in db.authors && p.author.value.id == b.author
    ensures forall g :: g in p.genre ==> g in db.genres && g.id in b.genre
    ensures forall i :: 0 <= i < |b.genre| && FindGenre(db.genres, b.genre[i]).Some? ==>
              FindGenre(db.genres, b.genre[i]).value in p.genre
  {
    PopulatedBook(b.id, b.title, FindAuthor(db.authors, b.author), b.summary, b.isbn, PopulateGenres(db.genres, b.genre))
  }

  /** GET book detail: the populated book and its copies, or a 404. */
  function BookDetail(db: Store, id: Id, storeFault: bool): (r: Response)
    ensures storeFault ==> r == StoreError(QueryFailed)
    ensures !storeFault && FindBook(db.books, id).None? ==> r == NotFound("Book not found", 404)
    ensures !storeFault && FindBook(db.books, id).Some? ==>
              r.Rendered? && r.view == "book_detail" && r.page.BookDetailPage?
              && r.page.book == Populate(db, FindBook(db.books, id).value)
              && r.page.book.id == id && r.title == r.page.book.title
              && forall c :: c in r.page.bookInstances <==> c in db.instances && c.book == id
  {
    if storeFault then StoreError(QueryFailed)
    else
      match FindBook(db.books, id)
      case None => NotFound("Book not found", 404)
      case Some(b) => Rendered("book_detail", b.title, BookDetailPage(Populate(db, b), InstancesOfBook(db.instances, id)))
  }

  /**
   * GET book delete form. When the book is missing the handler redirects to
   * the book list and, lacking a `return`, goes on to render the form.
   */
  function BookDeleteGet(db: Store, id: Id, storeFault: bool): (r: Response)
    ensures storeFault ==> r == StoreError(QueryFailed)
    ensures !storeFault ==>
              var copies := InstancesOfBook(db.instances, id);
              match FindBook(db.books, id)
              case None =>
                r == RedirectedThenRendered(BookListUrl, "book_delete", "Delete Book", BookDeletePage(None, copies))
              case Some(b) =>
                r == Rendered("book_delete", "Delete Book", BookDeletePage(Some(Populate(db, b)), copies)) && b.id == id
  {
    if storeFault then StoreError(QueryFailed)
    else
      var book := FindBook(db.books, id);
      var copies := InstancesOfBook(db.instances, id);
      match book
      case None => RedirectedThenRendered(BookListUrl, "book_delete", "Delete Book", BookDeletePage(None, copies))
      case Some(b) => Rendered("book_delete", "Delete Book", BookDeletePage(Some(Populate(db, b)), copies))
  }

  /**
   * POST book delete. The delete itself is commented out in the handler, so
   * nothing is written: it only logs `bodyBookId` and redirects. Its guard
   * compares the list of copies with 0, which is never greater. The book is
   * looked up by `req.param.id`, which is undefined, so that lookup finds
   * nothing; its result is unused. A store error reaches an undeclared `next`.
   */
  function BookDeletePost(db: Store, paramsId: Id, bodyBookId: Id, storeFault: bool): (r: Response)
    ensures storeFault ==> r == Thrown(NextIsNotDefined)
    ensures !storeFault ==> r == Redirected(BookListUrl)
  {
    if storeFault then Thrown(NextIsNotDefined)
    else
      var copies := InstancesOfBook(db.instances, paramsId);
      DocumentListNeverAboveZero(|copies|);
      if GreaterThan(DocumentListToNumber(|copies|), 0) then Thrown(RendIsNotAFunction)
      else Redirected(BookListUrl)
  }
}
