/**
 * The document store the controllers query, as plain values: one sequence
 * of documents per collection, in the collection's natural order, and the
 * queries the handlers issue against it (find by id, find by filter,
 * count, sort by name, and `populate` as a lookup join). Also the values a
 * handler produces in place of an HTTP response.
 */
module Catalog {
  import opened Base
  import opened GenreModel
  import opened AuthorModel

  datatype Status = Available | Maintenance | Loaned | Reserved

  /** A stored book: `author` and `genre` are references by identifier. */
  datatype Book = Book(id: Id, title: string, author: Id, summary: string, isbn: string, genre: seq<Id>)

  datatype BookInstance = BookInstance(id: Id, book: Id, imprint: string, status: Status)

  /** The four collections. */
  datatype Store = Store(genres: seq<Genre>, books: seq<Book>, authors: seq<Author>, instances: seq<BookInstance>)

  /** The unique index on `_id`: no two genres share an identifier. */
  ghost predicate UniqueGenreIds(gs: seq<Genre>)
  {
    forall i, j :: 0 <= i < j < |gs| ==> gs[i].id != gs[j].id
  }

  // ---------------------------------------------------------------- queries

  /** `findOne(filter)`: the first document in natural order that matches. */
  function FindFirst<T>(s: seq<T>, matches: T -> bool): (r: Option<T>)
    ensures r.None? <==> forall i :: 0 <= i < |s| ==> !matches(s[i])
    ensures r.Some? ==> exists i :: 0 <= i < |s| && s[i] == r.value && matches(s[i])
                                    && forall j :: 0 <= j < i ==> !matches(s[j])
  {
    if s == [] then None
    else if matches(s[0]) then Some(s[0])
    else
      var r := FindFirst(s[1..], matches);
      assert r.Some? ==> exists i :: 0 <= i < |s| - 1 && s[1..][i] == r.value && matches(s[1..][i])
                                     && forall j :: 0 <= j < i ==> !matches(s[1..][j]);
      r
  }

  /** `find(filter)`: the matching documents, in natural order. */
  function Filter<T(!new)>(s: seq<T>, matches: T -> bool): (r: seq<T>)
    ensures |r| <= |s|
    ensures forall x :: x in r <==> x in s && matches(x)
    ensures multiset(r) <= multiset(s)
  {
    if s == [] then []
    else
      var rest := Filter(s[1..], matches);
      assert s == [s[0]] + s[1..];
      if matches(s[0]) then [s[0]] + rest else rest
  }

  /** `countDocuments(filter)`: the number of matching documents. */
  function Count<T(!new)>(s: seq<T>, matches: T -> bool): (n: nat)
    ensures n == |Filter(s, matches)|
    ensures n <= |s|
  {
    if s == [] then 0 else (if matches(s[0]) then 1 else 0) + Count(s[1..], matches)
  }

  function FindGenre(gs: seq<Genre>, id: Id): Option<Genre>
  {
    FindFirst(gs, (g: Genre) => g.id == id)
  }

  function FindGenreNamed(gs: seq<Genre>, name: string): Option<Genre>
  {
    FindFirst(gs, (g: Genre) => g.name == name)
  }

  function FindBook(bs: seq<Book>, id: Id): Option<Book>
  {
    FindFirst(bs, (b: Book) => b.id == id)
  }

  function FindAuthor(authors: seq<Author>, id: Id): Option<Author>
  {
    FindFirst(authors, (a: Author) => a.id == id)
  }

  /** `Book.find({ 'genre': id })`: the books whose genre list holds `id`. */
  function BooksOfGenre(bs: seq<Book>, id: Id): (r: seq<Book>)
    ensures forall b :: b in r <==> b in bs && id in b.genre
  {
    Filter(bs, (b: Book) => id in b.genre)
  }

  /** `BookInstance.find({ 'book': id })`: the copies of book `id`. */
  function InstancesOfBook(instances: seq<BookInstance>, id: Id): (r: seq<BookInstance>)
    ensures forall c :: c in r <==> c in instances && c.book == id
  {
    Filter(instances, (c: BookInstance) => c.book == id)
  }

  /** `populate('genre')`: each referenced genre that exists, in reference order; dangling references are dropped. */
  function PopulateGenres(gs: seq<Genre>, ids: seq<Id>): (r: seq<Genre>)
    ensures |r| <= |ids|
    ensures forall g :: g in r ==> g in gs && g.id in ids
    ensures forall i :: 0 <= i < |ids| && FindGenre(gs, ids[i]).Some? ==> FindGenre(gs, ids[i]).value in r
  {
    if ids == [] then []
    else
      var rest := PopulateGenres(gs, ids[1..]);
      match FindGenre(gs, ids[0])
      case None => rest
      case Some(g) => [g] + rest
  }

  // ---------------------------------------------------------------- sorting by name

  /** The store's ascending string order: lexicographic by character. */
  predicate NameLe(a: string, b: string)
    ensures a <= b ==> NameLe(a, b)
    ensures NameLe(a, b) && a != [] ==> b != [] && a[0] <= b[0]
  {
    a == [] || (b != [] && (a[0] < b[0] || (a[0] == b[0] && NameLe(a[1..], b[1..]))))
  }

  lemma {:induction false} NameLeAntisymmetric(a: string, b: string)
    requires NameLe(a, b) && NameLe(b, a)
    ensures a == b
  {
    if a != [] {
      NameLeAntisymmetric(a[1..], b[1..]);
      assert a == [a[0]] + a[1..] && b == [b[0]] + b[1..];
    }
  }

  lemma {:induction false} NameLeTotal(a: string, b: string)
    ensures NameLe(a, b) || NameLe(b, a)
  {
    if a != [] && b != [] && a[0] == b[0] {
      NameLeTotal(a[1..], b[1..]);
    }
  }

  lemma {:induction false} NameLeTransitive(a: string, b: string, c: string)
    requires NameLe(a, b) && NameLe(b, c)
    ensures NameLe(a, c)
  {
    if a != [] && a[0] == b[0] && b[0] == c[0] {
      NameLeTransitive(a[1..], b[1..], c[1..]);
    }
  }

  ghost predicate SortedByName(s: seq<Genre>)
  {
    forall i, j :: 0 <= i < j < |s| ==> NameLe(s[i].name, s[j].name)
  }

  function InsertByName(g: Genre, s: seq<Genre>): seq<Genre>
  {
    if s == [] then [g]
    else if NameLe(g.name, s[0].name) then [g] + s
    else [s[0]] + InsertByName(g, s[1..])
  }

  /** Insertion adds exactly the one genre. */
  lemma {:induction false} InsertByNameKeepsElements(g: Genre, s: seq<Genre>)
    ensures multiset(InsertByName(g, s)) == multiset(s) + multiset{g}
  {
    if s != [] && !NameLe(g.name, s[0].name) {
      InsertByNameKeepsElements(g, s[1..]);
      assert s == [s[0]] + s[1..];
    }
  }

  lemma SortedTail(s: seq<Genre>)
    requires s != [] && SortedByName(s)
    ensures SortedByName(s[1..])
    ensures forall k :: 0 <= k < |s| - 1 ==> NameLe(s[0].name, s[1..][k].name)
  {
    forall i, j | 0 <= i < j < |s| - 1
      ensures NameLe(s[1..][i].name, s[1..][j].name)
    {
      assert s[1..][i] == s[i + 1] && s[1..][j] == s[j + 1];
    }
    forall k | 0 <= k < |s| - 1
      ensures NameLe(s[0].name, s[1..][k].name)
    {
      assert s[1..][k] == s[k + 1];
    }
  }

  lemma SortedCons(x: Genre, t: seq<Genre>)
    requires SortedByName(t)
    requires forall k :: 0 <= k < |t| ==> NameLe(x.name, t[k].name)
    ensures SortedByName([x] + t)
  {
    var r := [x] + t;
    forall i, j | 0 <= i < j < |r|
      ensures NameLe(r[i].name, r[j].name)
    {
      assert r[j] == t[j - 1];
      if i > 0 {
        assert r[i] == t[i - 1];
      }
    }
  }

  lemma {:induction false} InsertByNameKeepsOrder(g: Genre, s: seq<Genre>)
    requires SortedByName(s)
    ensures SortedByName(InsertByName(g, s))
    ensures multiset(InsertByName(g, s)) == multiset(s) + multiset{g}
  {
    InsertByNameKeepsElements(g, s);
    if s == [] {
    } else if NameLe(g.name, s[0].name) {
      forall j | 0 <= j < |s| ensures NameLe(g.name, s[j].name) {
        if j > 0 { NameLeTransitive(g.name, s[0].name, s[j].name); }
      }
      SortedCons(g, s);
    } else {
      NameLeTotal(g.name, s[0].name);
      SortedTail(s);
      InsertByNameKeepsOrder(g, s[1..]);
      var t := InsertByName(g, s[1..]);
      forall k | 0 <= k < |t| ensures NameLe(s[0].name, t[k].name) {
        assert t[k] in multiset(t);
        if t[k] != g {
          assert t[k] in multiset(s[1..]);
          var m :| 0 <= m < |s| - 1 && s[1..][m] == t[k];
        }
      }
      SortedCons(s[0], t);
    }
  }

  /** `sort([['name', 'ascending']])`: a stable insertion sort on `name`. */
  function SortByName(s: seq<Genre>): (r: seq<Genre>)
    ensures SortedByName(r)
    ensures multiset(r) == multiset(s)
  {
    if s == [] then []
    else
      var t := SortByName(s[1..]);
      InsertByNameKeepsOrder(s[0], t);
      assert s == [s[0]] + s[1..];
      InsertByName(s[0], t)
  }

  // ---------------------------------------------------------------- URLs of two schemas

  /** A genre URL and an author URL never coincide: their fixed prefixes differ. */
  lemma GenreUrlIsNotAuthorUrl(g: Genre, a: Author)
    ensures GenreModel.Url(g) != AuthorModel.Url(a)
  {
    assert GenreModel.Url(g)[9] == 'g';
    assert AuthorModel.Url(a)[9] == 'a';
  }

  // ---------------------------------------------------------------- handler results

  /** The dashboard's five counts. */
  datatype Counts = Counts(
    bookCount: nat,
    bookInstanceCount: nat,
    bookInstanceAvailableCount: nat,
    authorCount: nat,
    genreCount: nat)

  /** A book projected to `title author`, with the author populated (None for a dangling reference). */
  datatype BookSummary = BookSummary(id: Id, title: string, author: Option<Author>)

  /** A book with `author` and `genre` populated. */
  datatype PopulatedBook = PopulatedBook(
    id: Id, title: string, author: Option<Author>, summary: string, isbn: string, genre: seq<Genre>)

  /** The data a rendered view receives. */
  datatype Page =
    | GenreListPage(genreList: seq<Genre>)
    | GenreDetailPage(genre: Genre, genreBooks: seq<Book>)
    | GenreFormPage(draft: Option<Genre>, errors: Option<seq<ValidationError>>)
    | GenreDeletePage(genreShown: Option<Genre>, books: seq<Book>)
    | IndexPage(error: bool, data: Option<Counts>)
    | BookListPage(bookList: seq<BookSummary>)
    | BookDetailPage(book: PopulatedBook, bookInstances: seq<BookInstance>)
    | BookDeletePage(bookShown: Option<PopulatedBook>, bookInstance: seq<BookInstance>)

  /** Why the store refused a request; the handler hands it to `next`. */
  datatype StoreFailure = QueryFailed | DuplicateKey | SchemaRejected(errors: seq<SchemaError>)

  /** An exception that escapes a handler's callback. */
  datatype JsError =
    | NextIsNotDefined     // ReferenceError: the handler calls `next`, which it does not declare
    | UrlOfNull            // TypeError: reading `url` of the null an update of a missing id returns
    | RendIsNotAFunction   // TypeError: `res.rend`

  /** What a handler does with the request. */
  datatype Response =
    | Rendered(view: string, title: string, page: Page)
    | Redirected(url: string)
    | RedirectedThenRendered(url: string, view: string, title: string, page: Page)  // no return after the redirect
    | NotFound(message: string, status: nat)                                        // `next(err)` with `err.status = 404`
    | StoreError(failure: StoreFailure)                                             // `next(err)` with the store's error
    | Thrown(error: JsError)
}
