# Local library catalog: genre and book controllers

A Dafny model of the rules under the local-library catalog's Express handlers and
Mongoose schemas: the genre handlers (list, detail, find-or-create, update, delete),
the implemented book handlers (the five-count dashboard, list, detail, the two
delete handlers) and the derived fields of the Author and Genre schemas.

The store is a value, `Catalog.Store`: one sequence of documents per collection
(genres, books, authors, book instances) in the collection's natural order. Its
queries are functions: `findOne` is the first match, `find` a filter, `countDocuments`
a count, `sort` on name a stable insertion sort, and `populate` a lookup join that
yields `None` (for `author`) or drops the entry (for `genre`) when a reference
dangles. Read-only handlers are functions of the store. The three genre handlers
that write are methods of `GenreController.CatalogStore`, which holds the store in a
field and keeps genre identifiers unique (the `_id` index).

A handler's answer is a `Catalog.Response`: `Rendered(view, title, page)`,
`Redirected(url)`, `RedirectedThenRendered` (a redirect with no `return` after it,
so the handler also renders), `NotFound(message, 404)`, `StoreError(failure)` (the
error passed to `next`), or `Thrown(error)` for an exception that escapes a callback.
A store error is the `storeFault` parameter of each handler.

Behaviour reproduced as the code is written, where it differs from what the
handlers' comments and the schema's options suggest was intended:

- `genre_list`, `genre_delete_get`, `genre_delete_post`, `genre_update_get` and
  `book_delete_post` call `next` without declaring it. A store error there throws a
  ReferenceError: `Thrown(NextIsNotDefined)`.
- `genre_delete_get` and `book_delete_get` redirect when the entity is missing and
  then render anyway: `RedirectedThenRendered`.
- The dependents guards compare a list of documents with `0`. A list converts to
  `""` (the number 0) or to non-numeric text (NaN), so the comparison is never
  true (`JsValues.DocumentListNeverAboveZero`). Genre delete therefore removes the
  genre named by the body's `genreid` even when books are filed under it. The
  handler's comments intend such a delete to be refused; this model keeps the
  code's behaviour. The `res.rend` branches are unreachable.
- `book_delete_post` looks the book up by `req.param.id`, which is undefined, so
  that lookup finds nothing. Its delete is commented out, so it writes nothing and
  always redirects to `/catalog/books`.
- The genre schema's `min: 3, max: 100` are not string-length validators, so only
  presence of `name` is enforced, not a length of 3 to 100 characters.
- The name pipeline runs in declaration order, as express-validator 6 runs a
  chain. So `isLength({ min: 1 })` sees the submitted text, and only then is it
  trimmed and escaped. A whitespace-only name passes the check. On create it is
  then rejected by the schema's `required` on save (`StoreError(SchemaRejected)`),
  unless a genre named `""` already exists, in which case the lookup by name finds
  it and the handler redirects to that genre. On update no schema validator runs,
  so the empty name is stored, which is how a genre named `""` can come to exist.
- An update of a missing id gets `null` back from `findByIdAndUpdate`, and reading
  its `url` throws: `Thrown(UrlOfNull)`. On success the returned document is the
  one before the write; its URL is the same, since a URL depends only on the id.
- An invalid update re-renders the form without its error list (the create form
  receives it).

## Model

| member | source | states |
|---|---|---|
| `JsValues.IntToDecimal` | models/author.js:33 | the text is the canonical decimal form of the integer (a '-' exactly for negatives, no leading zeros, no "-0") and reads back as that integer |
| `JsValues.CanonicalDecimalUnique` | models/author.js:33 | two canonical decimal texts that read back as the same integer are equal, so the text of a number is fixed |
| `JsValues.DocumentListToNumber` | controllers/genreController.js:135 | a list of documents converts to the number 0 exactly when it is empty; otherwise to NaN, since a document's text is not numeric (the same conversion happens in the guard at controllers/bookController.js:127) |
| `JsValues.GreaterThan` | controllers/genreController.js:135 | `>` on a number can be true only when the number is not NaN |
| `JsValues.DocumentListNeverAboveZero` | controllers/genreController.js:135 | a list of documents compared with `> 0` is false for every length, so the guard never fires |
| `Sanitize.Trim` | controllers/genreController.js:56 | the result has no JS whitespace at either end, is no longer than the input, and is empty exactly when the input is all whitespace |
| `Sanitize.TrimKeepsMiddle` | controllers/genreController.js:56 | trimming removes only whitespace: the input is some whitespace, then the trimmed text, then more whitespace |
| `Sanitize.TrimIdempotent` | controllers/genreController.js:167 | trimming a trimmed name changes nothing |
| `Sanitize.Escape` | controllers/genreController.js:59 | the escaped text contains none of the markup characters and is at least as long as the input |
| `Sanitize.EscapeReadsBack` | controllers/genreController.js:170 | decoding the entities of the escaped text gives back the input exactly |
| `Sanitize.CheckNotEmpty` | controllers/genreController.js:56 | no error exactly when the value has at least one character; otherwise one error carrying the field, message and value |
| `Sanitize.SanitizeName` | controllers/genreController.js:56-59 | the stored name decodes to the trimmed submission and is empty exactly when the submission is all whitespace |
| `Moment.FormatLong` | models/author.js:46 | 'MMMM Do, YYYY' text starts with the English month name and is never empty |
| `Moment.FormatIso` | models/author.js:58 | 'YYYY-MM-DD' text is never empty; for years 0..9999 it is 10 characters with dashes at positions 4 and 7 |
| `AuthorModel.Name` | models/author.js:16-20 | the name is the family name, then ", ", then the first name |
| `AuthorModel.GetYear` | models/author.js:33 | `getYear` is the full year less 1900 |
| `AuthorModel.Lifespan` | models/author.js:23-34 | "No clue" without a birth date whatever the death date; "Still kickin" with a birth date and no death date; otherwise the canonical decimal text of death year minus birth year (the 1900 offsets of `getYear` cancel) |
| `AuthorModel.Url` | models/author.js:37-41 | the URL is "/catalog/author/" followed by the author's id |
| `AuthorModel.Birth` | models/author.js:43-47 | "" exactly when there is no birth date; otherwise the long date |
| `AuthorModel.Death` | models/author.js:49-53 | "" exactly when there is no death date; otherwise the long date |
| `AuthorModel.DateOfBirthIso` | models/author.js:55-59 | "" exactly when there is no birth date; otherwise the ISO date |
| `AuthorModel.DateOfDeathIso` | models/author.js:61-65 | "" exactly when there is no death date; otherwise the ISO date |
| `AuthorModel.Validate` | models/author.js:6-13 | saving is rejected exactly when `first_name` or `family_name` is absent or empty, with one `required` error per missing path |
| `GenreModel.Url` | models/genre.js:13-16 | the URL is "/catalog/genre/" followed by the genre's id |
| `GenreModel.UrlIdentifiesGenre` | models/genre.js:15 | two genres have the same URL exactly when they have the same id, so distinct ids give distinct URLs |
| `GenreModel.Validate` | models/genre.js:5-9 | saving is rejected exactly when `name` is absent or empty; any non-empty name is accepted, so the 3..100 bounds are not enforced |
| `Catalog.GenreUrlIsNotAuthorUrl` | models/genre.js:15 | no genre URL equals an author URL (models/author.js:40), because the prefixes differ |
| `Catalog.Filter` | controllers/genreController.js:30 | `find` keeps exactly the matching documents, each no more often than stored, and never more of them than are stored |
| `Catalog.Count` | controllers/bookController.js:12-24 | `countDocuments` is the number of documents `find` would return with the same filter, never more than are stored |
| `Catalog.FindFirst` | controllers/genreController.js:81 | `findOne` answers None exactly when no document matches, and otherwise the first match in store order |
| `Catalog.BooksOfGenre` | controllers/genreController.js:30-31 | the books found are exactly the stored books whose genre list holds the id |
| `Catalog.InstancesOfBook` | controllers/bookController.js:57-58 | the copies found are exactly the stored copies whose `book` is the id |
| `Catalog.PopulateGenres` | controllers/bookController.js:52 | every populated genre is stored and referenced by the book, and every reference that resolves is present |
| `Catalog.NameLe` | controllers/genreController.js:11 | the ascending order on names: a prefix sorts first (so every name sorts with itself), and a non-empty name sorts only before a non-empty name with an equal or greater first character |
| `Catalog.NameLeAntisymmetric` | controllers/genreController.js:11 | two names that each sort before the other are equal |
| `Catalog.SortByName` | controllers/genreController.js:11 | the result is sorted ascending by name and is a permutation of the input |
| `GenreController.GenreList` | controllers/genreController.js:9-18 | renders every stored genre, each once, in ascending name order; a store error throws because `next` is undeclared |
| `GenreController.GenreDetail` | controllers/genreController.js:21-45 | an unknown id gives NotFound with status 404; otherwise the genre with that id and exactly the books filed under it; a store error goes to `next` |
| `GenreController.GenreDeleteGet` | controllers/genreController.js:105-121 | a missing genre redirects to the genre list and still renders the form without a genre; otherwise renders the genre and its books |
| `GenreController.GenreUpdateGet` | controllers/genreController.js:152-161 | renders the update form with the genre stored under the id, or none |
| `GenreController.RemoveGenre` | controllers/genreController.js:142 | removes exactly the genre with the id: every other genre is kept, and nothing changes when the id was not stored |
| `GenreController.RemoveGenreKeepsIdsUnique` | controllers/genreController.js:142 | over genres with unique ids, a delete keeps ids unique and removes exactly one genre when the id is stored |
| `GenreController.RenameGenre` | controllers/genreController.js:187 | only the genre with the id changes, it takes the new name, and every position keeps its id |
| `GenreController.CreatedGenreIsFoundByName` | controllers/genreController.js:81-95 | after a fresh name is inserted, a second create with that name finds the inserted genre, so it inserts nothing more |
| `GenreController.DeletedGenreIsNotFound` | controllers/genreController.js:142 | after a delete, the genre's detail page is NotFound with status 404 |
| `GenreController.RenamedGenreIsFound` | controllers/genreController.js:178-187 | after a rename, the lookup by id finds the genre with the same id and the new name |
| `GenreController.RenamedGenreKeepsId` | controllers/genreController.js:178-192 | after a rename, the detail page shows a genre with the same id and the new name |
| `GenreController.CatalogStore.GenreCreatePost` | controllers/genreController.js:53-102 | an empty submission changes nothing and re-renders the sanitized draft with its one error; an existing name changes nothing and redirects to that genre; a fresh valid name appends exactly one genre with the new id and redirects to its URL; schema, duplicate-key and store failures change nothing |
| `GenreController.CatalogStore.GenreUpdatePost` | controllers/genreController.js:164-196 | an empty submission changes nothing and re-renders the form; a valid one writes the sanitized name at the same id and position, adds no id, and redirects to that id's URL; a missing id changes nothing and throws |
| `GenreController.CatalogStore.GenreDeletePost` | controllers/genreController.js:124-149 | removes exactly the genre named by `genreid`, whatever books it has, and redirects to the genre list; a store error changes nothing and throws |
| `BookController.Dashboard` | controllers/bookController.js:10-25 | the book, copy, author and genre counts are the collection sizes; the available count counts only copies with status Available and never exceeds the copy count |
| `BookController.StatusCountsAddUp` | controllers/bookController.js:15-18 | the four per-status counts add up to the total copy count |
| `BookController.Index` | controllers/bookController.js:8-29 | renders the home page with the dashboard counts, or with the error flag when a count fails |
| `BookController.Summaries` | controllers/bookController.js:34-36 | one summary per stored book, in order, with its id, title and the author its reference resolves to |
| `BookController.BookList` | controllers/bookController.js:32-42 | renders one summary per stored book; a store error goes to `next` |
| `BookController.Populate` | controllers/bookController.js:50-53 | the populated book keeps the book's fields; its author is present exactly when the reference resolves; its genres are stored genres the book references, and every genre reference that resolves is among them |
| `BookController.BookDetail` | controllers/bookController.js:45-71 | an unknown id gives NotFound with status 404; otherwise the populated book with that id, titled by its title, and exactly the copies whose `book` is the id |
| `BookController.BookDeleteGet` | controllers/bookController.js:84-108 | a missing book redirects to the book list and still renders the form; otherwise renders the populated book and its copies |
| `BookController.BookDeletePost` | controllers/bookController.js:111-144 | without a store error it always redirects to the book list and yields no new store; a store error throws because `next` is undeclared |

## Left out

- Mongo I/O, `exec` callbacks and `async.parallel`: each aggregation is its reads evaluated one after another over one store value; a store error is the `storeFault` parameter, and one flag covers every query of a handler.
- The find-then-insert race of genre create and the check-then-delete race: concurrency cannot be expressed in this sequential model.
- Identifier casting: ids are opaque strings, so a malformed id (a CastError) and a missing `genreid` body field are not modelled.
- `BookController.Index`: when a count fails, the partial results `async.parallel` hands over are not modelled; the page carries only the error flag.
- `Sanitize.Trim`: that the input is whitespace, then the result, then whitespace is stated by the lemma `Sanitize.TrimKeepsMiddle` rather than as an `ensures` of `Trim`, so that proofs using `Trim` do not carry the existential.
- `Moment.FormatLong` and `Moment.FormatIso`: moment's English locale is assumed, and a date is already its local year, month and day; converting a stored instant in the server's time zone is not modelled.
- The absent form field: a missing `name` is modelled as the empty string, which is what the validators see.
- `genre_create_get`, which only renders an empty form, and the unimplemented `book_create_*` and `book_update_*` handlers.
- `console.log` in `book_delete_post`: its `bodyBookId` argument is accepted and unused.
- Rendering, HTTP status handling and view templates: responses are tagged values.
- models/book.js and models/bookinstance.js are not part of this model; books and copies carry only the fields the handlers use.
