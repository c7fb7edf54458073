/**
 * The genre handlers. The three that read only are functions of the store;
 * the three that write (create, update and delete on POST) are methods of
 * `CatalogStore`, which holds the store and changes its genre collection.
 *
 * Four handlers here call `next` without declaring it: when the store
 * reports an error, that call throws a ReferenceError (`Thrown(NextIsNotDefined)`).
 */
module GenreController {
  import opened Base
  import opened JsValues
  import opened Sanitize
  import opened GenreModel
  import opened Catalog

  const GenreListUrl := "/catalog/genres"
  const CreateNameMessage := "Genre name required"
  const UpdateNameMessage := "Name must not be empty."

  /** GET genre list: every genre, ascending by name. */
  function GenreList(db: Store, storeFault: bool): (r: Response)
    ensures storeFault ==> r == Thrown(NextIsNotDefined)
    ensures !storeFault ==> r.Rendered? && r.view == "genre_list" && r.title == "Genre List"
                            && r.page.GenreListPage?
                            && SortedByName(r.page.genreList)
                            && multiset(r.page.genreList) == multiset(db.genres)
  {
    if storeFault then Thrown(NextIsNotDefined)
    else Rendered("genre_list", "Genre List", GenreListPage(SortByName(db.genres)))
  }

  /** GET genre detail: the genre and the books filed under it, or a 404. */
  function GenreDetail(db: Store, id: Id, storeFault: bool): (r: Response)
    ensures storeFault ==> r == StoreError(QueryFailed)
    ensures !storeFault && FindGenre(db.genres, id).None? ==> r == NotFound("Genre not found", 404)
    ensures !storeFault && FindGenre(db.genres, id).Some? ==>
              r.Rendered? && r.view == "genre_detail" && r.title == "Genre Detail" && r.page.GenreDetailPage?
              && r.page.genre == FindGenre(db.genres, id).value && r.page.genre.id == id
              && forall b :: b in r.page.genreBooks <==> b in db.books && id in b.genre
  {
    if storeFault then StoreError(QueryFailed)
    else
      match FindGenre(db.genres, id)
      case None => NotFound("Genre not found", 404)
      case Some(g) => Rendered("genre_detail", "Genre Detail", GenreDetailPage(g, BooksOfGenre(db.books, id)))
  }

  /**
   * GET genre delete form. When the genre is missing the handler redirects
   * to the genre list and, lacking a `return`, goes on to render the delete
   * form with no genre.
   */
  function GenreDeleteGet(db: Store, id: Id, storeFault: bool): (r: Response)
    ensures storeFault ==> r == Thrown(NextIsNotDefined)
    ensures !storeFault ==>
              var books := BooksOfGenre(db.books, id);
              match FindGenre(db.genres, id)
              case None =>
                r == RedirectedThenRendered(GenreListUrl, "genre_delete", "Delete Genre", GenreDeletePage(None, books))
              case Some(g) =>
                r == Rendered("genre_delete", "Delete Genre", GenreDeletePage(Some(g), books)) && g.id == id
  {
    if storeFault then Thrown(NextIsNotDefined)
    else
      var genre := FindGenre(db.genres, id);
      var page := GenreDeletePage(genre, BooksOfGenre(db.books, id));
      if genre.None? then RedirectedThenRendered(GenreListUrl, "genre_delete", "Delete Genre", page)
      else Rendered("genre_delete", "Delete Genre", page)
  }

  /** GET genre update form: the stored genre (possibly none) in the form. */
  function GenreUpdateGet(db: Store, id: Id, storeFault: bool): (r: Response)
    ensures storeFault ==> r == Thrown(NextIsNotDefined)
    ensures !storeFault ==> r == Rendered("genre_form", "Update Genre", GenreFormPage(FindGenre(db.genres, id), None))
    ensures !storeFault && r.page.draft.Some? ==> r.page.draft.value.id == id
  {
    if storeFault then Thrown(NextIsNotDefined)
    else Rendered("genre_form", "Update Genre", GenreFormPage(FindGenre(db.genres, id), None))
  }

  /** `findByIdAndDelete(id)`: the genres without the one whose identifier is `id`. */
  function RemoveGenre(gs: seq<Genre>, id: Id): (r: seq<Genre>)
    ensures forall g :: g in r <==> g in gs && g.id != id
    ensures FindGenre(gs, id).None? ==> r == gs
  {
    if gs == [] then []
    else
      var rest := RemoveGenre(gs[1..], id);
      assert gs == [gs[0]] + gs[1..];
      if gs[0].id == id then rest else [gs[0]] + rest
  }

  /**
   * Over genres with unique identifiers (the `_id` index), a delete keeps them
   * unique, and removes exactly one genre when the identifier is stored.
   */
  lemma {:induction false} RemoveGenreKeepsIdsUnique(gs: seq<Genre>, id: Id)
    requires UniqueGenreIds(gs)
    ensures UniqueGenreIds(RemoveGenre(gs, id))
    ensures FindGenre(gs, id).Some? ==> |RemoveGenre(gs, id)| == |gs| - 1
  {
    if gs != [] {
      var tail := gs[1..];
      var rest := RemoveGenre(tail, id);
      UniqueTail(gs);
      RemoveGenreKeepsIdsUnique(tail, id);
      if gs[0].id == id {
        assert FindGenre(tail, id).None?;
      } else {
        assert forall h :: h in rest ==> h in tail;
        UniqueCons(gs[0], tail, rest);
        if FindGenre(gs, id).Some? {
          FoundInTail(gs, id);
        }
      }
    }
  }

  /** Dropping the first genre keeps ids unique, and no later genre shares the first one's id. */
  lemma UniqueTail(gs: seq<Genre>)
    requires gs != [] && UniqueGenreIds(gs)
    ensures UniqueGenreIds(gs[1..])
    ensures forall k :: 0 <= k < |gs| - 1 ==> gs[1..][k].id != gs[0].id
  {
    var tail := gs[1..];
    forall i, j | 0 <= i < j < |tail|
      ensures tail[i].id != tail[j].id
    {
      assert tail[i] == gs[i + 1] && tail[j] == gs[j + 1];
    }
    forall k | 0 <= k < |tail|
      ensures tail[k].id != gs[0].id
    {
      assert tail[k] == gs[k + 1];
    }
  }

  /** A genre put in front of genres drawn from `tail`, none of which shares its id, keeps ids unique. */
  lemma UniqueCons(g: Genre, tail: seq<Genre>, s: seq<Genre>)
    requires UniqueGenreIds(s)
    requires forall k :: 0 <= k < |tail| ==> tail[k].id != g.id
    requires forall h :: h in s ==> h in tail
    ensures UniqueGenreIds([g] + s)
  {
    var r := [g] + s;
    forall i, j | 0 <= i < j < |r|
      ensures r[i].id != r[j].id
    {
      assert r[j] == s[j - 1];
      if i == 0 {
        assert s[j - 1] in s;
        var k :| 0 <= k < |tail| && tail[k] == s[j - 1];
      } else {
        assert r[i] == s[i - 1];
      }
    }
  }

  /** When the first genre does not have the id, a genre with the id is found in the rest. */
  lemma FoundInTail(gs: seq<Genre>, id: Id)
    requires gs != [] && gs[0].id != id && FindGenre(gs, id).Some?
    ensures FindGenre(gs[1..], id).Some?
  {
    var i :| 0 <= i < |gs| && gs[i] == FindGenre(gs, id).value && gs[i].id == id;
    assert gs[1..][i - 1] == gs[i];
  }

  /** `findByIdAndUpdate(id, { name })`: the genre with identifier `id` takes the new name; its place and id are kept. */
  function RenameGenre(gs: seq<Genre>, id: Id, name: string): (r: seq<Genre>)
    ensures |r| == |gs|
    ensures forall i :: 0 <= i < |gs| ==> r[i].id == gs[i].id
    ensures forall i :: 0 <= i < |gs| ==> r[i] == (if gs[i].id == id then Genre(id, name) else gs[i])
  {
    if gs == [] then []
    else [if gs[0].id == id then Genre(id, name) else gs[0]] + RenameGenre(gs[1..], id, name)
  }

  /** Once a name is stored, a second create with that name finds the stored genre. */
  lemma {:induction false} CreatedGenreIsFoundByName(gs: seq<Genre>, g: Genre)
    requires FindGenreNamed(gs, g.name).None?
    ensures FindGenreNamed(gs + [g], g.name) == Some(g)
  {
    var t := gs + [g];
    assert t[|gs|] == g;
    assert forall j :: 0 <= j < |gs| ==> t[j] == gs[j];
  }

  /** After a genre is deleted its detail page is a 404. */
  lemma DeletedGenreIsNotFound(db: Store, id: Id)
    ensures GenreDetail(db.(genres := RemoveGenre(db.genres, id)), id, false) == NotFound("Genre not found", 404)
  {
    var gs := RemoveGenre(db.genres, id);
    assert forall i :: 0 <= i < |gs| ==> gs[i] in gs;
  }

  /** A rename leaves the genre findable under its identifier, now with the new name. */
  lemma {:induction false} RenamedGenreIsFound(gs: seq<Genre>, id: Id, name: string)
    requires FindGenre(gs, id).Some?
    ensures FindGenre(RenameGenre(gs, id, name), id) == Some(Genre(id, name))
  {
    var r := RenameGenre(gs, id, name);
    if gs[0].id != id {
      assert r[1..] == RenameGenre(gs[1..], id, name);
      RenamedGenreIsFound(gs[1..], id, name);
    }
  }

  /** After a rename the detail page shows the same identifier with the new name. */
  lemma RenamedGenreKeepsId(db: Store, id: Id, name: string)
    requires FindGenre(db.genres, id).Some?
    ensures var after := db.(genres := RenameGenre(db.genres, id, name));
            var r := GenreDetail(after, id, false);
            r.Rendered? && r.page.genre == Genre(id, name)
  {
    RenamedGenreIsFound(db.genres, id, name);
  }

  /** The store the handlers work on. */
  class CatalogStore {
    var db: Store

    /** Genre identifiers are unique, as the store's `_id` index keeps them. */
    ghost predicate Valid()
      reads this
    {
      UniqueGenreIds(db.genres)
    }

    constructor (initial: Store)
      requires UniqueGenreIds(initial.genres)
      ensures Valid() && db == initial
    {
      db := initial;
    }

    /**
     * POST genre create: validate and sanitize `name`, then find-or-create
     * by name. `newId` is the identifier the new document is given when it
     * is built, before anything is saved.
     */
    method GenreCreatePost(rawName: string, newId: Id, storeFault: bool) returns (r: Response)
      requires Valid()
      modifies this
      ensures Valid()
      ensures var name := SanitizeName(rawName);
              var draft := Genre(newId, name);
              if |rawName| == 0 then
                db == old(db)
                && r == Rendered("genre_form", "Create Genre",
                                 GenreFormPage(Some(draft), Some([ValidationError("body", "name", CreateNameMessage, rawName)])))
              else if storeFault then
                db == old(db) && r == StoreError(QueryFailed)
              else if FindGenreNamed(old(db).genres, name).Some? then
                db == old(db) && r == Redirected(Url(FindGenreNamed(old(db).genres, name).value))
              else if name == [] then
                db == old(db) && r == StoreError(SchemaRejected([Required("name")]))
              else if FindGenre(old(db).genres, newId).Some? then
                db == old(db) && r == StoreError(DuplicateKey)
              else
                db == old(db).(genres := old(db).genres + [draft]) && r == Redirected(Url(draft))
    {
      var errors := CheckNotEmpty("name", CreateNameMessage, rawName);
      var name := SanitizeName(rawName);
      var draft := Genre(newId, name);
      if errors != [] {
        r := Rendered("genre_form", "Create Genre", GenreFormPage(Some(draft), Some(errors)));
        return;
      }
      if storeFault {
        r := StoreError(QueryFailed);
        return;
      }
      var found := FindGenreNamed(db.genres, name);
      if found.Some? {
        r := Redirected(Url(found.value));
        return;
      }
      // save(): schema validation, then the insert under the `_id` index
      var schemaErrors := GenreModel.Validate(Some(name));
      if schemaErrors != [] {
        r := StoreError(SchemaRejected(schemaErrors));
        return;
      }
      if FindGenre(db.genres, newId).Some? {
        r := StoreError(DuplicateKey);
        return;
      }
      db := db.(genres := db.genres + [draft]);
      r := Redirected(Url(draft));
    }

    /**
     * POST genre update: validate and sanitize `name`, then write it at
     * `id`. Schema validators do not run on this update, and an invalid
     * submission re-renders the form without its error list.
     */
    method GenreUpdatePost(id: Id, rawName: string, storeFault: bool) returns (r: Response)
      requires Valid()
      modifies this
      ensures Valid()
      ensures var name := SanitizeName(rawName);
              if |rawName| == 0 then
                db == old(db) && r == Rendered("genre_form", "Update Genre", GenreFormPage(Some(Genre(id, name)), None))
              else if storeFault then
                db == old(db) && r == StoreError(QueryFailed)
              else if FindGenre(old(db).genres, id).None? then
                db == old(db) && r == Thrown(UrlOfNull)
              else
                db == old(db).(genres := RenameGenre(old(db).genres, id, name)) && r == Redirected(Url(Genre(id, name)))
    {
      var errors := CheckNotEmpty("name", UpdateNameMessage, rawName);
      var genre := Genre(id, SanitizeName(rawName));
      if errors != [] {
        r := Rendered("genre_form", "Update Genre", GenreFormPage(Some(genre), None));
        return;
      }
      if storeFault {
        r := StoreError(QueryFailed);
        return;
      }
      // the update answers with the document as it was before the write
      var before := FindGenre(db.genres, id);
      if before.None? {
        r := Thrown(UrlOfNull);
        return;
      }
      db := db.(genres := RenameGenre(db.genres, id, genre.name));
      UrlIdentifiesGenre(before.value, genre);
      r := Redirected(Url(before.value));
    }

    /**
     * POST genre delete. The dependents guard compares the list of books
     * with 0, which is never greater (`DocumentListNeverAboveZero`), so the
     * genre named by the body's `genreid` is deleted whatever books are
     * filed under it; the books looked up by the route's id go unused.
     */
    method GenreDeletePost(paramsId: Id, bodyGenreId: Id, storeFault: bool) returns (r: Response)
      requires Valid()
      modifies this
      ensures Valid()
      ensures storeFault ==> db == old(db) && r == Thrown(NextIsNotDefined)
      ensures !storeFault ==> db == old(db).(genres := RemoveGenre(old(db).genres, bodyGenreId))
                              && r == Redirected(GenreListUrl)
    {
      if storeFault {
        r := Thrown(NextIsNotDefined);
        return;
      }
      var books := BooksOfGenre(db.books, paramsId);
      DocumentListNeverAboveZero(|books|);
      if GreaterThan(DocumentListToNumber(|books|), 0) {
        // would render the delete form through `res.rend`, which does not exist
        r := Thrown(RendIsNotAFunction);
        return;
      }
      RemoveGenreKeepsIdsUnique(db.genres, bodyGenreId);
      db := db.(genres := RemoveGenre(db.genres, bodyGenreId));
      r := Redirected(GenreListUrl);
    }
  }
}
