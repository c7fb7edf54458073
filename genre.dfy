/** The Genre schema: its one stored field, its required path and its `url` virtual. */
module GenreModel {
  import opened Base

  datatype Genre = Genre(id: Id, name: string)

  const UrlPrefix := "/catalog/genre/"

  /** The `url` virtual: the genre's identifier under the genre path. */
  function Url(g: Genre): (r: string)
    ensures |r| == |UrlPrefix| + |g.id|
    ensures r[..|UrlPrefix|] == UrlPrefix && r[|UrlPrefix|..] == g.id
  {
    UrlPrefix + g.id
  }

  /** Two genres have the same URL exactly when they have the same identifier; the name plays no part. */
  lemma UrlIdentifiesGenre(a: Genre, b: Genre)
    ensures Url(a) == Url(b) <==> a.id == b.id
  {
    if Url(a) == Url(b) {
      assert a.id == Url(a)[|UrlPrefix|..];
    }
  }

  /**
   * Schema validation on save: `name` is required (absent or empty text is
   * rejected). Its `min: 3` and `max: 100` options are number validators,
   * not string-length ones, so any non-empty name is accepted.
   */
  function Validate(name: Option<string>): (errors: seq<SchemaError>)
    ensures errors == [] <==> PresentText(name)
    ensures errors != [] ==> errors == [Required("name")]
  {
    if PresentText(name) then [] else [Required("name")]
  }
}
