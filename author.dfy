/** The Author schema: its stored fields, required paths and derived (virtual) fields. */
module AuthorModel {
  import opened Base
  import opened JsValues
  import opened Moment

  /** A stored author; an absent date is `None` (the document has no such field). */
  datatype Author = Author(
    id: Id,
    firstName: string,
    familyName: string,
    dateOfBirth: Option<Date>,
    dateOfDeath: Option<Date>)

  const UrlPrefix := "/catalog/author/"

  /** The `name` virtual: family name, a comma and a space, then the first name. */
  function Name(a: Author): (r: string)
    ensures |r| == |a.familyName| + 2 + |a.firstName|
    ensures r[..|a.familyName|] == a.familyName
    ensures r[|a.familyName|..|a.familyName| + 2] == ", "
    ensures r[|a.familyName| + 2..] == a.firstName
  {
    a.familyName + ", " + a.firstName
  }

  /** `Date.prototype.getYear`: the year less 1900. */
  function GetYear(d: Date): (y: int)
    ensures y + 1900 == d.year
  {
    d.year - 1900
  }

  /** The `lifespan` virtual. */
  function Lifespan(a: Author): (r: string)
    ensures a.dateOfBirth.None? ==> r == "No clue"
    ensures a.dateOfBirth.Some? && a.dateOfDeath.None? ==> r == "Still kickin"
    ensures a.dateOfBirth.Some? && a.dateOfDeath.Some? ==>
              ParseInt(r) == Some(a.dateOfDeath.value.year - a.dateOfBirth.value.year)
              && CanonicalDecimal(r)
  {
    if a.dateOfBirth.None? then "No clue"
    else if a.dateOfDeath.None? then "Still kickin"
    else IntToDecimal(GetYear(a.dateOfDeath.value) - GetYear(a.dateOfBirth.value))
  }

  /** The `url` virtual: the author's identifier under the author path. */
  function Url(a: Author): (r: string)
    ensures |r| == |UrlPrefix| + |a.id|
    ensures r[..|UrlPrefix|] == UrlPrefix && r[|UrlPrefix|..] == a.id
  {
    UrlPrefix + a.id
  }

  /** Formats a date that may be absent: the empty string when it is absent. */
  function FormatOptional(d: Option<Date>, long: bool): (r: string)
    ensures r == "" <==> d.None?
  {
    match d
    case None => ""
    case Some(date) => if long then FormatLong(date) else FormatIso(date)
  }

  /** The `birth` virtual ('MMMM Do, YYYY'). */
  function Birth(a: Author): (r: string)
    ensures r == "" <==> a.dateOfBirth.None?
    ensures a.dateOfBirth.Some? ==> r == FormatLong(a.dateOfBirth.value)
  {
    FormatOptional(a.dateOfBirth, true)
  }

  /** The `death` virtual ('MMMM Do, YYYY'). */
  function Death(a: Author): (r: string)
    ensures r == "" <==> a.dateOfDeath.None?
    ensures a.dateOfDeath.Some? ==> r == FormatLong(a.dateOfDeath.value)
  {
    FormatOptional(a.dateOfDeath, true)
  }

  /** The `date_of_birth_mm_dd_yyyy` virtual ('YYYY-MM-DD'). */
  function DateOfBirthIso(a: Author): (r: string)
    ensures r == "" <==> a.dateOfBirth.None?
    ensures a.dateOfBirth.Some? ==> r == FormatIso(a.dateOfBirth.value)
  {
    FormatOptional(a.dateOfBirth, false)
  }

  /** The `date_of_death_mm_dd_yyyy` virtual ('YYYY-MM-DD'). */
  function DateOfDeathIso(a: Author): (r: string)
    ensures r == "" <==> a.dateOfDeath.None?
    ensures a.dateOfDeath.Some? ==> r == FormatIso(a.dateOfDeath.value)
  {
    FormatOptional(a.dateOfDeath, false)
  }

  /**
   * Schema validation on save: `first_name` and `family_name` are required,
   * which for a string path rejects an absent value and the empty string.
   * The `max: 100` option is not a string validator and enforces nothing.
   */
  function Validate(firstName: Option<string>, familyName: Option<string>): (errors: seq<SchemaError>)
    ensures errors == [] <==> PresentText(firstName) && PresentText(familyName)
    ensures Required("first_name") in errors <==> !PresentText(firstName)
    ensures Required("family_name") in errors <==> !PresentText(familyName)
    ensures forall e :: e in errors ==> e == Required("first_name") || e == Required("family_name")
  {
    (if PresentText(firstName) then [] else [Required("first_name")])
    + (if PresentText(familyName) then [] else [Required("family_name")])
  }
}
