/** Vocabulary shared by every module of the catalog model. */
module Base {

  datatype Option<+T> = None | Some(value: T)

  /** A document identifier: a store-assigned ObjectId, in its string form. */
  type Id = string

  /** One failed check of express-validator, as `validationResult(req).array()` lists it. */
  datatype ValidationError = ValidationError(location: string, param: string, msg: string, value: string)

  /** One failed Mongoose schema validator; `required` is the only kind the schemas here enforce. */
  datatype SchemaError = Required(path: string)

  /** The text of a string-typed schema path that may be absent from a document. */
  predicate PresentText(s: Option<string>)
  {
    s.Some? && |s.value| > 0
  }
}
