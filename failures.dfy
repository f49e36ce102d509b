/** Everything a service call can fail with: an application error, a database error passed on
    untranslated (its text), the schema's validation errors, or an undecodable cached snapshot. */
module Failures {
  import opened UserSchemas
  import opened Exceptions

  datatype Exc =
    | App(err: AppError)
    | Integrity(text: string)
    | Database(text: string)
    | Validation(errors: set<FieldError>)
    | JsonDecode
}
