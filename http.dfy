/** The HTTP responses the controllers produce. */
module Http {
  import opened Wrappers
  import opened Query
  import opened Json
  import opened Requests

  /**
   * A response: a single resource (wrapped in "data"), one page of a
   * resource collection with its pagination meta, an empty 204, or one of
   * the error responses (403 from a policy or authorize(), 404 from route
   * model binding or a lookup, 422 with the failing fields' messages).
   */
  datatype Response =
    | Ok(data: Json)
    | Created(data: Json)
    | Page(items: seq<Json>, meta: PageMeta)
    | NoContent
    | Forbidden
    | NotFound(message: Option<string>)
    | Invalid(errors: seq<(string, Message)>)

  function Status(r: Response): nat {
    match r
    case Ok(_) => 200
    case Created(_) => 201
    case Page(_, _) => 200
    case NoContent => 204
    case Forbidden => 403
    case NotFound(_) => 404
    case Invalid(_) => 422
  }

  /** The 422 body: each failing rule's field with its message, in validation order. */
  function ErrorMessages(errs: seq<FieldError>, custom: map<string, string>): (ms: seq<(string, Message)>)
    ensures |ms| == |errs|
    ensures forall i :: 0 <= i < |errs| ==> ms[i] == (errs[i].field, MessageFor(errs[i], custom))
  {
    seq(|errs|, i requires 0 <= i < |errs| => (errs[i].field, MessageFor(errs[i], custom)))
  }
}
