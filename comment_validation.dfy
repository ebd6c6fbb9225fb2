/**
 * `createCommentSchema`: the request validator for a new comment. Each key is
 * checked in schema order and the first error is reported, as the schema
 * library does by default; keys the schema does not declare are refused after
 * the declared ones.
 */
module CommentValidation {
  import opened Wrappers
  import opened CommentModel

  /** One property of the JSON request body. */
  datatype JsonField = Missing | Str(s: string) | NonString

  /** The request body: `body`, `type`, and the names of any other keys. */
  datatype CommentRequest = CommentRequest(body: JsonField, kind: JsonField, otherKeys: seq<string>)

  const BodyMax := 2000

  /** `body: Joi.string().min(1).max(2000).required()`; the empty string fails as empty before `min` is tried. */
  function BodyError(body: JsonField): (e: Option<string>)
    ensures e.None? <==> body.Str? && 1 <= |body.s| <= BodyMax
  {
    match body
    case Missing => Some("\"body\" is required")
    case NonString => Some("\"body\" must be a string")
    case Str(s) =>
      if s == "" then Some("\"body\" is not allowed to be empty")
      else if |s| > BodyMax then Some("\"body\" length must be less than or equal to 2000 characters long")
      else None
  }

  /** `type: Joi.string().valid("public", "internal").required()`: no default stands in for a missing type. */
  function TypeError(kind: JsonField): (e: Option<string>)
    ensures e.None? <==> kind == Str("public") || kind == Str("internal")
  {
    match kind
    case Missing => Some("\"type\" is required")
    case _ =>
      if kind == Str("public") || kind == Str("internal") then None
      else Some("\"type\" must be one of [public, internal]")
  }

  /** `createCommentSchema.validate(req.body)`: `None` when accepted, else the first error's message. */
  function CreateCommentSchema(req: CommentRequest): (e: Option<string>)
    ensures e.None? <==>
      && req.body.Str? && 1 <= |req.body.s| <= 2000
      && (req.kind == Str("public") || req.kind == Str("internal"))
      && req.otherKeys == []
    ensures BodyError(req.body).Some? ==> e == BodyError(req.body)
  {
    if BodyError(req.body).Some? then BodyError(req.body)
    else if TypeError(req.kind).Some? then TypeError(req.kind)
    else if req.otherKeys != [] then Some("\"" + req.otherKeys[0] + "\" is not allowed")
    else None
  }

  /** A request the schema accepts always makes a comment the Comment schema accepts too. */
  lemma AcceptedRequestMakesValidComment(req: CommentRequest, id: nat, ticketId: nat, createdBy: nat)
    requires CreateCommentSchema(req).None?
    ensures SchemaAccepts(NewComment(id, ticketId, req.body.s, Some(req.kind.s), createdBy))
  {
  }
}
