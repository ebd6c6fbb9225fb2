/** The Comment document: its fields, the schema's validators and its default. */
module CommentModel {
  import opened Wrappers

  /** The schema's `type` enum. */
  const CommentTypes: set<string> := {"public", "internal"}

  /** A stored comment; `kind` is the document's `type` field. */
  datatype Comment = Comment(
    id: nat,
    ticketId: nat,
    body: string,
    kind: string,
    createdBy: nat,
    createdAt: nat)

  /** The schema's validators: body length 1 to 2000, `type` from the enum. */
  predicate SchemaAccepts(c: Comment) {
    1 <= |c.body| <= 2000 && c.kind in CommentTypes
  }

  /** The document `Comment.create` builds: an absent type takes the default `public`. */
  function NewComment(id: nat, ticketId: nat, body: string, kind: Option<string>, createdBy: nat): (c: Comment)
    ensures c.id == id && c.createdAt == id && c.ticketId == ticketId && c.createdBy == createdBy && c.body == body
    ensures kind.None? ==> c.kind == "public"
    ensures kind.Some? ==> c.kind == kind.value
  {
    Comment(id, ticketId, body, kind.GetOr("public"), createdBy, id)
  }

  /** Left to its default, a comment is accepted exactly when its body length is. */
  lemma DefaultTypeAccepted(id: nat, ticketId: nat, body: string, createdBy: nat)
    ensures SchemaAccepts(NewComment(id, ticketId, body, None, createdBy)) <==> 1 <= |body| <= 2000
  {
  }
}
