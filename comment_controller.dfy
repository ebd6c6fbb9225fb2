/**
 * The comment controller over the ticket and comment collections. A comment's
 * parent ticket is looked up under the same read rule as `getTicketById`.
 */
module CommentController {
  import opened Wrappers
  import opened Http
  import opened TicketModel
  import opened CommentModel
  import opened CommentValidation
  import TicketController

  const InternalRefused: Failure := Reply(403, "Customers cannot create internal notes")

  /** A ticket together with the comments its reader may see. */
  datatype TicketThread = TicketThread(ticket: Ticket, comments: seq<Comment>)

  /** What the comment collection keeps true: every comment stamped, valid, below the clock and on an existing ticket. */
  ghost predicate WellFormed(tickets: map<nat, Ticket>, comments: map<nat, Comment>, clock: nat) {
    forall id :: id in comments ==>
      && id < clock && comments[id].id == id && comments[id].createdAt == id
      && CommentModel.SchemaAccepts(comments[id]) && comments[id].ticketId in tickets
  }

  /** The comment filter: the parent ticket, and for a customer public comments only. */
  predicate Listed(caller: Claims, ticketId: nat, c: Comment) {
    c.ticketId == ticketId && (caller.role == Customer ==> c.kind == "public")
  }

  /** The comments below id `n` that pass the filter, lowest id first. */
  function OldestFirst(comments: map<nat, Comment>, n: nat, caller: Claims, ticketId: nat): (r: seq<Comment>)
    requires forall id :: id in comments ==> comments[id].id == id && comments[id].createdAt == id
    ensures forall i :: 0 <= i < |r| ==>
      r[i].id < n && r[i].id in comments && comments[r[i].id] == r[i] && Listed(caller, ticketId, r[i])
    ensures forall id :: id in comments && id < n && Listed(caller, ticketId, comments[id]) ==> comments[id] in r
    ensures forall i, j :: 0 <= i < j < |r| ==> r[i].createdAt < r[j].createdAt
    decreases n
  {
    if n == 0 then []
    else
      var earlier := OldestFirst(comments, n - 1, caller, ticketId);
      if n - 1 in comments && Listed(caller, ticketId, comments[n - 1]) then earlier + [comments[n - 1]] else earlier
  }

  /**
   * `addComment`: the request schema first, then the parent ticket's 404 and
   * 403, then, only for a customer allowed to read it, the refusal of an
   * internal note; a refused request stores nothing.
   */
  function AddComment(
    tickets: map<nat, Ticket>, comments: map<nat, Comment>, clock: nat,
    caller: Claims, ticketId: nat, req: CommentRequest)
    : (o: (Result<Comment>, map<nat, Comment>))
    requires WellFormed(tickets, comments, clock)
    ensures CreateCommentSchema(req).Some? ==> o.0 == Err(Reply(400, CreateCommentSchema(req).value))
    ensures CreateCommentSchema(req).None? && ticketId !in tickets ==> o.0 == Err(NotFound)
    ensures CreateCommentSchema(req).None? && ticketId in tickets && !TicketController.CanRead(caller, tickets[ticketId]) ==>
      o.0 == Err(AccessDenied)
    ensures (CreateCommentSchema(req).None? && ticketId in tickets && TicketController.CanRead(caller, tickets[ticketId])
      && caller.role == Customer && req.kind == Str("internal")) ==> o.0 == Err(InternalRefused)
    ensures o.0.Err? ==> o.1 == comments
    ensures o.0.Ok? <==>
      && CreateCommentSchema(req).None? && ticketId in tickets && TicketController.CanRead(caller, tickets[ticketId])
      && !(caller.role == Customer && req.kind == Str("internal"))
    ensures o.0.Ok? ==>
      var c := o.0.value;
      && clock !in comments && o.1 == comments[clock := c]
      && c.id == clock && c.ticketId == ticketId && c.createdBy == caller.userId
      && Str(c.body) == req.body && Str(c.kind) == req.kind
    ensures o.0.Ok? && caller.role == Customer ==> o.0.value.kind == "public"
    ensures WellFormed(tickets, o.1, if o.0.Ok? then clock + 1 else clock)
  {
    var invalid := CreateCommentSchema(req);
    if invalid.Some? then (Err(Reply(400, invalid.value)), comments)
    else
      match TicketController.GetTicketById(tickets, caller, ticketId)
      case Err(f) => (Err(f), comments)
      case Ok(_) =>
        if caller.role == Customer && req.kind == Str("internal") then (Err(InternalRefused), comments)
        else
          // the parent's `_id` is the id it was found under
          AcceptedRequestMakesValidComment(req, clock, ticketId, caller.userId);
          var c := NewComment(clock, ticketId, req.body.s, Some(req.kind.s), caller.userId);
          (Ok(c), comments[clock := c])
  }

  /**
   * `getTicketWithComments`: the parent ticket's 404 and 403 come before any
   * comment is looked at; then its comments, public ones only for a customer,
   * oldest first.
   */
  function GetTicketWithComments(
    tickets: map<nat, Ticket>, comments: map<nat, Comment>, clock: nat, caller: Claims, ticketId: nat)
    : (r: Result<TicketThread>)
    requires WellFormed(tickets, comments, clock)
    ensures r.Err? <==> TicketController.GetTicketById(tickets, caller, ticketId).Err?
    ensures r.Err? ==> r.failure == TicketController.GetTicketById(tickets, caller, ticketId).failure
    ensures r.Ok? ==> r.value.ticket == tickets[ticketId]
    ensures r.Ok? ==> forall c :: c in r.value.comments ==>
      c.id in comments && comments[c.id] == c && c.ticketId == ticketId
    ensures r.Ok? && caller.role == Customer ==> forall c :: c in r.value.comments ==> c.kind == "public"
    ensures r.Ok? ==> forall id :: id in comments && Listed(caller, ticketId, comments[id]) ==> comments[id] in r.value.comments
    ensures r.Ok? ==> forall i, j :: 0 <= i < j < |r.value.comments| ==>
      r.value.comments[i].createdAt < r.value.comments[j].createdAt
  {
    match TicketController.GetTicketById(tickets, caller, ticketId)
    case Err(f) => Err(f)
    case Ok(ticket) => Ok(TicketThread(ticket, OldestFirst(comments, clock, caller, ticketId)))
  }

  /** For staff the thread holds every comment on the ticket, internal notes included. */
  lemma StaffSeeEveryComment(
    tickets: map<nat, Ticket>, comments: map<nat, Comment>, clock: nat, caller: Claims, ticketId: nat, id: nat)
    requires WellFormed(tickets, comments, clock)
    requires caller.role != Customer && ticketId in tickets
    requires id in comments && comments[id].ticketId == ticketId
    ensures GetTicketWithComments(tickets, comments, clock, caller, ticketId).Ok?
    ensures comments[id] in GetTicketWithComments(tickets, comments, clock, caller, ticketId).value.comments
  {
  }

  /** A ticket write that keeps every ticket id and does not move the clock back keeps the comments well formed. */
  lemma WellFormedAfterTicketWrite(
    tickets: map<nat, Ticket>, tickets': map<nat, Ticket>, comments: map<nat, Comment>, clock: nat, clock': nat)
    requires WellFormed(tickets, comments, clock)
    requires tickets.Keys <= tickets'.Keys && clock <= clock'
    ensures WellFormed(tickets', comments, clock')
  {
  }

  /** A comment that was just added is at the end of its author's view of the thread. */
  lemma AddedCommentEndsThread(
    tickets: map<nat, Ticket>, comments: map<nat, Comment>, clock: nat,
    caller: Claims, ticketId: nat, req: CommentRequest)
    requires WellFormed(tickets, comments, clock)
    requires AddComment(tickets, comments, clock, caller, ticketId, req).0.Ok?
    ensures
      var (r, after) := AddComment(tickets, comments, clock, caller, ticketId, req);
      var thread := GetTicketWithComments(tickets, after, clock + 1, caller, ticketId);
      thread.Ok? && |thread.value.comments| > 0 && thread.value.comments[|thread.value.comments| - 1] == r.value
  {
    var (r, after) := AddComment(tickets, comments, clock, caller, ticketId, req);
    assert Listed(caller, ticketId, r.value);
  }
}
