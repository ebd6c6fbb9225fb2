/**
 * The database the controllers run against, held in memory: the three
 * collections and one counter that hands out ids and creation stamps. Each
 * request handler is one atomic method (or, when it only reads, a function).
 */
module Store {
  import opened Wrappers
  import opened Http
  import opened StatusTransition
  import opened TicketModel
  import opened CommentModel
  import opened CommentValidation
  import opened RoleMiddleware
  import TicketController
  import CommentController
  import AuthController

  class Database {
    var tickets: map<nat, Ticket>
    var comments: map<nat, Comment>
    var users: map<nat, AuthController.User>
    var clock: nat

    ghost predicate Valid()
      reads this
    {
      && TicketController.WellFormed(tickets, clock)
      && CommentController.WellFormed(tickets, comments, clock)
      && AuthController.WellFormed(users, clock)
    }

    constructor ()
      ensures Valid()
      ensures tickets == map[] && comments == map[] && users == map[] && clock == 0
    {
      tickets, comments, users, clock := map[], map[], map[], 0;
    }

    /** `POST /tickets`. */
    method CreateTicket(caller: Claims, req: TicketController.TicketRequest, schemaError: Option<string>)
      returns (r: Result<Ticket>)
      requires Valid()
      modifies this
      ensures Valid()
      ensures (r, tickets) == TicketController.CreateTicket(old(tickets), old(clock), caller, req, schemaError)
      ensures clock == if r.Ok? then old(clock) + 1 else old(clock)
      ensures comments == old(comments) && users == old(users)
    {
      if schemaError.Some? {
        return Err(Reply(400, schemaError.value));
      }
      var ticket := NewTicket(clock, req.title, req.description, req.priority, None, caller.userId, None, req.tags);
      if !TicketModel.SchemaAccepts(ticket) {
        return Err(Raised(TicketController.SchemaRejected));
      }
      CommentController.WellFormedAfterTicketWrite(tickets, tickets[clock := ticket], comments, clock, clock + 1);
      tickets := tickets[clock := ticket];
      clock := clock + 1;
      r := Ok(ticket);
    }

    /** `GET /tickets`. */
    function GetTickets(caller: Claims): seq<Ticket>
      reads this
      requires Valid()
    {
      TicketController.GetTickets(tickets, clock, caller)
    }

    /** `GET /tickets/:id`. */
    function GetTicketById(caller: Claims, id: nat): Result<Ticket>
      reads this
    {
      TicketController.GetTicketById(tickets, caller, id)
    }

    /** `changeTicketStatus`: the loaded ticket's status is set and the ticket saved. */
    method ChangeTicketStatus(id: nat, newStatus: string, schemaError: Option<string>) returns (r: Result<Ticket>)
      requires Valid()
      modifies this
      ensures Valid()
      ensures (r, tickets) == TicketController.ChangeTicketStatus(old(tickets), id, newStatus, schemaError)
      ensures comments == old(comments) && users == old(users) && clock == old(clock)
    {
      if schemaError.Some? {
        return Err(Reply(400, schemaError.value));
      }
      if id !in tickets {
        return Err(NotFound);
      }
      var ticket := tickets[id];
      if !IsValidStatusTransition(ticket.status, newStatus) {
        return Err(TicketController.InvalidTransition(ticket.status, newStatus));
      }
      ticket := ticket.(status := newStatus);
      TicketController.ChangeTicketStatusKeepsWellFormed(tickets, clock, id, newStatus, schemaError);
      tickets := tickets[id := ticket];
      r := Ok(ticket);
    }

    /** `assignTicket`: the loaded ticket's assignee is set and the ticket saved. */
    method AssignTicket(id: nat, assignee: Option<nat>) returns (r: Result<Ticket>)
      requires Valid()
      modifies this
      ensures Valid()
      ensures (r, tickets) == TicketController.AssignTicket(old(tickets), id, assignee)
      ensures comments == old(comments) && users == old(users) && clock == old(clock)
    {
      if id !in tickets {
        return Err(NotFound);
      }
      var ticket := tickets[id];
      ticket := ticket.(assignedTo := assignee);
      TicketController.AssignTicketKeepsWellFormed(tickets, clock, id, assignee);
      tickets := tickets[id := ticket];
      r := Ok(ticket);
    }

    /** `PATCH /tickets/:id/status`: `authorize("agent", "admin")`, then `changeTicketStatus`. */
    method PatchStatus(caller: Claims, id: nat, newStatus: string, schemaError: Option<string>)
      returns (r: Result<Ticket>)
      requires Valid()
      modifies this
      ensures Valid()
      ensures (r, tickets) == TicketController.PatchStatus(old(tickets), caller, id, newStatus, schemaError)
      ensures comments == old(comments) && users == old(users) && clock == old(clock)
    {
      var denied := Authorize(StaffRoles, caller);
      if denied.Some? {
        return Err(denied.value);
      }
      r := ChangeTicketStatus(id, newStatus, schemaError);
    }

    /** `PATCH /tickets/:id/assign`: `authorize("agent", "admin")`, then `assignTicket`. */
    method PatchAssign(caller: Claims, id: nat, assignee: Option<nat>) returns (r: Result<Ticket>)
      requires Valid()
      modifies this
      ensures Valid()
      ensures (r, tickets) == TicketController.PatchAssign(old(tickets), caller, id, assignee)
      ensures comments == old(comments) && users == old(users) && clock == old(clock)
    {
      var denied := Authorize(StaffRoles, caller);
      if denied.Some? {
        return Err(denied.value);
      }
      r := AssignTicket(id, assignee);
    }

    /** `POST /tickets/:ticketId/comments`. */
    method AddComment(caller: Claims, ticketId: nat, req: CommentRequest) returns (r: Result<Comment>)
      requires Valid()
      modifies this
      ensures Valid()
      ensures (r, comments) == CommentController.AddComment(old(tickets), old(comments), old(clock), caller, ticketId, req)
      ensures clock == if r.Ok? then old(clock) + 1 else old(clock)
      ensures tickets == old(tickets) && users == old(users)
    {
      var invalid := CreateCommentSchema(req);
      if invalid.Some? {
        return Err(Reply(400, invalid.value));
      }
      var parent := TicketController.GetTicketById(tickets, caller, ticketId);
      if parent.Err? {
        return Err(parent.failure);
      }
      if caller.role == Customer && req.kind == Str("internal") {
        return Err(CommentController.InternalRefused);
      }
      var comment := NewComment(clock, ticketId, req.body.s, Some(req.kind.s), caller.userId);
      comments := comments[clock := comment];
      clock := clock + 1;
      r := Ok(comment);
    }

    /** `GET /tickets/:ticketId/comments`. */
    function GetTicketWithComments(caller: Claims, ticketId: nat): Result<CommentController.TicketThread>
      reads this
      requires Valid()
    {
      CommentController.GetTicketWithComments(tickets, comments, clock, caller, ticketId)
    }

    /** `POST /auth/register`. */
    method Register(req: AuthController.RegisterRequest, schemaError: Option<string>, hash: string -> string)
      returns (r: Result<string>)
      requires Valid()
      modifies this
      ensures Valid()
      ensures (r, users) == AuthController.Register(old(users), old(clock), req, schemaError, hash)
      ensures clock == if r.Ok? then old(clock) + 1 else old(clock)
      ensures tickets == old(tickets) && comments == old(comments)
    {
      if schemaError.Some? {
        return Err(Reply(400, schemaError.value));
      }
      var existing := AuthController.FindByEmail(users, clock, req.email);
      if existing.Some? {
        return Err(AuthController.EmailTaken);
      }
      var user := AuthController.User(clock, req.name, req.email, hash(req.password), req.role, true);
      users := users[clock := user];
      clock := clock + 1;
      r := Ok(AuthController.Registered);
    }

    /** `POST /auth/login`. */
    function Login(email: string, password: string, schemaError: Option<string>, compare: (string, string) -> bool)
      : Result<Claims>
      reads this
      requires Valid()
    {
      AuthController.Login(users, clock, email, password, schemaError, compare)
    }
  }
}
