/**
 * The ticket controller over the ticket collection, given as a map from id to
 * document. Each operation that writes returns its reply together with the
 * collection it leaves behind; `Store.Database` performs them in place.
 */
module TicketController {
  import opened Wrappers
  import opened Text
  import opened Http
  import opened StatusTransition
  import opened TicketModel
  import opened RoleMiddleware

  /** The fields of a create request; a missing string field arrives as "". */
  datatype TicketRequest = TicketRequest(title: string, description: string, priority: string, tags: Option<seq<string>>)

  /** The exception `Ticket.create` throws when the schema refuses the new document. */
  const SchemaRejected: ThrownError := ThrownError(None, "Ticket validation failed")

  /** A document filed under `id` carries that id and was created at that clock value. */
  predicate Stamped(t: Ticket, id: nat) {
    t.id == id && t.createdAt == id
  }

  /** What the collection keeps true: every document stamped, below the clock, valid and trimmed. */
  ghost predicate WellFormed(tickets: map<nat, Ticket>, clock: nat) {
    forall id :: id in tickets ==>
      id < clock && Stamped(tickets[id], id) && SchemaAccepts(tickets[id]) && TagsTrimmed(tickets[id])
  }

  /** The read scope: a customer may read only the tickets they created; staff read all. */
  predicate CanRead(caller: Claims, t: Ticket) {
    caller.role != Customer || t.createdBy == caller.userId
  }

  /** The tickets below id `n` that `caller` may read, highest id first. */
  function NewestFirst(tickets: map<nat, Ticket>, n: nat, caller: Claims): (r: seq<Ticket>)
    requires forall id :: id in tickets ==> Stamped(tickets[id], id)
    ensures forall i :: 0 <= i < |r| ==>
      r[i].id < n && r[i].id in tickets && tickets[r[i].id] == r[i] && CanRead(caller, r[i])
    ensures forall id :: id in tickets && id < n && CanRead(caller, tickets[id]) ==> tickets[id] in r
    ensures forall i, j :: 0 <= i < j < |r| ==> r[i].createdAt > r[j].createdAt
    decreases n
  {
    if n == 0 then []
    else
      var older := NewestFirst(tickets, n - 1, caller);
      if n - 1 in tickets && CanRead(caller, tickets[n - 1]) then [tickets[n - 1]] + older else older
  }

  /**
   * `getTickets`: a customer's listing holds exactly their own tickets, a staff
   * listing every ticket; newest first by creation time.
   */
  function GetTickets(tickets: map<nat, Ticket>, clock: nat, caller: Claims): (r: seq<Ticket>)
    requires WellFormed(tickets, clock)
    ensures forall id :: id in tickets ==> (tickets[id] in r <==> CanRead(caller, tickets[id]))
    ensures forall t :: t in r ==> t.id in tickets && tickets[t.id] == t
    ensures caller.role == Customer ==> forall t :: t in r ==> t.createdBy == caller.userId
    ensures caller.role != Customer ==> forall id :: id in tickets ==> tickets[id] in r
    ensures forall i, j :: 0 <= i < j < |r| ==> r[i].createdAt > r[j].createdAt
  {
    NewestFirst(tickets, clock, caller)
  }

  /**
   * `getTicketById`: an absent id is "not found" for everybody; only then is a
   * customer who does not own the ticket refused, and never given it.
   */
  function GetTicketById(tickets: map<nat, Ticket>, caller: Claims, id: nat): (r: Result<Ticket>)
    ensures r == Err(NotFound) <==> id !in tickets
    ensures r == Err(AccessDenied) <==> id in tickets && caller.role == Customer && tickets[id].createdBy != caller.userId
    ensures r.Ok? <==> id in tickets && CanRead(caller, tickets[id])
    ensures r.Ok? ==> r.value == tickets[id]
  {
    if id !in tickets then Err(NotFound)
    else if caller.role == Customer && tickets[id].createdBy != caller.userId then Err(AccessDenied)
    else Ok(tickets[id])
  }

  /**
   * `createTicket`: after the request schema (its verdict `schemaError`), the new
   * document is built from the request and the caller and validated by the
   * Ticket schema, whose refusal is an exception for the error middleware.
   */
  function CreateTicket(
    tickets: map<nat, Ticket>, clock: nat, caller: Claims, req: TicketRequest, schemaError: Option<string>)
    : (o: (Result<Ticket>, map<nat, Ticket>))
    requires WellFormed(tickets, clock)
    ensures schemaError.Some? ==> o.0 == Err(Reply(400, schemaError.value))
    ensures schemaError.None? && o.0.Err? ==> o.0 == Err(Raised(SchemaRejected))
    ensures o.0.Err? ==> o.1 == tickets
    ensures o.0.Ok? <==>
      schemaError.None? && 5 <= |req.title| <= 200 && 10 <= |req.description| <= 5000 && req.priority in Priorities
    ensures o.0.Ok? ==>
      var t := o.0.value;
      && clock !in tickets && o.1 == tickets[clock := t]
      && t.id == clock && t.createdBy == caller.userId && t.assignedTo.None?
      && t.title == req.title && t.description == req.description && t.priority == req.priority
      && t.status == "open" && t.tags == TrimAll(req.tags.GetOr([]))
    ensures WellFormed(o.1, if o.0.Ok? then clock + 1 else clock)
  {
    if schemaError.Some? then (Err(Reply(400, schemaError.value)), tickets)
    else
      var t := NewTicket(clock, req.title, req.description, req.priority, None, caller.userId, None, req.tags);
      if !SchemaAccepts(t) then (Err(Raised(SchemaRejected)), tickets)
      else (Ok(t), tickets[clock := t])
  }

  /** The message of the 400 reply to a transition the table does not allow. */
  function InvalidTransition(current: string, next: string): Failure {
    Reply(400, "Invalid status transition from " + current + " to " + next)
  }

  /**
   * `changeTicketStatus`: after the request schema, an absent ticket is "not
   * found" and a transition outside the table is refused naming both statuses;
   * otherwise the status, and nothing else, becomes the requested one.
   */
  function ChangeTicketStatus(tickets: map<nat, Ticket>, id: nat, newStatus: string, schemaError: Option<string>)
    : (o: (Result<Ticket>, map<nat, Ticket>))
    ensures schemaError.Some? ==> o.0 == Err(Reply(400, schemaError.value))
    ensures schemaError.None? && id !in tickets ==> o.0 == Err(NotFound)
    ensures schemaError.None? && id in tickets && !IsValidStatusTransition(tickets[id].status, newStatus) ==>
      o.0 == Err(InvalidTransition(tickets[id].status, newStatus))
    ensures schemaError.None? && id in tickets && IsValidStatusTransition(tickets[id].status, newStatus) ==> o.0.Ok?
    ensures o.0.Err? <==> o.1 == tickets
    ensures o.0.Ok? ==>
      && id in tickets && IsValidStatusTransition(tickets[id].status, newStatus)
      && o.1.Keys == tickets.Keys && o.1[id] == o.0.value
      && o.0.value.status == newStatus && o.0.value.(status := tickets[id].status) == tickets[id]
      && forall k :: k in tickets && k != id ==> o.1[k] == tickets[k]
  {
    if schemaError.Some? then (Err(Reply(400, schemaError.value)), tickets)
    else if id !in tickets then (Err(NotFound), tickets)
    else
      var ticket := tickets[id];
      if !IsValidStatusTransition(ticket.status, newStatus) then (Err(InvalidTransition(ticket.status, newStatus)), tickets)
      else
        var changed := ticket.(status := newStatus);
        (Ok(changed), tickets[id := changed])
  }

  /**
   * `assignTicket`: an absent ticket is "not found"; otherwise `assignedTo`
   * becomes the given value, whoever or whatever it names, and nothing else changes.
   */
  function AssignTicket(tickets: map<nat, Ticket>, id: nat, assignee: Option<nat>)
    : (o: (Result<Ticket>, map<nat, Ticket>))
    ensures o.0 == Err(NotFound) <==> id !in tickets
    ensures id !in tickets ==> o.1 == tickets
    ensures id in tickets ==>
      && o.1.Keys == tickets.Keys && o.0 == Ok(o.1[id])
      && o.1[id].assignedTo == assignee && o.1[id].(assignedTo := tickets[id].assignedTo) == tickets[id]
      && forall k :: k in tickets && k != id ==> o.1[k] == tickets[k]
  {
    if id !in tickets then (Err(NotFound), tickets)
    else
      var updated := tickets[id].(assignedTo := assignee);
      (Ok(updated), tickets[id := updated])
  }

  /** `PATCH /tickets/:id/status`: the staff gate, then `changeTicketStatus` on the same request. */
  function PatchStatus(
    tickets: map<nat, Ticket>, caller: Claims, id: nat, newStatus: string, schemaError: Option<string>)
    : (o: (Result<Ticket>, map<nat, Ticket>))
    ensures caller.role == Customer ==> o == (Err(Forbidden), tickets)
    ensures caller.role != Customer ==> o == ChangeTicketStatus(tickets, id, newStatus, schemaError)
  {
    StaffGate(caller);
    match Authorize(StaffRoles, caller)
    case Some(denied) => (Err(denied), tickets)
    case None => ChangeTicketStatus(tickets, id, newStatus, schemaError)
  }

  /** `PATCH /tickets/:id/assign`: the staff gate, then `assignTicket` on the same request. */
  function PatchAssign(tickets: map<nat, Ticket>, caller: Claims, id: nat, assignee: Option<nat>)
    : (o: (Result<Ticket>, map<nat, Ticket>))
    ensures caller.role == Customer ==> o == (Err(Forbidden), tickets)
    ensures caller.role != Customer ==> o == AssignTicket(tickets, id, assignee)
  {
    StaffGate(caller);
    match Authorize(StaffRoles, caller)
    case Some(denied) => (Err(denied), tickets)
    case None => AssignTicket(tickets, id, assignee)
  }

  /** Status changes and assignments keep the collection well formed. */
  lemma ChangeTicketStatusKeepsWellFormed(
    tickets: map<nat, Ticket>, clock: nat, id: nat, newStatus: string, schemaError: Option<string>)
    requires WellFormed(tickets, clock)
    ensures WellFormed(ChangeTicketStatus(tickets, id, newStatus, schemaError).1, clock)
  {
    var o := ChangeTicketStatus(tickets, id, newStatus, schemaError);
    if o.0.Ok? {
      forall k | k in o.1 ensures k < clock && Stamped(o.1[k], k) && SchemaAccepts(o.1[k]) && TagsTrimmed(o.1[k]) {
        if k == id {
          assert o.1[k] == tickets[k].(status := newStatus);
        }
      }
    }
  }

  lemma AssignTicketKeepsWellFormed(tickets: map<nat, Ticket>, clock: nat, id: nat, assignee: Option<nat>)
    requires WellFormed(tickets, clock)
    ensures WellFormed(AssignTicket(tickets, id, assignee).1, clock)
  {
  }

  /** A new ticket can be read back by its creator and heads the creator's listing. */
  lemma CreatedTicketReadBack(
    tickets: map<nat, Ticket>, clock: nat, caller: Claims, req: TicketRequest, schemaError: Option<string>)
    requires WellFormed(tickets, clock)
    requires CreateTicket(tickets, clock, caller, req, schemaError).0.Ok?
    ensures
      var (r, after) := CreateTicket(tickets, clock, caller, req, schemaError);
      && GetTicketById(after, caller, r.value.id) == Ok(r.value)
      && GetTickets(after, clock + 1, caller) == [r.value] + GetTickets(tickets, clock, caller)
  {
    var (r, after) := CreateTicket(tickets, clock, caller, req, schemaError);
    NewestFirstIgnoresLaterIds(tickets, after, clock, caller);
  }

  /** The listing below `n` looks only at ids below `n`. */
  lemma {:induction false} NewestFirstIgnoresLaterIds(
    tickets: map<nat, Ticket>, more: map<nat, Ticket>, n: nat, caller: Claims)
    requires forall id :: id in tickets ==> Stamped(tickets[id], id)
    requires forall id :: id in more ==> Stamped(more[id], id)
    requires forall id :: id < n ==> (id in tickets <==> id in more)
    requires forall id :: id < n && id in tickets ==> tickets[id] == more[id]
    ensures NewestFirst(tickets, n, caller) == NewestFirst(more, n, caller)
    decreases n
  {
    if n > 0 {
      NewestFirstIgnoresLaterIds(tickets, more, n - 1, caller);
    }
  }

  /**
   * The ticket collection after status requests `requested` for ticket `id`
   * are applied one after another (by staff, each accepted by the request
   * schema); refused requests change nothing.
   */
  function ApplyStatusRequests(tickets: map<nat, Ticket>, id: nat, requested: seq<string>): (after: map<nat, Ticket>)
    requires id in tickets
    ensures after.Keys == tickets.Keys
    ensures forall k :: k in tickets && k != id ==> after[k] == tickets[k]
    ensures after[id].(status := tickets[id].status) == tickets[id]
    decreases |requested|
  {
    if requested == [] then tickets
    else ApplyStatusRequests(ChangeTicketStatus(tickets, id, requested[0], None).1, id, requested[1..])
  }

  /**
   * The statuses ticket `id` takes under the same requests: it starts from
   * the current status and ends at the status the ticket is left with.
   */
  function StatusHistory(tickets: map<nat, Ticket>, id: nat, requested: seq<string>): (h: seq<string>)
    requires id in tickets
    ensures |h| >= 1 && h[0] == tickets[id].status
    ensures h[|h| - 1] == ApplyStatusRequests(tickets, id, requested)[id].status
    decreases |requested|
  {
    if requested == [] then [tickets[id].status]
    else
      var (r, after) := ChangeTicketStatus(tickets, id, requested[0], None);
      if r.Ok? then [tickets[id].status] + StatusHistory(after, id, requested[1..])
      else StatusHistory(after, id, requested[1..])
  }

  /** The statuses a ticket goes through always follow the transition table. */
  lemma {:induction false} StatusHistoryIsPath(tickets: map<nat, Ticket>, id: nat, requested: seq<string>)
    requires id in tickets
    ensures IsPath(StatusHistory(tickets, id, requested))
    decreases |requested|
  {
    if requested != [] {
      var (r, after) := ChangeTicketStatus(tickets, id, requested[0], None);
      StatusHistoryIsPath(after, id, requested[1..]);
      if r.Ok? {
        var rest := StatusHistory(after, id, requested[1..]);
        var h := [tickets[id].status] + rest;
        assert rest[0] == after[id].status == requested[0];
        forall i | 0 <= i < |h| - 1 ensures IsValidStatusTransition(h[i], h[i + 1]) {
          if i > 0 {
            assert h[i] == rest[i - 1] && h[i + 1] == rest[i];
          }
        }
      }
    }
  }

  /** A closed ticket stays closed whatever status changes are requested. */
  lemma {:induction false} ClosedStaysClosed(tickets: map<nat, Ticket>, id: nat, requested: seq<string>)
    requires id in tickets && tickets[id].status == "closed"
    ensures StatusHistory(tickets, id, requested) == ["closed"]
    ensures ApplyStatusRequests(tickets, id, requested) == tickets
    decreases |requested|
  {
    if requested != [] {
      ClosedIsTerminal(requested[0]);
      ClosedStaysClosed(tickets, id, requested[1..]);
    }
  }
}
