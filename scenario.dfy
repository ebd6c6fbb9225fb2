/**
 * The ticket API's end-to-end exchange replayed against the store: three
 * users register and log in, the first customer opens a ticket, the second
 * customer is refused it, and an agent walks it along the status table.
 */
module Scenario {
  import opened Wrappers
  import opened Http
  import opened TicketModel
  import opened ErrorMiddleware
  import TicketController
  import AuthController
  import StatusTransition
  import Store

  /** A stand-in for the password hash and its check that accepts each password against its own hash. */
  function Hash(password: string): string {
    "hashed:" + password
  }

  predicate Matches(password: string, hashed: string) {
    hashed == Hash(password)
  }

  /** Registers a user and logs in with the same password; the token names the new user and the requested role. */
  method RegisterAndLogin(db: Store.Database, name: string, email: string, role: Role)
    returns (registered: Result<string>, token: Result<Claims>)
    requires db.Valid()
    requires !AuthController.HasEmail(db.users, email)
    modifies db
    ensures db.Valid()
    ensures registered == Ok(AuthController.Registered)
    ensures token == Ok(Claims(old(db.clock), role))
    ensures db.tickets == old(db.tickets) && db.comments == old(db.comments) && db.clock == old(db.clock) + 1
    ensures db.users == old(db.users)[old(db.clock) := AuthController.User(old(db.clock), name, email, Hash("password123"), role, true)]
  {
    var req := AuthController.RegisterRequest(name, email, "password123", role);
    AuthController.RegisterThenLogin(db.users, db.clock, req, Hash, Matches);
    registered := db.Register(req, None, Hash);
    token := db.Login(email, "password123", None, Matches);
  }

  /** The three accounts of the exchange, registered and logged in on an empty store. */
  method Accounts(db: Store.Database) returns (statuses: seq<int>, customer1: Claims, customer2: Claims, agent: Claims)
    requires db.Valid() && db.users == map[] && db.tickets == map[] && db.clock == 0
    modifies db
    ensures db.Valid() && db.tickets == map[] && db.comments == old(db.comments) && db.clock == 3
    ensures db.users == map[
      0 := AuthController.User(0, "Customer One", "customer1@test.com", Hash("password123"), Customer, true),
      1 := AuthController.User(1, "Customer Two", "customer2@test.com", Hash("password123"), Customer, true),
      2 := AuthController.User(2, "Agent One", "agent1@test.com", Hash("password123"), Agent, true)]
    ensures statuses == [201, 200, 201, 200, 201, 200]
    ensures customer1 == Claims(0, Customer) && customer2 == Claims(1, Customer) && agent == Claims(2, Agent)
  {
    var r1, t1 := RegisterAndLogin(db, "Customer One", "customer1@test.com", Customer);
    assert db.users.Keys == {0};
    var r2, t2 := RegisterAndLogin(db, "Customer Two", "customer2@test.com", Customer);
    assert db.users.Keys == {0, 1};
    var r3, t3 := RegisterAndLogin(db, "Agent One", "agent1@test.com", Agent);
    statuses := [
      Render(r1, true, "test").status, Render(t1, false, "test").status,
      Render(r2, true, "test").status, Render(t2, false, "test").status,
      Render(r3, true, "test").status, Render(t3, false, "test").status];
    customer1, customer2, agent := t1.value, t2.value, t3.value;
  }

  /** One status change by a staff member: it goes through exactly when the table allows it, and touches only the status. */
  method Step(db: Store.Database, staff: Claims, id: nat, next: string) returns (r: Result<Ticket>)
    requires db.Valid() && staff.role != Customer && id in db.tickets
    modifies db
    ensures db.Valid() && id in db.tickets
    ensures r.Ok? <==> StatusTransition.IsValidStatusTransition(old(db.tickets[id].status), next)
    ensures r.Ok? ==> r.value == db.tickets[id] && db.tickets[id] == old(db.tickets[id]).(status := next)
    ensures r.Err? ==> r.failure.Reply? && r.failure.status == 400 && db.tickets[id] == old(db.tickets[id])
    ensures db.tickets == if r.Ok? then old(db.tickets)[id := r.value] else old(db.tickets)
    ensures db.comments == old(db.comments) && db.users == old(db.users) && db.clock == old(db.clock)
  {
    r := db.PatchStatus(staff, id, next, None);
  }

  /**
   * An agent walks an open ticket along the table: the jump to resolved is
   * refused, then in_progress, resolved and closed go through, and the closed
   * ticket cannot be reopened.
   */
  method Walk(db: Store.Database, agent: Claims, id: nat) returns (statuses: seq<int>, final: Ticket)
    requires db.Valid() && agent.role == Agent && id in db.tickets && db.tickets[id].status == "open"
    modifies db
    ensures statuses == [400, 200, 200, 200, 400]
    ensures final == old(db.tickets[id]).(status := "closed")
    ensures db.Valid() && db.tickets == old(db.tickets)[id := final]
    ensures db.comments == old(db.comments) && db.users == old(db.users) && db.clock == old(db.clock)
  {
    StatusTransition.FromOpen("resolved");
    var jump := Step(db, agent, id, "resolved");
    StatusTransition.FromOpen("in_progress");
    var start := Step(db, agent, id, "in_progress");
    StatusTransition.FromInProgress("resolved");
    var resolve := Step(db, agent, id, "resolved");
    StatusTransition.FromResolved("closed");
    var close := Step(db, agent, id, "closed");
    StatusTransition.ClosedIsTerminal("in_progress");
    var reopen := Step(db, agent, id, "in_progress");
    statuses := [
      Render(jump, false, "test").status, Render(start, false, "test").status,
      Render(resolve, false, "test").status, Render(close, false, "test").status,
      Render(reopen, false, "test").status];
    final := close.value;
  }

  /**
   * The statuses the client sees, in order: three registrations and logins,
   * the ticket's creation, the second customer's 403, and then the agent's
   * walk along the status table.
   */
  method TicketApi() returns (statuses: seq<int>, final: Ticket)
    ensures statuses == [201, 200, 201, 200, 201, 200, 201, 403, 400, 200, 200, 200, 400]
    ensures final.status == "closed" && final.title == "Test ticket for testing" && final.createdBy == 0
  {
    var db := new Store.Database();
    var accounts, customer1, customer2, agent := Accounts(db);
    var created := db.CreateTicket(
      customer1,
      TicketController.TicketRequest("Test ticket for testing", "This is a test ticket description", "medium", None),
      None);
    var peek := db.GetTicketById(customer2, 3);
    var walk;
    walk, final := Walk(db, agent, 3);
    statuses := accounts + [Render(created, true, "test").status, Render(peek, false, "test").status] + walk;
  }
}
