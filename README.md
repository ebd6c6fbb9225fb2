# Support Desk Lite: a verified model of its ticket core

Support Desk Lite is a support-ticket tracker with a REST backend and a React client.
Customers open tickets, and agents and admins work them through a fixed lifecycle:
`open`, then `in_progress`, then `resolved`, then `closed`. A resolved ticket may be
sent back to `in_progress`. Both tickets and comments are filtered by role: a customer
sees only their own tickets and only the public comments on them.

This project models that core in Dafny and proves what it promises. It covers:

- the status transition table (`StatusTransition`);
- the role gate placed in front of the staff-only routes (`RoleMiddleware`);
- the error middleware (`ErrorMiddleware`), and how a handler's outcome becomes a response;
- the Ticket and Comment schemas (`TicketModel`, `CommentModel`);
- the comment request schema (`CommentValidation`);
- the ticket, comment and auth controllers (`TicketController`, `CommentController`, `AuthController`);
- the three client forms: new ticket with its tag parser, registration, and login
  (`CreateTicketPage`, `RegisterPage`, `LoginPage`).

Each controller is written twice:

- as pure functions over the collections, kept as maps from id to document. These
  state the replies and the new collection, and carry the lemmas;
- as `Store.Database`, a class that holds the three collections and performs each
  request in place. Every method is proved to leave exactly the state the matching
  function describes, and to keep the collections well formed: stamped ids,
  schema-valid documents, unique emails, and comments only on existing tickets.

`Text` models JavaScript's `trim` and one-character `split`. `Scenario` replays the
Ticket API block of the backend test file against an empty store, and carries the
ticket on to the end of its lifecycle. It proves the status of each reply:

- 201 and 200 for three registrations and logins;
- 201 for the new ticket;
- 403 when the second customer reads it;
- 400 when the agent jumps from open to resolved, and 200 when the agent moves it to
  in_progress, as the test expects.

The replay then goes beyond the test with three more requests from the agent:

- 200, 200 for resolved and then closed;
- 400 when the agent tries to reopen it.

The registration in the test file's first block, which runs before the Ticket API
block, is replayed on its own by `Scenario.RegisterAndLogin`. It is not part of the
exchange.

Modelling choices:

- One clock hands out ids and creation stamps. Newest first and oldest first
  therefore mean descending and ascending id.
- The request schemas for tickets and auth (`ticketValidation`, `authValidation`)
  are not part of this model. Their verdict is a parameter `schemaError`: `None`
  means accepted, and `Some(message)` is their first error.
- Password hashing is a parameter `hash`, and the password check a parameter
  `compare`. The access token is its claims: the user's id and role.
- `NODE_ENV` is the parameter `nodeEnv`.

Predicates and helpers that the contracts above are written in:

- `TicketModel.SchemaAccepts` holds the validators of backend/src/models/Ticket.js:5-26:
  title length 5 to 200, description length 10 to 5000, and the priority and status enums.
- `CommentModel.SchemaAccepts` holds the validators of backend/src/models/Comment.js:10-20:
  body length 1 to 2000, and the type enum.
- `TicketController.CanRead` is the read scope of backend/src/controllers/ticketController.js:42-44
  and 71-74. Staff read every ticket, and a customer reads only the tickets they created.
- `CommentController.Listed` is the comment filter of
  backend/src/controllers/commentController.js:84-88. It keeps the comments of the ticket, and
  only the public ones for a customer.
- `TicketController.InvalidTransition` is the 400 reply of
  backend/src/controllers/ticketController.js:114-120. Its text names the current and the
  requested status.

## Model

| member | source | states |
|---|---|---|
| StatusTransition.IsValidStatusTransition | backend/src/utils/statusTransition.js:1-10 | an allowed transition is between two of the four statuses and never to the same status; an unknown current status allows nothing |
| StatusTransition.TransitionTable | backend/src/utils/statusTransition.js:2-9 | exactly four transitions are allowed: open→in_progress, in_progress→resolved, resolved→closed, resolved→in_progress |
| StatusTransition.FromOpen | backend/src/utils/statusTransition.js:3-9 | from open the only target is in_progress |
| StatusTransition.FromInProgress | backend/src/utils/statusTransition.js:4-9 | from in_progress the only target is resolved |
| StatusTransition.FromResolved | backend/src/utils/statusTransition.js:5-9 | from resolved the targets are exactly closed and in_progress |
| StatusTransition.ClosedIsTerminal | backend/src/utils/statusTransition.js:6-9 | nothing is allowed from closed |
| StatusTransition.ReopenIsTheOnlyBackEdge | backend/src/utils/statusTransition.js:2-7 | an allowed transition moves backwards in the lifecycle exactly when it is resolved→in_progress |
| StatusTransition.OpenToClosed | backend/src/utils/statusTransition.js:2-7 | every path of allowed transitions from open to closed has at least four statuses; its second status is in_progress and its next to last is resolved |
| StatusTransition.ClosedEndsEveryPath | backend/src/utils/statusTransition.js:6 | closed can only be the last status of a path |
| StatusTransition.OpenIsNeverReentered | backend/src/utils/statusTransition.js:2-7 | no path returns to open |
| StatusTransition.PathCoversRank | backend/src/utils/statusTransition.js:2-7 | a path from open needs at least as many steps as the lifecycle position of the status it reaches |
| RoleMiddleware.Authorize | backend/src/middleware/roleMiddleware.js:1-12 | the request is passed on unchanged exactly when the caller's role is among the allowed roles; otherwise the reply is 403 "Forbidden: insufficient permissions" |
| RoleMiddleware.StaffGate | backend/src/routes/ticketRoutes.js:21-23 | behind the agent/admin gate a customer is always refused and staff always pass |
| ErrorMiddleware.ErrorHandler | backend/src/middleware/errorMiddleware.js:1-12 | the status is the error's truthy `statusCode`, else 500; the body has success false and data null; the text is "Server Error" in production and the error's message otherwise |
| ErrorMiddleware.ProductionConcealsMessage | backend/src/middleware/errorMiddleware.js:7-10 | in production, two errors with the same status code give identical responses whatever their messages |
| ErrorMiddleware.Render | backend/src/controllers/ticketController.js:9-34 | a response succeeds exactly when the handler did; a success carries the data, with 201 after a creation and 200 otherwise; a direct reply keeps its status and text with no data; an exception goes through the error middleware |
| TicketModel.NewTicket | backend/src/models/Ticket.js:22-41 | a new document keeps the given fields; status defaults to open; absent tags become the empty list; every tag is trimmed |
| TicketModel.DefaultStatusAccepted | backend/src/models/Ticket.js:5-26 | with the default status, the schema accepts a ticket exactly when its title has 5 to 200 characters, its description 10 to 5000, and its priority is low, medium or high |
| TicketModel.TrimmedTagsAreFixed | backend/src/models/Ticket.js:36-41 | trimming the tags of a stored ticket again changes nothing |
| CommentModel.NewComment | backend/src/models/Comment.js:16-20 | a new comment keeps the given fields, and its type defaults to public |
| CommentModel.DefaultTypeAccepted | backend/src/models/Comment.js:10-20 | with the default type, the schema accepts a comment exactly when its body has 1 to 2000 characters |
| CommentValidation.BodyError | backend/src/validations/commentValidation.js:4 | the body passes exactly when it is a string of 1 to 2000 characters |
| CommentValidation.TypeError | backend/src/validations/commentValidation.js:5 | the type passes exactly when it is "public" or "internal"; a missing type is an error, with no default |
| CommentValidation.CreateCommentSchema | backend/src/validations/commentValidation.js:3-6 | a request is accepted exactly when its body is valid, its type is valid and it has no other keys; a body error is reported first |
| CommentValidation.AcceptedRequestMakesValidComment | backend/src/validations/commentValidation.js:4-5 | every accepted request makes a comment that the Comment schema accepts |
| TicketController.NewestFirst | backend/src/controllers/ticketController.js:40-46 | the listing holds exactly the readable tickets, each as stored, with creation times strictly decreasing |
| TicketController.GetTickets | backend/src/controllers/ticketController.js:38-56 | a customer's listing holds exactly their own tickets and a staff listing holds every ticket, newest first |
| TicketController.GetTicketById | backend/src/controllers/ticketController.js:59-90 | 404 exactly when the id is absent; 403 "Access denied" exactly when a customer asks for a ticket they do not own; otherwise the stored ticket |
| TicketController.CreateTicket | backend/src/controllers/ticketController.js:6-35 | a schema error is a 400 and the Ticket schema's refusal an exception, and both leave the collection unchanged; otherwise exactly one ticket is added, open, unassigned, created by the caller, with the submitted fields and trimmed tags |
| TicketController.ChangeTicketStatus | backend/src/controllers/ticketController.js:93-133 | a schema error is a 400; an absent ticket is a 404; a transition outside the table is a 400 naming both statuses; all of these leave the collection unchanged; an accepted request for an existing ticket and an allowed transition succeeds, and then only that ticket's status changes, to the requested one |
| TicketController.AssignTicket | backend/src/controllers/ticketController.js:136-161 | an absent ticket is a 404; otherwise `assignedTo` becomes the given value, unchecked, and nothing else changes |
| TicketController.PatchStatus | backend/src/routes/ticketRoutes.js:21 | a customer is refused with 403 before the ticket or the table is consulted; staff get `changeTicketStatus` |
| TicketController.PatchAssign | backend/src/routes/ticketRoutes.js:23 | a customer is refused with 403 and nothing changes; staff get `assignTicket` |
| TicketController.ChangeTicketStatusKeepsWellFormed | backend/src/controllers/ticketController.js:114-123 | a status change keeps every stored ticket stamped, schema-valid and trimmed |
| TicketController.AssignTicketKeepsWellFormed | backend/src/controllers/ticketController.js:150-151 | an assignment keeps the collection well formed |
| TicketController.CreatedTicketReadBack | backend/src/controllers/ticketController.js:19-31 | the creator can read a new ticket back by its id, and it heads the creator's listing in front of the earlier one |
| TicketController.NewestFirstIgnoresLaterIds | backend/src/controllers/ticketController.js:46 | the listing up to a clock value depends only on the tickets created before it |
| TicketController.StatusHistory | backend/src/controllers/ticketController.js:114-123 | the statuses a ticket takes under a series of status requests start from its current status and end at the status `ApplyStatusRequests` leaves it with |
| TicketController.ApplyStatusRequests | backend/src/controllers/ticketController.js:93-133 | applying a series of staff status requests to one ticket keeps every ticket id, leaves every other ticket as it was, and changes no field of that ticket but its status |
| TicketController.StatusHistoryIsPath | backend/src/controllers/ticketController.js:114-123 | whatever statuses are requested, a ticket's statuses follow the transition table step by step |
| TicketController.ClosedStaysClosed | backend/src/controllers/ticketController.js:114-120 | a closed ticket stays closed whatever statuses are requested: its history is closed alone, and the collection is left exactly as it was |
| CommentController.OldestFirst | backend/src/controllers/commentController.js:84-91 | the listing holds exactly the comments of the ticket that the caller may see, each as stored, with creation times strictly increasing |
| CommentController.AddComment | backend/src/controllers/commentController.js:5-60 | checks run in this order: a schema error is a 400, an absent ticket a 404, a customer on another's ticket a 403 "Access denied", and a customer's internal note a 403; all of these store nothing; otherwise exactly one comment is added on that ticket, by the caller, with the submitted body and type |
| CommentController.GetTicketWithComments | backend/src/controllers/commentController.js:62-105 | the parent's 404 and 403 come first; otherwise the ticket with exactly its comments, public ones only for a customer, oldest first |
| CommentController.StaffSeeEveryComment | backend/src/controllers/commentController.js:84-88 | staff see every comment on the ticket, internal notes included |
| CommentController.WellFormedAfterTicketWrite | backend/src/controllers/commentController.js:44-49 | ticket writes that remove no ticket keep every comment on an existing ticket |
| CommentController.AddedCommentEndsThread | backend/src/controllers/commentController.js:44-91 | a comment just added is the last one in its author's view of the thread |
| AuthController.FindByEmail | backend/src/controllers/authController.js:19-61 | finds the lowest id holding the email, or reports that no user holds it |
| AuthController.Register | backend/src/controllers/authController.js:6-46 | a schema error is a 400 and a taken email a 400 "Email already registered", both changing nothing; otherwise exactly one active user is added with the hash of the password, and the reply is a message with no token; emails stay unique |
| AuthController.Login | backend/src/controllers/authController.js:48-94 | a schema error is a 400; an unknown email, an inactive user and a wrong password all get the same 401 "Invalid credentials"; success exactly when an active user with that email accepts the password, and the token names that user's id and role |
| AuthController.RegisterThenLogin | backend/src/controllers/authController.js:28-83 | after a registration, logging in with the same password succeeds with the new user's id and the requested role |
| Store.Database.constructor | backend/src/seed.js:17-19 | the store starts with the three collections empty, and well formed |
| Store.Database.CreateTicket | backend/src/controllers/ticketController.js:6-35 | performs `createTicket` in place, with exactly the reply and collection of `TicketController.CreateTicket` |
| Store.Database.ChangeTicketStatus | backend/src/controllers/ticketController.js:93-133 | updates the loaded ticket's status in place, exactly as `TicketController.ChangeTicketStatus` |
| Store.Database.AssignTicket | backend/src/controllers/ticketController.js:136-161 | updates the loaded ticket's assignee in place, exactly as `TicketController.AssignTicket` |
| Store.Database.PatchStatus | backend/src/routes/ticketRoutes.js:21 | runs the staff gate and then the status change in place, exactly as `TicketController.PatchStatus` |
| Store.Database.PatchAssign | backend/src/routes/ticketRoutes.js:23 | runs the staff gate and then the assignment in place, exactly as `TicketController.PatchAssign` |
| Store.Database.AddComment | backend/src/controllers/commentController.js:5-60 | inserts the comment in place, exactly as `CommentController.AddComment` |
| Store.Database.Register | backend/src/controllers/authController.js:6-46 | inserts the user in place, exactly as `AuthController.Register` |
| CreateTicketPage.Validate | frontend/src/pages/CreateTicket.js:16-32 | an empty title or description is "required", and a short one gets the length message, never both; an empty priority is "Priority is required"; no other key appears |
| CreateTicketPage.InitialPriorityPasses | frontend/src/pages/CreateTicket.js:8 | the priority the form starts with shows no error and is one the Ticket schema accepts |
| CreateTicketPage.DropEmpty | frontend/src/pages/CreateTicket.js:51 | keeps exactly the non-empty tags |
| CreateTicketPage.ParseTags | frontend/src/pages/CreateTicket.js:48-51 | every parsed tag is non-empty, trimmed and comma-free; there are at most as many as commas plus one; a string is a tag exactly when it is the non-empty trim of a comma-separated piece |
| CreateTicketPage.ParseTagsAround | frontend/src/pages/CreateTicket.js:48-51 | tags keep their input order: the tags of two parts joined by a comma are the first part's tags followed by the second's |
| CreateTicketPage.ParseOneTag | frontend/src/pages/CreateTicket.js:48-51 | a part without commas gives its trim as one tag, or nothing when it is blank |
| CreateTicketPage.HandleSubmit | frontend/src/pages/CreateTicket.js:34-58 | a request is sent exactly when there are no errors, that is when the title has 5 or more characters, the description 10 or more, and the priority is set; it carries the typed fields and the parsed tags; otherwise the errors shown are exactly those of `Validate`, key by key |
| CreateTicketPage.SubmittedTagsStoredAsParsed | frontend/src/pages/CreateTicket.js:48-57 | a form request within the server's limits is stored with exactly the tags the form parsed, because the server's trim leaves them unchanged |
| RegisterPage.HandleChange | frontend/src/pages/Register.js:32-37 | the changed field takes the new value and every other field keeps its value |
| RegisterPage.ChangesCommute | frontend/src/pages/Register.js:32-37 | changes to two different fields give the same form in either order |
| RegisterPage.LastChangeWins | frontend/src/pages/Register.js:32-37 | of two changes to the same field the later wins |
| RegisterPage.Validate | frontend/src/pages/Register.js:18-30 | a name shorter than 2, an empty email and a password shorter than 6 each get their error, and nothing else does; the email's format and the role are not checked |
| RegisterPage.HandleSubmit | frontend/src/pages/Register.js:39-53 | the form is posted unchanged exactly when the name has 2 or more characters, the email is filled in and the password has 6 or more; otherwise the errors shown are exactly those of `Validate`, key by key |
| RegisterPage.SubmitInitialForm | frontend/src/pages/Register.js:6-11 | submitting the form as it starts posts nothing and shows the name, email and password errors, and no role error |
| LoginPage.Validate | frontend/src/pages/Login.js:16-25 | an empty email gets "Email is required" and an empty password "Password is required", so an empty form gets both |
| LoginPage.HandleSubmit | frontend/src/pages/Login.js:27-41 | the credentials are posted exactly when both fields are filled in; otherwise the errors shown are exactly those of `Validate`, key by key |
| Text.Trim | backend/src/models/Ticket.js:39 | the result has no whitespace at either end; it is one slice of the input, and everything cut before and after it is whitespace; it is empty exactly when the input is all whitespace; a string that is already trimmed is unchanged |
| Text.TrimIdempotent | backend/src/models/Ticket.js:39 | trimming a trimmed string changes nothing |
| Text.Split | frontend/src/pages/CreateTicket.js:49 | there is one piece per comma, plus one |
| Text.SplitPiecesFree | frontend/src/pages/CreateTicket.js:49 | no piece contains the separator |
| Text.JoinSplit | frontend/src/pages/CreateTicket.js:49 | joining the pieces with the separator gives back the input |
| Text.SplitJoin | frontend/src/pages/CreateTicket.js:49 | splitting pieces joined by a separator they do not contain gives the pieces back |
| Text.SplitFree | frontend/src/pages/CreateTicket.js:49 | a string without the separator splits into itself alone |
| Text.SplitAround | frontend/src/pages/CreateTicket.js:49 | splitting at a separator gives the pieces before it followed by the pieces after it |
| Scenario.RegisterAndLogin | backend/tests/auth.test.js:16-41 | registering a fresh email succeeds and logging in with the same password then yields the new user's id and role, with the user stored under the old clock; the tickets and comments are unchanged |
| Scenario.Accounts | backend/tests/auth.test.js:52-90 | three registrations and logins on an empty store get 201, 200 each time, the store then holds exactly those three active users, under ids 0, 1 and 2, with no tickets and the comments unchanged, and the tokens name users 0 and 1 as customers and user 2 as an agent |
| Scenario.Step | backend/tests/auth.test.js:114-135 | a staff status request succeeds exactly when the table allows it and then changes only the status; otherwise it is a 400 and the ticket is unchanged; no other ticket, no comment, no user and not the clock changes |
| Scenario.Walk | backend/tests/auth.test.js:114-135 | the test's two requests, extended to the end of the lifecycle: on an open ticket an agent's requests for resolved, in_progress, resolved, closed and in_progress get 400, 200, 200, 200, 400, and the store then holds the ticket closed with no other field changed, while every other ticket, the comments, the users and the clock stay as they were |
| Scenario.TicketApi | backend/tests/auth.test.js:52-135 | the Ticket API block on an empty store (registrations, logins, ticket creation, a foreign read, the two status requests), followed by three status requests beyond the test, gets the statuses 201, 200, 201, 200, 201, 200, 201, 403, 400, 200, 200, 200, 400 |

## Left out

- Persistence: the Mongoose queries, `save`, the text index on title and description,
  and the `createdAt`/`updatedAt` timestamps are left out. The collections are maps,
  and one counter stands in for both ids and creation times.
- Pagination, filters and free-text search are not modelled, because `getTickets`
  (backend/src/controllers/ticketController.js:38-56) only scopes and sorts. The client
  (frontend/src/pages/TicketList.js:22-29) sends `page`, `limit`, `search`, `status` and
  `priority` and reads `tickets` and `pages`. The backend test
  (backend/tests/auth.test.js:137-150) expects `tickets`, `page`, `limit`, `total` and
  `pages`. `getTickets` ignores those parameters and returns a plain array, and the
  model follows the controller. `Scenario` leaves out that test.
- The request schemas `ticketValidation` and `authValidation` are not part of this model:
  their verdict is the parameter `schemaError`.
- TicketController.CreateTicket: when the Ticket schema refuses a document, the
  exception's message is shortened to "Ticket validation failed". Mongoose's message
  goes on to name each failing path and its validator's text, and outside production
  the error middleware sends it as is. The status (500) and the envelope are modelled.
- The User model is not part of this model. A new user is active, and the role is a
  value of `Role`; a role outside the three is the registration schema's concern.
- bcrypt and jsonwebtoken are left out: hashing and its check are parameters, and
  the token is its claims, with no signature or expiry. The client's decoding of the
  token's payload after login is left out too.
- Ids that are not valid ObjectIds make Mongoose throw a cast error; ids here are
  natural numbers, so that error path is not modelled.
- A current status such as `constructor` or `toString` would reach a property that
  every JavaScript object inherits, and the lookup would throw. The model's table
  has only the four statuses, so every other status is simply not allowed.
- String lengths are lengths of `seq<char>`. JavaScript's `.length` counts UTF-16 code
  units, so a character outside the Basic Multilingual Plane counts once here but
  twice in JavaScript.
- CommentValidation.BodyError: the message for `min(1)` is not modelled, because
  the empty-string check of `Joi.string()` always fails first. Joi's message texts
  are its defaults as worded by the library.
- A missing string field in a create request is "" in the model. Mongoose's
  `required` refuses both in the same way.
- Concurrency is left out. Each request is one atomic step, so the read-modify-write
  race between two status changes is not represented.
- React state and rendering, navigation, loading flags and the server-error banner
  are left out. So are the seed script and the Express wiring: security headers,
  the rate limiter and the API docs. The only routing kept is the staff gate on
  the two PATCH routes.
- Store.Database.GetTickets, Store.Database.GetTicketById, Store.Database.GetTicketWithComments
  and Store.Database.Login have no contracts of their own: they read the store
  through the controller functions, whose contracts are stated above.
