/** The Ticket document: its fields, the schema's validators, its default and its setter. */
module TicketModel {
  import opened Wrappers
  import opened Text
  import StatusTransition

  /** The schema's `priority` enum. */
  const Priorities: set<string> := {"low", "medium", "high"}

  /**
   * A stored ticket. `id` is its `_id`; `createdAt` is the creation stamp that
   * `timestamps: true` adds, drawn from the same counter as the id.
   */
  datatype Ticket = Ticket(
    id: nat,
    title: string,
    description: string,
    priority: string,
    status: string,
    createdBy: nat,
    assignedTo: Option<nat>,
    tags: seq<string>,
    createdAt: nat)

  /**
   * What the schema's validators check before a write: title and description
   * lengths, the two enums. `required` adds nothing here: an empty string is
   * already shorter than either minimum and outside either enum, and
   * `createdBy` is always set.
   */
  predicate SchemaAccepts(t: Ticket) {
    && 5 <= |t.title| <= 200
    && 10 <= |t.description| <= 5000
    && t.priority in Priorities
    && t.status in StatusTransition.Statuses
  }

  /** What the `trim` setter guarantees of every stored tag. */
  predicate TagsTrimmed(t: Ticket) {
    forall i :: 0 <= i < |t.tags| ==> IsTrimmed(t.tags[i])
  }

  /**
   * The document `Ticket.create` builds from the given fields: an absent status
   * takes the default `open`, absent tags the empty array, and every tag
   * passes through the `trim` setter.
   */
  function NewTicket(
    id: nat, title: string, description: string, priority: string, status: Option<string>,
    createdBy: nat, assignedTo: Option<nat>, tags: Option<seq<string>>): (t: Ticket)
    ensures t.id == id && t.createdAt == id && t.createdBy == createdBy && t.assignedTo == assignedTo
    ensures t.title == title && t.description == description && t.priority == priority
    ensures status.None? ==> t.status == "open"
    ensures status.Some? ==> t.status == status.value
    ensures |t.tags| == |tags.GetOr([])|
    ensures forall i :: 0 <= i < |t.tags| ==> t.tags[i] == Trim(tags.GetOr([])[i])
    ensures TagsTrimmed(t)
  {
    Ticket(id, title, description, priority, status.GetOr("open"), createdBy, assignedTo, TrimAll(tags.GetOr([])), id)
  }

  /** With the status left to its default, a new ticket is accepted exactly when its own fields are. */
  lemma DefaultStatusAccepted(
    id: nat, title: string, description: string, priority: string,
    createdBy: nat, assignedTo: Option<nat>, tags: Option<seq<string>>)
    ensures SchemaAccepts(NewTicket(id, title, description, priority, None, createdBy, assignedTo, tags)) <==>
      5 <= |title| <= 200 && 10 <= |description| <= 5000 && priority in Priorities
  {
  }

  /** Stored tags pass through the setter unchanged a second time. */
  lemma {:induction false} TrimmedTagsAreFixed(t: Ticket)
    requires TagsTrimmed(t)
    ensures TrimAll(t.tags) == t.tags
  {
  }
}
