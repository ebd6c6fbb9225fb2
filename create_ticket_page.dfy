/**
 * The new-ticket form: its field checks, run before anything is sent, and the
 * parser that turns the comma-separated tag field into the request's tag list.
 */
module CreateTicketPage {
  import opened Wrappers
  import opened Text
  import opened Http
  import opened TicketModel
  import TicketController

  const TitleMin := 5
  const DescriptionMin := 10

  /** The priority the form starts with. */
  const InitialPriority := "medium"

  /**
   * The untouched priority select shows no error and holds a priority the
   * Ticket schema accepts.
   */
  lemma InitialPriorityPasses(errors: map<string, string>, title: string, description: string)
    requires Reports(title, description, InitialPriority, errors)
    ensures "priority" !in errors
    ensures InitialPriority in Priorities
  {
  }

  /**
   * What `validate` reports, keyed by the field's name. An empty title or
   * description is reported as missing, a short one as too short; the
   * priority is only checked for presence.
   */
  predicate Reports(title: string, description: string, priority: string, errors: map<string, string>) {
    && errors.Keys <= {"title", "description", "priority"}
    && ("title" in errors <==> |title| < TitleMin)
    && (title == "" ==> errors["title"] == "Title is required")
    && (0 < |title| < TitleMin ==> errors["title"] == "Title must be at least 5 characters")
    && ("description" in errors <==> |description| < DescriptionMin)
    && (description == "" ==> errors["description"] == "Description is required")
    && (0 < |description| < DescriptionMin ==> errors["description"] == "Description must be at least 10 characters")
    && ("priority" in errors <==> priority == "")
    && (priority == "" ==> errors["priority"] == "Priority is required")
  }

  /** `validate`: one error per field that fails its check, and no other key. */
  method Validate(title: string, description: string, priority: string) returns (errors: map<string, string>)
    ensures Reports(title, description, priority, errors)
  {
    errors := map[];
    if title == "" {
      errors := errors["title" := "Title is required"];
    } else if |title| < TitleMin {
      errors := errors["title" := "Title must be at least 5 characters"];
    }
    if description == "" {
      errors := errors["description" := "Description is required"];
    } else if |description| < DescriptionMin {
      errors := errors["description" := "Description must be at least 10 characters"];
    }
    if priority == "" {
      errors := errors["priority" := "Priority is required"];
    }
  }

  /** `xs.filter((tag) => tag !== "")`. */
  function DropEmpty(xs: seq<string>): (r: seq<string>)
    ensures |r| <= |xs|
    ensures forall t :: t in r <==> t in xs && t != ""
    decreases |xs|
  {
    if xs == [] then [] else (if xs[0] == "" then [] else [xs[0]]) + DropEmpty(xs[1..])
  }

  /**
   * The tag parser of `handleSubmit`: split on commas, trim each piece, drop
   * the empty ones. Every tag is non-empty, trimmed and comma-free, there is
   * at most one per comma-separated piece, and a string is a tag exactly when
   * it is the non-empty trim of some piece.
   */
  function ParseTags(s: string): (tags: seq<string>)
    ensures forall i :: 0 <= i < |tags| ==> tags[i] != "" && IsTrimmed(tags[i]) && ',' !in tags[i]
    ensures |tags| <= Count(s, ',') + 1
    ensures forall t :: t in tags <==> t != "" && exists p :: p in Split(s, ',') && t == Trim(p)
  {
    var pieces := Split(s, ',');
    var trimmed := TrimAll(pieces);
    SplitPiecesFree(s, ',');
    TrimmedPieces(pieces);
    var tags := DropEmpty(trimmed);
    forall i | 0 <= i < |tags| ensures tags[i] != "" && IsTrimmed(tags[i]) && ',' !in tags[i] {
      assert tags[i] in trimmed;
    }
    tags
  }

  /** What trimming comma-free pieces gives: trimmed, comma-free strings, each the trim of some piece. */
  lemma TrimmedPieces(pieces: seq<string>)
    requires forall i :: 0 <= i < |pieces| ==> ',' !in pieces[i]
    ensures forall t :: t in TrimAll(pieces) ==> IsTrimmed(t) && ',' !in t
    ensures forall t :: t in TrimAll(pieces) <==> exists p :: p in pieces && t == Trim(p)
  {
    var trimmed := TrimAll(pieces);
    forall t | t in trimmed ensures IsTrimmed(t) && ',' !in t && exists p :: p in pieces && t == Trim(p) {
      var i :| 0 <= i < |trimmed| && trimmed[i] == t;
      assert pieces[i] in pieces;
    }
    forall t | exists p :: p in pieces && t == Trim(p) ensures t in trimmed {
      var p :| p in pieces && t == Trim(p);
      var i :| 0 <= i < |pieces| && pieces[i] == p;
      assert trimmed[i] == t;
    }
  }

  lemma {:induction false} DropEmptyAppend(a: seq<string>, b: seq<string>)
    ensures DropEmpty(a + b) == DropEmpty(a) + DropEmpty(b)
    decreases |a|
  {
    if a == [] {
      assert a + b == b;
    } else {
      assert (a + b)[0] == a[0];
      assert (a + b)[1..] == a[1..] + b;
      DropEmptyAppend(a[1..], b);
    }
  }

  lemma TrimAllAppend(a: seq<string>, b: seq<string>)
    ensures TrimAll(a + b) == TrimAll(a) + TrimAll(b)
  {
  }

  /**
   * Tags keep their input order: the tags of two fields joined by a comma are
   * the first field's tags followed by the second's.
   */
  lemma ParseTagsAround(a: string, b: string)
    ensures ParseTags(a + [','] + b) == ParseTags(a) + ParseTags(b)
  {
    SplitAround(a, b, ',');
    TrimAllAppend(Split(a, ','), Split(b, ','));
    DropEmptyAppend(TrimAll(Split(a, ',')), TrimAll(Split(b, ',')));
  }

  /** A field without commas holds one tag, its trim, unless it is blank. */
  lemma ParseOneTag(s: string)
    requires ',' !in s
    ensures ParseTags(s) == if AllWhitespace(s) then [] else [Trim(s)]
  {
    SplitFree(s, ',');
  }

  /**
   * `handleSubmit`: the request is sent only when `validate` found nothing,
   * and then it carries the three fields as typed and the parsed tags.
   */
  method HandleSubmit(title: string, description: string, priority: string, tags: string)
    returns (errors: map<string, string>, request: Option<TicketController.TicketRequest>)
    ensures Reports(title, description, priority, errors)
    ensures request.Some? <==> errors == map[]
    ensures request.Some? <==> TitleMin <= |title| && DescriptionMin <= |description| && priority != ""
    ensures request.Some? ==> request.value == TicketController.TicketRequest(title, description, priority, Some(ParseTags(tags)))
  {
    errors := Validate(title, description, priority);
    if |errors| > 0 {
      if "title" !in errors && "description" !in errors {
        assert "priority" in errors;
      }
      return errors, None;
    }
    request := Some(TicketController.TicketRequest(title, description, priority, Some(ParseTags(tags))));
  }

  /**
   * The server's `trim` setter leaves parsed tags as they are: a form request
   * within the server's limits is stored with exactly the tags the form parsed.
   */
  lemma SubmittedTagsStoredAsParsed(
    tickets: map<nat, Ticket>, clock: nat, caller: Claims,
    title: string, description: string, priority: string, tags: string)
    requires TicketController.WellFormed(tickets, clock)
    requires TitleMin <= |title| <= 200 && DescriptionMin <= |description| <= 5000 && priority in Priorities
    ensures
      var req := TicketController.TicketRequest(title, description, priority, Some(ParseTags(tags)));
      var o := TicketController.CreateTicket(tickets, clock, caller, req, None);
      o.0.Ok? && o.0.value.tags == ParseTags(tags)
  {
    var parsed := ParseTags(tags);
    assert TrimAll(parsed) == parsed;
  }
}
