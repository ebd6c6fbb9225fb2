/**
 * The ticket lifecycle: a fixed directed graph over the four status names.
 * `open -> in_progress -> resolved -> closed`, with `resolved -> in_progress`
 * as the only way back and `closed` terminal.
 */
module StatusTransition {

  /** The four lifecycle statuses (the Ticket schema's `status` enum). */
  const Statuses: set<string> := {"open", "in_progress", "resolved", "closed"}

  /** The table `allowedTransitions`: a status and the statuses it may move to. */
  const AllowedTransitions: map<string, seq<string>> := map[
    "open" := ["in_progress"],
    "in_progress" := ["resolved"],
    "resolved" := ["closed", "in_progress"],
    "closed" := []
  ]

  /**
   * `isValidStatusTransition(currentStatus, newStatus)`: a current status missing
   * from the table gives `undefined`, which every caller reads as false.
   */
  function IsValidStatusTransition(current: string, next: string): (ok: bool)
    ensures ok ==> current in Statuses && next in Statuses
    ensures ok ==> current != next
    ensures current !in Statuses ==> !ok
  {
    current in AllowedTransitions && next in AllowedTransitions[current]
  }

  /** The relation is exactly the four edges of the table. */
  lemma TransitionTable(current: string, next: string)
    ensures IsValidStatusTransition(current, next) <==>
      || (current == "open" && next == "in_progress")
      || (current == "in_progress" && next == "resolved")
      || (current == "resolved" && next == "closed")
      || (current == "resolved" && next == "in_progress")
  {
  }

  lemma FromOpen(next: string)
    ensures IsValidStatusTransition("open", next) <==> next == "in_progress"
  {
  }

  lemma FromInProgress(next: string)
    ensures IsValidStatusTransition("in_progress", next) <==> next == "resolved"
  {
  }

  lemma FromResolved(next: string)
    ensures IsValidStatusTransition("resolved", next) <==> next == "closed" || next == "in_progress"
  {
  }

  lemma ClosedIsTerminal(next: string)
    ensures !IsValidStatusTransition("closed", next)
  {
  }

  /** `resolved -> in_progress` is the only edge that goes back in the order open, in_progress, resolved, closed. */
  lemma ReopenIsTheOnlyBackEdge(current: string, next: string)
    requires IsValidStatusTransition(current, next)
    ensures Rank(next) < Rank(current) <==> current == "resolved" && next == "in_progress"
  {
  }

  /** The position of a status in the lifecycle; unknown names come last. */
  function Rank(status: string): nat {
    if status == "open" then 0
    else if status == "in_progress" then 1
    else if status == "resolved" then 2
    else if status == "closed" then 3
    else 4
  }

  /** A sequence of statuses each of which may follow the one before. */
  ghost predicate IsPath(p: seq<string>) {
    forall i :: 0 <= i < |p| - 1 ==> IsValidStatusTransition(p[i], p[i + 1])
  }

  /** Every way from `open` to `closed` goes first to `in_progress` and last through `resolved`. */
  lemma OpenToClosed(p: seq<string>)
    requires IsPath(p) && |p| >= 2
    requires p[0] == "open" && p[|p| - 1] == "closed"
    ensures |p| >= 4
    ensures p[1] == "in_progress" && p[|p| - 2] == "resolved"
  {
    assert IsValidStatusTransition(p[0], p[1]);
    assert IsValidStatusTransition(p[|p| - 2], p[|p| - 1]);
  }

  /** Nothing follows `closed` on a path. */
  lemma ClosedEndsEveryPath(p: seq<string>, i: nat)
    requires IsPath(p) && i < |p| && p[i] == "closed"
    ensures i == |p| - 1
  {
    assert i < |p| - 1 ==> IsValidStatusTransition(p[i], p[i + 1]);
  }

  /** No edge leads into `open`: a ticket never returns to it. */
  lemma OpenIsNeverReentered(p: seq<string>, i: nat)
    requires IsPath(p) && 0 < i < |p|
    ensures p[i] != "open"
  {
    assert IsValidStatusTransition(p[i - 1], p[i]);
  }

  /** A path from `open` takes at least `Rank(s)` steps to reach `s`: `closed` is three steps away at least. */
  lemma {:induction false} PathCoversRank(p: seq<string>)
    requires IsPath(p) && |p| >= 1 && p[0] == "open"
    ensures Rank(p[|p| - 1]) <= |p| - 1
    decreases |p|
  {
    if |p| > 1 {
      var q := p[..|p| - 1];
      assert IsPath(q) by {
        forall i | 0 <= i < |q| - 1 ensures IsValidStatusTransition(q[i], q[i + 1]) {
          assert IsValidStatusTransition(p[i], p[i + 1]);
        }
      }
      PathCoversRank(q);
      assert IsValidStatusTransition(p[|p| - 2], p[|p| - 1]);
    }
  }
}
