/** The auction state machine: the transition table, the status log, and the calls that walk them. */
module Lifecycle {
  import opened Basics
  import opened Records

  function Allowed(from: Status): set<Status> {
    match from
    case Draft => {Submitted, Cancelled}
    case Submitted => {Approved, Status.Rejected}
    case Approved => {Scheduled}
    case Scheduled => {Live, Cancelled}
    case Live => {Paused, Closed, Cancelled, Disputed}
    case Paused => {Live, Cancelled}
    case Closed => {Settled, Disputed}
    case Settled => {Completed, Disputed}
    case Disputed => {Closed}
    case Rejected => {}
    case Cancelled => {}
    case Completed => {}
  }

  /** Statuses whose entry gets an audit action of its own. */
  const AUDITED: set<Status> := {Submitted, Approved, Status.Rejected, Live, Cancelled, Closed}

  /** Statuses before any bid can have been placed. */
  const BEFORE_BIDDING: set<Status> := {Draft, Submitted, Approved, Status.Rejected, Scheduled}

  /** Bidding is over for good and the closing rules have decided on a winner or none. */
  const FINISHED: set<Status> := {Closed, Settled, Completed, Disputed}

  function Transition(l: Lot, to: Status, actor: Option<User>, reason: Reason): Reply {
    if to !in Allowed(l.status) then Err(InvalidTransition(l.status, to))
    else if to == Status.Rejected && reason == Given("") then Err(RejectionNeedsReason)
    else
      Ok(l.(
        status := to,
        statusLog := l.statusLog + [StatusRow(l.status, to, actor, reason)],
        audit := l.audit + if to in AUDITED then [Entered(to, actor, reason)] else []))
  }

  function Submit(l: Lot, actor: User): Reply {
    Transition(l, Submitted, Some(actor), Given(""))
  }

  /**
   * Two transitions, each committed on its own. `lost` says that the process stops between the two
   * commits, so that only the first has any effect.
   */
  function Approve(l: Lot, actor: User, reason: string, lost: bool): Reply {
    var approved :- Transition(l, Approved, Some(actor), Given(reason));
    if lost then Ok(approved) else Transition(approved, Scheduled, Some(actor), AutoScheduled)
  }

  function Reject(l: Lot, actor: User, reason: string): Reply {
    Transition(l, Status.Rejected, Some(actor), Given(reason))
  }

  function Cancel(l: Lot, actor: User, reason: string): Reply {
    Transition(l, Cancelled, Some(actor), Given(reason))
  }

  predicate DueToStart(l: Lot, now: Time) {
    l.status == Scheduled && l.startTime <= now
  }

  function ActivateIfDue(l: Lot, now: Time, actor: Option<User>): Reply {
    if DueToStart(l, now) then Transition(l, Live, actor, AutoActivated) else Ok(l)
  }

  /** The seller's edit form: only a draft can be changed, and only to valid terms. */
  function EditDraft(l: Lot, category: string, terms: Terms, start: Time, end: Time): Reply {
    if l.status != Draft then Err(NotDraft)
    else if !ValidListing(terms, start, end) then Err(BadTerms)
    else
      Ok(l.(category := category, terms := terms, startTime := start, endTime := end))
  }

  // ---- The status log as a path through the table ----

  /**
   * Edges of the table that some service call takes. Nothing moves a live auction straight to
   * disputed, and nothing completes a settled one.
   */
  predicate ServiceEdge(from: Status, to: Status) {
    to in Allowed(from) && !(from == Live && to == Disputed) && to != Completed
  }

  /** The rows chain from `Draft` to `last` along edges that services take. */
  ghost predicate IsPath(log: seq<StatusRow>, last: Status) {
    if log == [] then last == Draft
    else
        var row := log[|log| - 1];
        row.to == last && ServiceEdge(row.from, last) && IsPath(log[..|log| - 1], row.from)
  }

  function Closings(log: seq<StatusRow>): nat {
    if log == [] then 0
    else
        var row := log[|log| - 1];
        Closings(log[..|log| - 1]) + if row.from == Live && row.to == Closed then 1 else 0
  }

  lemma PathGrows(log: seq<StatusRow>, last: Status, row: StatusRow)
    requires IsPath(log, last) && row.from == last && ServiceEdge(last, row.to)
    ensures IsPath(log + [row], row.to)
  {
  }

  /** Every row of a path is an edge of the table, and each row starts where the one before it ended. */
  lemma {:induction false} PathIsChained(log: seq<StatusRow>, last: Status)
    requires IsPath(log, last)
    ensures forall i :: 0 <= i < |log| ==> log[i].to in Allowed(log[i].from)
    ensures forall i :: 0 <= i < |log| - 1 ==> log[i].to == log[i + 1].from
    ensures log != [] ==> log[0].from == Draft && log[|log| - 1].to == last
    ensures log == [] ==> last == Draft
  {
    if log != [] {
      var n := |log| - 1;
      PathIsChained(log[..n], log[n].from);
      forall i | 0 <= i < n
        ensures log[i].to in Allowed(log[i].from) && log[i].to == log[i + 1].from
      {
        assert log[..n][i] == log[i];
        if i < n - 1 { assert log[..n][i + 1] == log[i + 1]; }
      }
    }
  }

  /**
   * Bidding closes once and for all: a path has exactly one closing row when it has reached a finished
   * status and none before, so no second closing can follow the first.
   */
  lemma {:induction false} ClosesAtMostOnce(log: seq<StatusRow>, last: Status)
    requires IsPath(log, last)
    ensures Closings(log) == if last in FINISHED then 1 else 0
  {
    if log != [] {
      ClosesAtMostOnce(log[..|log| - 1], log[|log| - 1].from);
    }
  }
}
