/** Every service call as one step on a lot, runs of such steps, and the reachable states. */
module Engine {
  import opened Basics
  import opened Records
  import opened Amounts
  import Lifecycle
  import Bidding
  import Scheduling
  import Settlement

  datatype Op =
    | EditDraft(kind: string, terms: Terms, start: Time, end: Time)
    | Submit(actor: User)
    | Approve(actor: User, reason: string, lost: bool)
    | Reject(actor: User, reason: string)
    | Cancel(actor: User, reason: string)
    | Activate(who: Option<User>)
    | StartNow(actor: User)
    | Reschedule(actor: User, reason: string, newStart: Option<Time>, newEnd: Option<Time>)
    | Pause(actor: User, reason: string)
    | Resume(actor: User)
    | CancelAuction(actor: User, reason: string)
    | EndNow(actor: User, reason: string)
    | PlaceBid(account: Bidding.Account, amount: Amount)
    | InvalidateBid(k: nat, actor: User, reason: string)
    | CloseAuction(who: Option<User>, why: Reason)
    | CreatePendingPayment
    | MarkPaid(actor: User, payMethod: string, reference: string, notes: string)
    | MarkFailed(actor: User, reason: string, lost: bool)
    | OpenDispute(raisedBy: User, category: Option<DisputeCategory>, description: string)
    | TakeForReview(k: nat, actor: User)
    | ResolveDispute(k: nat, actor: User, outcome: Option<DisputeOutcome>, notes: string, refund: bool)

  function Apply(l: Lot, now: Time, op: Op): Reply {
    match op
    case EditDraft(kind, terms, start, end) => Lifecycle.EditDraft(l, kind, terms, start, end)
    case Submit(actor) => Lifecycle.Submit(l, actor)
    case Approve(actor, reason, lost) => Lifecycle.Approve(l, actor, reason, lost)
    case Reject(actor, reason) => Lifecycle.Reject(l, actor, reason)
    case Cancel(actor, reason) => Lifecycle.Cancel(l, actor, reason)
    case Activate(actor) => Lifecycle.ActivateIfDue(l, now, actor)
    case StartNow(actor) => Scheduling.StartNow(l, now, actor)
    case Reschedule(actor, reason, start, end) => Scheduling.Reschedule(l, now, actor, reason, start, end)
    case Pause(actor, reason) => Scheduling.Pause(l, actor, reason)
    case Resume(actor) => Scheduling.Resume(l, now, actor)
    case CancelAuction(actor, reason) => Scheduling.CancelAuction(l, actor, reason)
    case EndNow(actor, reason) => Scheduling.EndNow(l, now, actor, reason)
    case PlaceBid(account, amount) => Bidding.PlaceBid(l, now, account, amount)
    case InvalidateBid(k, actor, reason) => Bidding.InvalidateBid(l, now, k, actor, reason)
    case CloseAuction(actor, reason) => Bidding.CloseAuction(l, now, actor, reason)
    case CreatePendingPayment => Ok(Bidding.CreatePendingPayment(l, now))
    case MarkPaid(actor, payMethod, reference, notes) =>
      Settlement.MarkPaid(l, now, actor, payMethod, reference, notes)
    case MarkFailed(actor, reason, lost) => Settlement.MarkFailed(l, actor, reason, lost)
    case OpenDispute(user, category, description) => Settlement.OpenDispute(l, now, user, category, description)
    case TakeForReview(k, actor) => Settlement.TakeForReview(l, k, actor)
    case ResolveDispute(k, actor, outcome, notes, refund) =>
      Settlement.ResolveDispute(l, now, k, actor, outcome, notes, refund)
  }

  /** A refused call is rolled back. */
  function Step(l: Lot, now: Time, op: Op): Lot {
    var r := Apply(l, now, op);
    if r.Ok? then r.value else l
  }

  datatype Call = Call(at: Time, op: Op)

  function Run(l: Lot, calls: seq<Call>): Lot {
    if calls == [] then l
    else
      var n := |calls| - 1;
      Step(Run(l, calls[..n]), calls[n].at, calls[n].op)
  }

  function Clock(start: Time, calls: seq<Call>): Time {
    if calls == [] then start else calls[|calls| - 1].at
  }

  /** The clock never runs backwards. */
  ghost predicate Timely(start: Time, calls: seq<Call>) {
    calls == [] ||
    var n := |calls| - 1;
    Timely(start, calls[..n]) && Clock(start, calls[..n]) <= calls[n].at
  }

  /** A listing the seller has just saved. */
  ghost predicate IsNewListing(l: Lot) {
    ValidListing(l.terms, l.startTime, l.endTime) &&
    l == NewListing(l.seller, l.category, l.createdAt, l.terms, l.startTime, l.endTime)
  }

  /** Some run of service calls leads from a new listing to `l`, with the clock now at `now`. */
  ghost predicate Reachable(l: Lot, now: Time) {
    exists l0: Lot, t0: Time, calls: seq<Call> ::
      IsNewListing(l0) && Timely(t0, calls) && Run(l0, calls) == l && Clock(t0, calls) == now
  }

  lemma {:induction false} RunSplits(l: Lot, start: Time, a: seq<Call>, b: seq<Call>)
    ensures Run(l, a + b) == Run(Run(l, a), b)
    ensures Clock(start, a + b) == Clock(Clock(start, a), b)
    ensures Timely(start, a) && Timely(Clock(start, a), b) ==> Timely(start, a + b)
  {
    if b == [] {
      assert a + b == a;
    } else {
      var n := |b| - 1;
      RunSplits(l, start, a, b[..n]);
      assert (a + b)[..|a| + n] == a + b[..n];
    }
  }

  /** Whatever a reachable lot turns into is reachable. */
  lemma ReachableOnwards(l: Lot, now: Time, calls: seq<Call>)
    requires Reachable(l, now) && Timely(now, calls)
    ensures Reachable(Run(l, calls), Clock(now, calls))
  {
    var l0, t0, before :| IsNewListing(l0) && Timely(t0, before) && Run(l0, before) == l && Clock(t0, before) == now;
    RunSplits(l0, t0, before, calls);
  }

  lemma RunOfOne(l: Lot, now: Time, at: Time, op: Op)
    ensures Run(l, [Call(at, op)]) == Step(l, at, op)
    ensures now <= at ==> Timely(now, [Call(at, op)])
    ensures Clock(now, [Call(at, op)]) == at
  {
  }

  lemma ReachableStep(l: Lot, now: Time, at: Time, op: Op)
    requires Reachable(l, now) && now <= at
    ensures Reachable(Step(l, at, op), at)
  {
    hide Apply;
    RunOfOne(l, now, at, op);
    ReachableOnwards(l, now, [Call(at, op)]);
  }

  lemma ReachableFromNew(l: Lot, now: Time)
    requires IsNewListing(l)
    ensures Reachable(l, now)
  {
    var none: seq<Call> := [];
    assert Run(l, none) == l && Timely(now, none) && Clock(now, none) == now;
  }

  // ---- The logs ----

  /** Equal rows, leaving out who did what and why. */
  ghost predicate SameButLogs(a: Lot, b: Lot) {
    a == b.(statusLog := a.statusLog, audit := a.audit)
  }

  lemma TransitionIgnoresLogs(a: Lot, b: Lot, to: Status, actor: Option<User>, why: Reason)
    requires SameButLogs(a, b)
    ensures var ra, rb := Lifecycle.Transition(a, to, actor, why), Lifecycle.Transition(b, to, actor, why);
            (ra.Ok? <==> rb.Ok?) && (ra.Ok? ==> SameButLogs(ra.value, rb.value))
  {
    hide Lifecycle.Allowed;
  }

  lemma ClosingIgnoresLogs(a: Lot, b: Lot, now: Time, actor: Option<User>, why: Reason)
    requires SameButLogs(a, b)
    ensures var ra, rb := Bidding.CloseAuction(a, now, actor, why), Bidding.CloseAuction(b, now, actor, why);
            (ra.Ok? <==> rb.Ok?) && (ra.Ok? ==> SameButLogs(ra.value, rb.value))
  {
    hide Bidding.ClosingLeader;
    hide Lifecycle.Transition;
    var v := Bidding.Decide(a);
    assert v == Bidding.Decide(b);
    hide Bidding.Decide;
    TransitionIgnoresLogs(
      a.(winner := v.winner, finalPrice := v.finalPrice, reserveMet := v.reserveMet),
      b.(winner := v.winner, finalPrice := v.finalPrice, reserveMet := v.reserveMet), Closed, actor, why);
  }

  lemma ResolutionIgnoresLogs(a: Lot, b: Lot, now: Time, op: Op)
    requires SameButLogs(a, b) && op.ResolveDispute?
    ensures SameButLogs(Step(a, now, op), Step(b, now, op))
    ensures Apply(a, now, op).Ok? <==> Apply(b, now, op).Ok?
  {
    hide Strip;
    hide Settlement.Shortened;
  }

  lemma DisputeCallsIgnoreLogs(a: Lot, b: Lot, now: Time, op: Op)
    requires SameButLogs(a, b) && (op.OpenDispute? || op.TakeForReview?)
    ensures SameButLogs(Step(a, now, op), Step(b, now, op))
    ensures Apply(a, now, op).Ok? <==> Apply(b, now, op).Ok?
  {
    hide Strip;
    hide Settlement.Shortened;
  }

  lemma BidAndPaymentCallsIgnoreLogs(a: Lot, b: Lot, now: Time, op: Op)
    requires SameButLogs(a, b)
    requires op.PlaceBid? || op.InvalidateBid? || op.CreatePendingPayment? || op.MarkPaid? || op.MarkFailed?
    ensures SameButLogs(Step(a, now, op), Step(b, now, op))
    ensures Apply(a, now, op).Ok? <==> Apply(b, now, op).Ok?
  {
    hide ToCents;
  }

  lemma ListingAndStaffCallsIgnoreLogs(a: Lot, b: Lot, now: Time, op: Op)
    requires SameButLogs(a, b)
    requires op.EditDraft? || op.Submit? || op.Approve? || op.Reject? || op.Cancel? || op.Activate? ||
             op.StartNow? || op.Reschedule? || op.Pause? || op.Resume? || op.CancelAuction?
    ensures SameButLogs(Step(a, now, op), Step(b, now, op))
    ensures Apply(a, now, op).Ok? <==> Apply(b, now, op).Ok?
  {
    hide Strip;
  }

  /** The logs are only ever written: what is in them changes neither what a call does nor whether it is refused. */
  lemma StepIgnoresLogs(a: Lot, b: Lot, now: Time, op: Op)
    requires SameButLogs(a, b)
    ensures SameButLogs(Step(a, now, op), Step(b, now, op))
    ensures Apply(a, now, op).Ok? <==> Apply(b, now, op).Ok?
  {
    match op
    case CloseAuction(actor, why) => ClosingIgnoresLogs(a, b, now, actor, why);
    case EndNow(actor, reason) => ClosingIgnoresLogs(a, b, now, Some(actor), EndedEarly(Strip(reason)));
    case OpenDispute(_, _, _) => DisputeCallsIgnoreLogs(a, b, now, op);
    case TakeForReview(_, _) => DisputeCallsIgnoreLogs(a, b, now, op);
    case ResolveDispute(_, _, _, _, _) => ResolutionIgnoresLogs(a, b, now, op);
    case PlaceBid(_, _) => BidAndPaymentCallsIgnoreLogs(a, b, now, op);
    case InvalidateBid(_, _, _) => BidAndPaymentCallsIgnoreLogs(a, b, now, op);
    case CreatePendingPayment => BidAndPaymentCallsIgnoreLogs(a, b, now, op);
    case MarkPaid(_, _, _, _) => BidAndPaymentCallsIgnoreLogs(a, b, now, op);
    case MarkFailed(_, _, _) => BidAndPaymentCallsIgnoreLogs(a, b, now, op);
    case _ => ListingAndStaffCallsIgnoreLogs(a, b, now, op);
  }

  lemma {:induction false} RunIgnoresLogs(a: Lot, b: Lot, calls: seq<Call>)
    requires SameButLogs(a, b)
    ensures SameButLogs(Run(a, calls), Run(b, calls))
  {
    hide Apply;
    if calls != [] {
      var n := |calls| - 1;
      RunIgnoresLogs(a, b, calls[..n]);
      StepIgnoresLogs(Run(a, calls[..n]), Run(b, calls[..n]), calls[n].at, calls[n].op);
    }
  }
}
