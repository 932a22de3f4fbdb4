/** The audit log as a source of truth: replaying it rebuilds what the rows say. */
module Replay {
  import opened Basics
  import opened Records
  import opened Amounts
  import Lifecycle
  import Bidding
  import Scheduling
  import Settlement
  import opened Engine
  import opened Invariants
  import Histories

  /** A bid as the audit log knows it. */
  datatype Entry = Entry(bidder: User, amount: Cents, live: bool)

  /** A status change of a kind that the audit log records: into what, by whom and why. */
  datatype Move = Move(to: Status, who: Option<User>, why: Reason)

  /** Everything about a lot that its audit log determines. */
  datatype Ledger = Ledger(
    moves: seq<Move>, entries: seq<Entry>, start: Time, end: Time,
    winner: Option<User>, price: Option<Cents>, payment: Option<PaymentStatus>,
    activeDisputes: seq<bool>)

  /** The rows of the status log that have a counterpart in the audit log. */
  function AuditedMoves(log: seq<StatusRow>): seq<Move> {
    if log == [] then []
    else
      var row := log[|log| - 1];
      AuditedMoves(log[..|log| - 1])
      + if row.to in Lifecycle.AUDITED then [Move(row.to, row.actor, row.reason)] else []
  }

  function EntriesOf(bids: seq<Bid>): (entries: seq<Entry>)
    ensures |entries| == |bids|
  {
    seq(|bids|, i requires 0 <= i < |bids| => Entry(bids[i].bidder, bids[i].amount, bids[i].status.Accepted?))
  }

  function ActiveFlags(disputes: seq<Dispute>): (flags: seq<bool>)
    ensures |flags| == |disputes|
  {
    seq(|disputes|, k requires 0 <= k < |disputes| => disputes[k].Active())
  }

  function LedgerOf(l: Lot): Ledger {
    Ledger(AuditedMoves(l.statusLog), EntriesOf(l.bids), l.startTime, l.endTime, l.winner, l.finalPrice,
           if l.payment.None? then None else Some(l.payment.value.status), ActiveFlags(l.disputes))
  }

  /** How one audit row changes the ledger. Rows naming a bid or dispute that is not there are ignored. */
  function Post(g: Ledger, event: AuditEvent): Ledger {
    match event
    case BidPlaced(actor, _, amount) => g.(entries := g.entries + [Entry(actor, amount, true)])
    case BidInvalidated(_, seqNo, _) =>
      if 1 <= seqNo <= |g.entries|
      then g.(entries := g.entries[seqNo - 1 := g.entries[seqNo - 1].(live := false)]) else g
    case Extended(_, newEnd) => g.(end := newEnd)
    case StartedEarly(_, _, newStart) => g.(start := newStart)
    case Rescheduled(_, _, _, newStart, _, newEnd) => g.(start := newStart, end := newEnd)
    case WinnerDetermined(_, winner, price) => g.(winner := Some(winner), price := Some(price))
    case PaymentPending => g.(payment := Some(Pending))
    case PaymentReceived(_, _, _) => g.(payment := Some(Paid))
    case PaymentFailed(_, _) => g.(payment := Some(Failed))
    case PaymentRefunded(_, _) => g.(payment := Some(Refunded))
    case DisputeCreated(_, _, _, _) => g.(activeDisputes := g.activeDisputes + [true])
    case DisputeResolved(_, k, _, _, _) =>
      if k < |g.activeDisputes| then g.(activeDisputes := g.activeDisputes[k := false]) else g
    case Entered(to, who, why) => g.(moves := g.moves + [Move(to, who, why)])
    case PausedBy(_, _) => g
    case ResumedBy(_) => g
  }

  function Posted(g: Ledger, events: seq<AuditEvent>): Ledger {
    if events == [] then g
    else Post(Posted(g, events[..|events| - 1]), events[|events| - 1])
  }

  lemma {:induction false} PostedAppends(g: Ledger, a: seq<AuditEvent>, b: seq<AuditEvent>)
    ensures Posted(g, a + b) == Posted(Posted(g, a), b)
  {
    hide Post;
    if b == [] {
      assert a + b == a;
    } else {
      var n := |b| - 1;
      PostedAppends(g, a, b[..n]);
      assert (a + b)[..|a| + n] == a + b[..n];
    }
  }

  /** `l'` is what `l` becomes by the audit rows added since. */
  ghost predicate Explains(l: Lot, l': Lot) {
    l.audit <= l'.audit && Posted(LedgerOf(l), l'.audit[|l.audit|..]) == LedgerOf(l')
  }

  lemma ExplainsTransitively(a: Lot, b: Lot, c: Lot)
    requires Explains(a, b) && Explains(b, c)
    ensures Explains(a, c)
  {
    var x, y := b.audit[|a.audit|..], c.audit[|b.audit|..];
    assert c.audit[|a.audit|..] == x + y;
    PostedAppends(LedgerOf(a), x, y);
  }

  lemma OneRow(l: Lot, l': Lot, e: AuditEvent)
    requires l'.audit == l.audit + [e] && Post(LedgerOf(l), e) == LedgerOf(l')
    ensures Explains(l, l')
  {
  }

  lemma NoRow(l: Lot, l': Lot)
    requires l'.audit == l.audit && LedgerOf(l) == LedgerOf(l')
    ensures Explains(l, l')
  {
  }

  lemma TransitionExplained(l: Lot, to: Status, actor: Option<User>, reason: Reason)
    requires Lifecycle.Transition(l, to, actor, reason).Ok?
    ensures Explains(l, Lifecycle.Transition(l, to, actor, reason).value)
  {
  }

  lemma PlaceBidExplained(l: Lot, now: Time, account: Bidding.Account, amount: Amount)
    requires Bidding.PlaceBid(l, now, account, amount).Ok?
    ensures Explains(l, Bidding.PlaceBid(l, now, account, amount).value)
  {
    var l' := Bidding.PlaceBid(l, now, account, amount).value;
    var n := |l.bids|;
    var mid := l.(endTime := l'.endTime, audit := l'.audit[..|l'.audit| - 1]);
    if mid.audit == l.audit { NoRow(l, mid); } else { OneRow(l, mid, Extended(account.user, l'.endTime)); }
    assert EntriesOf(l'.bids) == EntriesOf(l.bids) + [Entry(account.user, l'.bids[n].amount, true)];
    OneRow(mid, l', BidPlaced(account.user, l'.bids[n].seqNo, l'.bids[n].amount));
    ExplainsTransitively(l, mid, l');
  }

  lemma InvalidateBidExplained(l: Lot, now: Time, k: nat, actor: User, reason: string)
    requires k < |l.bids| && l.bids[k].seqNo == k + 1
    requires Bidding.InvalidateBid(l, now, k, actor, reason).Ok?
    ensures Explains(l, Bidding.InvalidateBid(l, now, k, actor, reason).value)
  {
  }

  lemma AwardExplained(moved: Lot, v: Bidding.Verdict, now: Time, actor: Option<User>)
    requires v.winner.Some? && v.finalPrice.Some? && moved.payment.None?
    ensures var won := moved.(
              winner := v.winner, finalPrice := v.finalPrice, reserveMet := v.reserveMet,
              audit := moved.audit + [WinnerDetermined(actor, v.winner.value, v.finalPrice.value)]);
            Explains(moved, Bidding.CreatePendingPayment(won, now))
  {
    hide AuditedMoves;
    hide Explains;
    var event := WinnerDetermined(actor, v.winner.value, v.finalPrice.value);
    var won := moved.(
      winner := v.winner, finalPrice := v.finalPrice, reserveMet := v.reserveMet, audit := moved.audit + [event]);
    OneRow(moved, won, event);
    OneRow(won, Bidding.CreatePendingPayment(won, now), PaymentPending);
    ExplainsTransitively(moved, won, Bidding.CreatePendingPayment(won, now));
  }

  lemma CloseAuctionExplained(l: Lot, now: Time, actor: Option<User>, reason: Reason)
    requires l.winner.None? && l.finalPrice.None? && l.payment.None?
    requires Bidding.CloseAuction(l, now, actor, reason).Ok?
    ensures Explains(l, Bidding.CloseAuction(l, now, actor, reason).value)
  {
    hide AuditedMoves;
    hide Explains;
    var l' := Bidding.CloseAuction(l, now, actor, reason).value;
    var v := Bidding.Decide(l);
    var moved := Lifecycle.Transition(l, Closed, actor, reason).value;
    TransitionExplained(l, Closed, actor, reason);
    if v.winner.Some? { AwardExplained(moved, v, now, actor); } else { NoRow(moved, l'); }
    ExplainsTransitively(l, moved, l');
  }

  lemma ApproveExplained(l: Lot, actor: User, reason: string, lost: bool)
    requires Lifecycle.Approve(l, actor, reason, lost).Ok?
    ensures Explains(l, Lifecycle.Approve(l, actor, reason, lost).value)
  {
    hide AuditedMoves;
    hide Explains;
    TransitionExplained(l, Approved, Some(actor), Given(reason));
    var approved := Lifecycle.Transition(l, Approved, Some(actor), Given(reason)).value;
    if !lost {
      TransitionExplained(approved, Scheduled, Some(actor), AutoScheduled);
      ExplainsTransitively(l, approved, Lifecycle.Approve(l, actor, reason, lost).value);
    }
  }

  lemma StartNowExplained(l: Lot, now: Time, actor: User)
    requires Scheduling.StartNow(l, now, actor).Ok?
    ensures Explains(l, Scheduling.StartNow(l, now, actor).value)
  {
    hide AuditedMoves;
    hide Explains;
    var event := StartedEarly(actor, l.startTime, now);
    var moved := if l.startTime > now then l.(startTime := now, audit := l.audit + [event]) else l;
    if l.startTime > now { OneRow(l, moved, event); } else { NoRow(l, moved); }
    TransitionExplained(moved, Live, Some(actor), StartedByStaff);
    ExplainsTransitively(l, moved, Scheduling.StartNow(l, now, actor).value);
  }

  lemma RescheduleExplained(l: Lot, now: Time, actor: User, reason: string, start: Option<Time>, end: Option<Time>)
    requires Scheduling.Reschedule(l, now, actor, reason, start, end).Ok?
    ensures Explains(l, Scheduling.Reschedule(l, now, actor, reason, start, end).value)
  {
  }

  lemma PauseExplained(l: Lot, actor: User, reason: string)
    requires Scheduling.Pause(l, actor, reason).Ok?
    ensures Explains(l, Scheduling.Pause(l, actor, reason).value)
  {
    hide AuditedMoves;
    hide Explains;
    var paused := Lifecycle.Transition(l, Paused, Some(actor), Given(Strip(reason))).value;
    TransitionExplained(l, Paused, Some(actor), Given(Strip(reason)));
    OneRow(paused, Scheduling.Pause(l, actor, reason).value, PausedBy(actor, Strip(reason)));
    ExplainsTransitively(l, paused, Scheduling.Pause(l, actor, reason).value);
  }

  lemma ResumeExplained(l: Lot, now: Time, actor: User)
    requires Scheduling.Resume(l, now, actor).Ok?
    ensures Explains(l, Scheduling.Resume(l, now, actor).value)
  {
    hide AuditedMoves;
    hide Explains;
    var live := Lifecycle.Transition(l, Live, Some(actor), ResumedByStaff).value;
    TransitionExplained(l, Live, Some(actor), ResumedByStaff);
    OneRow(live, Scheduling.Resume(l, now, actor).value, ResumedBy(actor));
    ExplainsTransitively(l, live, Scheduling.Resume(l, now, actor).value);
  }

  lemma MarkPaidExplained(l: Lot, now: Time, actor: User, payMethod: string, reference: string, notes: string)
    requires Settlement.MarkPaid(l, now, actor, payMethod, reference, notes).Ok?
    ensures Explains(l, Settlement.MarkPaid(l, now, actor, payMethod, reference, notes).value)
  {
    hide AuditedMoves;
    hide Explains;
    var l' := Settlement.MarkPaid(l, now, actor, payMethod, reference, notes).value;
    var paid := l.(payment := l'.payment, audit := l.audit + [PaymentReceived(actor, payMethod, reference)]);
    OneRow(l, paid, PaymentReceived(actor, payMethod, reference));
    if l.status == Closed {
      TransitionExplained(paid, Settled, Some(actor), PaymentRecorded);
      ExplainsTransitively(l, paid, l');
    }
  }

  lemma OpenDisputeExplained(
    l: Lot, now: Time, raisedBy: User, category: Option<DisputeCategory>, description: string)
    requires Settlement.OpenDispute(l, now, raisedBy, category, description).Ok?
    ensures Explains(l, Settlement.OpenDispute(l, now, raisedBy, category, description).value)
  {
    hide AuditedMoves;
    hide Explains;
    hide Settlement.Shortened;
    var l' := Settlement.OpenDispute(l, now, raisedBy, category, description).value;
    var k := |l.disputes|;
    var moved := Lifecycle.Transition(l, Disputed, Some(raisedBy), DisputeRaised(k)).value;
    TransitionExplained(l, Disputed, Some(raisedBy), DisputeRaised(k));
    assert ActiveFlags(l'.disputes) == ActiveFlags(l.disputes) + [true];
    OneRow(moved, l', DisputeCreated(raisedBy, k, category.value, Settlement.Shortened(Strip(description))));
    ExplainsTransitively(l, moved, l');
  }

  lemma TakeForReviewExplained(l: Lot, k: nat, actor: User)
    requires Settlement.TakeForReview(l, k, actor).Ok?
    ensures Explains(l, Settlement.TakeForReview(l, k, actor).value)
  {
  }

  lemma RefundExplained(l: Lot, actor: User, reason: string)
    requires Settlement.MarkRefunded(l, actor, reason).Ok?
    ensures Explains(l, Settlement.MarkRefunded(l, actor, reason).value)
  {
  }

  lemma ResolutionExplained(
    l: Lot, l': Lot, k: nat, row: Dispute, actor: User, outcome: DisputeOutcome, refund: bool, text: string)
    requires k < |l.disputes| && row.status.Resolved?
    requires l' == l.(
      disputes := l.disputes[k := row], audit := l.audit + [DisputeResolved(actor, k, outcome, refund, text)])
    ensures Explains(l, l')
  {
  }

  lemma ResolveDisputeExplained(
    l: Lot, now: Time, k: nat, actor: User, outcome: Option<DisputeOutcome>, notes: string, refund: bool)
    requires Settlement.ResolveDispute(l, now, k, actor, outcome, notes, refund).Ok?
    ensures Explains(l, Settlement.ResolveDispute(l, now, k, actor, outcome, notes, refund).value)
  {
    hide Explains;
    var l' := Settlement.ResolveDispute(l, now, k, actor, outcome, notes, refund).value;
    var why := Settlement.RefundReason(k, Strip(notes));
    var repaid := if refund then Settlement.MarkRefunded(l, actor, why).value else l;
    if refund { RefundExplained(l, actor, why); } else { NoRow(l, repaid); }
    var closed := Lifecycle.Transition(repaid, Closed, Some(actor), DisputeSettled(k)).value;
    TransitionExplained(repaid, Closed, Some(actor), DisputeSettled(k));
    ExplainsTransitively(l, repaid, closed);
    var back := l.disputes[k].statusBefore == Settled && !refund;
    var restored := if back then Lifecycle.Transition(closed, Settled, Some(actor), RestoredAfter(k)).value else closed;
    if back { TransitionExplained(closed, Settled, Some(actor), RestoredAfter(k)); } else { NoRow(closed, restored); }
    ExplainsTransitively(l, closed, restored);
    ResolutionExplained(
      restored, l', k, l'.disputes[k], actor, outcome.value, refund, Settlement.Shortened(Strip(notes)));
    ExplainsTransitively(l, restored, l');
  }

  lemma BidAndClosingStepExplained(l: Lot, now: Time, op: Op)
    requires Inv(l, now) && Apply(l, now, op).Ok?
    requires op.PlaceBid? || op.InvalidateBid? || op.CloseAuction? || op.EndNow? || op.CreatePendingPayment?
    ensures Explains(l, Apply(l, now, op).value)
  {
    hide Explains;
    match op
    case PlaceBid(account, amount) => PlaceBidExplained(l, now, account, amount);
    case InvalidateBid(k, actor, reason) =>
      assert BidOk(l, k, now);
      InvalidateBidExplained(l, now, k, actor, reason);
    case CloseAuction(actor, why) => CloseAuctionExplained(l, now, actor, why);
    case EndNow(actor, reason) => CloseAuctionExplained(l, now, Some(actor), EndedEarly(Strip(reason)));
    case CreatePendingPayment =>
      CreatePendingPaymentIsIdle(l, now);
      NoRow(l, l);
  }

  lemma ListingAndStaffStepExplained(l: Lot, now: Time, op: Op)
    requires Apply(l, now, op).Ok?
    requires op.Submit? || op.Approve? || op.Reject? || op.Cancel? || op.Activate? ||
             op.StartNow? || op.Reschedule? || op.Pause? || op.Resume? || op.CancelAuction?
    ensures Explains(l, Apply(l, now, op).value)
  {
    hide Explains;
    match op
    case Submit(actor) => TransitionExplained(l, Submitted, Some(actor), Given(""));
    case Approve(actor, reason, lost) => ApproveExplained(l, actor, reason, lost);
    case Reject(actor, reason) => TransitionExplained(l, Status.Rejected, Some(actor), Given(reason));
    case Cancel(actor, reason) => TransitionExplained(l, Cancelled, Some(actor), Given(reason));
    case Activate(actor) =>
      if Lifecycle.DueToStart(l, now) { TransitionExplained(l, Live, actor, AutoActivated); } else { NoRow(l, l); }
    case StartNow(actor) => StartNowExplained(l, now, actor);
    case Reschedule(actor, reason, start, end) => RescheduleExplained(l, now, actor, reason, start, end);
    case Pause(actor, reason) => PauseExplained(l, actor, reason);
    case Resume(actor) => ResumeExplained(l, now, actor);
    case CancelAuction(actor, reason) => TransitionExplained(l, Cancelled, Some(actor), Given(Strip(reason)));
  }

  /** The call stops after the commit of the payment row and before that of its audit row. */
  predicate LosesItsRow(op: Op) {
    op.MarkFailed? && op.lost
  }

  lemma SettlementStepExplained(l: Lot, now: Time, op: Op)
    requires Apply(l, now, op).Ok? && !LosesItsRow(op)
    requires op.MarkPaid? || op.MarkFailed? || op.OpenDispute? || op.TakeForReview? || op.ResolveDispute?
    ensures Explains(l, Apply(l, now, op).value)
  {
    match op
    case MarkPaid(actor, payMethod, reference, notes) => MarkPaidExplained(l, now, actor, payMethod, reference, notes);
    case MarkFailed(actor, reason, lost) =>
      OneRow(l, Settlement.MarkFailed(l, actor, reason, lost).value, PaymentFailed(actor, reason));
    case OpenDispute(user, category, description) => OpenDisputeExplained(l, now, user, category, description);
    case TakeForReview(k, actor) => TakeForReviewExplained(l, k, actor);
    case ResolveDispute(k, actor, outcome, notes, refund) =>
      ResolveDisputeExplained(l, now, k, actor, outcome, notes, refund);
  }

  /**
   * Every call that changes what the ledger holds writes the audit rows that say how; a refused call
   * writes none. Only the seller's edits of a draft go unrecorded, and a failed payment whose call stops
   * before its audit row is committed.
   */
  lemma StepExplained(l: Lot, now: Time, op: Op)
    requires Inv(l, now) && (l.status != Draft || !op.EditDraft?)
    requires Apply(l, now, op).Ok? ==> !LosesItsRow(op)
    ensures Explains(l, Step(l, now, op))
  {
    hide Explains;
    hide Apply;
    if op.EditDraft? {
      EditDraftIsApplied(l, now, op);
      NoRow(l, l);
    } else if Apply(l, now, op).Err? {
      NoRow(l, l);
    } else if op.PlaceBid? || op.InvalidateBid? || op.CloseAuction? || op.EndNow? || op.CreatePendingPayment? {
      BidAndClosingStepExplained(l, now, op);
    } else if op.MarkPaid? || op.MarkFailed? || op.OpenDispute? || op.TakeForReview? || op.ResolveDispute? {
      SettlementStepExplained(l, now, op);
    } else {
      ListingAndStaffStepExplained(l, now, op);
    }
  }

  lemma EditDraftIsApplied(l: Lot, now: Time, op: Op)
    requires op.EditDraft?
    ensures Apply(l, now, op) == Lifecycle.EditDraft(l, op.kind, op.terms, op.start, op.end)
  {
  }

  /** Some call of the run records a failed payment and stops before it commits the audit row. */
  ghost predicate RowLost(l: Lot, calls: seq<Call>) {
    calls != [] &&
    var n := |calls| - 1;
    RowLost(l, calls[..n]) ||
    (LosesItsRow(calls[n].op) && Apply(Run(l, calls[..n]), calls[n].at, calls[n].op).Ok?)
  }

  /**
   * Log replay over any stretch of a run: from a lot that has left `Draft`, the audit rows written since
   * turn the old ledger into the new one, whatever calls were made and however many were refused, as long
   * as no row was lost.
   */
  lemma {:induction false} RunExplained(l: Lot, start: Time, calls: seq<Call>)
    requires Inv(l, start) && l.status != Draft && Timely(start, calls) && !RowLost(l, calls)
    ensures Explains(l, Run(l, calls))
  {
    hide Explains;
    hide Apply;
    hide Inv;
    if calls == [] {
      NoRow(l, l);
    } else {
      var n := |calls| - 1;
      var mid := Run(l, calls[..n]);
      RunExplained(l, start, calls[..n]);
      RunKeeps(l, start, calls[..n]);
      InvAsTimePasses(mid, Clock(start, calls[..n]), calls[n].at);
      assert mid.status != Draft by { Histories.RunEvolves(l, start, calls[..n]); }
      StepExplained(mid, calls[n].at, calls[n].op);
      ExplainsTransitively(l, mid, Run(l, calls));
    }
  }

  // ---- The whole log ----

  /** A lot on which nothing has been recorded yet, open from `start` to `end`. */
  function Blank(start: Time, end: Time): Ledger {
    Ledger([], [], start, end, None, None, None, [])
  }

  function BestLive(entries: seq<Entry>): Option<Cents> {
    if entries == [] then None
    else
      var e := entries[|entries| - 1];
      var before := BestLive(entries[..|entries| - 1]);
      if e.live && (before.None? || e.amount > before.value) then Some(e.amount) else before
  }

  lemma {:induction false} BestLiveIsBestAmount(bids: seq<Bid>)
    ensures BestLive(EntriesOf(bids)) == Bidding.BestAmount(bids)
  {
    if bids != [] {
      var n := |bids| - 1;
      BestLiveIsBestAmount(bids[..n]);
      assert EntriesOf(bids)[..n] == EntriesOf(bids[..n]);
    }
  }

  ghost predicate Rebuilt(l: Lot, start: Time, end: Time) {
    Posted(Blank(start, end), l.audit) == LedgerOf(l)
  }

  /** The lot as it was when it was last a draft, with the schedule that was submitted. */
  ghost function AsDraft(l: Lot, calls: seq<Call>): Lot {
    if calls == [] || Run(l, calls).status == Draft then Run(l, calls) else AsDraft(l, calls[..|calls| - 1])
  }

  /** What `AsDraft` gives is the lot that the call which left `Draft` found, if one did. */
  lemma {:induction false} AsDraftIsTheLastDraft(l: Lot, calls: seq<Call>)
    requires l.status == Draft
    ensures AsDraft(l, calls).status == Draft
    ensures Run(l, calls).status == Draft ==> AsDraft(l, calls) == Run(l, calls)
    ensures Run(l, calls).status != Draft ==>
              exists i: nat :: i < |calls| && AsDraft(l, calls) == Run(l, calls[..i]) &&
                               Step(Run(l, calls[..i]), calls[i].at, calls[i].op).status != Draft
  {
    hide Apply;
    if calls != [] && Run(l, calls).status != Draft {
      var n := |calls| - 1;
      AsDraftIsTheLastDraft(l, calls[..n]);
      if Run(l, calls[..n]).status == Draft {
        assert AsDraft(l, calls) == Run(l, calls[..n]);
      } else {
        var i: nat :| i < n && AsDraft(l, calls[..n]) == Run(l, calls[..n][..i]) &&
                      Step(Run(l, calls[..n][..i]), calls[..n][i].at, calls[..n][i].op).status != Draft;
        assert calls[..n][..i] == calls[..i] && calls[..n][i] == calls[i];
      }
    }
  }

  lemma EditRebuilds(l: Lot, now: Time, op: Op)
    requires op.EditDraft? && Apply(l, now, op).Ok? && l.audit == [] && l.bids == []
    requires l.winner.None? && l.finalPrice.None? && l.payment.None? && l.disputes == [] && l.statusLog == []
    ensures var l' := Apply(l, now, op).value;
            Rebuilt(l', l'.startTime, l'.endTime) && l'.audit == [] && l'.status == Draft
  {
  }

  lemma ExplainedIsRebuilt(l: Lot, l': Lot, start: Time, end: Time)
    requires Rebuilt(l, start, end) && Explains(l, l')
    ensures Rebuilt(l', start, end)
  {
    var more := l'.audit[|l.audit|..];
    assert l'.audit == l.audit + more;
    PostedAppends(Blank(start, end), l.audit, more);
  }

  /** Nothing but an edit changes a draft that stays a draft. */
  lemma DraftsOnlyChangeByEdits(l: Lot, now: Time, op: Op)
    requires Inv(l, now) && l.status == Draft && !op.EditDraft? && Step(l, now, op).status == Draft
    ensures Step(l, now, op) == l
  {
  }

  lemma NewIsRebuilt(l: Lot)
    requires IsNewListing(l)
    ensures Rebuilt(l, l.startTime, l.endTime)
  {
  }

  lemma DraftHasNoLog(l: Lot, now: Time)
    requires Inv(l, now) && l.status == Draft
    ensures l.statusLog == []
  {
  }

  lemma StepRebuilds(l: Lot, now: Time, op: Op, start: Time, end: Time)
    requires Inv(l, now) && Rebuilt(l, start, end) && (Apply(l, now, op).Ok? ==> !LosesItsRow(op))
    requires l.status == Draft ==> l.audit == [] && start == l.startTime && end == l.endTime
    ensures var l' := Step(l, now, op);
            if l'.status == Draft then l'.audit == [] && Rebuilt(l', l'.startTime, l'.endTime)
            else Rebuilt(l', start, end)
  {
    hide Apply;
    hide Explains;
    hide Rebuilt;
    var l' := Step(l, now, op);
    if l.status == Draft && op.EditDraft? {
      if Apply(l, now, op).Ok? {
        DraftHasNoLog(l, now);
        EditRebuilds(l, now, op);
      }
    } else {
      StepExplained(l, now, op);
      ExplainedIsRebuilt(l, l', start, end);
      if l'.status == Draft {
        assert l.status == Draft by { if l.status != Draft { Histories.StepEvolves(l, now, op); } }
        DraftsOnlyChangeByEdits(l, now, op);
      }
    }
  }

  lemma {:induction false} RunRebuilds(l: Lot, start: Time, calls: seq<Call>)
    requires IsNewListing(l) && Timely(start, calls) && !RowLost(l, calls)
    ensures Rebuilt(Run(l, calls), AsDraft(l, calls).startTime, AsDraft(l, calls).endTime)
    ensures Run(l, calls).status == Draft ==> Run(l, calls).audit == []
  {
    hide Apply;
    hide Inv;
    hide Rebuilt;
    if calls == [] {
      NewIsRebuilt(l);
    } else {
      var n := |calls| - 1;
      RunRebuilds(l, start, calls[..n]);
      var mid := Run(l, calls[..n]);
      AsDraftIsTheLastDraft(l, calls[..n]);
      assert Inv(mid, calls[n].at) by {
        NewListingInv(l, start);
        RunKeeps(l, start, calls[..n]);
        InvAsTimePasses(mid, Clock(start, calls[..n]), calls[n].at);
      }
      var draft := AsDraft(l, calls[..n]);
      StepRebuilds(mid, calls[n].at, calls[n].op, draft.startTime, draft.endTime);
      assert Run(l, calls) == Step(mid, calls[n].at, calls[n].op);
    }
  }

  // ---- A lost row ----

  predicate IsPaymentRow(e: AuditEvent) {
    e.PaymentPending? || e.PaymentReceived? || e.PaymentFailed? || e.PaymentRefunded?
  }

  ghost predicate HasFailed(l: Lot) {
    l.payment.Some? && l.payment.value.status == Failed
  }

  ghost predicate NoPaymentRow(rows: seq<AuditEvent>) {
    forall i :: 0 <= i < |rows| ==> !IsPaymentRow(rows[i])
  }

  lemma {:induction false} PostedPaymentStays(g: Ledger, rows: seq<AuditEvent>)
    requires NoPaymentRow(rows)
    ensures Posted(g, rows).payment == g.payment
  {
    if rows != [] { PostedPaymentStays(g, rows[..|rows| - 1]); }
  }

  /** A finished auction is open to invalidation and disputes only, once its payment is recorded. */
  lemma OtherCallsChangeNothing(l: Lot, now: Time, op: Op)
    requires l.status in Lifecycle.FINISHED && l.payment.Some? && l.payment.value.status != Pending
    requires !op.InvalidateBid? && !op.OpenDispute? && !op.TakeForReview? && !op.ResolveDispute?
    ensures Step(l, now, op) == l
  {
  }

  lemma DisputeRows(l: Lot, now: Time, op: Op)
    requires HasFailed(l) && (op.InvalidateBid? || op.OpenDispute? || op.TakeForReview?)
    ensures var l' := Step(l, now, op);
            HasFailed(l') && l.audit <= l'.audit && NoPaymentRow(l'.audit[|l.audit|..])
  {
  }

  lemma ResolutionRows(l: Lot, now: Time, op: Op)
    requires HasFailed(l) && op.ResolveDispute?
    ensures var l' := Step(l, now, op);
            HasFailed(l') && l.audit <= l'.audit && NoPaymentRow(l'.audit[|l.audit|..])
  {
    hide Strip;
    hide Settlement.Shortened;
  }

  /** Once a payment has failed nothing is ever written about it again. */
  lemma FailedForGood(l: Lot, now: Time, op: Op)
    requires Inv(l, now) && HasFailed(l)
    ensures var l' := Step(l, now, op);
            HasFailed(l') && l.audit <= l'.audit && NoPaymentRow(l'.audit[|l.audit|..])
  {
    hide Apply;
    if op.ResolveDispute? {
      ResolutionRows(l, now, op);
    } else if op.InvalidateBid? || op.OpenDispute? || op.TakeForReview? {
      DisputeRows(l, now, op);
    } else {
      OtherCallsChangeNothing(l, now, op);
    }
  }

  /** The failure that loses its row: the log still has the payment pending. */
  lemma LostFailure(l: Lot, now: Time, op: Op, start: Time, end: Time)
    requires LosesItsRow(op) && Apply(l, now, op).Ok? && Rebuilt(l, start, end)
    ensures HasFailed(Step(l, now, op))
    ensures Posted(Blank(start, end), Step(l, now, op).audit).payment == Some(Pending)
  {
    assert Step(l, now, op).audit == l.audit;
  }

  lemma {:induction false} LostForGood(l: Lot, start: Time, calls: seq<Call>)
    requires IsNewListing(l) && Timely(start, calls) && RowLost(l, calls)
    ensures var draft := AsDraft(l, calls);
            Posted(Blank(draft.startTime, draft.endTime), Run(l, calls).audit).payment == Some(Pending)
    ensures HasFailed(Run(l, calls))
  {
    hide Apply;
    hide Inv;
    hide Rebuilt;
    var n := |calls| - 1;
    var mid := Run(l, calls[..n]);
    var call := calls[n];
    assert Inv(mid, call.at) by {
      NewListingInv(l, start);
      RunKeeps(l, start, calls[..n]);
      InvAsTimePasses(mid, Clock(start, calls[..n]), call.at);
    }
    var draft := AsDraft(l, calls[..n]);
    if RowLost(l, calls[..n]) {
      LostForGood(l, start, calls[..n]);
      FailedForGood(mid, call.at, call.op);
      var more := Run(l, calls).audit[|mid.audit|..];
      assert Run(l, calls).audit == mid.audit + more;
      PostedAppends(Blank(draft.startTime, draft.endTime), mid.audit, more);
      PostedPaymentStays(Posted(Blank(draft.startTime, draft.endTime), mid.audit), more);
    } else {
      RunRebuilds(l, start, calls[..n]);
      LostFailure(mid, call.at, call.op, draft.startTime, draft.endTime);
    }
    FailedIsNoDraft(Run(l, calls), start, calls, l);
  }

  lemma FailedIsNoDraft(l': Lot, start: Time, calls: seq<Call>, l: Lot)
    requires IsNewListing(l) && Timely(start, calls) && l' == Run(l, calls) && HasFailed(l')
    ensures l'.status != Draft
  {
    NewListingInv(l, start);
    RunKeeps(l, start, calls);
  }

  /** What a reader of the ledger learns about the rows. */
  ghost predicate Tells(g: Ledger, l: Lot) {
    && g.start == l.startTime && g.end == l.endTime && g.winner == l.winner && g.price == l.finalPrice
    && (g.payment.Some? <==> l.payment.Some?) && (g.payment.Some? ==> g.payment.value == l.payment.value.status)
    && |g.entries| == |l.bids| && |g.activeDisputes| == |l.disputes|
    && (forall i :: 0 <= i < |l.bids| ==>
          && g.entries[i].bidder == l.bids[i].bidder && g.entries[i].amount == l.bids[i].amount
          && (g.entries[i].live <==> l.bids[i].status.Accepted?))
    && (forall k :: 0 <= k < |l.disputes| ==> (g.activeDisputes[k] <==> !l.disputes[k].status.Resolved?))
  }

  /**
   * The whole audit log, replayed from nothing over the schedule that was submitted, gives the audited
   * part of the status log, the bids with their validity, the present schedule, the winner and price, the
   * status of the payment and which disputes are active, exactly if no call lost its row: one that was
   * lost is never made up for. The cached highest bid is then the best live entry of the replay.
   */
  lemma AuditLogRebuildsTheLot(l: Lot, start: Time, calls: seq<Call>)
    requires IsNewListing(l) && Timely(start, calls)
    ensures var submitted := AsDraft(l, calls);
            Posted(Blank(submitted.startTime, submitted.endTime), Run(l, calls).audit) == LedgerOf(Run(l, calls))
            <==> !RowLost(l, calls)
    ensures var submitted := AsDraft(l, calls);
            var g := Posted(Blank(submitted.startTime, submitted.endTime), Run(l, calls).audit);
            !RowLost(l, calls) ==> Tells(g, Run(l, calls))
    ensures var submitted := AsDraft(l, calls);
            !RowLost(l, calls) ==>
              Run(l, calls).highest
              == BestLive(Posted(Blank(submitted.startTime, submitted.endTime), Run(l, calls).audit).entries)
  {
    hide Apply;
    if RowLost(l, calls) {
      LostForGood(l, start, calls);
    } else {
      RunRebuilds(l, start, calls);
      assert Run(l, calls).highest == Bidding.BestAmount(Run(l, calls).bids) by {
        NewListingInv(l, start);
        RunKeeps(l, start, calls);
      }
      BestLiveIsBestAmount(Run(l, calls).bids);
    }
  }
}
