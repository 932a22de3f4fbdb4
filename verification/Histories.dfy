/** What no continuation of a run can undo: rows that only grow, and facts frozen by a status. */
module Histories {
  import opened Basics
  import opened Records
  import opened Amounts
  import Lifecycle
  import Bidding
  import Scheduling
  import Settlement
  import opened Engine
  import opened Invariants
  import opened Examples

  /**
   * Bids are never removed or reordered; of a recorded bid only the status changes, and never back to
   * accepted. `BidsChangeOnlyByInvalidation` tells what becomes of the record of an invalidation.
   */
  ghost predicate BidsKept(a: seq<Bid>, b: seq<Bid>) {
    && |a| <= |b|
    && forall i :: 0 <= i < |a| ==>
         && b[i].bidder == a[i].bidder && b[i].amount == a[i].amount
         && b[i].seqNo == a[i].seqNo && b[i].time == a[i].time
         && (a[i].status.Invalidated? ==> b[i].status.Invalidated?)
  }

  /** Disputes are never removed; the status held before is never rewritten and a resolution is final. */
  ghost predicate DisputesKept(a: seq<Dispute>, b: seq<Dispute>) {
    && |a| <= |b|
    && forall i :: 0 <= i < |a| ==>
         && b[i].raisedBy == a[i].raisedBy && b[i].category == a[i].category
         && b[i].description == a[i].description && b[i].statusBefore == a[i].statusBefore
         && b[i].createdAt == a[i].createdAt
         && (a[i].status.Resolved? ==> b[i] == a[i])
         && (a[i].status.UnderReview? ==> !b[i].status.Open?)
  }

  predicate PaymentMayBecome(a: PaymentStatus, b: PaymentStatus) {
    a == b || a == Pending || (a == Paid && b == Refunded)
  }

  ghost predicate PaymentKept(a: Option<Payment>, b: Option<Payment>) {
    a.Some? ==>
      && b.Some? && b.value.amount == a.value.amount && b.value.createdAt == a.value.createdAt
      && PaymentMayBecome(a.value.status, b.value.status)
  }

  /** The rows that are only ever appended to or moved forward. */
  ghost predicate RowsKept(l: Lot, l': Lot) {
    && l'.seller == l.seller && l'.createdAt == l.createdAt
    && BidsKept(l.bids, l'.bids)
    && DisputesKept(l.disputes, l'.disputes)
    && PaymentKept(l.payment, l'.payment)
    && l.statusLog <= l'.statusLog
    && l.audit <= l'.audit
  }

  /** Statuses reached only after the auction has gone live. */
  const STARTED: set<Status> := {Live, Paused} + Lifecycle.FINISHED

  /** What a status freezes for good. */
  ghost predicate StatusFreezes(l: Lot, l': Lot) {
    && (l.status != Draft ==> l'.status != Draft && l'.terms == l.terms && l'.category == l.category)
    && (l.status in STARTED ==> l'.status in STARTED + {Cancelled} && l'.startTime == l.startTime)
    && (l.status in {Status.Rejected, Cancelled} ==>
          l'.status == l.status && l'.startTime == l.startTime && l'.endTime == l.endTime)
    && (l.status in Lifecycle.FINISHED ==>
          && l'.status in Lifecycle.FINISHED
          && l'.winner == l.winner && l'.finalPrice == l.finalPrice && l'.reserveMet == l.reserveMet
          && l'.endTime == l.endTime && |l'.bids| == |l.bids|)
  }

  ghost predicate Evolves(l: Lot, l': Lot) {
    RowsKept(l, l') && StatusFreezes(l, l')
  }

  lemma EvolvesTransitively(a: Lot, b: Lot, c: Lot)
    requires Evolves(a, b) && Evolves(b, c)
    ensures Evolves(a, c)
  {
  }

  lemma TransitionEvolves(l: Lot, to: Status, actor: Option<User>, reason: Reason)
    requires Lifecycle.Transition(l, to, actor, reason).Ok? && Lifecycle.ServiceEdge(l.status, to)
    ensures Evolves(l, Lifecycle.Transition(l, to, actor, reason).value)
  {
  }

  /** Changes that leave status, bids, disputes, payment and result alone. */
  lemma AuditedChangeEvolves(l: Lot, l': Lot)
    requires l' == l.(
      category := l'.category, terms := l'.terms, startTime := l'.startTime, endTime := l'.endTime, audit := l'.audit)
    requires l.audit <= l'.audit
    requires l.status != Draft ==> l'.terms == l.terms && l'.category == l.category
    requires l.status in STARTED + {Status.Rejected, Cancelled} ==> l'.startTime == l.startTime
    requires l.status in Lifecycle.FINISHED + {Status.Rejected, Cancelled} ==> l'.endTime == l.endTime
    ensures Evolves(l, l')
  {
  }

  lemma ApproveEvolves(l: Lot, actor: User, reason: string, lost: bool)
    requires Lifecycle.Approve(l, actor, reason, lost).Ok?
    ensures Evolves(l, Lifecycle.Approve(l, actor, reason, lost).value)
  {
  }

  lemma ListingStepEvolves(l: Lot, now: Time, op: Op)
    requires Apply(l, now, op).Ok?
    requires op.EditDraft? || op.Submit? || op.Approve? || op.Reject? || op.Cancel? || op.Activate?
    ensures Evolves(l, Apply(l, now, op).value)
  {
    hide Evolves;
    hide Inv;
    match op
    case EditDraft(kind, terms, from, to) =>
      AuditedChangeEvolves(l, Lifecycle.EditDraft(l, kind, terms, from, to).value);
    case Submit(actor) => TransitionEvolves(l, Submitted, Some(actor), Given(""));
    case Approve(actor, reason, lost) => ApproveEvolves(l, actor, reason, lost);
    case Reject(actor, reason) => TransitionEvolves(l, Status.Rejected, Some(actor), Given(reason));
    case Cancel(actor, reason) => TransitionEvolves(l, Cancelled, Some(actor), Given(reason));
    case Activate(actor) =>
      if Lifecycle.DueToStart(l, now) {
        TransitionEvolves(l, Live, actor, AutoActivated);
      } else {
        AuditedChangeEvolves(l, l);
      }
  }

  lemma StartNowEvolves(l: Lot, now: Time, actor: User)
    requires Scheduling.StartNow(l, now, actor).Ok?
    ensures Evolves(l, Scheduling.StartNow(l, now, actor).value)
  {
  }

  lemma PauseEvolves(l: Lot, actor: User, reason: string)
    requires Scheduling.Pause(l, actor, reason).Ok?
    ensures Evolves(l, Scheduling.Pause(l, actor, reason).value)
  {
  }

  lemma ResumeEvolves(l: Lot, now: Time, actor: User)
    requires Scheduling.Resume(l, now, actor).Ok?
    ensures Evolves(l, Scheduling.Resume(l, now, actor).value)
  {
  }

  lemma CloseAuctionEvolves(l: Lot, now: Time, actor: Option<User>, reason: Reason)
    requires Inv(l, now) && Bidding.CloseAuction(l, now, actor, reason).Ok?
    ensures Evolves(l, Bidding.CloseAuction(l, now, actor, reason).value)
  {
    hide Bidding.Decide;
    hide BiddingOk;
    hide DisputesOk;
    hide Lifecycle.IsPath;
  }

  lemma PlaceBidEvolves(l: Lot, now: Time, account: Bidding.Account, amount: Amount)
    requires Bidding.PlaceBid(l, now, account, amount).Ok?
    ensures Evolves(l, Bidding.PlaceBid(l, now, account, amount).value)
  {
  }

  lemma InvalidateBidEvolves(l: Lot, now: Time, k: nat, actor: User, reason: string)
    requires Bidding.InvalidateBid(l, now, k, actor, reason).Ok?
    ensures Evolves(l, Bidding.InvalidateBid(l, now, k, actor, reason).value)
  {
  }

  lemma StaffStepEvolves(l: Lot, now: Time, op: Op)
    requires Inv(l, now) && Apply(l, now, op).Ok?
    requires op.StartNow? || op.Reschedule? || op.Pause? || op.Resume? || op.CancelAuction? || op.EndNow?
    ensures Evolves(l, Apply(l, now, op).value)
  {
    hide Evolves;
    hide Inv;
    match op
    case StartNow(actor) => StartNowEvolves(l, now, actor);
    case Reschedule(actor, reason, start, end) =>
      AuditedChangeEvolves(l, Scheduling.Reschedule(l, now, actor, reason, start, end).value);
    case Pause(actor, reason) => PauseEvolves(l, actor, reason);
    case Resume(actor) => ResumeEvolves(l, now, actor);
    case CancelAuction(actor, reason) => TransitionEvolves(l, Cancelled, Some(actor), Given(Strip(reason)));
    case EndNow(actor, reason) => CloseAuctionEvolves(l, now, Some(actor), EndedEarly(Strip(reason)));
  }

  lemma BidStepEvolves(l: Lot, now: Time, op: Op)
    requires Inv(l, now) && Apply(l, now, op).Ok?
    requires op.PlaceBid? || op.InvalidateBid? || op.CloseAuction? || op.CreatePendingPayment?
    ensures Evolves(l, Apply(l, now, op).value)
  {
    hide Evolves;
    hide BiddingOk;
    hide DisputesOk;
    match op
    case PlaceBid(account, amount) => PlaceBidEvolves(l, now, account, amount);
    case InvalidateBid(k, actor, reason) => InvalidateBidEvolves(l, now, k, actor, reason);
    case CloseAuction(actor, why) => CloseAuctionEvolves(l, now, actor, why);
    case CreatePendingPayment =>
      CreatePendingPaymentIsIdle(l, now);
      AuditedChangeEvolves(l, l);
  }

  lemma ResolutionIsLogged(
    l: Lot, now: Time, k: nat, actor: User, outcome: Option<DisputeOutcome>, notes: string, refund: bool)
    requires Settlement.ResolveDispute(l, now, k, actor, outcome, notes, refund).Ok?
    ensures k < |l.disputes| && l.disputes[k].Active() && outcome.Some? && Strip(notes) != ""
    ensures var l' := Settlement.ResolveDispute(l, now, k, actor, outcome, notes, refund).value;
            l.statusLog <= l'.statusLog && l.audit <= l'.audit && PaymentKept(l.payment, l'.payment)
  {
    hide Strip;
  }

  lemma ResolveDisputeEvolves(
    l: Lot, now: Time, k: nat, actor: User, outcome: Option<DisputeOutcome>, notes: string, refund: bool)
    requires Inv(l, now) && Settlement.ResolveDispute(l, now, k, actor, outcome, notes, refund).Ok?
    ensures Evolves(l, Settlement.ResolveDispute(l, now, k, actor, outcome, notes, refund).value)
  {
    hide Settlement.ResolveDispute;
    hide BiddingOk;
    hide ResultOk;
    hide Lifecycle.IsPath;
    hide PaymentKept;
    ResolutionIsLogged(l, now, k, actor, outcome, notes, refund);
    ResolveOutcome(l, now, k, actor, outcome, notes, refund);
  }

  lemma MarkPaidEvolves(l: Lot, now: Time, actor: User, payMethod: string, reference: string, notes: string)
    requires Settlement.MarkPaid(l, now, actor, payMethod, reference, notes).Ok?
    ensures Evolves(l, Settlement.MarkPaid(l, now, actor, payMethod, reference, notes).value)
  {
  }

  lemma MarkFailedEvolves(l: Lot, actor: User, reason: string, lost: bool)
    requires Settlement.MarkFailed(l, actor, reason, lost).Ok?
    ensures Evolves(l, Settlement.MarkFailed(l, actor, reason, lost).value)
  {
  }

  lemma OpenDisputeEvolves(
    l: Lot, now: Time, raisedBy: User, category: Option<DisputeCategory>, description: string)
    requires Settlement.OpenDispute(l, now, raisedBy, category, description).Ok?
    ensures Evolves(l, Settlement.OpenDispute(l, now, raisedBy, category, description).value)
  {
  }

  lemma TakeForReviewEvolves(l: Lot, k: nat, actor: User)
    requires Settlement.TakeForReview(l, k, actor).Ok?
    ensures Evolves(l, Settlement.TakeForReview(l, k, actor).value)
  {
  }

  lemma SettlementStepEvolves(l: Lot, now: Time, op: Op)
    requires Inv(l, now) && Apply(l, now, op).Ok?
    requires op.MarkPaid? || op.MarkFailed? || op.OpenDispute? || op.TakeForReview? || op.ResolveDispute?
    ensures Evolves(l, Apply(l, now, op).value)
  {
    hide Evolves;
    hide Inv;
    match op
    case MarkPaid(actor, payMethod, reference, notes) => MarkPaidEvolves(l, now, actor, payMethod, reference, notes);
    case MarkFailed(actor, reason, lost) => MarkFailedEvolves(l, actor, reason, lost);
    case OpenDispute(user, category, description) => OpenDisputeEvolves(l, now, user, category, description);
    case TakeForReview(k, actor) => TakeForReviewEvolves(l, k, actor);
    case ResolveDispute(k, actor, outcome, notes, refund) =>
      ResolveDisputeEvolves(l, now, k, actor, outcome, notes, refund);
  }

  lemma StepEvolves(l: Lot, now: Time, op: Op)
    requires Inv(l, now)
    ensures Evolves(l, Step(l, now, op))
  {
    hide Apply;
    hide Inv;
    hide Evolves;
    if Apply(l, now, op).Err? {
      AuditedChangeEvolves(l, l);
    } else if op.EditDraft? || op.Submit? || op.Approve? || op.Reject? || op.Cancel? || op.Activate? {
      ListingStepEvolves(l, now, op);
    } else if op.StartNow? || op.Reschedule? || op.Pause? || op.Resume? || op.CancelAuction? || op.EndNow? {
      StaffStepEvolves(l, now, op);
    } else if op.PlaceBid? || op.InvalidateBid? || op.CloseAuction? || op.CreatePendingPayment? {
      BidStepEvolves(l, now, op);
    } else {
      SettlementStepEvolves(l, now, op);
    }
  }

  /**
   * From any reachable state, whatever calls follow: bids, disputes and logs only grow, a payment only
   * moves forward, terms are fixed once submitted, the start once live, and winner, price, reserve flag
   * and end time once closed.
   */
  lemma {:induction false} RunEvolves(l: Lot, start: Time, calls: seq<Call>)
    requires Inv(l, start) && Timely(start, calls)
    ensures Evolves(l, Run(l, calls))
  {
    hide Apply;
    hide Inv;
    hide Evolves;
    if calls == [] {
      AuditedChangeEvolves(l, l);
    } else {
      var n := |calls| - 1;
      var mid := Run(l, calls[..n]);
      RunEvolves(l, start, calls[..n]);
      RunKeeps(l, start, calls[..n]);
      InvAsTimePasses(mid, Clock(start, calls[..n]), calls[n].at);
      StepEvolves(mid, calls[n].at, calls[n].op);
      EvolvesTransitively(l, mid, Run(l, calls));
    }
  }

  // ---- Invalidation, and invalidation again ----

  /** The call is an accepted invalidation of the bid at position `i`. */
  predicate Invalidates(l: Lot, now: Time, op: Op, i: nat) {
    op.InvalidateBid? && op.k == i && Apply(l, now, op).Ok?
  }

  lemma StepOnBid(l: Lot, now: Time, op: Op, i: nat)
    requires i < |l.bids|
    ensures var l' := Step(l, now, op);
            i < |l'.bids| &&
            l'.bids[i] == if Invalidates(l, now, op, i)
                          then l.bids[i].(status := Invalidated(op.reason, op.actor, now)) else l.bids[i]
  {
    hide Strip;
  }

  /** What the last accepted invalidation of the bid at position `i` put on record, if there was one. */
  function LastRecord(l: Lot, calls: seq<Call>, i: nat): Option<BidStatus> {
    if calls == [] then None
    else
      var n := |calls| - 1;
      var call := calls[n];
      if Invalidates(Run(l, calls[..n]), call.at, call.op, i)
      then Some(Invalidated(call.op.reason, call.op.actor, call.at))
      else LastRecord(l, calls[..n], i)
  }

  /**
   * A recorded bid changes only by invalidation, and each accepted invalidation overwrites the reason,
   * the actor and the time of the one before.
   */
  lemma {:induction false} BidsChangeOnlyByInvalidation(l: Lot, calls: seq<Call>, i: nat)
    requires i < |l.bids|
    ensures i < |Run(l, calls).bids|
    ensures var record := LastRecord(l, calls, i);
            Run(l, calls).bids[i] == if record.None? then l.bids[i] else l.bids[i].(status := record.value)
  {
    hide Apply;
    if calls != [] {
      var n := |calls| - 1;
      BidsChangeOnlyByInvalidation(l, calls[..n], i);
      StepOnBid(Run(l, calls[..n]), calls[n].at, calls[n].op, i);
    }
  }

  lemma {:induction false} RecordsAreNew(l: Lot, start: Time, calls: seq<Call>, i: nat)
    requires Timely(start, calls)
    ensures start <= Clock(start, calls)
    ensures var record := LastRecord(l, calls, i);
            record.Some? ==> record.value.Invalidated? && start <= record.value.at <= Clock(start, calls)
  {
    hide Apply;
    if calls != [] { RecordsAreNew(l, start, calls[..|calls| - 1], i); }
  }

  /** The bid at position `i` has the status it has in `l` at every moment of the run. */
  ghost predicate KeptThroughout(l: Lot, calls: seq<Call>, i: nat)
    requires i < |l.bids|
  {
    forall m: nat :: m <= |calls| ==>
      i < |Run(l, calls[..m]).bids| && Run(l, calls[..m]).bids[i].status == l.bids[i].status
  }

  /** Every accepted invalidation of that bid during the run writes `status` once more. */
  ghost predicate OnlyRepeats(l: Lot, calls: seq<Call>, i: nat, status: BidStatus) {
    forall j: nat :: j < |calls| && Invalidates(Run(l, calls[..j]), calls[j].at, calls[j].op, i) ==>
      Invalidated(calls[j].op.reason, calls[j].op.actor, calls[j].at) == status
  }

  lemma OneStepMore(l: Lot, calls: seq<Call>, j: nat)
    requires j < |calls|
    ensures Run(l, calls[..j + 1]) == Step(Run(l, calls[..j]), calls[j].at, calls[j].op)
  {
    assert calls[..j + 1][..j] == calls[..j];
  }

  lemma {:induction false} KeptUpTo(l: Lot, calls: seq<Call>, i: nat, m: nat)
    requires i < |l.bids| && m <= |calls| && OnlyRepeats(l, calls, i, l.bids[i].status)
    ensures i < |Run(l, calls[..m]).bids| && Run(l, calls[..m]).bids[i].status == l.bids[i].status
  {
    hide Apply;
    if m > 0 {
      KeptUpTo(l, calls, i, m - 1);
      OneStepMore(l, calls, m - 1);
      StepOnBid(Run(l, calls[..m - 1]), calls[m - 1].at, calls[m - 1].op, i);
    }
  }

  /**
   * What is on record of a bid stays, at every moment of a run, exactly if each accepted invalidation of
   * the bid writes the same again. Seen from any moment after an invalidation: exactly if no further one
   * is accepted.
   */
  lemma RecordStaysIffNotRepeated(l: Lot, start: Time, calls: seq<Call>, i: nat)
    requires i < |l.bids| && Timely(start, calls)
    ensures KeptThroughout(l, calls, i) <==> OnlyRepeats(l, calls, i, l.bids[i].status)
    ensures i < |Run(l, calls).bids|
    ensures l.bids[i].status.Accepted? || l.bids[i].status.at < start ==>
              (Run(l, calls).bids[i].status == l.bids[i].status <==> LastRecord(l, calls, i).None?)
  {
    hide Apply;
    BidsChangeOnlyByInvalidation(l, calls, i);
    RecordsAreNew(l, start, calls, i);
    if OnlyRepeats(l, calls, i, l.bids[i].status) {
      forall m: nat | m <= |calls|
        ensures i < |Run(l, calls[..m]).bids| && Run(l, calls[..m]).bids[i].status == l.bids[i].status
      {
        KeptUpTo(l, calls, i, m);
      }
    }
    if KeptThroughout(l, calls, i) {
      forall j: nat | j < |calls| && Invalidates(Run(l, calls[..j]), calls[j].at, calls[j].op, i)
        ensures Invalidated(calls[j].op.reason, calls[j].op.actor, calls[j].at) == l.bids[i].status
      {
        assert i < |Run(l, calls[..j]).bids|;
        OneStepMore(l, calls, j);
        StepOnBid(Run(l, calls[..j]), calls[j].at, calls[j].op, i);
        assert Run(l, calls[..j + 1]).bids[i].status == l.bids[i].status;
      }
    }
  }

  /** That a second invalidation is accepted and overwrites the first does happen. */
  lemma SecondInvalidationOverwrites()
    ensures exists l, now, again, i: nat ::
              && Reachable(l, now) && i < |l.bids| && l.bids[i].status.Invalidated?
              && Invalidates(l, now, again, i)
              && Step(l, now, again).bids[i].status != l.bids[i].status
  {
    hide Reachable;
    BidOnLotState();
    hide BidOnLot;
    var first, again := InvalidateBid(0, 3, "x"), InvalidateBid(0, 4, "y");
    var l := Step(BidOnLot(), 12, first);
    ReachableStep(BidOnLot(), 11, 12, first);
    StepOnBid(BidOnLot(), 12, first, 0);
    StepOnBid(l, 12, again, 0);
    assert Invalidates(l, 12, again, 0);
  }
}
