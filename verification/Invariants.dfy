/** What every service call keeps, and hence what holds of every reachable lot. */
module Invariants {
  import opened Basics
  import opened Records
  import opened Amounts
  import Lifecycle
  import Bidding
  import Scheduling
  import Settlement
  import opened Engine

  // ---- The invariant, by concern ----

  ghost predicate BidOk(l: Lot, i: nat, now: Time)
    requires i < |l.bids|
  {
    var b := l.bids[i];
    && b.seqNo == i + 1
    && l.terms.startingPrice <= b.amount < MAX_BID
    && b.bidder != l.seller
    && l.startTime <= b.time <= now
    && b.time < l.endTime
  }

  /** Accepted bids rise by at least `increment` from each to every later one. */
  ghost predicate Spaced(bids: seq<Bid>, increment: Cents) {
    forall i, j :: 0 <= i < j < |bids| && bids[i].status.Accepted? && bids[j].status.Accepted? ==>
                     bids[i].amount + increment <= bids[j].amount
  }

  ghost predicate BiddingOk(l: Lot, now: Time) {
    && ValidListing(l.terms, l.startTime, l.endTime)
    && (forall i :: 0 <= i < |l.bids| ==> BidOk(l, i, now))
    && Spaced(l.bids, l.terms.minIncrement)
    && l.highest == Bidding.BestAmount(l.bids)
    && (l.status in Lifecycle.BEFORE_BIDDING ==> l.bids == [])
    && (l.status in {Live, Paused} ==> l.startTime <= now)
  }

  ghost predicate WonBy(l: Lot, i: nat)
    requires i < |l.bids|
  {
    && l.winner == Some(l.bids[i].bidder)
    && l.finalPrice == Some(l.bids[i].amount)
    && (l.terms.reserve.Some? ==> l.terms.reserve.value <= l.bids[i].amount)
  }

  ghost predicate ResultOk(l: Lot) {
    && (l.status !in Lifecycle.FINISHED ==>
          l.winner.None? && l.reserveMet.None? && l.disputes == [])
    && (l.payment.Some? <==> l.winner.Some?)
    && (l.finalPrice.Some? <==> l.winner.Some?)
    && (l.payment.Some? ==> l.payment.value.amount == l.finalPrice.value)
    && (l.reserveMet == Some(true) <==> l.winner.Some?)
    && (l.winner.Some? ==> exists i :: 0 <= i < |l.bids| && WonBy(l, i))
  }

  predicate IsPaid(l: Lot) {
    l.payment.Some? && l.payment.value.status == Paid
  }

  /** Only the newest dispute can be active, and it is exactly while the auction is `Disputed`. */
  ghost predicate DisputesOk(l: Lot) {
    var n := |l.disputes|;
    && (forall k :: 0 <= k < n - 1 ==> l.disputes[k].status.Resolved?)
    && (l.status == Disputed <==> n > 0 && l.disputes[n - 1].Active())
    && (l.status == Disputed ==> l.disputes[n - 1].statusBefore in Settlement.DISPUTABLE)
    && (l.status == Disputed && l.disputes[n - 1].statusBefore == Settled ==> IsPaid(l))
    && (l.status == Settled ==> IsPaid(l))
  }

  ghost predicate Inv(l: Lot, now: Time) {
    BiddingOk(l, now) && ResultOk(l) && DisputesOk(l) && Lifecycle.IsPath(l.statusLog, l.status)
  }

  lemma InvAsTimePasses(l: Lot, now: Time, later: Time)
    requires Inv(l, now) && now <= later
    ensures Inv(l, later)
  {
    forall i | 0 <= i < |l.bids| ensures BidOk(l, i, later) {
      assert BidOk(l, i, now);
    }
  }

  // ---- Queries under the invariant ----

  lemma SeqNosAreDense(l: Lot, now: Time)
    requires forall i :: 0 <= i < |l.bids| ==> BidOk(l, i, now)
    ensures Bidding.HighestSeqNo(l.bids) == |l.bids|
  {
    var r := Bidding.HighestSeqNo(l.bids);
    if l.bids != [] {
      assert BidOk(l, |l.bids| - 1, now);
      var i :| 0 <= i < |l.bids| && l.bids[i].seqNo == r;
      assert BidOk(l, i, now);
    }
  }

  // ---- Preservation, call by call ----

  lemma TransitionKeepsPath(l: Lot, to: Status, actor: Option<User>, reason: Reason)
    requires Lifecycle.IsPath(l.statusLog, l.status)
    requires Lifecycle.Transition(l, to, actor, reason).Ok?
    requires Lifecycle.ServiceEdge(l.status, to)
    ensures Lifecycle.IsPath(Lifecycle.Transition(l, to, actor, reason).value.statusLog, to)
  {
  }

  /** Moves that touch only the status, its log and the audit rows, between statuses without a result. */
  lemma PlainMoveKeeps(l: Lot, l': Lot, now: Time)
    requires Inv(l, now)
    requires l' == l.(status := l'.status, statusLog := l'.statusLog, audit := l'.audit)
    requires l.status !in Lifecycle.FINISHED && l'.status !in Lifecycle.FINISHED
    requires l'.status in Lifecycle.BEFORE_BIDDING ==> l.status in Lifecycle.BEFORE_BIDDING
    requires l'.status in {Live, Paused} ==> l.startTime <= now
    requires Lifecycle.IsPath(l'.statusLog, l'.status)
    ensures Inv(l', now)
  {
    forall i | 0 <= i < |l'.bids| ensures BidOk(l', i, now) { assert BidOk(l, i, now); }
  }

  lemma EditDraftKeeps(l: Lot, now: Time, kind: string, terms: Terms, start: Time, end: Time)
    requires Inv(l, now) && Lifecycle.EditDraft(l, kind, terms, start, end).Ok?
    ensures Inv(Lifecycle.EditDraft(l, kind, terms, start, end).value, now)
  {
  }

  lemma SingleMoveKeeps(l: Lot, now: Time, to: Status, actor: Option<User>, reason: Reason)
    requires Inv(l, now) && Lifecycle.Transition(l, to, actor, reason).Ok?
    requires l.status !in Lifecycle.FINISHED && to !in Lifecycle.FINISHED
    requires to in {Live, Paused} ==> l.startTime <= now
    ensures Inv(Lifecycle.Transition(l, to, actor, reason).value, now)
  {
    TransitionKeepsPath(l, to, actor, reason);
    PlainMoveKeeps(l, Lifecycle.Transition(l, to, actor, reason).value, now);
  }

  lemma ApproveKeeps(l: Lot, now: Time, actor: User, reason: string, lost: bool)
    requires Inv(l, now) && Lifecycle.Approve(l, actor, reason, lost).Ok?
    ensures Inv(Lifecycle.Approve(l, actor, reason, lost).value, now)
  {
  }

  /** Audit rows play no part in the invariant. */
  lemma AuditIsFree(l: Lot, now: Time, audit: seq<AuditEvent>)
    requires Inv(l, now)
    ensures Inv(l.(audit := audit), now)
  {
    var l' := l.(audit := audit);
    forall i | 0 <= i < |l'.bids| ensures BidOk(l', i, now) { assert BidOk(l, i, now); }
    if l.winner.Some? {
      var i :| 0 <= i < |l.bids| && WonBy(l, i);
      assert WonBy(l', i);
    }
  }

  lemma StartNowKeeps(l: Lot, now: Time, actor: User)
    requires Inv(l, now) && Scheduling.StartNow(l, now, actor).Ok?
    ensures Inv(Scheduling.StartNow(l, now, actor).value, now)
  {
  }

  lemma RescheduleKeeps(l: Lot, now: Time, actor: User, reason: string, start: Option<Time>, end: Option<Time>)
    requires Inv(l, now) && Scheduling.Reschedule(l, now, actor, reason, start, end).Ok?
    ensures Inv(Scheduling.Reschedule(l, now, actor, reason, start, end).value, now)
  {
    var l' := Scheduling.Reschedule(l, now, actor, reason, start, end).value;
    forall i | 0 <= i < |l'.bids| ensures BidOk(l', i, now) { assert BidOk(l, i, now); }
  }

  lemma PauseKeeps(l: Lot, now: Time, actor: User, reason: string)
    requires Inv(l, now) && Scheduling.Pause(l, actor, reason).Ok?
    ensures Inv(Scheduling.Pause(l, actor, reason).value, now)
  {
    SingleMoveKeeps(l, now, Paused, Some(actor), Given(Strip(reason)));
    var paused := Lifecycle.Transition(l, Paused, Some(actor), Given(Strip(reason))).value;
    AuditIsFree(paused, now, paused.audit + [PausedBy(actor, Strip(reason))]);
  }

  lemma ResumeKeeps(l: Lot, now: Time, actor: User)
    requires Inv(l, now) && Scheduling.Resume(l, now, actor).Ok?
    ensures Inv(Scheduling.Resume(l, now, actor).value, now)
  {
    SingleMoveKeeps(l, now, Live, Some(actor), ResumedByStaff);
    var live := Lifecycle.Transition(l, Live, Some(actor), ResumedByStaff).value;
    AuditIsFree(live, now, live.audit + [ResumedBy(actor)]);
  }

  /** Every accepted bid is at or below the cached highest. */
  lemma CacheIsTop(l: Lot, now: Time)
    requires BiddingOk(l, now)
    ensures forall i :: 0 <= i < |l.bids| && l.bids[i].status.Accepted? ==>
                          l.highest.Some? && l.bids[i].amount <= l.highest.value
    ensures Bidding.MinimumPermitted(l) >= l.terms.startingPrice
  {
    var leader := Bidding.ClosingLeader(l.bids);
    if leader.Some? {
      assert BidOk(l, leader.value, now);
      forall i | 0 <= i < |l.bids| && l.bids[i].status.Accepted? ensures l.bids[i].amount <= l.highest.value {
        assert !Bidding.EarlierHigher(l.bids[i], l.bids[leader.value]);
      }
    }
  }

  /** A bid that clears the minimum extends the spaced list and becomes its leader. */
  lemma TopBidExtends(bids: seq<Bid>, top: Bid, increment: Cents)
    requires Spaced(bids, increment) && increment > 0 && top.status.Accepted?
    requires forall i :: 0 <= i < |bids| && bids[i].status.Accepted? ==> bids[i].amount + increment <= top.amount
    ensures Spaced(bids + [top], increment)
    ensures Bidding.BestAmount(bids + [top]) == Some(top.amount)
  {
  }

  /** What a live auction may gain by a bid: a top bid inside the window, and an end no earlier than before. */
  lemma LiveBidKeeps(l: Lot, l': Lot, now: Time, bid: Bid)
    requires Inv(l, now) && l.status == Live
    requires l' == l.(
      bids := l.bids + [bid], highest := Some(bid.amount), endTime := l'.endTime, audit := l'.audit)
    requires l.endTime <= l'.endTime
    requires bid.status.Accepted? && bid.seqNo == |l.bids| + 1 && bid.bidder != l.seller
    requires bid.time == now < l.endTime
    requires Bidding.MinimumPermitted(l) <= bid.amount < MAX_BID
    ensures Inv(l', now)
  {
    hide Bidding.BestAmount;
    hide Lifecycle.IsPath;
    CacheIsTop(l, now);
    TopBidExtends(l.bids, bid, l.terms.minIncrement);
    forall i | 0 <= i < |l'.bids| ensures BidOk(l', i, now) {
      if i < |l.bids| { assert BidOk(l, i, now); }
    }
  }

  lemma PlaceBidKeeps(l: Lot, now: Time, account: Bidding.Account, amount: Amount)
    requires Inv(l, now) && Bidding.PlaceBid(l, now, account, amount).Ok?
    ensures Inv(Bidding.PlaceBid(l, now, account, amount).value, now)
  {
    var l' := Bidding.PlaceBid(l, now, account, amount).value;
    SeqNosAreDense(l, now);
    LiveBidKeeps(l, l', now, l'.bids[|l.bids|]);
  }

  lemma InvalidateBidKeeps(l: Lot, now: Time, k: nat, actor: User, reason: string)
    requires Inv(l, now) && Bidding.InvalidateBid(l, now, k, actor, reason).Ok?
    ensures Inv(Bidding.InvalidateBid(l, now, k, actor, reason).value, now)
  {
    var l' := Bidding.InvalidateBid(l, now, k, actor, reason).value;
    forall i | 0 <= i < |l'.bids| ensures BidOk(l', i, now) { assert BidOk(l, i, now); }
    if l.winner.Some? {
      var i :| 0 <= i < |l.bids| && WonBy(l, i);
      assert WonBy(l', i);
    }
  }

  lemma CloseAuctionKeeps(l: Lot, now: Time, actor: Option<User>, reason: Reason)
    requires Inv(l, now) && Bidding.CloseAuction(l, now, actor, reason).Ok?
    ensures Inv(Bidding.CloseAuction(l, now, actor, reason).value, now)
  {
    hide Bidding.ClosingLeader;
    var l' := Bidding.CloseAuction(l, now, actor, reason).value;
    var v := Bidding.Decide(l);
    var decided := l.(winner := v.winner, finalPrice := v.finalPrice, reserveMet := v.reserveMet);
    TransitionKeepsPath(decided, Closed, actor, reason);
    forall i | 0 <= i < |l'.bids| ensures BidOk(l', i, now) { assert BidOk(l, i, now); }
    if v.winner.Some? {
      assert WonBy(l', Bidding.ClosingLeader(l.bids).value);
    }
  }

  /** In a state that satisfies the invariant there is never a payment left to create. */
  lemma CreatePendingPaymentIsIdle(l: Lot, now: Time)
    requires ResultOk(l)
    ensures Bidding.CreatePendingPayment(l, now) == l
  {
  }

  /** Moves between finished statuses that leave bids, schedule and result alone. */
  lemma FinishedMoveKeeps(l: Lot, l': Lot, now: Time)
    requires Inv(l, now) && l.status in Lifecycle.FINISHED && l'.status in Lifecycle.FINISHED
    requires l' == l.(
      status := l'.status, payment := l'.payment, disputes := l'.disputes,
      statusLog := l'.statusLog, audit := l'.audit)
    requires l.payment.Some? <==> l'.payment.Some?
    requires l.payment.Some? ==> l.payment.value.amount == l'.payment.value.amount
    requires DisputesOk(l') && Lifecycle.IsPath(l'.statusLog, l'.status)
    ensures Inv(l', now)
  {
    hide DisputesOk;
    hide Lifecycle.IsPath;
    hide Bidding.BestAmount;
    forall i | 0 <= i < |l'.bids| ensures BidOk(l', i, now) { assert BidOk(l, i, now); }
    if l.winner.Some? {
      var i :| 0 <= i < |l.bids| && WonBy(l, i);
      assert WonBy(l', i);
    }
  }

  lemma MarkPaidKeeps(l: Lot, now: Time, actor: User, payMethod: string, reference: string, notes: string)
    requires Inv(l, now) && Settlement.MarkPaid(l, now, actor, payMethod, reference, notes).Ok?
    ensures Inv(Settlement.MarkPaid(l, now, actor, payMethod, reference, notes).value, now)
  {
    if l.status == Closed {
      Lifecycle.PathGrows(l.statusLog, Closed, StatusRow(Closed, Settled, Some(actor), PaymentRecorded));
    }
    FinishedMoveKeeps(l, Settlement.MarkPaid(l, now, actor, payMethod, reference, notes).value, now);
  }

  lemma MarkFailedKeeps(l: Lot, now: Time, actor: User, reason: string, lost: bool)
    requires Inv(l, now) && Settlement.MarkFailed(l, actor, reason, lost).Ok?
    ensures Inv(Settlement.MarkFailed(l, actor, reason, lost).value, now)
  {
    FinishedMoveKeeps(l, Settlement.MarkFailed(l, actor, reason, lost).value, now);
  }

  lemma OpenDisputeKeeps(
    l: Lot, now: Time, raisedBy: User, category: Option<DisputeCategory>, description: string)
    requires Inv(l, now) && Settlement.OpenDispute(l, now, raisedBy, category, description).Ok?
    ensures Inv(Settlement.OpenDispute(l, now, raisedBy, category, description).value, now)
  {
    hide Lifecycle.IsPath;
    var l' := Settlement.OpenDispute(l, now, raisedBy, category, description).value;
    var n := |l.disputes|;
    Lifecycle.PathGrows(l.statusLog, l.status, StatusRow(l.status, Disputed, Some(raisedBy), DisputeRaised(n)));
    assert forall k :: 0 <= k < n ==> l'.disputes[k] == l.disputes[k] && !l.disputes[k].Active();
    FinishedMoveKeeps(l, l', now);
  }

  lemma TakeForReviewKeeps(l: Lot, now: Time, k: nat, actor: User)
    requires Inv(l, now) && Settlement.TakeForReview(l, k, actor).Ok?
    ensures Inv(Settlement.TakeForReview(l, k, actor).value, now)
  {
    FinishedMoveKeeps(l, Settlement.TakeForReview(l, k, actor).value, now);
  }

  /**
   * A dispute can always be brought to an end. Given an outcome and notes, an active dispute resolves
   * without a refund in any case, back to the status held before it was opened; with a refund exactly
   * when the payment is paid, to `Closed` and refunded. Bids, schedule and result are untouched.
   */
  lemma ResolveOutcome(
    l: Lot, now: Time, k: nat, actor: User, outcome: Option<DisputeOutcome>, notes: string, refund: bool)
    requires DisputesOk(l) && k < |l.disputes| && l.disputes[k].Active()
    requires outcome.Some? && Strip(notes) != ""
    ensures Settlement.ResolveDispute(l, now, k, actor, outcome, notes, refund).Ok? <==> (refund ==> IsPaid(l))
    ensures (refund ==> IsPaid(l)) ==>
              var l' := Settlement.ResolveDispute(l, now, k, actor, outcome, notes, refund).value;
              && l'.status == (if refund then Closed else l.disputes[k].statusBefore)
              && l' == l.(
                   status := l'.status, payment := l'.payment, disputes := l'.disputes,
                   statusLog := l'.statusLog, audit := l'.audit)
              && (refund ==> l'.payment.Some? && l'.payment.value.status == Refunded)
              && (refund ==> l'.payment.value.amount == l.payment.value.amount)
              && (!refund ==> l'.payment == l.payment)
              && l'.disputes == l.disputes[k := l.disputes[k].(
                   status := Resolved(outcome.value, Strip(notes), refund, actor, now))]
              && !Settlement.HasActiveDispute(l')
  {
    hide Strip;
    assert k == |l.disputes| - 1 && l.status == Disputed;
  }

  lemma ResolutionPath(
    l: Lot, now: Time, k: nat, actor: User, outcome: Option<DisputeOutcome>, notes: string, refund: bool)
    requires Lifecycle.IsPath(l.statusLog, l.status)
    requires Settlement.ResolveDispute(l, now, k, actor, outcome, notes, refund).Ok?
    ensures k < |l.disputes| && l.disputes[k].Active() && outcome.Some? && Strip(notes) != ""
    ensures var l' := Settlement.ResolveDispute(l, now, k, actor, outcome, notes, refund).value;
            Lifecycle.IsPath(l'.statusLog, l'.status)
  {
    hide Strip;
    hide Settlement.Shortened;
    var closing := StatusRow(l.status, Closed, Some(actor), DisputeSettled(k));
    Lifecycle.PathGrows(l.statusLog, l.status, closing);
    if l.disputes[k].statusBefore == Settled && !refund {
      var restoring := StatusRow(Closed, Settled, Some(actor), RestoredAfter(k));
      Lifecycle.PathGrows(l.statusLog + [closing], Closed, restoring);
    }
  }

  lemma ResolveDisputeKeeps(
    l: Lot, now: Time, k: nat, actor: User, outcome: Option<DisputeOutcome>, notes: string, refund: bool)
    requires Inv(l, now) && Settlement.ResolveDispute(l, now, k, actor, outcome, notes, refund).Ok?
    ensures Inv(Settlement.ResolveDispute(l, now, k, actor, outcome, notes, refund).value, now)
  {
    hide BiddingOk;
    hide ResultOk;
    hide Lifecycle.IsPath;
    hide Settlement.ResolveDispute;
    ResolutionPath(l, now, k, actor, outcome, notes, refund);
    ResolveOutcome(l, now, k, actor, outcome, notes, refund);
    FinishedMoveKeeps(l, Settlement.ResolveDispute(l, now, k, actor, outcome, notes, refund).value, now);
  }

  lemma NewListingInv(l: Lot, now: Time)
    requires IsNewListing(l)
    ensures Inv(l, now)
  {
  }

  // ---- Runs ----

  lemma ListingStepKeeps(l: Lot, now: Time, op: Op)
    requires Inv(l, now) && Apply(l, now, op).Ok?
    requires op.EditDraft? || op.Submit? || op.Approve? || op.Reject? || op.Cancel? || op.Activate?
    ensures Inv(Apply(l, now, op).value, now)
  {
    hide Inv;
    match op
    case EditDraft(kind, terms, from, to) => EditDraftKeeps(l, now, kind, terms, from, to);
    case Submit(actor) => SingleMoveKeeps(l, now, Submitted, Some(actor), Given(""));
    case Approve(actor, reason, lost) => ApproveKeeps(l, now, actor, reason, lost);
    case Reject(actor, reason) => SingleMoveKeeps(l, now, Status.Rejected, Some(actor), Given(reason));
    case Cancel(actor, reason) => SingleMoveKeeps(l, now, Cancelled, Some(actor), Given(reason));
    case Activate(actor) =>
      if Lifecycle.DueToStart(l, now) { SingleMoveKeeps(l, now, Live, actor, AutoActivated); }
  }

  lemma StaffStepKeeps(l: Lot, now: Time, op: Op)
    requires Inv(l, now) && Apply(l, now, op).Ok?
    requires op.StartNow? || op.Reschedule? || op.Pause? || op.Resume? || op.CancelAuction? || op.EndNow?
    ensures Inv(Apply(l, now, op).value, now)
  {
    hide Inv;
    match op
    case StartNow(actor) => StartNowKeeps(l, now, actor);
    case Reschedule(actor, reason, start, end) => RescheduleKeeps(l, now, actor, reason, start, end);
    case Pause(actor, reason) => PauseKeeps(l, now, actor, reason);
    case Resume(actor) => ResumeKeeps(l, now, actor);
    case CancelAuction(actor, reason) => SingleMoveKeeps(l, now, Cancelled, Some(actor), Given(Strip(reason)));
    case EndNow(actor, reason) => CloseAuctionKeeps(l, now, Some(actor), EndedEarly(Strip(reason)));
  }

  lemma BidStepKeeps(l: Lot, now: Time, op: Op)
    requires Inv(l, now) && Apply(l, now, op).Ok?
    requires op.PlaceBid? || op.InvalidateBid? || op.CloseAuction? || op.CreatePendingPayment?
    ensures Inv(Apply(l, now, op).value, now)
  {
    match op
    case PlaceBid(account, amount) => PlaceBidKeeps(l, now, account, amount);
    case InvalidateBid(k, actor, reason) => InvalidateBidKeeps(l, now, k, actor, reason);
    case CloseAuction(actor, reason) => CloseAuctionKeeps(l, now, actor, reason);
    case CreatePendingPayment => CreatePendingPaymentIsIdle(l, now);
  }

  lemma SettlementStepKeeps(l: Lot, now: Time, op: Op)
    requires Inv(l, now) && Apply(l, now, op).Ok?
    requires op.MarkPaid? || op.MarkFailed? || op.OpenDispute? || op.TakeForReview? || op.ResolveDispute?
    ensures Inv(Apply(l, now, op).value, now)
  {
    hide Inv;
    match op
    case MarkPaid(actor, payMethod, reference, notes) => MarkPaidKeeps(l, now, actor, payMethod, reference, notes);
    case MarkFailed(actor, reason, lost) => MarkFailedKeeps(l, now, actor, reason, lost);
    case OpenDispute(user, category, description) => OpenDisputeKeeps(l, now, user, category, description);
    case TakeForReview(k, actor) => TakeForReviewKeeps(l, now, k, actor);
    case ResolveDispute(k, actor, outcome, notes, refund) =>
      ResolveDisputeKeeps(l, now, k, actor, outcome, notes, refund);
  }

  lemma StepKeeps(l: Lot, now: Time, op: Op)
    requires Inv(l, now)
    ensures Inv(Step(l, now, op), now)
  {
    hide Apply;
    hide Inv;
    if Apply(l, now, op).Ok? {
      if op.EditDraft? || op.Submit? || op.Approve? || op.Reject? || op.Cancel? || op.Activate? {
        ListingStepKeeps(l, now, op);
      } else if op.StartNow? || op.Reschedule? || op.Pause? || op.Resume? || op.CancelAuction? || op.EndNow? {
        StaffStepKeeps(l, now, op);
      } else if op.PlaceBid? || op.InvalidateBid? || op.CloseAuction? || op.CreatePendingPayment? {
        BidStepKeeps(l, now, op);
      } else {
        SettlementStepKeeps(l, now, op);
      }
    }
  }

  lemma {:induction false} RunKeeps(l: Lot, start: Time, calls: seq<Call>)
    requires Inv(l, start) && Timely(start, calls)
    ensures Inv(Run(l, calls), Clock(start, calls))
  {
    hide Apply;
    hide Inv;
    if calls != [] {
      var n := |calls| - 1;
      RunKeeps(l, start, calls[..n]);
      InvAsTimePasses(Run(l, calls[..n]), Clock(start, calls[..n]), calls[n].at);
      StepKeeps(Run(l, calls[..n]), calls[n].at, calls[n].op);
    }
  }

  /** The main invariant: every lot that service calls can lead to satisfies it. */
  lemma ReachableInv(l: Lot, now: Time)
    requires Reachable(l, now)
    ensures Inv(l, now)
  {
    hide Apply;
    var l0, t0, calls :| IsNewListing(l0) && Timely(t0, calls) && Run(l0, calls) == l && Clock(t0, calls) == now;
    RunKeeps(l0, t0, calls);
  }
}
