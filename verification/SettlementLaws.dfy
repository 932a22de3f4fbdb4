/** Payments, disputes and the auction status taken together, over every reachable lot. */
module SettlementLaws {
  import opened Basics
  import opened Records
  import Lifecycle
  import Settlement
  import opened Engine
  import opened Invariants
  import opened Histories
  import opened Examples

  // ---- Disputed exactly when disputed ----

  function ActiveDisputes(l: Lot): set<nat> {
    set k: nat | k < |l.disputes| && l.disputes[k].Active()
  }

  /** An auction is `Disputed` exactly while one of its disputes is active, and never has two. */
  lemma DisputedMeansOneActiveDispute(l: Lot, now: Time)
    requires Reachable(l, now)
    ensures |ActiveDisputes(l)| == if l.status == Disputed then 1 else 0
    ensures l.status == Disputed ==> ActiveDisputes(l) == {|l.disputes| - 1}
  {
    hide Reachable;
    ReachableInv(l, now);
    assert ActiveDisputes(l) == if l.status == Disputed then {|l.disputes| - 1} else {};
  }

  /**
   * Opening a dispute succeeds exactly when the page would offer it, given a category and a description:
   * on a closed or settled auction without an unresolved dispute, for its seller, its winner and everybody
   * with a bid on record. The test for an already active dispute can never be the one that fails. The
   * dispute remembers the status it found, and nothing but the status moves.
   */
  lemma OpenDisputeIsOffered(
    l: Lot, now: Time, user: User, category: Option<DisputeCategory>, description: string)
    requires Reachable(l, now)
    ensures Settlement.OpenDispute(l, now, user, category, description).Ok? <==>
              Settlement.CanRaiseDispute(l, user) && category.Some? && Strip(description) != ""
    ensures Settlement.CanRaiseDispute(l, user) <==>
              && (l.status == Closed || l.status == Settled)
              && (forall k :: 0 <= k < |l.disputes| ==> l.disputes[k].status.Resolved?)
              && (user == l.seller || l.winner == Some(user) ||
                  exists i :: 0 <= i < |l.bids| && l.bids[i].bidder == user)
    ensures Settlement.OpenDispute(l, now, user, category, description) != Err(AlreadyDisputed)
    ensures Settlement.OpenDispute(l, now, user, category, description).Ok? ==>
              var l' := Settlement.OpenDispute(l, now, user, category, description).value;
              && l'.status == Disputed
              && l'.disputes == l.disputes + [
                   Dispute(user, category.value, Strip(description), Open, l.status, None, now)]
              && l' == l.(status := Disputed, disputes := l'.disputes, statusLog := l'.statusLog, audit := l'.audit)
  {
    hide Reachable;
    ReachableInv(l, now);
  }

  /**
   * The dispute round trip: open a dispute, let any calls follow that leave it active, and resolve it
   * without a refund. The auction is back at exactly the status it had, whatever was recorded about the
   * payment meanwhile, with the same schedule and result and the same bids up to invalidation.
   */
  lemma DisputeRoundTrip(
    l: Lot, now: Time, user: User, category: Option<DisputeCategory>, description: string, calls: seq<Call>,
    later: Time, judge: User, outcome: Option<DisputeOutcome>, notes: string)
    requires Reachable(l, now) && Settlement.OpenDispute(l, now, user, category, description).Ok?
    requires Timely(now, calls) && outcome.Some? && Strip(notes) != ""
    ensures var k := |l.disputes|;
            var during := Run(Step(l, now, OpenDispute(user, category, description)), calls);
            k < |during.disputes| && during.disputes[k].Active() ==>
              var r := Settlement.ResolveDispute(during, later, k, judge, outcome, notes, false);
              && r.Ok?
              && r.value.status == l.status
              && r.value.startTime == l.startTime && r.value.endTime == l.endTime && r.value.terms == l.terms
              && r.value.winner == l.winner && r.value.finalPrice == l.finalPrice
              && r.value.reserveMet == l.reserveMet
              && |r.value.bids| == |l.bids| && BidsKept(l.bids, r.value.bids)
  {
    hide Reachable;
    var k := |l.disputes|;
    var opening := OpenDispute(user, category, description);
    var begun := Step(l, now, opening);
    assert begun == l.(
      status := Disputed, disputes := begun.disputes, statusLog := begun.statusLog, audit := begun.audit) &&
      |begun.disputes| == k + 1 && begun.disputes[k].statusBefore == l.status;
    var during := Run(begun, calls);
    if k < |during.disputes| && during.disputes[k].Active() {
      hide Apply;
      hide Settlement.ResolveDispute;
      assert Inv(begun, now) by { ReachableInv(l, now); StepKeeps(l, now, opening); }
      assert Inv(during, Clock(now, calls)) by { RunKeeps(begun, now, calls); }
      RunEvolves(begun, now, calls);
      ResolveOutcome(during, later, k, judge, outcome, notes, false);
    }
  }

  // ---- Settlement ----

  /**
   * A payment can be recorded exactly while it is pending. Recording it settles the auction if that is
   * closed at the moment, and otherwise moves nothing but the payment; recording a failure never moves
   * anything else. The amount stays.
   */
  lemma RecordingAPayment(
    l: Lot, now: Time, actor: User, payMethod: string, reference: string, notes: string, reason: string, lost: bool)
    ensures var pending := l.payment.Some? && l.payment.value.status == Pending;
            && (Settlement.MarkPaid(l, now, actor, payMethod, reference, notes).Ok? <==> pending)
            && (Settlement.MarkFailed(l, actor, reason, lost).Ok? <==> pending && reason != "")
    ensures Settlement.MarkPaid(l, now, actor, payMethod, reference, notes).Ok? ==>
              var l' := Settlement.MarkPaid(l, now, actor, payMethod, reference, notes).value;
              var p := l.payment.value;
              && l' == l.(status := l'.status, payment := l'.payment, statusLog := l'.statusLog, audit := l'.audit)
              && l'.status == (if l.status == Closed then Settled else l.status)
              && l'.payment == Some(Payment(
                   p.amount, Paid, payMethod, reference, notes, Some(actor), Some(now), p.createdAt))
    ensures Settlement.MarkFailed(l, actor, reason, lost).Ok? ==>
              var l' := Settlement.MarkFailed(l, actor, reason, lost).value;
              var p := l.payment.value;
              && l' == l.(payment := l'.payment, audit := l'.audit)
              && l'.payment == Some(Payment(
                   p.amount, Failed, p.payMethod, p.reference, reason, Some(actor), p.paidAt, p.createdAt))
  {
  }

  predicate RecordsPayment(op: Op) {
    op.MarkPaid? || op.MarkFailed?
  }

  lemma RecordedIsNotPending(l: Lot, now: Time, op: Op)
    requires RecordsPayment(op) && Apply(l, now, op).Ok?
    ensures var l' := Step(l, now, op);
            l.payment.Some? && l'.payment.Some? &&
            l'.payment.value.status != Pending && l'.payment.value.amount == l.payment.value.amount
  {
    hide Settlement.MarkPaid;
    hide Settlement.MarkFailed;
    match op
    case MarkPaid(actor, payMethod, reference, notes) =>
      RecordingAPayment(l, now, actor, payMethod, reference, notes, "", false);
    case MarkFailed(actor, reason, lost) => RecordingAPayment(l, now, actor, "", "", "", reason, lost);
  }

  lemma OnlyPendingIsRecorded(l: Lot, now: Time, op: Op)
    requires RecordsPayment(op) && l.payment.Some? && l.payment.value.status != Pending
    ensures Apply(l, now, op).Err?
  {
    hide Settlement.MarkPaid;
    hide Settlement.MarkFailed;
    match op
    case MarkPaid(actor, payMethod, reference, notes) =>
      RecordingAPayment(l, now, actor, payMethod, reference, notes, "", false);
    case MarkFailed(actor, reason, lost) => RecordingAPayment(l, now, actor, "", "", "", reason, lost);
  }

  /** Whether paid or failed, a payment is recorded once: every later attempt is refused, whatever came between. */
  lemma PaymentIsRecordedOnce(l: Lot, now: Time, op: Op, calls: seq<Call>, at: Time, again: Op)
    requires Reachable(l, now) && RecordsPayment(op) && RecordsPayment(again)
    requires Apply(l, now, op).Ok? && Timely(now, calls)
    ensures var l' := Run(Step(l, now, op), calls);
            && Apply(l', at, again).Err?
            && l.payment.Some? && l'.payment.Some? && l'.payment.value.amount == l.payment.value.amount
  {
    hide Reachable;
    hide Apply;
    var recorded := Step(l, now, op);
    RecordedIsNotPending(l, now, op);
    assert Inv(recorded, now) by { ReachableInv(l, now); StepKeeps(l, now, op); }
    RunEvolves(recorded, now, calls);
    OnlyPendingIsRecorded(Run(recorded, calls), at, again);
  }

  /** A settled auction is paid, and so is a disputed one that was settled before. */
  lemma SettledMeansPaid(l: Lot, now: Time)
    requires Reachable(l, now)
    ensures l.status == Settled ==> IsPaid(l)
    ensures forall k :: 0 <= k < |l.disputes| && l.disputes[k].Active() && l.disputes[k].statusBefore == Settled ==>
                          IsPaid(l)
    ensures l.payment.Some? ==> l.status in Lifecycle.FINISHED && Some(l.payment.value.amount) == l.finalPrice
  {
    hide Reachable;
    ReachableInv(l, now);
  }

  /** A refunded or failed payment stays so, and the auction is never settled again. */
  lemma NeverSettledAgain(l: Lot, now: Time, calls: seq<Call>)
    requires Reachable(l, now) && Timely(now, calls)
    requires l.payment.Some? && l.payment.value.status in {Refunded, Failed}
    ensures var l' := Run(l, calls);
            l'.payment.Some? && l'.payment.value.status == l.payment.value.status && l'.status != Settled
  {
    hide Reachable;
    hide Apply;
    ReachableInv(l, now);
    RunEvolves(l, now, calls);
    RunKeeps(l, now, calls);
  }

  /** A payment can still be recorded, or the auction is settled, or a dispute will restore it to that. */
  predicate CanStillSettle(l: Lot) {
    || l.status == Settled
    || (l.payment.Some? && l.payment.value.status == Pending)
    || (l.status == Disputed && l.disputes != [] && l.disputes[|l.disputes| - 1].statusBefore == Settled)
  }

  predicate IsSettlementCall(op: Op) {
    op.MarkPaid? || op.MarkFailed? || op.OpenDispute? || op.TakeForReview? || op.ResolveDispute?
  }

  lemma OtherCallsLeaveFinishedAlone(l: Lot, now: Time, op: Op)
    requires l.status in Lifecycle.FINISHED && ResultOk(l) && !IsSettlementCall(op)
    ensures var l' := Step(l, now, op);
            l'.status == l.status && l'.payment == l.payment && l'.disputes == l.disputes
  {
  }

  lemma OpenDisputeKeepsUnsettleable(
    l: Lot, now: Time, user: User, category: Option<DisputeCategory>, description: string)
    requires !CanStillSettle(l) && Settlement.OpenDispute(l, now, user, category, description).Ok?
    ensures !CanStillSettle(Settlement.OpenDispute(l, now, user, category, description).value)
    ensures Settlement.OpenDispute(l, now, user, category, description).value.status == Disputed
  {
  }

  lemma ResolutionKeepsUnsettleable(
    l: Lot, now: Time, k: nat, actor: User, outcome: Option<DisputeOutcome>, notes: string, refund: bool)
    requires DisputesOk(l) && !CanStillSettle(l)
    requires Settlement.ResolveDispute(l, now, k, actor, outcome, notes, refund).Ok?
    ensures !CanStillSettle(Settlement.ResolveDispute(l, now, k, actor, outcome, notes, refund).value)
    ensures Settlement.ResolveDispute(l, now, k, actor, outcome, notes, refund).value.status in Lifecycle.FINISHED
  {
    hide Settlement.ResolveDispute;
    ResolutionIsLogged(l, now, k, actor, outcome, notes, refund);
    ResolveOutcome(l, now, k, actor, outcome, notes, refund);
  }

  lemma DisputeCallsKeepUnsettleable(l: Lot, now: Time, op: Op)
    requires DisputesOk(l) && l.status in Lifecycle.FINISHED && !CanStillSettle(l)
    requires op.OpenDispute? || op.ResolveDispute?
    ensures Step(l, now, op).status in Lifecycle.FINISHED && !CanStillSettle(Step(l, now, op))
  {
    if Apply(l, now, op).Ok? {
      hide CanStillSettle;
      hide DisputesOk;
      hide Settlement.OpenDispute;
      hide Settlement.ResolveDispute;
      match op
      case OpenDispute(user, category, description) =>
        OpenDisputeKeepsUnsettleable(l, now, user, category, description);
      case ResolveDispute(k, actor, outcome, notes, refund) =>
        ResolutionKeepsUnsettleable(l, now, k, actor, outcome, notes, refund);
    }
  }

  lemma PaymentCallsKeepUnsettleable(l: Lot, now: Time, op: Op)
    requires DisputesOk(l) && l.status in Lifecycle.FINISHED && !CanStillSettle(l)
    requires op.MarkPaid? || op.MarkFailed? || op.TakeForReview?
    ensures Step(l, now, op).status in Lifecycle.FINISHED && !CanStillSettle(Step(l, now, op))
  {
  }

  /** What keeps a finished auction from ever being settled survives every call. */
  lemma StepKeepsUnsettleable(l: Lot, now: Time, op: Op)
    requires Inv(l, now) && l.status in Lifecycle.FINISHED && !CanStillSettle(l)
    ensures Step(l, now, op).status in Lifecycle.FINISHED && !CanStillSettle(Step(l, now, op))
  {
    hide Apply;
    if !IsSettlementCall(op) {
      OtherCallsLeaveFinishedAlone(l, now, op);
    } else if op.OpenDispute? || op.ResolveDispute? {
      DisputeCallsKeepUnsettleable(l, now, op);
    } else {
      PaymentCallsKeepUnsettleable(l, now, op);
    }
  }

  lemma {:induction false} RunKeepsUnsettleable(l: Lot, now: Time, calls: seq<Call>)
    requires Inv(l, now) && Timely(now, calls) && l.status in Lifecycle.FINISHED && !CanStillSettle(l)
    ensures Run(l, calls).status in Lifecycle.FINISHED && !CanStillSettle(Run(l, calls))
  {
    hide Apply;
    hide Inv;
    if calls != [] {
      var n := |calls| - 1;
      RunKeepsUnsettleable(l, now, calls[..n]);
      RunKeeps(l, now, calls[..n]);
      InvAsTimePasses(Run(l, calls[..n]), Clock(now, calls[..n]), calls[n].at);
      StepKeepsUnsettleable(Run(l, calls[..n]), calls[n].at, calls[n].op);
    }
  }

  lemma PendingSettles(l: Lot, now: Time)
    requires l.status == Closed && l.payment.Some? && l.payment.value.status == Pending
    ensures Step(l, now, MarkPaid(0, "", "", "")).status == Settled
  {
  }

  /** The answer staff would give to restore the auction. */
  function Dismiss(l: Lot): Op
    requires l.disputes != []
  {
    ResolveDispute(|l.disputes| - 1, 0, Some(Dismissed), "x", false)
  }

  lemma DismissRestores(l: Lot, now: Time)
    requires DisputesOk(l) && l.status == Disputed
    ensures l.disputes != []
    ensures Step(l, now, Dismiss(l)).status == l.disputes[|l.disputes| - 1].statusBefore
    ensures Step(l, now, Dismiss(l)).payment == l.payment
  {
    hide Settlement.ResolveDispute;
    assert Strip("x") == "x";
    ResolveOutcome(l, now, |l.disputes| - 1, 0, Some(Dismissed), "x", false);
  }

  ghost predicate SettledBy(l: Lot, now: Time, calls: seq<Call>) {
    Timely(now, calls) && Run(l, calls).status == Settled
  }

  /**
   * Exactly which finished auctions can still become settled: those that are settled, have a pending
   * payment, or are in dispute and were settled before. All others never will be, whatever is called.
   */
  lemma CanStillSettleIsExact(l: Lot, now: Time)
    requires Reachable(l, now) && l.status in Lifecycle.FINISHED
    ensures CanStillSettle(l) <==> exists calls :: SettledBy(l, now, calls)
  {
    hide Reachable;
    hide Apply;
    assert DisputesOk(l) by { ReachableInv(l, now); }
    if CanStillSettle(l) {
      if l.status == Settled {
        var none: seq<Call> := [];
        assert SettledBy(l, now, none);
      } else if l.status == Closed {
        RunOfOne(l, now, now, MarkPaid(0, "", "", ""));
        PendingSettles(l, now);
        assert SettledBy(l, now, [Call(now, MarkPaid(0, "", "", ""))]);
      } else {
        assert l.status == Disputed by { OnlyDisputedIsLeft(l, now); }
        DismissRestores(l, now);
        var l1 := Step(l, now, Dismiss(l));
        RunOfOne(l, now, now, Dismiss(l));
        if l1.status == Settled {
          assert SettledBy(l, now, [Call(now, Dismiss(l))]);
        } else {
          RunOfOne(l1, now, now, MarkPaid(0, "", "", ""));
          PendingSettles(l1, now);
          RunSplits(l, now, [Call(now, Dismiss(l))], [Call(now, MarkPaid(0, "", "", ""))]);
          assert SettledBy(l, now, [Call(now, Dismiss(l))] + [Call(now, MarkPaid(0, "", "", ""))]);
        }
      }
    } else {
      forall calls | Timely(now, calls) ensures !SettledBy(l, now, calls) {
        ReachableInv(l, now);
        RunKeepsUnsettleable(l, now, calls);
      }
    }
  }

  lemma OnlyDisputedIsLeft(l: Lot, now: Time)
    requires Reachable(l, now) && l.status in Lifecycle.FINISHED && l.status !in {Settled, Closed}
    ensures l.status == Disputed
  {
    hide Reachable;
    ReachableInv(l, now);
  }

  // ---- A payment recorded during a dispute ----

  lemma PaidInDispute(l: Lot, now: Time, payer: User, payMethod: string, reference: string, remark: string)
    requires l.status == Disputed && l.payment.Some? && l.payment.value.status == Pending
    ensures var l' := Step(l, now, MarkPaid(payer, payMethod, reference, remark));
            IsPaid(l') && l'.status == Disputed && l'.disputes == l.disputes
  {
  }

  lemma ActiveMeansDisputed(l: Lot, now: Time, k: nat)
    requires Reachable(l, now) && k < |l.disputes| && l.disputes[k].Active()
    ensures l.status == Disputed
    ensures l.payment.Some? && l.payment.value.status == Pending ==> l.disputes[k].statusBefore == Closed
  {
    hide Reachable;
    ReachableInv(l, now);
  }

  lemma ResolvedInDispute(
    l: Lot, now: Time, k: nat, judge: User, outcome: Option<DisputeOutcome>, notes: string)
    requires Inv(l, now) && k < |l.disputes| && l.disputes[k].Active() && l.disputes[k].statusBefore == Closed
    requires IsPaid(l) && outcome.Some? && Strip(notes) != ""
    ensures var l' := Step(l, now, ResolveDispute(k, judge, outcome, notes, false));
            l'.status == Closed && IsPaid(l') && !Settlement.HasActiveDispute(l')
  {
    hide Settlement.ResolveDispute;
    ResolveOutcome(l, now, k, judge, outcome, notes, false);
  }

  /**
   * Recording a payment settles an auction only if it is `Closed` at that moment. When the payment is
   * recorded while a dispute is active and the dispute ends without a refund, the auction is back at
   * `Closed`, paid, and never settled in any continuation.
   */
  lemma PaidDuringDisputeNeverSettles(
    l: Lot, now: Time, k: nat, payer: User, payMethod: string, reference: string, remark: string,
    later: Time, judge: User, outcome: Option<DisputeOutcome>, notes: string, calls: seq<Call>)
    requires Reachable(l, now) && k < |l.disputes| && l.disputes[k].Active()
    requires l.payment.Some? && l.payment.value.status == Pending
    requires now <= later && outcome.Some? && Strip(notes) != ""
    ensures var paid := Step(l, now, MarkPaid(payer, payMethod, reference, remark));
            var after := Step(paid, later, ResolveDispute(k, judge, outcome, notes, false));
            && IsPaid(paid) && paid.status == Disputed
            && IsPaid(after) && after.status == Closed && !Settlement.HasActiveDispute(after)
            && (Timely(later, calls) ==> Run(after, calls).status != Settled)
  {
    hide Reachable;
    hide Apply;
    hide Inv;
    var paying := MarkPaid(payer, payMethod, reference, remark);
    var paid := Step(l, now, paying);
    var resolving := ResolveDispute(k, judge, outcome, notes, false);
    var after := Step(paid, later, resolving);
    assert l.status == Disputed && l.disputes[k].statusBefore == Closed by { ActiveMeansDisputed(l, now, k); }
    PaidInDispute(l, now, payer, payMethod, reference, remark);
    assert Inv(l, now) by { ReachableInv(l, now); }
    StepKeeps(l, now, paying);
    InvAsTimePasses(paid, now, later);
    ResolvedInDispute(paid, later, k, judge, outcome, notes);
    if Timely(later, calls) {
      StepKeeps(paid, later, resolving);
      RunKeepsUnsettleable(after, later, calls);
    }
  }

  /**
   * An auction resolved without a refund is settled iff it is paid, unless the payment was recorded during
   * the dispute: exactly if it was settled before the dispute or is not paid now.
   */
  lemma SettledIffPaidIsExact(
    l: Lot, now: Time, k: nat, actor: User, outcome: Option<DisputeOutcome>, notes: string)
    requires Reachable(l, now) && k < |l.disputes| && l.disputes[k].Active()
    requires outcome.Some? && Strip(notes) != ""
    ensures var r := Settlement.ResolveDispute(l, now, k, actor, outcome, notes, false);
            && r.Ok? && (IsPaid(r.value) <==> IsPaid(l))
            && ((r.value.status == Settled <==> IsPaid(r.value)) <==>
                l.disputes[k].statusBefore == Settled || !IsPaid(l))
  {
    hide Reachable;
    hide Settlement.ResolveDispute;
    ReachableInv(l, now);
    ResolveOutcome(l, now, k, actor, outcome, notes, false);
  }

  lemma SellerMayDispute(l: Lot, now: Time)
    requires l.status == Closed && l.disputes == []
    ensures var l' := Step(l, now, OpenDispute(l.seller, Some(NonPayment), "x"));
            l'.payment == l.payment && |l'.disputes| == 1 && l'.disputes[0].Active()
  {
  }

  /** That this does happen: the sold lot, disputed by its seller, paid meanwhile, and dismissed. */
  lemma PaidDuringDisputeHappens()
    ensures exists l, now :: Reachable(l, now) && l.status == Closed && IsPaid(l) && !CanStillSettle(l)
  {
    hide Reachable;
    hide Apply;
    SoldLotState();
    var l := SoldLot();
    hide SoldLot;
    var disputed := Step(l, 21, OpenDispute(1, Some(NonPayment), "x"));
    SellerMayDispute(l, 21);
    ReachableStep(l, 20, 21, OpenDispute(1, Some(NonPayment), "x"));
    var paid := Step(disputed, 21, MarkPaid(3, "", "", ""));
    ReachableStep(disputed, 21, 21, MarkPaid(3, "", "", ""));
    var resolving := ResolveDispute(0, 3, Some(Dismissed), "x", false);
    ReachableStep(paid, 21, 22, resolving);
    assert Strip("x") == "x";
    PaidDuringDisputeNeverSettles(disputed, 21, 0, 3, "", "", "", 22, 3, Some(Dismissed), "x", []);
    assert Reachable(Step(paid, 22, resolving), 22);
  }
}
