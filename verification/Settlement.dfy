/** Payments recorded by staff, and disputes over finished auctions. */
module Settlement {
  import opened Basics
  import opened Records
  import Lifecycle

  // ---- Payments ----

  function MarkPaid(l: Lot, now: Time, actor: User, payMethod: string, reference: string, notes: string): Reply {
    if l.payment.None? then Err(NoPayment)
    else if l.payment.value.status != Pending then Err(PaymentNotPending)
    else
      var paid := l.(
        payment := Some(l.payment.value.(
          status := Paid, payMethod := payMethod, reference := reference, notes := notes,
          recordedBy := Some(actor), paidAt := Some(now))),
        audit := l.audit + [PaymentReceived(actor, payMethod, reference)]);
      if l.status == Closed then Lifecycle.Transition(paid, Settled, Some(actor), PaymentRecorded) else Ok(paid)
  }

  /**
   * The payment row and its audit row are committed one after the other. `lost` says that the process
   * stops in between, so that the audit row is never written.
   */
  function MarkFailed(l: Lot, actor: User, reason: string, lost: bool): Reply {
    if l.payment.None? then Err(NoPayment)
    else if reason == "" then Err(ReasonRequired)
    else if l.payment.value.status != Pending then Err(PaymentNotPending)
    else
      Ok(l.(
        payment := Some(l.payment.value.(status := Failed, notes := reason, recordedBy := Some(actor))),
        audit := l.audit + if lost then [] else [PaymentFailed(actor, reason)]))
  }

  function MarkRefunded(l: Lot, actor: User, reason: string): Reply {
    if l.payment.None? then Err(NoPayment)
    else if reason == "" then Err(ReasonRequired)
    else if l.payment.value.status != Paid then Err(PaymentNotPaid)
    else
      Ok(l.(
        payment := Some(l.payment.value.(
          status := Refunded, notes := Strip(l.payment.value.notes + "\nRefunded: " + reason),
          recordedBy := Some(actor))),
        audit := l.audit + [PaymentRefunded(actor, reason)]))
  }

  // ---- Disputes ----

  const DISPUTABLE: set<Status> := {Closed, Settled}

  predicate Participant(l: Lot, user: User) {
    user == l.seller || l.winner == Some(user) || exists i :: 0 <= i < |l.bids| && l.bids[i].bidder == user
  }

  predicate HasActiveDispute(l: Lot) {
    exists k :: 0 <= k < |l.disputes| && l.disputes[k].Active()
  }

  predicate CanRaiseDispute(l: Lot, user: User) {
    l.status in DISPUTABLE && !HasActiveDispute(l) && Participant(l, user)
  }

  function OpenDispute(
    l: Lot, now: Time, raisedBy: User, category: Option<DisputeCategory>, description: string): Reply
  {
    if Strip(description) == "" then Err(DescriptionRequired)
    else if category.None? then Err(BadCategory)
    else if l.status !in DISPUTABLE then Err(NotDisputable)
    else if !Participant(l, raisedBy) then Err(NotAParticipant)
    else if HasActiveDispute(l) then Err(AlreadyDisputed)
    else
      var index := |l.disputes|;
      var raised := l.(disputes := l.disputes + [
        Dispute(raisedBy, category.value, Strip(description), Open, l.status, None, now)]);
      var disputed :- Lifecycle.Transition(raised, Disputed, Some(raisedBy), DisputeRaised(index));
      Ok(disputed.(audit := disputed.audit + [
        DisputeCreated(raisedBy, index, category.value, Shortened(Strip(description)))]))
  }

  function Shortened(text: string): string {
    if |text| <= 500 then text else text[..500]
  }

  function TakeForReview(l: Lot, k: nat, actor: User): Reply {
    if k >= |l.disputes| then Err(NoSuchDispute)
    else if !l.disputes[k].status.Open? then Err(DisputeNotOpen)
    else
      Ok(l.(disputes := l.disputes[k := l.disputes[k].(status := UnderReview, assignedTo := Some(actor))]))
  }

  /** A refund is recorded with the number of the dispute that led to it, so its reason is never empty. */
  function RefundReason(k: nat, notes: string): (reason: string)
    ensures reason != ""
  {
    "Dispute #" + Digits(k + 1) + ": " + notes
  }

  /** The row of a resolved dispute, and the audit row that goes with it. */
  function MarkResolved(
    l: Lot, now: Time, k: nat, actor: User, outcome: DisputeOutcome, text: string, refund: bool): Lot
    requires k < |l.disputes|
  {
    l.(
      disputes := l.disputes[k := l.disputes[k].(status := Resolved(outcome, text, refund, actor, now))],
      audit := l.audit + [DisputeResolved(actor, k, outcome, refund, Shortened(text))])
  }

  function ResolveDispute(
    l: Lot, now: Time, k: nat, actor: User, outcome: Option<DisputeOutcome>, notes: string, refund: bool): Reply
  {
    if k >= |l.disputes| then Err(NoSuchDispute)
    else if outcome.None? then Err(BadOutcome)
    else if Strip(notes) == "" then Err(NotesRequired)
    else if !l.disputes[k].Active() then Err(DisputeNotActive)
    else
      var repaid :-
        if !refund then Ok(l)
        else if l.payment.None? || l.payment.value.status != Paid then Err(PaymentNotPaid)
        else MarkRefunded(l, actor, RefundReason(k, Strip(notes)));
      var closed :- Lifecycle.Transition(repaid, Closed, Some(actor), DisputeSettled(k));
      var restored :-
        if l.disputes[k].statusBefore == Settled && !refund
        then Lifecycle.Transition(closed, Settled, Some(actor), RestoredAfter(k)) else Ok(closed);
      Ok(MarkResolved(restored, now, k, actor, outcome.value, Strip(notes), refund))
  }
}
