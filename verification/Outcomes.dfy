/**
 * What each call writes and why it is refused, told from the columns of the rows alone: the whole answer of
 * the service, through every function it goes through, without naming any of them.
 */
module Outcomes {
  import opened Basics
  import opened Records
  import opened Amounts
  import Lifecycle
  import Bidding
  import Settlement
  import opened Engine
  import opened Invariants
  import BidLaws

  // ---- Texts ----

  predicate AllSpaces(s: string) {
    forall i :: 0 <= i < |s| ==> IsSpace(s[i])
  }

  ghost predicate Surrounds(s: string, before: string, inner: string, after: string) {
    s == before + inner + after && AllSpaces(before) && AllSpaces(after)
  }

  lemma WiderBefore(s: string, before: string, inner: string, after: string)
    requires s != "" && IsSpace(s[0]) && Surrounds(s[1..], before, inner, after)
    ensures Surrounds(s, [s[0]] + before, inner, after)
  {
    hide IsSpace;
    assert s == [s[0]] + s[1..];
  }

  lemma WiderAfter(s: string, before: string, inner: string, after: string)
    requires s != "" && IsSpace(s[|s| - 1]) && Surrounds(s[..|s| - 1], before, inner, after)
    ensures Surrounds(s, before, inner, after + [s[|s| - 1]])
  {
    hide IsSpace;
    assert s == s[..|s| - 1] + [s[|s| - 1]];
  }

  lemma NothingAround(s: string)
    ensures Surrounds(s, "", s, "")
  {
    assert s == "" + s + "";
  }

  /** Stripping takes spaces off both ends and nothing else, and leaves none there. */
  lemma {:induction false} StripTrims(s: string)
    ensures exists before, after :: Surrounds(s, before, Strip(s), after)
    ensures Strip(s) != "" ==> !IsSpace(Strip(s)[0]) && !IsSpace(Strip(s)[|Strip(s)| - 1])
  {
    hide IsSpace;
    hide AllSpaces;
    if s != "" && IsSpace(s[0]) {
      StripTrims(s[1..]);
      var before, after :| Surrounds(s[1..], before, Strip(s[1..]), after);
      WiderBefore(s, before, Strip(s), after);
    } else if s != "" && IsSpace(s[|s| - 1]) {
      var n := |s| - 1;
      StripTrims(s[..n]);
      var before, after :| Surrounds(s[..n], before, Strip(s[..n]), after);
      WiderAfter(s, before, Strip(s), after);
    } else {
      NothingAround(s);
      assert Surrounds(s, "", Strip(s), "");
    }
  }

  /** Reading a decimal numeral. */
  function ValueOf(s: string): int {
    if s == "" then 0 else 10 * ValueOf(s[..|s| - 1]) + (s[|s| - 1] as int - '0' as int)
  }

  lemma {:induction false} DigitsReadBack(n: nat)
    ensures ValueOf(Digits(n)) == n
    ensures forall i :: 0 <= i < |Digits(n)| ==> '0' <= Digits(n)[i] <= '9'
  {
    var last := [('0' as int + n % 10) as char];
    if n < 10 {
      assert last[..0] == "";
    } else {
      DigitsReadBack(n / 10);
      assert Digits(n)[..|Digits(n)| - 1] == Digits(n / 10);
    }
  }

  /** Audit rows keep at most 500 characters of a text. */
  lemma ShortenedIsAPrefix(text: string)
    ensures Settlement.Shortened(text) <= text
    ensures |Settlement.Shortened(text)| == if |text| < 500 then |text| else 500
  {
  }

  // ---- The lifecycle ----

  /** The edges of the transition table. */
  const TABLE: set<(Status, Status)> := {
    (Draft, Submitted), (Draft, Cancelled), (Submitted, Approved), (Submitted, Status.Rejected),
    (Approved, Scheduled), (Scheduled, Live), (Scheduled, Cancelled), (Live, Paused), (Live, Closed),
    (Live, Cancelled), (Live, Disputed), (Paused, Live), (Paused, Cancelled), (Closed, Settled),
    (Closed, Disputed), (Settled, Completed), (Settled, Disputed), (Disputed, Closed)}

  /** Every move follows the table, needs a reason only to reject, and is logged with its actor and reason. */
  lemma MovesFollowTheTable(l: Lot, to: Status, actor: Option<User>, reason: Reason)
    ensures Lifecycle.Transition(l, to, actor, reason) ==
            if (l.status, to) !in TABLE then Err(InvalidTransition(l.status, to))
            else if to == Status.Rejected && reason == Given("") then Err(RejectionNeedsReason)
            else
              Ok(l.(
                status := to,
                statusLog := l.statusLog + [StatusRow(l.status, to, actor, reason)],
                audit := if to in {Scheduled, Paused, Settled, Completed, Disputed} then l.audit
                         else l.audit + [Entered(to, actor, reason)]))
  {
    if to in {Scheduled, Paused, Settled, Completed, Disputed} { assert l.audit + [] == l.audit; }
  }

  lemma SubmitOutcome(l: Lot, now: Time, actor: User)
    ensures Apply(l, now, Submit(actor)) ==
            if l.status != Draft then Err(InvalidTransition(l.status, Submitted))
            else
              Ok(l.(
                status := Submitted,
                statusLog := l.statusLog + [StatusRow(Draft, Submitted, Some(actor), Given(""))],
                audit := l.audit + [Entered(Submitted, Some(actor), Given(""))]))
  {
    MovesFollowTheTable(l, Submitted, Some(actor), Given(""));
  }

  lemma ApproveOutcome(l: Lot, now: Time, actor: User, reason: string, lost: bool)
    ensures Apply(l, now, Approve(actor, reason, lost)) ==
            if l.status != Submitted then Err(InvalidTransition(l.status, Approved))
            else
              Ok(l.(
                status := if lost then Approved else Scheduled,
                statusLog := l.statusLog + [StatusRow(Submitted, Approved, Some(actor), Given(reason))]
                             + if lost then [] else [StatusRow(Approved, Scheduled, Some(actor), AutoScheduled)],
                audit := l.audit + [Entered(Approved, Some(actor), Given(reason))]))
  {
    MovesFollowTheTable(l, Approved, Some(actor), Given(reason));
    if l.status == Submitted {
      var approved := Lifecycle.Transition(l, Approved, Some(actor), Given(reason)).value;
      MovesFollowTheTable(approved, Scheduled, Some(actor), AutoScheduled);
      assert approved.statusLog + [] == approved.statusLog;
    }
  }

  lemma RejectOutcome(l: Lot, now: Time, actor: User, reason: string)
    ensures Apply(l, now, Reject(actor, reason)) ==
            if l.status != Submitted then Err(InvalidTransition(l.status, Status.Rejected))
            else if reason == "" then Err(RejectionNeedsReason)
            else
              Ok(l.(
                status := Status.Rejected,
                statusLog := l.statusLog + [StatusRow(Submitted, Status.Rejected, Some(actor), Given(reason))],
                audit := l.audit + [Entered(Status.Rejected, Some(actor), Given(reason))]))
  {
    MovesFollowTheTable(l, Status.Rejected, Some(actor), Given(reason));
  }

  lemma CancelOutcome(l: Lot, now: Time, actor: User, reason: string)
    ensures Apply(l, now, Cancel(actor, reason)) ==
            if l.status !in {Draft, Scheduled, Live, Paused} then Err(InvalidTransition(l.status, Cancelled))
            else
              Ok(l.(
                status := Cancelled,
                statusLog := l.statusLog + [StatusRow(l.status, Cancelled, Some(actor), Given(reason))],
                audit := l.audit + [Entered(Cancelled, Some(actor), Given(reason))]))
  {
    assert (l.status, Cancelled) in TABLE <==> l.status in {Draft, Scheduled, Live, Paused};
    MovesFollowTheTable(l, Cancelled, Some(actor), Given(reason));
  }

  /** A scheduled auction goes live from its start on, however late that is noticed; any other stays as it is. */
  lemma ActivateOutcome(l: Lot, now: Time, actor: Option<User>)
    ensures Apply(l, now, Activate(actor)) ==
            Ok(if l.status != Scheduled || now < l.startTime then l
               else
                 l.(
                   status := Live,
                   statusLog := l.statusLog + [StatusRow(Scheduled, Live, actor, AutoActivated)],
                   audit := l.audit + [Entered(Live, actor, AutoActivated)]))
  {
    MovesFollowTheTable(l, Live, actor, AutoActivated);
  }

  lemma EditDraftOutcome(l: Lot, now: Time, kind: string, terms: Terms, start: Time, end: Time)
    ensures var limit := 100 * 1_000_000_000_000;
            Apply(l, now, EditDraft(kind, terms, start, end)) ==
            if l.status != Draft then Err(NotDraft)
            else if start >= end
                    || terms.startingPrice <= 0 || terms.startingPrice >= limit
                    || terms.minIncrement <= 0 || terms.minIncrement >= limit
                    || (terms.reserve.Some? &&
                        (terms.reserve.value < terms.startingPrice || terms.reserve.value >= limit))
            then Err(BadTerms)
            else
              Ok(l.(category := kind, terms := terms, startTime := start, endTime := end))
  {
  }

  // ---- Staff controls ----

  lemma StartNowOutcome(l: Lot, now: Time, actor: User)
    ensures Apply(l, now, StartNow(actor)) ==
            if l.status != Scheduled then Err(NotScheduled)
            else if l.endTime <= now then Err(EndPassed)
            else
              Ok(l.(
                status := Live,
                startTime := if now < l.startTime then now else l.startTime,
                statusLog := l.statusLog + [StatusRow(Scheduled, Live, Some(actor), StartedByStaff)],
                audit := (if now < l.startTime then l.audit + [StartedEarly(actor, l.startTime, now)] else l.audit)
                         + [Entered(Live, Some(actor), StartedByStaff)]))
  {
    hide Lifecycle.Allowed;
    var moved := if now < l.startTime then
        l.(startTime := now, audit := l.audit + [StartedEarly(actor, l.startTime, now)]) else l;
    MovesFollowTheTable(moved, Live, Some(actor), StartedByStaff);
  }

  lemma RescheduleOutcome(
    l: Lot, now: Time, actor: User, reason: string, start: Option<Time>, end: Option<Time>)
    ensures var from := if start.Some? then start.value else l.startTime;
            var to := if end.Some? then end.value else l.endTime;
            Apply(l, now, Reschedule(actor, reason, start, end)) ==
            if Strip(reason) == "" then Err(ReasonRequired)
            else if l.status != Scheduled && l.status != Live && l.status != Paused then Err(CannotReschedule)
            else if start.None? && end.None? then Err(NothingToChange)
            else if start.Some? && l.status != Scheduled then Err(StartFrozen)
            else if to <= from then Err(StartNotBeforeEnd)
            else if to <= now then Err(EndNotFuture)
            else if start.Some? && start.value <= now then Err(StartNotFuture)
            else if l.status == Live && end.Some? && end.value <= l.endTime then Err(OnlyExtension)
            else
              Ok(l.(
                startTime := from, endTime := to,
                audit := l.audit + [Rescheduled(actor, Strip(reason), l.startTime, from, l.endTime, to)]))
  {
  }

  lemma PauseOutcome(l: Lot, now: Time, actor: User, reason: string)
    ensures Apply(l, now, Pause(actor, reason)) ==
            if Strip(reason) == "" then Err(ReasonRequired)
            else if l.status != Live then Err(InvalidTransition(l.status, Paused))
            else
              Ok(l.(
                status := Paused,
                statusLog := l.statusLog + [StatusRow(Live, Paused, Some(actor), Given(Strip(reason)))],
                audit := l.audit + [PausedBy(actor, Strip(reason))]))
  {
    MovesFollowTheTable(l, Paused, Some(actor), Given(Strip(reason)));
  }

  lemma ResumeOutcome(l: Lot, now: Time, actor: User)
    ensures Apply(l, now, Resume(actor)) ==
            if l.status != Paused then Err(NotPaused)
            else if l.endTime <= now then Err(EndPassed)
            else
              Ok(l.(
                status := Live,
                statusLog := l.statusLog + [StatusRow(Paused, Live, Some(actor), ResumedByStaff)],
                audit := l.audit + [Entered(Live, Some(actor), ResumedByStaff), ResumedBy(actor)]))
  {
    MovesFollowTheTable(l, Live, Some(actor), ResumedByStaff);
    var live := Entered(Live, Some(actor), ResumedByStaff);
    assert l.audit + [live] + [ResumedBy(actor)] == l.audit + [live, ResumedBy(actor)];
  }

  lemma CancelAuctionOutcome(l: Lot, now: Time, actor: User, reason: string)
    ensures Apply(l, now, CancelAuction(actor, reason)) ==
            if Strip(reason) == "" then Err(ReasonRequired)
            else if l.status != Scheduled && l.status != Live && l.status != Paused then Err(CannotCancelHere)
            else
              Ok(l.(
                status := Cancelled,
                statusLog := l.statusLog + [StatusRow(l.status, Cancelled, Some(actor), Given(Strip(reason)))],
                audit := l.audit + [Entered(Cancelled, Some(actor), Given(Strip(reason)))]))
  {
    assert (l.status, Cancelled) in TABLE <==> l.status in {Draft, Scheduled, Live, Paused};
    MovesFollowTheTable(l, Cancelled, Some(actor), Given(Strip(reason)));
  }

  // ---- Bidding ----

  /** The last accepted bid, if there is one and it reaches the reserve, wins at its amount. */
  predicate Sells(l: Lot) {
    var last := BidLaws.LastAccepted(l.bids);
    last.Some? && (l.terms.reserve.None? || l.terms.reserve.value <= l.bids[last.value].amount)
  }

  /**
   * Why a bid is refused: the first of the checks that fails, in the order of the service, with the exact
   * minimum when the amount is too low.
   */
  lemma RefusedBid(l: Lot, now: Time, account: Bidding.Account, amount: Amount)
    ensures var minimum := if l.highest.Some? then l.highest.value + l.terms.minIncrement else l.terms.startingPrice;
            var r := Apply(l, now, PlaceBid(account, amount));
            var q := Denotes(amount);
            var why :=
              if q.None? then NotAnAmount
              else if amount.Finite? && amount.exponent < -2 then TooManyDecimals
              else if q.value.0 >= 1_000_000_000_000 * q.value.1 then AmountTooLarge
              else if l.status != Live || now < l.startTime || l.endTime <= now then NotOpen
              else if account.profile.None? then NotABidder
              else if account.profile.value != Bidding.Profile(true, true, true) then NotEligible
              else if account.user == l.seller then OwnAuction
              else BelowMinimum(minimum);
            r.Err? ==> r.why == why
  {
    hide Pow10;
    ToCentsIsExact(amount);
  }

  /** What an accepted bid writes. */
  lemma PlaceBidOutcome(l: Lot, now: Time, account: Bidding.Account, amount: Amount)
    requires Reachable(l, now)
    ensures var r := Apply(l, now, PlaceBid(account, amount));
            r.Ok? ==>
              var n := |l.bids|;
              var window := l.terms.extensionMinutes * 60_000_000;
              var pushed := l.terms.extensionMinutes > 0 && l.endTime <= now + window;
              && Denotes(amount).Some?
              && |r.value.bids| == n + 1
              && var cents := r.value.bids[n].amount;
                 && cents * Denotes(amount).value.1 == 100 * Denotes(amount).value.0
                 && r.value == l.(
                      bids := l.bids + [Bid(account.user, cents, n + 1, now, Accepted)],
                      highest := Some(cents),
                      endTime := if pushed then now + window else l.endTime,
                      audit := (if pushed then l.audit + [Extended(account.user, now + window)] else l.audit)
                               + [BidPlaced(account.user, n + 1, cents)])
  {
    hide Reachable;
    assert Bidding.HighestSeqNo(l.bids) == |l.bids| by { ReachableInv(l, now); SeqNosAreDense(l, now); }
    hide Bidding.HighestSeqNo;
    ToCentsIsExact(amount);
    hide ToCents;
    hide Denotes;
  }

  lemma InvalidateBidOutcome(l: Lot, now: Time, k: nat, actor: User, reason: string)
    requires Reachable(l, now)
    ensures var r := Apply(l, now, InvalidateBid(k, actor, reason));
            if k >= |l.bids| then r == Err(NoSuchBid)
            else if reason == "" then r == Err(ReasonRequired)
            else
              var rest := l.bids[k := l.bids[k].(status := Invalidated(reason, actor, now))];
              var last := BidLaws.LastAccepted(rest);
              r == Ok(l.(
                bids := rest,
                highest := if last.None? then None else Some(rest[last.value].amount),
                audit := l.audit + [BidInvalidated(actor, k + 1, reason)]))
  {
    hide Reachable;
    if k < |l.bids| && reason != "" {
      var rest := Bidding.MarkInvalid(l.bids, k, reason, actor, now);
      assert Spaced(rest, l.terms.minIncrement) && l.terms.minIncrement > 0 && l.bids[k].seqNo == k + 1 by {
        ReachableInv(l, now);
        assert BidOk(l, k, now);
      }
      BidLaws.SpacedLeadersAgree(rest, l.terms.minIncrement, |rest|);
    }
  }

  lemma LiveOwesNothing(l: Lot, now: Time)
    requires Reachable(l, now) && l.status == Live
    ensures l.payment.None?
  {
    hide Reachable;
    ReachableInv(l, now);
  }

  lemma VerdictOf(l: Lot)
    requires Bidding.ClosingLeader(l.bids) == BidLaws.LastAccepted(l.bids)
    ensures var last := BidLaws.LastAccepted(l.bids);
            Bidding.Decide(l) == Bidding.Verdict(
              if Sells(l) then Some(l.bids[last.value].bidder) else None,
              if Sells(l) then Some(l.bids[last.value].amount) else None,
              if last.None? then None else Some(Sells(l)))
  {
  }

  /** What a closing writes, and how it is logged. Ending by hand is the same with its own actor and reason. */
  lemma CloseAuctionOutcome(l: Lot, now: Time, actor: Option<User>, why: Reason)
    requires Reachable(l, now)
    ensures var last := BidLaws.LastAccepted(l.bids);
            Apply(l, now, CloseAuction(actor, why)) ==
            if l.status != Live then Err(NotLive)
            else
              var winner := if Sells(l) then Some(l.bids[last.value].bidder) else None;
              var price := if Sells(l) then Some(l.bids[last.value].amount) else None;
              Ok(l.(
                status := Closed, winner := winner, finalPrice := price,
                reserveMet := if last.None? then None else Some(Sells(l)),
                payment := if Sells(l) then Some(Payment(price.value, Pending, "", "", "", None, None, now)) else None,
                statusLog := l.statusLog + [StatusRow(Live, Closed, actor, why)],
                audit := l.audit + [Entered(Closed, actor, why)]
                         + if Sells(l) then [WinnerDetermined(actor, winner.value, price.value), PaymentPending]
                           else []))
  {
    hide Reachable;
    hide Bidding.Decide;
    hide Lifecycle.Transition;
    hide Sells;
    if l.status == Live {
      BidLaws.LeadersAgree(l, now);
      VerdictOf(l);
      LiveOwesNothing(l, now);
      var v := Bidding.Decide(l);
      MovesFollowTheTable(
        l.(winner := v.winner, finalPrice := v.finalPrice, reserveMet := v.reserveMet), Closed, actor, why);
      var audit := l.audit + [Entered(Closed, actor, why)];
      if Sells(l) {
        var won := WinnerDetermined(actor, v.winner.value, v.finalPrice.value);
        assert audit + [won] + [PaymentPending] == audit + [won, PaymentPending];
      } else {
        assert audit + [] == audit;
      }
    }
  }

  lemma EndNowOutcome(l: Lot, now: Time, actor: User, reason: string)
    ensures Apply(l, now, EndNow(actor, reason)) ==
            if Strip(reason) == "" then Err(ReasonRequired)
            else Apply(l, now, CloseAuction(Some(actor), EndedEarly(Strip(reason))))
  {
  }

  // ---- Payments and disputes ----

  lemma MarkPaidOutcome(l: Lot, now: Time, actor: User, payMethod: string, reference: string, notes: string)
    ensures Apply(l, now, MarkPaid(actor, payMethod, reference, notes)) ==
            if l.payment.None? then Err(NoPayment)
            else if l.payment.value.status != Pending then Err(PaymentNotPending)
            else
              var p := l.payment.value;
              var closed := l.status == Closed;
              Ok(l.(
                payment := Some(Payment(
                  p.amount, Paid, payMethod, reference, notes, Some(actor), Some(now), p.createdAt)),
                status := if closed then Settled else l.status,
                statusLog := if closed then l.statusLog + [StatusRow(Closed, Settled, Some(actor), PaymentRecorded)]
                             else l.statusLog,
                audit := l.audit + [PaymentReceived(actor, payMethod, reference)]))
  {
    var events := l.audit + [PaymentReceived(actor, payMethod, reference)];
    assert events + [] == events;
  }

  lemma MarkFailedOutcome(l: Lot, now: Time, actor: User, reason: string, lost: bool)
    ensures Apply(l, now, MarkFailed(actor, reason, lost)) ==
            if l.payment.None? then Err(NoPayment)
            else if reason == "" then Err(ReasonRequired)
            else if l.payment.value.status != Pending then Err(PaymentNotPending)
            else
              var p := l.payment.value;
              Ok(l.(
                payment := Some(Payment(
                  p.amount, Failed, p.payMethod, p.reference, reason, Some(actor), p.paidAt, p.createdAt)),
                audit := if lost then l.audit else l.audit + [PaymentFailed(actor, reason)]))
  {
    assert l.audit + [] == l.audit;
  }

  /** A refund leaves the payment as it was but for its status, its recorder and a line more in its notes. */
  lemma MarkRefundedOutcome(l: Lot, actor: User, reason: string)
    ensures Settlement.MarkRefunded(l, actor, reason) ==
            if l.payment.None? then Err(NoPayment)
            else if reason == "" then Err(ReasonRequired)
            else if l.payment.value.status != Paid then Err(PaymentNotPaid)
            else
              var p := l.payment.value;
              Ok(l.(
                payment := Some(Payment(
                  p.amount, Refunded, p.payMethod, p.reference, Strip(p.notes + "\nRefunded: " + reason),
                  Some(actor), p.paidAt, p.createdAt)),
                audit := l.audit + [PaymentRefunded(actor, reason)]))
  {
  }

  predicate AllResolved(l: Lot) {
    forall k :: 0 <= k < |l.disputes| ==> l.disputes[k].status.Resolved?
  }

  /** The seller, the winner, and everybody with a bid on record, invalidated or not. */
  predicate HasAStake(l: Lot, user: User) {
    || user == l.seller
    || l.winner == Some(user)
    || exists i :: 0 <= i < |l.bids| && l.bids[i].bidder == user
  }

  lemma OpenDisputeOutcome(
    l: Lot, now: Time, user: User, category: Option<DisputeCategory>, description: string)
    ensures Apply(l, now, OpenDispute(user, category, description)) ==
            if Strip(description) == "" then Err(DescriptionRequired)
            else if category.None? then Err(BadCategory)
            else if l.status != Closed && l.status != Settled then Err(NotDisputable)
            else if !HasAStake(l, user) then Err(NotAParticipant)
            else if !AllResolved(l) then Err(AlreadyDisputed)
            else
              var k := |l.disputes|;
              Ok(l.(
                status := Disputed,
                disputes := l.disputes + [
                  Dispute(user, category.value, Strip(description), Open, l.status, None, now)],
                statusLog := l.statusLog + [StatusRow(l.status, Disputed, Some(user), DisputeRaised(k))],
                audit := l.audit + [
                  DisputeCreated(user, k, category.value, Settlement.Shortened(Strip(description)))]))
  {
    hide Strip;
    hide Settlement.Shortened;
    ActiveMeansUnresolved(l);
    assert l.audit + [] == l.audit;
  }

  lemma ActiveMeansUnresolved(l: Lot)
    ensures Settlement.HasActiveDispute(l) <==> !AllResolved(l)
  {
    if !AllResolved(l) {
      var k :| 0 <= k < |l.disputes| && !l.disputes[k].status.Resolved?;
      assert l.disputes[k].Active();
    }
  }

  lemma TakeForReviewOutcome(l: Lot, now: Time, k: nat, actor: User)
    ensures Apply(l, now, TakeForReview(k, actor)) ==
            if k >= |l.disputes| then Err(NoSuchDispute)
            else if l.disputes[k].status != Open then Err(DisputeNotOpen)
            else
              Ok(l.(disputes := l.disputes[k := l.disputes[k].(status := UnderReview, assignedTo := Some(actor))]))
  {
  }

  /** The payment after a refund for dispute `k`. */
  function RefundedFor(p: Payment, k: nat, actor: User, notes: string): Payment {
    Payment(
      p.amount, Refunded, p.payMethod, p.reference,
      Strip(p.notes + "\nRefunded: Dispute #" + Digits(k + 1) + ": " + Strip(notes)),
      Some(actor), p.paidAt, p.createdAt)
  }

  lemma RefusedResolution(
    l: Lot, now: Time, k: nat, actor: User, outcome: Option<DisputeOutcome>, notes: string, refund: bool)
    ensures var r := Apply(l, now, ResolveDispute(k, actor, outcome, notes, refund));
            var why :=
              if k >= |l.disputes| then NoSuchDispute
              else if outcome.None? then BadOutcome
              else if Strip(notes) == "" then NotesRequired
              else if l.disputes[k].status.Resolved? then DisputeNotActive
              else if refund && (l.payment.None? || l.payment.value.status != Paid) then PaymentNotPaid
              else InvalidTransition(l.status, Closed);
            r.Err? ==> r.why == why
  {
    hide Strip;
    hide Settlement.RefundReason;
    hide Settlement.Shortened;
  }

  /** A refund for a dispute that is accepted: the payment it leaves and the audit row it writes. */
  lemma RefundForDispute(l: Lot, k: nat, actor: User, notes: string)
    requires l.payment.Some? && l.payment.value.status == Paid
    ensures var why := "Dispute #" + Digits(k + 1) + ": " + Strip(notes);
            Settlement.MarkRefunded(l, actor, Settlement.RefundReason(k, Strip(notes))) == Ok(l.(
              payment := Some(RefundedFor(l.payment.value, k, actor, notes)),
              audit := l.audit + [PaymentRefunded(actor, why)]))
  {
    hide Strip;
    hide Digits;
    var why := "Dispute #" + Digits(k + 1) + ": " + Strip(notes);
    assert Settlement.RefundReason(k, Strip(notes)) == why;
    MarkRefundedOutcome(l, actor, why);
    var p := l.payment.value;
    assert p.notes + "\nRefunded: " + why == p.notes + "\nRefunded: Dispute #" + Digits(k + 1) + ": " + Strip(notes);
  }

  lemma ResolveIsOfDisputed(
    l: Lot, now: Time, k: nat, actor: User, outcome: Option<DisputeOutcome>, notes: string, refund: bool)
    requires Inv(l, now) && Apply(l, now, ResolveDispute(k, actor, outcome, notes, refund)).Ok?
    ensures k < |l.disputes| && outcome.Some? && Strip(notes) != "" && !l.disputes[k].status.Resolved?
    ensures l.status == Disputed && (refund ==> l.payment.Some? && l.payment.value.status == Paid)
  {
    hide Strip;
    hide Settlement.Shortened;
    hide Settlement.RefundReason;
  }

  lemma ResolveDisputeOutcome(
    l: Lot, now: Time, k: nat, actor: User, outcome: Option<DisputeOutcome>, notes: string, refund: bool)
    requires Reachable(l, now) && Apply(l, now, ResolveDispute(k, actor, outcome, notes, refund)).Ok?
    ensures k < |l.disputes| && outcome.Some? && Strip(notes) != "" && !l.disputes[k].status.Resolved?
    ensures l.status == Disputed && (refund ==> l.payment.Some? && l.payment.value.status == Paid)
    ensures var back := l.disputes[k].statusBefore == Settled && !refund;
            var closing := StatusRow(Disputed, Closed, Some(actor), DisputeSettled(k));
            Apply(l, now, ResolveDispute(k, actor, outcome, notes, refund)) == Ok(l.(
              status := if back then Settled else Closed,
              payment := if refund then Some(RefundedFor(l.payment.value, k, actor, notes)) else l.payment,
              disputes := l.disputes[k := l.disputes[k].(
                status := Resolved(outcome.value, Strip(notes), refund, actor, now))],
              statusLog := l.statusLog + [closing]
                           + if back then [StatusRow(Closed, Settled, Some(actor), RestoredAfter(k))] else [],
              audit := l.audit
                       + (if refund then
                            [PaymentRefunded(actor, "Dispute #" + Digits(k + 1) + ": " + Strip(notes))] else [])
                       + [Entered(Closed, Some(actor), DisputeSettled(k)),
                          DisputeResolved(actor, k, outcome.value, refund, Settlement.Shortened(Strip(notes)))]))
  {
    hide Reachable;
    hide Inv;
    hide Digits;
    hide Settlement.Shortened;
    hide Settlement.MarkRefunded;
    hide Lifecycle.Transition;
    hide RefundedFor;
    hide Strip;
    ReachableInv(l, now);
    ResolveIsOfDisputed(l, now, k, actor, outcome, notes, refund);
    var text := Strip(notes);
    if refund { RefundForDispute(l, k, actor, notes); }
    var repaid := if refund then Settlement.MarkRefunded(l, actor, Settlement.RefundReason(k, text)).value else l;
    MovesFollowTheTable(repaid, Closed, Some(actor), DisputeSettled(k));
    var closed := Lifecycle.Transition(repaid, Closed, Some(actor), DisputeSettled(k)).value;
    MovesFollowTheTable(closed, Settled, Some(actor), RestoredAfter(k));
    var moved := Entered(Closed, Some(actor), DisputeSettled(k));
    var resolved := DisputeResolved(actor, k, outcome.value, refund, Settlement.Shortened(text));
    assert repaid.audit + [moved] + [resolved] == repaid.audit + [moved, resolved];
    assert l.audit + [] == l.audit;
    assert closed.statusLog + [] == closed.statusLog;
  }
}
