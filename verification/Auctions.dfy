/**
 * The service layer as it runs: an auction object whose fields the services assign one after another.
 * Each method is proved to do exactly what the function of the same name says of the stored lot.
 */
module Auctions {
  import opened Basics
  import opened Records
  import opened Amounts
  import Lifecycle
  import Bidding
  import Scheduling
  import Settlement
  import opened Engine
  import opened Invariants
  import BidLaws
  import Pages

  /** A call is answered as `reply` says: carried out, or refused with nothing changed. */
  ghost predicate Obeys(before: Lot, after: Lot, refused: Option<Refusal>, reply: Reply) {
    match reply
    case Ok(l) => refused.None? && after == l
    case Err(why) => refused == Some(why) && after == before
  }

  lemma Serves(before: Lot, after: Lot, refused: Option<Refusal>, now: Time, op: Op)
    requires Reachable(before, now) && Obeys(before, after, refused, Apply(before, now, op))
    ensures Reachable(after, now)
  {
    hide Reachable;
    hide Apply;
    ReachableStep(before, now, now, op);
  }

  lemma OnlyLiveCloses(l: Lot, now: Time, actor: Option<User>, reason: Reason)
    requires l.status != Live
    ensures Bidding.CloseAuction(l, now, actor, reason) == Err(NotLive)
  {
  }

  lemma CacheIsBest(l: Lot, now: Time)
    requires Reachable(l, now)
    ensures l.highest == Bidding.BestAmount(l.bids)
  {
    hide Reachable;
    ReachableInv(l, now);
  }

  /** What a caller may rely on who places a bid on a reachable lot. */
  lemma PlacingOutcome(l: Lot, now: Time, account: Bidding.Account, amount: Amount)
    requires Reachable(l, now)
    ensures var r := Bidding.PlaceBid(l, now, account, amount);
            && (r.Ok? <==> Pages.MayBid(l, now, account) && Pages.Offers(amount, Pages.DisplayedMinimum(l)))
            && (r.Ok? ==>
                  var n := |l.bids|;
                  var before := BidLaws.LastAccepted(l.bids);
                  && |r.value.bids| == n + 1 && r.value.bids[..n] == l.bids && r.value.bids[n].bidder == account.user
                  && BidLaws.LastAccepted(r.value.bids) == Some(n) && r.value.highest == Some(r.value.bids[n].amount)
                  && Bidding.OutbidRecipient(r.value.bids, n)
                     == if before.None? || l.bids[before.value].bidder == account.user then None
                        else Some(l.bids[before.value].bidder))
  {
    hide Reachable;
    hide Pages.Offers;
    hide Bidding.CheckBid;
    Pages.OfferedMinimumIsExact(l, now, account, amount);
    if Bidding.PlaceBid(l, now, account, amount).Ok? {
      BidLaws.OutbidGoesToThePreviousLeader(l, now, account, amount);
    }
  }

  class Auction {
    const seller: User
    const createdAt: Time
    var category: string
    var terms: Terms
    var startTime: Time
    var endTime: Time
    var status: Status
    var highest: Option<Cents>
    var winner: Option<User>
    var finalPrice: Option<Cents>
    var reserveMet: Option<bool>
    var bids: seq<Bid>
    var payment: Option<Payment>
    var disputes: seq<Dispute>
    var statusLog: seq<StatusRow>
    var audit: seq<AuditEvent>

    function Snapshot(): Lot
      reads this
    {
      Lot(seller, category, createdAt, terms, startTime, endTime, status, highest, winner, finalPrice, reserveMet,
          bids, payment, disputes, statusLog, audit)
    }

    /** The rows are such as service calls lead to by `now`, so every law of reachable lots holds of them. */
    ghost predicate Valid(now: Time)
      reads this
    {
      Reachable(Snapshot(), now)
    }

    constructor (seller: User, category: string, createdAt: Time, terms: Terms, start: Time, end: Time)
      ensures status == Draft && bids == [] && disputes == [] && statusLog == [] && audit == []
      ensures highest.None? && winner.None? && finalPrice.None? && reserveMet.None? && payment.None?
      ensures this.terms == terms && startTime == start && endTime == end
      ensures Snapshot() == NewListing(seller, category, createdAt, terms, start, end)
      ensures ValidListing(terms, start, end) ==> forall now :: Valid(now)
    {
      this.seller, this.category, this.createdAt := seller, category, createdAt;
      this.terms, startTime, endTime := terms, start, end;
      status := Draft;
      highest, winner, finalPrice, reserveMet := None, None, None, None;
      bids, payment, disputes, statusLog, audit := [], None, [], [], [];
      new;
      hide Reachable;
      if ValidListing(terms, start, end) {
        forall now ensures Valid(now) { ReachableFromNew(Snapshot(), now); }
      }
    }

    // ---- Lifecycle ----

    method Transition(to: Status, actor: Option<User>, reason: Reason) returns (refused: Option<Refusal>)
      modifies this
      ensures Obeys(old(Snapshot()), Snapshot(), refused,
                    Lifecycle.Transition(old(Snapshot()), to, actor, reason))
    {
      var from := status;
      if to !in Lifecycle.Allowed(from) {
        return Some(InvalidTransition(from, to));
      }
      if to == Status.Rejected && reason == Given("") {
        return Some(RejectionNeedsReason);
      }
      status := to;
      statusLog := statusLog + [StatusRow(from, to, actor, reason)];
      if to in Lifecycle.AUDITED {
        audit := audit + [Entered(to, actor, reason)];
      }
      return None;
    }

    method EditDraft(ghost now: Time, category: string, terms: Terms, start: Time, end: Time)
      returns (refused: Option<Refusal>)
      requires Valid(now)
      modifies this
      ensures Valid(now)
      ensures Obeys(old(Snapshot()), Snapshot(), refused,
                    Lifecycle.EditDraft(old(Snapshot()), category, terms, start, end))
    {
      hide Reachable;
      if status != Draft {
        return Some(NotDraft);
      }
      if !ValidListing(terms, start, end) {
        return Some(BadTerms);
      }
      this.category, this.terms, startTime, endTime := category, terms, start, end;
      refused := None;
      Serves(old(Snapshot()), Snapshot(), refused, now, Op.EditDraft(category, terms, start, end));
    }

    method Submit(ghost now: Time, actor: User) returns (refused: Option<Refusal>)
      requires Valid(now)
      modifies this
      ensures Valid(now)
      ensures Obeys(old(Snapshot()), Snapshot(), refused, Lifecycle.Submit(old(Snapshot()), actor))
    {
      hide Reachable;
      refused := Transition(Submitted, Some(actor), Given(""));
      Serves(old(Snapshot()), Snapshot(), refused, now, Op.Submit(actor));
    }

    method Approve(ghost now: Time, actor: User, reason: string, lost: bool) returns (refused: Option<Refusal>)
      requires Valid(now)
      modifies this
      ensures Valid(now)
      ensures Obeys(old(Snapshot()), Snapshot(), refused, Lifecycle.Approve(old(Snapshot()), actor, reason, lost))
    {
      hide Reachable;
      refused := Transition(Approved, Some(actor), Given(reason));
      if refused.None? && !lost {
        refused := Transition(Scheduled, Some(actor), AutoScheduled);
      }
      Serves(old(Snapshot()), Snapshot(), refused, now, Op.Approve(actor, reason, lost));
    }

    method Reject(ghost now: Time, actor: User, reason: string) returns (refused: Option<Refusal>)
      requires Valid(now)
      modifies this
      ensures Valid(now)
      ensures Obeys(old(Snapshot()), Snapshot(), refused, Lifecycle.Reject(old(Snapshot()), actor, reason))
    {
      hide Reachable;
      refused := Transition(Status.Rejected, Some(actor), Given(reason));
      Serves(old(Snapshot()), Snapshot(), refused, now, Op.Reject(actor, reason));
    }

    method Cancel(ghost now: Time, actor: User, reason: string) returns (refused: Option<Refusal>)
      requires Valid(now)
      modifies this
      ensures Valid(now)
      ensures Obeys(old(Snapshot()), Snapshot(), refused, Lifecycle.Cancel(old(Snapshot()), actor, reason))
    {
      hide Reachable;
      refused := Transition(Cancelled, Some(actor), Given(reason));
      Serves(old(Snapshot()), Snapshot(), refused, now, Op.Cancel(actor, reason));
    }

    method ActivateIfDue(now: Time, actor: Option<User>) returns (refused: Option<Refusal>)
      requires Valid(now)
      modifies this
      ensures Valid(now)
      ensures Obeys(old(Snapshot()), Snapshot(), refused, Lifecycle.ActivateIfDue(old(Snapshot()), now, actor))
      ensures refused.None?
      ensures status == if old(status) == Scheduled && startTime <= now then Live else old(status)
    {
      hide Reachable;
      refused := None;
      if status == Scheduled && startTime <= now {
        refused := Transition(Live, actor, AutoActivated);
      }
      Serves(old(Snapshot()), Snapshot(), refused, now, Op.Activate(actor));
    }

    // ---- Bidding ----

    /**
     * Lets a bid through iff bidding is open to the user and the amount is a number, written with at most
     * two decimals, from the displayed minimum up to the limit; what comes out is that number in cents.
     */
    method CheckBid(now: Time, account: Bidding.Account, amount: Amount) returns (r: Result<Cents, Refusal>)
      ensures r == Bidding.CheckBid(Snapshot(), now, account, amount)
      ensures r.Ok? <==> Pages.MayBid(Snapshot(), now, account) &&
                         Pages.Offers(amount, Pages.DisplayedMinimum(Snapshot()))
      ensures r.Ok? ==> r.value * Denotes(amount).value.1 == 100 * Denotes(amount).value.0
    {
      hide Pages.Offers;
      hide Denotes;
      hide ToCents;
      ToCentsIsExact(amount);
      Pages.OffersInCents(amount, Pages.DisplayedMinimum(Snapshot()));
      var checked := ToCents(amount);
      if checked.Err? {
        return checked;
      }
      if status != Live || !(startTime <= now < endTime) {
        return Err(NotOpen);
      }
      if account.profile.None? {
        return Err(NotABidder);
      }
      if !account.profile.value.IsEligible() {
        return Err(NotEligible);
      }
      if account.user == seller {
        return Err(OwnAuction);
      }
      var minimum := terms.startingPrice;
      if highest.Some? {
        minimum := highest.value + terms.minIncrement;
      }
      if checked.value < minimum {
        return Err(BelowMinimum(minimum));
      }
      return checked;
    }

    method RecordBid(now: Time, user: User, cents: Cents)
      modifies this
      ensures Snapshot() == Bidding.RecordBid(old(Snapshot()), now, user, cents)
    {
      var seqNo := Bidding.HighestSeqNo(bids) + 1;
      bids := bids + [Bid(user, cents, seqNo, now, Accepted)];
      highest := Some(cents);
      if terms.extensionMinutes != 0 {
        var window := terms.Window();
        if endTime - now <= window {
          endTime := now + window;
          audit := audit + [Extended(user, endTime)];
        }
      }
      audit := audit + [BidPlaced(user, seqNo, cents)];
    }

    /** What placing a bid does once the row is locked. */
    method PlaceLocked(now: Time, account: Bidding.Account, amount: Amount)
      returns (refused: Option<Refusal>, notified: Option<User>)
      modifies this
      ensures Obeys(old(Snapshot()), Snapshot(), refused, Bidding.PlaceBid(old(Snapshot()), now, account, amount))
      ensures refused.Some? ==> notified.None?
      ensures refused.None? ==> bids != [] && notified == Bidding.OutbidRecipient(bids, |bids| - 1)
    {
      notified := None;
      var checked := CheckBid(now, account, amount);
      if checked.Err? {
        return Some(checked.why), None;
      }
      RecordBid(now, account.user, checked.value);
      refused := None;
      var previous := Bidding.OutbidLeader(bids, |bids| - 1);
      if previous.Some? && bids[previous.value].bidder != bids[|bids| - 1].bidder {
        notified := Some(bids[previous.value].bidder);
      }
    }

    /**
     * Accepts exactly the bids that the page's displayed minimum promises. An accepted bid is the new leader
     * and its amount the cached highest; `notified`, who hears of having been outbid, is the leader before it,
     * unless there was none or it is the same bidder.
     */
    method PlaceBid(now: Time, account: Bidding.Account, amount: Amount)
      returns (refused: Option<Refusal>, notified: Option<User>)
      requires Valid(now)
      modifies this
      ensures Valid(now)
      ensures Obeys(old(Snapshot()), Snapshot(), refused, Bidding.PlaceBid(old(Snapshot()), now, account, amount))
      ensures highest == Bidding.BestAmount(bids)
      ensures refused.None? <==> Pages.MayBid(old(Snapshot()), now, account) &&
                                 Pages.Offers(amount, Pages.DisplayedMinimum(old(Snapshot())))
      ensures refused.Some? ==> notified.None?
      ensures refused.None? ==>
                var n := |old(bids)|;
                var before := BidLaws.LastAccepted(old(bids));
                && |bids| == n + 1 && bids[..n] == old(bids) && bids[n].bidder == account.user
                && BidLaws.LastAccepted(bids) == Some(n) && highest == Some(bids[n].amount)
                && notified == if before.None? || old(bids)[before.value].bidder == account.user then None
                               else Some(old(bids)[before.value].bidder)
    {
      hide Reachable;
      hide Pages.Offers;
      hide Pages.MayBid;
      hide Bidding.PlaceBid;
      hide Bidding.BestAmount;
      PlacingOutcome(Snapshot(), now, account, amount);
      refused, notified := PlaceLocked(now, account, amount);
      Serves(old(Snapshot()), Snapshot(), refused, now, Op.PlaceBid(account, amount));
      CacheIsBest(Snapshot(), now);
    }

    /** Leaves every other bid as it is; the cache falls to the accepted bid before it if it was the leader. */
    method InvalidateBid(now: Time, k: nat, actor: User, reason: string) returns (refused: Option<Refusal>)
      requires Valid(now)
      modifies this
      ensures Valid(now)
      ensures Obeys(old(Snapshot()), Snapshot(), refused,
                    Bidding.InvalidateBid(old(Snapshot()), now, k, actor, reason))
      ensures highest == Bidding.BestAmount(bids)
      ensures refused.None? <==> k < |old(bids)| && reason != ""
      ensures refused.None? ==>
                var next := BidLaws.LastAccepted(old(bids)[..k]);
                && bids == old(bids)[k := old(bids)[k].(status := Invalidated(reason, actor, now))]
                && highest == (if BidLaws.LastAccepted(old(bids)) != Some(k) then old(highest)
                               else if next.None? then None else Some(old(bids)[next.value].amount))
    {
      hide Reachable;
      if k < |bids| { BidLaws.InvalidationOutcome(Snapshot(), now, k, actor, reason); }
      CacheIsBest(Snapshot(), now);
      if k >= |bids| {
        return Some(NoSuchBid);
      }
      if reason == "" {
        return Some(ReasonRequired);
      }
      bids := bids[k := bids[k].(status := Invalidated(reason, actor, now))];
      var leader := Bidding.ClosingLeader(bids);
      highest := None;
      if leader.Some? {
        highest := Some(bids[leader.value].amount);
      }
      audit := audit + [BidInvalidated(actor, bids[k].seqNo, reason)];
      refused := None;
      Serves(old(Snapshot()), Snapshot(), refused, now, Op.InvalidateBid(k, actor, reason));
    }

    method CreatePendingPayment(now: Time)
      modifies this
      ensures Snapshot() == Bidding.CreatePendingPayment(old(Snapshot()), now)
    {
      if payment.Some? {
        return;
      }
      if winner.None? || finalPrice.None? {
        return;
      }
      payment := Some(Payment(finalPrice.value, Pending, "", "", "", None, None, now));
      audit := audit + [PaymentPending];
    }

    method DetermineWinner() returns (v: Bidding.Verdict)
      ensures v == Bidding.Decide(Snapshot())
    {
      v := Bidding.Verdict(None, None, None);
      var leader := Bidding.ClosingLeader(bids);
      if leader.Some? {
        var top := bids[leader.value];
        var met := true;
        if terms.reserve.Some? {
          met := top.amount >= terms.reserve.value;
        }
        v := v.(reserveMet := Some(met));
        if met {
          v := v.(winner := Some(top.bidder), finalPrice := Some(top.amount));
        }
      }
    }

    method Award(v: Bidding.Verdict, now: Time, actor: Option<User>)
      modifies this
      ensures Snapshot() == Bidding.Award(old(Snapshot()), v, now, actor)
    {
      hide Bidding.CreatePendingPayment;
      if v.winner.Some? && v.finalPrice.Some? {
        audit := audit + [WinnerDetermined(actor, v.winner.value, v.finalPrice.value)];
        CreatePendingPayment(now);
      }
    }

    /** What closing does once the row is locked. */
    method CloseLocked(now: Time, actor: Option<User>, reason: Reason) returns (refused: Option<Refusal>)
      modifies this
      ensures Obeys(old(Snapshot()), Snapshot(), refused,
                    Bidding.CloseAuction(old(Snapshot()), now, actor, reason))
    {
      hide Bidding.Decide;
      hide Bidding.Award;
      if status != Live {
        return Some(NotLive);
      }
      var v := DetermineWinner();
      winner, finalPrice, reserveMet := v.winner, v.finalPrice, v.reserveMet;
      assert Lifecycle.Transition(Snapshot(), Closed, actor, reason).Ok?;
      refused := Transition(Closed, actor, reason);
      Award(v, now, actor);
    }

    /**
     * Closes a live auction and any other not at all: the last accepted bid wins at the cached highest price
     * if there is one and it meets the reserve, and then a payment of that price is pending.
     */
    method CloseAuction(now: Time, actor: Option<User>, reason: Reason) returns (refused: Option<Refusal>)
      requires Valid(now)
      modifies this
      ensures Valid(now)
      ensures Obeys(old(Snapshot()), Snapshot(), refused,
                    Bidding.CloseAuction(old(Snapshot()), now, actor, reason))
      ensures refused.None? <==> old(status) == Live
      ensures refused.None? ==>
                var last := BidLaws.LastAccepted(old(bids));
                var sells := BidLaws.WillSell(old(Snapshot()));
                && status == Closed && bids == old(bids) && highest == old(highest)
                && reserveMet == (if last.None? then None else Some(sells))
                && winner == (if sells then Some(bids[last.value].bidder) else None)
                && finalPrice == (if sells then highest else None)
                && (payment.Some? <==> sells)
                && (sells ==> highest.Some? && payment.value.amount == highest.value && payment.value.status == Pending)
    {
      hide Reachable;
      hide Bidding.CloseAuction;
      hide BidLaws.WillSell;
      if status == Live {
        BidLaws.ClosingOutcome(Snapshot(), now, actor, reason);
      } else {
        OnlyLiveCloses(Snapshot(), now, actor, reason);
      }
      refused := CloseLocked(now, actor, reason);
      Serves(old(Snapshot()), Snapshot(), refused, now, Op.CloseAuction(actor, reason));
    }

    // ---- Scheduling ----

    method StartNow(now: Time, actor: User) returns (refused: Option<Refusal>)
      requires Valid(now)
      modifies this
      ensures Valid(now)
      ensures Obeys(old(Snapshot()), Snapshot(), refused, Scheduling.StartNow(old(Snapshot()), now, actor))
    {
      hide Reachable;
      if status != Scheduled {
        return Some(NotScheduled);
      }
      if endTime <= now {
        return Some(EndPassed);
      }
      if startTime > now {
        var before := startTime;
        startTime := now;
        audit := audit + [StartedEarly(actor, before, now)];
      }
      refused := Transition(Live, Some(actor), StartedByStaff);
      Serves(old(Snapshot()), Snapshot(), refused, now, Op.StartNow(actor));
    }

    method Reschedule(now: Time, actor: User, reason: string, start: Option<Time>, end: Option<Time>)
      returns (refused: Option<Refusal>)
      requires Valid(now)
      modifies this
      ensures Valid(now)
      ensures Obeys(old(Snapshot()), Snapshot(), refused,
                    Scheduling.Reschedule(old(Snapshot()), now, actor, reason, start, end))
    {
      hide Reachable;
      var why := Strip(reason);
      if why == "" {
        return Some(ReasonRequired);
      }
      if status !in {Scheduled, Live, Paused} {
        return Some(CannotReschedule);
      }
      if start.None? && end.None? {
        return Some(NothingToChange);
      }
      if start.Some? && status != Scheduled {
        return Some(StartFrozen);
      }
      var newStart := if start.Some? then start.value else startTime;
      var newEnd := if end.Some? then end.value else endTime;
      if newStart >= newEnd {
        return Some(StartNotBeforeEnd);
      }
      if newEnd <= now {
        return Some(EndNotFuture);
      }
      if status == Scheduled && start.Some? && newStart <= now {
        return Some(StartNotFuture);
      }
      if status == Live && end.Some? && end.value <= endTime {
        return Some(OnlyExtension);
      }
      var oldStart, oldEnd := startTime, endTime;
      startTime, endTime := newStart, newEnd;
      audit := audit + [Rescheduled(actor, why, oldStart, newStart, oldEnd, newEnd)];
      refused := None;
      Serves(old(Snapshot()), Snapshot(), refused, now, Op.Reschedule(actor, reason, start, end));
    }

    method Pause(ghost now: Time, actor: User, reason: string) returns (refused: Option<Refusal>)
      requires Valid(now)
      modifies this
      ensures Valid(now)
      ensures Obeys(old(Snapshot()), Snapshot(), refused, Scheduling.Pause(old(Snapshot()), actor, reason))
    {
      hide Reachable;
      var why := Strip(reason);
      if why == "" {
        return Some(ReasonRequired);
      }
      refused := Transition(Paused, Some(actor), Given(why));
      if refused.None? {
        audit := audit + [PausedBy(actor, why)];
      }
      Serves(old(Snapshot()), Snapshot(), refused, now, Op.Pause(actor, reason));
    }

    method Resume(now: Time, actor: User) returns (refused: Option<Refusal>)
      requires Valid(now)
      modifies this
      ensures Valid(now)
      ensures Obeys(old(Snapshot()), Snapshot(), refused, Scheduling.Resume(old(Snapshot()), now, actor))
    {
      hide Reachable;
      if status != Paused {
        return Some(NotPaused);
      }
      if endTime <= now {
        return Some(EndPassed);
      }
      refused := Transition(Live, Some(actor), ResumedByStaff);
      audit := audit + [ResumedBy(actor)];
      Serves(old(Snapshot()), Snapshot(), refused, now, Op.Resume(actor));
    }

    method CancelAuction(ghost now: Time, actor: User, reason: string) returns (refused: Option<Refusal>)
      requires Valid(now)
      modifies this
      ensures Valid(now)
      ensures Obeys(old(Snapshot()), Snapshot(), refused, Scheduling.CancelAuction(old(Snapshot()), actor, reason))
    {
      hide Reachable;
      var why := Strip(reason);
      if why == "" {
        return Some(ReasonRequired);
      }
      if status !in {Scheduled, Live, Paused} {
        return Some(CannotCancelHere);
      }
      refused := Cancel(now, actor, why);
    }

    method EndNow(now: Time, actor: User, reason: string) returns (refused: Option<Refusal>)
      requires Valid(now)
      modifies this
      ensures Valid(now)
      ensures Obeys(old(Snapshot()), Snapshot(), refused, Scheduling.EndNow(old(Snapshot()), now, actor, reason))
    {
      hide Reachable;
      var why := Strip(reason);
      if why == "" {
        return Some(ReasonRequired);
      }
      if status != Live {
        return Some(NotLive);
      }
      refused := CloseAuction(now, Some(actor), EndedEarly(why));
    }

    // ---- Payments ----

    method MarkPaid(now: Time, actor: User, payMethod: string, reference: string, notes: string)
      returns (refused: Option<Refusal>)
      requires Valid(now)
      modifies this
      ensures Valid(now)
      ensures Obeys(old(Snapshot()), Snapshot(), refused,
                    Settlement.MarkPaid(old(Snapshot()), now, actor, payMethod, reference, notes))
    {
      hide Reachable;
      if payment.None? {
        return Some(NoPayment);
      }
      if payment.value.status != Pending {
        return Some(PaymentNotPending);
      }
      payment := Some(payment.value.(
        status := Paid, payMethod := payMethod, reference := reference, notes := notes,
        recordedBy := Some(actor), paidAt := Some(now)));
      audit := audit + [PaymentReceived(actor, payMethod, reference)];
      refused := None;
      if status == Closed {
        refused := Transition(Settled, Some(actor), PaymentRecorded);
      }
      Serves(old(Snapshot()), Snapshot(), refused, now, Op.MarkPaid(actor, payMethod, reference, notes));
    }

    method MarkFailed(ghost now: Time, actor: User, reason: string, lost: bool) returns (refused: Option<Refusal>)
      requires Valid(now)
      modifies this
      ensures Valid(now)
      ensures Obeys(old(Snapshot()), Snapshot(), refused, Settlement.MarkFailed(old(Snapshot()), actor, reason, lost))
    {
      hide Reachable;
      if payment.None? {
        return Some(NoPayment);
      }
      if reason == "" {
        return Some(ReasonRequired);
      }
      if payment.value.status != Pending {
        return Some(PaymentNotPending);
      }
      payment := Some(payment.value.(status := Failed, notes := reason, recordedBy := Some(actor)));
      if !lost {
        audit := audit + [PaymentFailed(actor, reason)];
      }
      refused := None;
      Serves(old(Snapshot()), Snapshot(), refused, now, Op.MarkFailed(actor, reason, lost));
    }

    method MarkRefunded(actor: User, reason: string) returns (refused: Option<Refusal>)
      modifies this
      ensures Obeys(old(Snapshot()), Snapshot(), refused,
                    Settlement.MarkRefunded(old(Snapshot()), actor, reason))
    {
      if payment.None? {
        return Some(NoPayment);
      }
      if reason == "" {
        return Some(ReasonRequired);
      }
      if payment.value.status != Paid {
        return Some(PaymentNotPaid);
      }
      payment := Some(payment.value.(
        status := Refunded, notes := Strip(payment.value.notes + "\nRefunded: " + reason),
        recordedBy := Some(actor)));
      audit := audit + [PaymentRefunded(actor, reason)];
      return None;
    }

    // ---- Disputes ----

    /** Seller, winner and everyone with a bid on record. */
    method Participants() returns (users: set<User>)
      ensures forall u :: u in users <==>
                u == seller || winner == Some(u) || exists i :: 0 <= i < |bids| && bids[i].bidder == u
      ensures forall u :: u in users <==> Settlement.Participant(Snapshot(), u)
    {
      users := {seller};
      if winner.Some? {
        users := users + {winner.value};
      }
      for i := 0 to |bids|
        invariant forall u :: u in users <==>
                    u == seller || winner == Some(u) || exists j :: 0 <= j < i && bids[j].bidder == u
      {
        users := users + {bids[i].bidder};
      }
    }

    /** What opening a dispute does once the auction is locked. */
    method OpenLocked(now: Time, raisedBy: User, category: Option<DisputeCategory>, description: string)
      returns (refused: Option<Refusal>)
      modifies this
      ensures Obeys(old(Snapshot()), Snapshot(), refused,
                    Settlement.OpenDispute(old(Snapshot()), now, raisedBy, category, description))
    {
      hide Strip;
      var text := Strip(description);
      if text == "" {
        return Some(DescriptionRequired);
      }
      if category.None? {
        return Some(BadCategory);
      }
      if status !in Settlement.DISPUTABLE {
        return Some(NotDisputable);
      }
      var users := Participants();
      if raisedBy !in users {
        return Some(NotAParticipant);
      }
      if Settlement.HasActiveDispute(Snapshot()) {
        return Some(AlreadyDisputed);
      }
      var before, index := status, |disputes|;
      disputes := disputes + [Dispute(raisedBy, category.value, text, Open, before, None, now)];
      refused := Transition(Disputed, Some(raisedBy), DisputeRaised(index));
      audit := audit + [DisputeCreated(raisedBy, index, category.value, Settlement.Shortened(text))];
    }

    method OpenDispute(now: Time, raisedBy: User, category: Option<DisputeCategory>, description: string)
      returns (refused: Option<Refusal>)
      requires Valid(now)
      modifies this
      ensures Valid(now)
      ensures Obeys(old(Snapshot()), Snapshot(), refused,
                    Settlement.OpenDispute(old(Snapshot()), now, raisedBy, category, description))
    {
      hide Reachable;
      hide Settlement.OpenDispute;
      refused := OpenLocked(now, raisedBy, category, description);
      Serves(old(Snapshot()), Snapshot(), refused, now, Op.OpenDispute(raisedBy, category, description));
    }

    method TakeForReview(ghost now: Time, k: nat, actor: User) returns (refused: Option<Refusal>)
      requires Valid(now)
      modifies this
      ensures Valid(now)
      ensures Obeys(old(Snapshot()), Snapshot(), refused, Settlement.TakeForReview(old(Snapshot()), k, actor))
    {
      hide Reachable;
      if k >= |disputes| {
        return Some(NoSuchDispute);
      }
      if disputes[k].status != Open {
        return Some(DisputeNotOpen);
      }
      disputes := disputes[k := disputes[k].(status := UnderReview, assignedTo := Some(actor))];
      refused := None;
      Serves(old(Snapshot()), Snapshot(), refused, now, Op.TakeForReview(k, actor));
    }

    method MarkResolved(now: Time, k: nat, actor: User, outcome: DisputeOutcome, text: string, refund: bool)
      requires k < |disputes|
      modifies this
      ensures Snapshot() == Settlement.MarkResolved(old(Snapshot()), now, k, actor, outcome, text, refund)
    {
      disputes := disputes[k := disputes[k].(status := Resolved(outcome, text, refund, actor, now))];
      audit := audit + [DisputeResolved(actor, k, outcome, refund, Settlement.Shortened(text))];
    }

    /**
     * What a resolution does once the dispute is locked. The refund is undone when the auction then turns
     * out not to be in dispute.
     */
    method ResolveLocked(
      now: Time, k: nat, actor: User, outcome: Option<DisputeOutcome>, notes: string, refund: bool)
      returns (refused: Option<Refusal>)
      modifies this
      ensures Obeys(old(Snapshot()), Snapshot(), refused,
                    Settlement.ResolveDispute(old(Snapshot()), now, k, actor, outcome, notes, refund))
    {
      hide Settlement.MarkResolved;
      hide Settlement.RefundReason;
      hide Strip;
      hide Settlement.Shortened;
      if k >= |disputes| {
        return Some(NoSuchDispute);
      }
      if outcome.None? {
        return Some(BadOutcome);
      }
      var text := Strip(notes);
      if text == "" {
        return Some(NotesRequired);
      }
      if !disputes[k].Active() {
        return Some(DisputeNotActive);
      }
      var savedPayment, savedAudit := payment, audit;
      if refund {
        if payment.None? || payment.value.status != Paid {
          return Some(PaymentNotPaid);
        }
        refused := MarkRefunded(actor, Settlement.RefundReason(k, text));
        if refused.Some? {
          return;
        }
      }
      refused := Transition(Closed, Some(actor), DisputeSettled(k));
      if refused.Some? {
        payment, audit := savedPayment, savedAudit;
        return;
      }
      if disputes[k].statusBefore == Settled && !refund {
        refused := Transition(Settled, Some(actor), RestoredAfter(k));
      }
      MarkResolved(now, k, actor, outcome.value, text, refund);
    }

    method ResolveDispute(
      now: Time, k: nat, actor: User, outcome: Option<DisputeOutcome>, notes: string, refund: bool)
      returns (refused: Option<Refusal>)
      requires Valid(now)
      modifies this
      ensures Valid(now)
      ensures Obeys(old(Snapshot()), Snapshot(), refused,
                    Settlement.ResolveDispute(old(Snapshot()), now, k, actor, outcome, notes, refund))
    {
      hide Reachable;
      hide Settlement.ResolveDispute;
      refused := ResolveLocked(now, k, actor, outcome, notes, refund);
      Serves(old(Snapshot()), Snapshot(), refused, now, Op.ResolveDispute(k, actor, outcome, notes, refund));
    }
  }
}
