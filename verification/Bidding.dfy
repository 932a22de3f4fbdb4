/** The bidding engine: queries over the bid list, and placing, invalidating and closing. */
module Bidding {
  import opened Basics
  import opened Records
  import opened Amounts
  import Lifecycle

  datatype Profile = Profile(verified: bool, active: bool, userActive: bool) {
    predicate IsEligible() { verified && active && userActive }
  }

  /** The caller of the bidding service as it stands at the moment of the call. */
  datatype Account = Account(user: User, hasBidderRole: bool, profile: Option<Profile>)

  // ---- Queries ----

  /** The order `-amount, sequence_no`: higher first, the earlier of two equal amounts first. */
  predicate EarlierHigher(a: Bid, b: Bid) {
    a.amount > b.amount || (a.amount == b.amount && a.seqNo < b.seqNo)
  }

  /** The order `-amount, -sequence_no`: higher first, the later of two equal amounts first. */
  predicate LaterHigher(a: Bid, b: Bid) {
    a.amount > b.amount || (a.amount == b.amount && a.seqNo > b.seqNo)
  }

  /** Position of the first accepted bid in the order `-amount, sequence_no`, as the closing query takes it. */
  function ClosingLeader(bids: seq<Bid>): (r: Option<nat>)
    ensures r.None? <==> forall i :: 0 <= i < |bids| ==> !bids[i].status.Accepted?
    ensures r.Some? ==> r.value < |bids| && bids[r.value].status.Accepted?
    ensures r.Some? ==> forall i :: 0 <= i < |bids| && bids[i].status.Accepted? ==>
                                      !EarlierHigher(bids[i], bids[r.value])
    ensures r.Some? ==> forall i :: 0 <= i < |bids| && bids[i].status.Accepted? ==>
                                      bids[i].amount < bids[r.value].amount ||
                                      (bids[i].amount == bids[r.value].amount && bids[r.value].seqNo <= bids[i].seqNo)
  {
    if bids == [] then None
    else
        var n := |bids| - 1;
        var p := ClosingLeader(bids[..n]);
        assert forall i :: 0 <= i < n ==> bids[..n][i] == bids[i];
        if bids[n].status.Accepted? && (p.None? || EarlierHigher(bids[n], bids[p.value])) then Some(n) else p
  }

  /**
   * Position of the first accepted bid other than `excluded` in the order `-amount, -sequence_no`, as
   * the outbid notice takes it.
   */
  function OutbidLeader(bids: seq<Bid>, excluded: nat): (r: Option<nat>)
    ensures r.None? <==> forall i :: 0 <= i < |bids| && i != excluded ==> !bids[i].status.Accepted?
    ensures r.Some? ==> r.value < |bids| && r.value != excluded && bids[r.value].status.Accepted?
    ensures r.Some? ==> forall i :: 0 <= i < |bids| && i != excluded && bids[i].status.Accepted? ==>
                                      !LaterHigher(bids[i], bids[r.value])
    ensures r.Some? ==> forall i :: 0 <= i < |bids| && i != excluded && bids[i].status.Accepted? ==>
                                      bids[i].amount < bids[r.value].amount ||
                                      (bids[i].amount == bids[r.value].amount && bids[i].seqNo <= bids[r.value].seqNo)
  {
    if bids == [] then None
    else
        var n := |bids| - 1;
        var p := OutbidLeader(bids[..n], excluded);
        assert forall i :: 0 <= i < n ==> bids[..n][i] == bids[i];
        if n != excluded && bids[n].status.Accepted? && (p.None? || LaterHigher(bids[n], bids[p.value])) then Some(n)
        else p
  }

  /** The amount of the closing leader: what the cached highest bid is recomputed from. */
  function BestAmount(bids: seq<Bid>): Option<Cents> {
    var leader := ClosingLeader(bids);
    if leader.None? then None else Some(bids[leader.value].amount)
  }

  function HighestSeqNo(bids: seq<Bid>): (r: nat)
    ensures forall i :: 0 <= i < |bids| ==> bids[i].seqNo <= r
    ensures bids == [] ==> r == 0
    ensures bids != [] ==> exists i :: 0 <= i < |bids| && bids[i].seqNo == r
  {
    if bids == [] then 0
    else
        var n := |bids| - 1;
        var p := HighestSeqNo(bids[..n]);
        assert forall i :: 0 <= i < n ==> bids[..n][i] == bids[i];
        if n > 0 && p >= bids[n].seqNo then p else bids[n].seqNo
  }

  // ---- Services ----

  function MinimumPermitted(l: Lot): Cents {
    if l.highest.Some? then l.highest.value + l.terms.minIncrement else l.terms.startingPrice
  }

  /** The checks of a bid, in order; what is left is the amount in cents. */
  function CheckBid(l: Lot, now: Time, account: Account, amount: Amount): Result<Cents, Refusal> {
    var cents :- ToCents(amount);
    if l.status != Live || !(l.startTime <= now < l.endTime) then Err(NotOpen)
    else if account.profile.None? then Err(NotABidder)
    else if !account.profile.value.IsEligible() then Err(NotEligible)
    else if account.user == l.seller then Err(OwnAuction)
    else if cents < MinimumPermitted(l) then Err(BelowMinimum(MinimumPermitted(l)))
    else Ok(cents)
  }

  /** Extensions are on and the bid arrives inside the final window. */
  predicate PushesEnd(l: Lot, now: Time) {
    l.terms.Window() != 0 && l.endTime - now <= l.terms.Window()
  }

  /** The rows written for a bid that passed its checks. */
  function RecordBid(l: Lot, now: Time, user: User, cents: Cents): Lot {
    var seqNo := HighestSeqNo(l.bids) + 1;
    var newEnd := if PushesEnd(l, now) then now + l.terms.Window() else l.endTime;
    l.(
      bids := l.bids + [Bid(user, cents, seqNo, now, Accepted)],
      highest := Some(cents),
      endTime := newEnd,
      audit := l.audit
               + (if PushesEnd(l, now) then [Extended(user, newEnd)] else [])
               + [BidPlaced(user, seqNo, cents)])
  }

  function PlaceBid(l: Lot, now: Time, account: Account, amount: Amount): Reply {
    var cents :- CheckBid(l, now, account, amount);
    Ok(RecordBid(l, now, account.user, cents))
  }

  function MarkInvalid(bids: seq<Bid>, k: nat, reason: string, actor: User, now: Time): seq<Bid>
    requires k < |bids|
  {
    bids[k := bids[k].(status := Invalidated(reason, actor, now))]
  }

  /** `k` is the position of the bid in the auction's list; its sequence number is `k + 1`. */
  function InvalidateBid(l: Lot, now: Time, k: nat, actor: User, reason: string): Reply {
    if k >= |l.bids| then Err(NoSuchBid)
    else if reason == "" then Err(ReasonRequired)
    else
      var bids := MarkInvalid(l.bids, k, reason, actor, now);
      Ok(l.(
        bids := bids,
        highest := BestAmount(bids),
        audit := l.audit + [BidInvalidated(actor, l.bids[k].seqNo, reason)]))
  }

  datatype Verdict = Verdict(winner: Option<User>, finalPrice: Option<Cents>, reserveMet: Option<bool>)

  /** Winner, price and reserve flag as the closing rules decide them. */
  function Decide(l: Lot): Verdict {
    var leader := ClosingLeader(l.bids);
    if leader.None? then Verdict(None, None, None)
    else
        var bid := l.bids[leader.value];
        if l.terms.reserve.None? || bid.amount >= l.terms.reserve.value
        then Verdict(Some(bid.bidder), Some(bid.amount), Some(true))
        else Verdict(None, None, Some(false))
  }

  function CreatePendingPayment(l: Lot, now: Time): Lot {
    if l.payment.Some? || l.winner.None? || l.finalPrice.None? then l
    else l.(
      payment := Some(Payment(l.finalPrice.value, Pending, "", "", "", None, None, now)),
      audit := l.audit + [PaymentPending])
  }

  function Award(l: Lot, v: Verdict, now: Time, actor: Option<User>): Lot {
    if v.winner.None? || v.finalPrice.None? then l
    else
      CreatePendingPayment(
        l.(audit := l.audit + [WinnerDetermined(actor, v.winner.value, v.finalPrice.value)]), now)
  }

  function CloseAuction(l: Lot, now: Time, actor: Option<User>, reason: Reason): Reply {
    if l.status != Live then Err(NotLive)
    else
      var v := Decide(l);
      var decided := l.(winner := v.winner, finalPrice := v.finalPrice, reserveMet := v.reserveMet);
      var closed :- Lifecycle.Transition(decided, Closed, actor, reason);
      Ok(Award(closed, v, now, actor))
  }

  /** Who is told about having been overtaken by the bid at position `k`. */
  function OutbidRecipient(bids: seq<Bid>, k: nat): Option<User>
    requires k < |bids|
  {
    var previous := OutbidLeader(bids, k);
    if previous.None? || bids[previous.value].bidder == bids[k].bidder then None
    else Some(bids[previous.value].bidder)
  }
}
