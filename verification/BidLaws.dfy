/** The laws of bidding, over every reachable lot. */
module BidLaws {
  import opened Basics
  import opened Records
  import opened Amounts
  import Lifecycle
  import Bidding
  import opened Engine
  import opened Invariants
  import opened Histories
  import opened Examples

  // ---- Spacing and its arithmetic ----

  function AcceptedCount(bids: seq<Bid>): nat {
    if bids == [] then 0
    else
      var n := |bids| - 1;
      AcceptedCount(bids[..n]) + if bids[n].status.Accepted? then 1 else 0
  }

  function InvalidatedCount(bids: seq<Bid>): (n: nat)
    ensures AcceptedCount(bids) + n == |bids|
  {
    if bids == [] then 0
    else
      var n := |bids| - 1;
      InvalidatedCount(bids[..n]) + if bids[n].status.Accepted? then 0 else 1
  }

  lemma {:induction false} AcceptedAreCounted(bids: seq<Bid>)
    ensures AcceptedCount(bids) == |set i: nat | i < |bids| && bids[i].status.Accepted?|
  {
    var accepted := set i: nat | i < |bids| && bids[i].status.Accepted?;
    if bids == [] {
      assert accepted == {};
    } else {
      var n := |bids| - 1;
      AcceptedAreCounted(bids[..n]);
      var before := set i: nat | i < n && bids[..n][i].status.Accepted?;
      assert accepted == before + if bids[n].status.Accepted? then {n} else {};
    }
  }

  /** The last accepted bid by sequence number. */
  function LastAccepted(bids: seq<Bid>): (r: Option<nat>)
    ensures r.None? <==> forall i :: 0 <= i < |bids| ==> !bids[i].status.Accepted?
    ensures r.Some? ==> r.value < |bids| && bids[r.value].status.Accepted?
    ensures r.Some? ==> forall i :: r.value < i < |bids| ==> !bids[i].status.Accepted?
  {
    if bids == [] then None
    else
      var n := |bids| - 1;
      var p := LastAccepted(bids[..n]);
      assert forall i :: 0 <= i < n ==> bids[..n][i] == bids[i];
      if bids[n].status.Accepted? then Some(n) else p
  }

  lemma SpacedPrefix(bids: seq<Bid>, n: nat, increment: Cents)
    requires Spaced(bids, increment) && n <= |bids|
    ensures Spaced(bids[..n], increment)
  {
  }

  /**
   * On a spaced list all computations of the leader agree: the closing query, the outbid query and the
   * last accepted bid by sequence number pick the same bid, so no tie is ever broken.
   */
  lemma {:induction false} SpacedLeadersAgree(bids: seq<Bid>, increment: Cents, excluded: nat)
    requires Spaced(bids, increment) && increment > 0 && excluded >= |bids|
    ensures Bidding.ClosingLeader(bids) == LastAccepted(bids)
    ensures Bidding.OutbidLeader(bids, excluded) == LastAccepted(bids)
  {
  }

  lemma OneMore(c: int, increment: Cents)
    ensures c * increment == (c - 1) * increment + increment
  {
  }

  /** On a spaced list the leader stands at least one increment higher for every accepted bid below it. */
  lemma {:induction false} SpacedClimb(bids: seq<Bid>, increment: Cents, floor: Cents)
    requires Spaced(bids, increment) && increment > 0
    requires forall i :: 0 <= i < |bids| ==> floor <= bids[i].amount
    ensures AcceptedCount(bids) == 0 <==> LastAccepted(bids).None?
    ensures LastAccepted(bids).Some? ==>
              floor + (AcceptedCount(bids) - 1) * increment <= bids[LastAccepted(bids).value].amount
  {
    if bids != [] {
      var n := |bids| - 1;
      assert forall i :: 0 <= i < n ==> bids[..n][i] == bids[i];
      SpacedPrefix(bids, n, increment);
      SpacedClimb(bids[..n], increment, floor);
      OneMore(AcceptedCount(bids[..n]), increment);
    }
  }

  // ---- Reachable lots ----

  /**
   * The denormalised cache agrees with the bid list: empty when no bid is accepted, and otherwise the
   * amount of an accepted bid that no accepted bid exceeds.
   */
  lemma CacheAgreesWithBids(l: Lot, now: Time)
    requires Reachable(l, now)
    ensures l.highest.None? <==> forall i :: 0 <= i < |l.bids| ==> !l.bids[i].status.Accepted?
    ensures l.highest.Some? ==>
              (exists i :: 0 <= i < |l.bids| && l.bids[i].status.Accepted? && l.bids[i].amount == l.highest.value)
    ensures l.highest.Some? ==>
              (forall i :: 0 <= i < |l.bids| && l.bids[i].status.Accepted? ==> l.bids[i].amount <= l.highest.value)
  {
    hide Reachable;
    ReachableInv(l, now);
    CacheIsTop(l, now);
  }

  lemma LeadersAgree(l: Lot, now: Time)
    requires Reachable(l, now)
    ensures Bidding.ClosingLeader(l.bids) == LastAccepted(l.bids)
    ensures Bidding.OutbidLeader(l.bids, |l.bids|) == LastAccepted(l.bids)
    ensures l.highest == if LastAccepted(l.bids).None? then None else Some(l.bids[LastAccepted(l.bids).value].amount)
    ensures forall i, j :: 0 <= i < j < |l.bids| && l.bids[i].status.Accepted? && l.bids[j].status.Accepted? ==>
                             l.bids[i].amount < l.bids[j].amount
  {
    hide Reachable;
    ReachableInv(l, now);
    SpacedLeadersAgree(l.bids, l.terms.minIncrement, |l.bids|);
  }

  /**
   * Spacing survives any mix of invalidations and later bids: accepted bids rise by the increment, no
   * bid on record is below the starting price, and the cache has climbed one increment per accepted bid.
   */
  lemma IncrementSpacing(l: Lot, now: Time)
    requires Reachable(l, now)
    ensures Spaced(l.bids, l.terms.minIncrement)
    ensures forall i :: 0 <= i < |l.bids| ==> l.terms.startingPrice <= l.bids[i].amount < MAX_BID
    ensures AcceptedCount(l.bids) == 0 <==> l.highest.None?
    ensures l.highest.Some? ==>
              l.terms.startingPrice + (AcceptedCount(l.bids) - 1) * l.terms.minIncrement <= l.highest.value < MAX_BID
  {
    hide AcceptedCount;
    hide Lifecycle.IsPath;
    hide Reachable;
    ReachableInv(l, now);
    forall i | 0 <= i < |l.bids| ensures l.terms.startingPrice <= l.bids[i].amount < MAX_BID {
      assert BidOk(l, i, now);
    }
    SpacedClimb(l.bids, l.terms.minIncrement, l.terms.startingPrice);
    SpacedLeadersAgree(l.bids, l.terms.minIncrement, |l.bids|);
  }

  /** The most accepted bids an auction with these terms can ever hold. */
  function MostAccepted(t: Terms): nat
    requires ValidTerms(t)
  {
    (MAX_BID - 1 - t.startingPrice) / t.minIncrement + 1
  }

  lemma MulKeepsOrder(a: nat, b: nat, k: nat)
    requires a <= b
    ensures a * k <= b * k
  {
  }

  lemma FactorBound(b: nat, inc: nat, room: nat)
    requires inc > 0 && b * inc <= room
    ensures b <= room / inc
  {
    assert room < (room / inc + 1) * inc;
    if b > room / inc {
      MulKeepsOrder(room / inc + 1, b, inc);
    }
  }

  lemma ReachableTerms(l: Lot, now: Time)
    requires Reachable(l, now)
    ensures ValidTerms(l.terms)
  {
    hide Reachable;
    ReachableInv(l, now);
  }

  /** The amount limit and the increment bound the number of accepted bids. */
  lemma AcceptedBidsAreBounded(l: Lot, now: Time)
    requires Reachable(l, now)
    ensures ValidTerms(l.terms)
    ensures AcceptedCount(l.bids) > 0 ==>
              (AcceptedCount(l.bids) - 1) * l.terms.minIncrement < MAX_BID - l.terms.startingPrice
    ensures AcceptedCount(l.bids) <= MostAccepted(l.terms)
  {
    hide AcceptedCount;
    hide Reachable;
    IncrementSpacing(l, now);
    ReachableTerms(l, now);
    var b := AcceptedCount(l.bids);
    if b > 0 {
      FactorBound(b - 1, l.terms.minIncrement, MAX_BID - 1 - l.terms.startingPrice);
    }
  }

  /**
   * Every bid on record was made inside the window as the window stands now, by somebody other than the
   * seller, and carries its position as sequence number; an auction's window is never empty.
   */
  lemma BidsStayInTheWindow(l: Lot, now: Time)
    requires Reachable(l, now)
    ensures l.startTime < l.endTime
    ensures forall i :: 0 <= i < |l.bids| ==>
                          && l.startTime <= l.bids[i].time < l.endTime
                          && l.bids[i].time <= now
                          && l.bids[i].bidder != l.seller
                          && l.bids[i].seqNo == i + 1
  {
    hide Reachable;
    ReachableInv(l, now);
    forall i | 0 <= i < |l.bids|
      ensures l.startTime <= l.bids[i].time < l.endTime && l.bids[i].time <= now
      ensures l.bids[i].bidder != l.seller && l.bids[i].seqNo == i + 1
    {
      assert BidOk(l, i, now);
    }
  }

  /** An instant of the past inside the window of an auction that has started stays inside it. */
  lemma InstantStaysInside(l: Lot, now: Time, op: Op, t: Time)
    requires Inv(l, now) && l.status in STARTED + {Cancelled} && l.startTime <= t < l.endTime && t <= now
    ensures var l' := Step(l, now, op);
            l'.status in STARTED + {Cancelled} && l'.startTime <= t < l'.endTime
  {
    var l' := Step(l, now, op);
    StepEvolves(l, now, op);
    hide Inv;
    if op.PlaceBid? {
      if Apply(l, now, op).Ok? { ExtensionLeavesAWindow(l, now, op.account, op.amount); }
    } else if !op.EditDraft? && !op.Reschedule? {
      OtherCallsKeepTheEnd(l, now, op);
    }
  }

  lemma {:induction false} InstantStaysInsideOverRuns(l: Lot, t: Time, calls: seq<Call>)
    requires Inv(l, t) && l.status in STARTED + {Cancelled} && l.startTime <= t < l.endTime && Timely(t, calls)
    ensures var l' := Run(l, calls);
            l'.status in STARTED + {Cancelled} && l'.startTime <= t < l'.endTime && t <= Clock(t, calls)
  {
    hide Apply;
    hide Inv;
    if calls != [] {
      var n := |calls| - 1;
      InstantStaysInsideOverRuns(l, t, calls[..n]);
      RunKeeps(l, t, calls[..n]);
      InvAsTimePasses(Run(l, calls[..n]), Clock(t, calls[..n]), calls[n].at);
      InstantStaysInside(Run(l, calls[..n]), calls[n].at, calls[n].op, t);
    }
  }

  /** From the instant `t` on, it lies inside the window whatever is called. */
  ghost predicate AlwaysInside(l: Lot, t: Time) {
    forall calls :: Timely(t, calls) ==> Run(l, calls).startTime <= t < Run(l, calls).endTime
  }

  /**
   * The row of a bid gets its own timestamp when it is stored, some time after the checks. That one stays
   * inside the window for good exactly if it falls before the end as the bid leaves it: the end found, or a
   * full window from the checks on where extensions grant one.
   */
  lemma StoredTimeStaysIff(l: Lot, now: Time, account: Bidding.Account, amount: Amount, stored: Time)
    requires Reachable(l, now) && Bidding.PlaceBid(l, now, account, amount).Ok? && now <= stored
    ensures AlwaysInside(Bidding.PlaceBid(l, now, account, amount).value, stored) <==>
              stored < if l.terms.extensionMinutes > 0 then Max(l.endTime, now + l.terms.Window()) else l.endTime
  {
    hide Reachable;
    var l' := Bidding.PlaceBid(l, now, account, amount).value;
    ExtensionLeavesAWindow(l, now, account, amount);
    assert l'.startTime <= now && l'.status == Live;
    assert Inv(l', stored) by {
      ReachableInv(l, now);
      PlaceBidKeeps(l, now, account, amount);
      InvAsTimePasses(l', now, stored);
    }
    hide Bidding.PlaceBid;
    hide Apply;
    hide Inv;
    if stored < l'.endTime {
      forall calls | Timely(stored, calls)
        ensures Run(l', calls).startTime <= stored < Run(l', calls).endTime
      {
        InstantStaysInsideOverRuns(l', stored, calls);
      }
    }
    if AlwaysInside(l', stored) {
      var none: seq<Call> := [];
      assert Timely(stored, none) && Run(l', none) == l';
    }
  }

  /** Without extensions a bid checked just before the end can be stored at the end. */
  lemma StoredAtTheEnd()
    ensures exists l, now, account, amount ::
              && Reachable(l, now) && Bidding.PlaceBid(l, now, account, amount).Ok?
              && !AlwaysInside(Bidding.PlaceBid(l, now, account, amount).value, now + 1)
  {
    hide Reachable;
    hide AlwaysInside;
    LiveLotState();
    var l := LiveLot();
    hide LiveLot;
    var account := Bidding.Account(2, true, Some(Bidding.Profile(true, true, true)));
    ReachableStep(l, 10, 19, TakeForReview(0, 0));
    assert Step(l, 19, TakeForReview(0, 0)) == l;
    assert Bidding.PlaceBid(l, 19, account, Whole(1)).Ok?;
    StoredTimeStaysIff(l, 19, account, Whole(1), 20);
    assert !AlwaysInside(Bidding.PlaceBid(l, 19, account, Whole(1)).value, 19 + 1);
  }

  // ---- Placing a bid ----

  lemma OutbidOnAppend(bids: seq<Bid>, bid: Bid, increment: Cents)
    requires Spaced(bids, increment) && increment > 0 && bid.status.Accepted?
    ensures LastAccepted(bids + [bid]) == Some(|bids|)
    ensures Bidding.OutbidLeader(bids + [bid], |bids|) == LastAccepted(bids)
  {
    assert (bids + [bid])[..|bids|] == bids;
    SpacedLeadersAgree(bids, increment, |bids|);
  }

  /** Who hears of being outbid: the leader before the bid, unless there was none or it is the same bidder. */
  lemma OutbidGoesToThePreviousLeader(l: Lot, now: Time, account: Bidding.Account, amount: Amount)
    requires Reachable(l, now) && Bidding.PlaceBid(l, now, account, amount).Ok?
    ensures var l' := Bidding.PlaceBid(l, now, account, amount).value;
            var before := LastAccepted(l.bids);
            && |l'.bids| == |l.bids| + 1
            && LastAccepted(l'.bids) == Some(|l.bids|)
            && Bidding.OutbidRecipient(l'.bids, |l.bids|) ==
               if before.None? || l.bids[before.value].bidder == account.user then None
               else Some(l.bids[before.value].bidder)
  {
    hide Reachable;
    var l' := Bidding.PlaceBid(l, now, account, amount).value;
    var n := |l.bids|;
    assert Spaced(l.bids, l.terms.minIncrement) && l.terms.minIncrement > 0 by { ReachableInv(l, now); }
    OutbidOnAppend(l.bids, l'.bids[n], l.terms.minIncrement);
  }

  /**
   * What an accepted bid does to the clock: with extensions on, at least one full window is left, and
   * the end moves only when less was left; with extensions off it does not move.
   */
  lemma ExtensionLeavesAWindow(l: Lot, now: Time, account: Bidding.Account, amount: Amount)
    requires Bidding.PlaceBid(l, now, account, amount).Ok?
    ensures var l' := Bidding.PlaceBid(l, now, account, amount).value;
            && l.endTime <= l'.endTime <= l.endTime + l.terms.Window()
            && (l.terms.extensionMinutes > 0 ==> l'.endTime == Max(l.endTime, now + l.terms.Window()))
            && (l.terms.extensionMinutes == 0 ==> l'.endTime == l.endTime)
            && now < l'.endTime
  {
  }

  /**
   * Invalidating a bid leaves every other bid as it is. Only when it was the leader does the cache move:
   * down to the last accepted bid before it, or to nothing.
   */
  lemma InvalidationOutcome(l: Lot, now: Time, k: nat, actor: User, reason: string)
    requires Reachable(l, now) && k < |l.bids|
    ensures Bidding.InvalidateBid(l, now, k, actor, reason).Ok? <==> reason != ""
    ensures Bidding.InvalidateBid(l, now, k, actor, reason).Ok? ==>
              var l' := Bidding.InvalidateBid(l, now, k, actor, reason).value;
              var next := LastAccepted(l.bids[..k]);
              && l'.bids == l.bids[k := l.bids[k].(status := Invalidated(reason, actor, now))]
              && l' == l.(bids := l'.bids, highest := l'.highest, audit := l'.audit)
              && l'.highest == (if LastAccepted(l.bids) != Some(k) then l.highest
                                else if next.None? then None else Some(l.bids[next.value].amount))
  {
    hide Reachable;
    ReachableInv(l, now);
    LeadersAgree(l, now);
    if reason != "" {
      var bids := Bidding.MarkInvalid(l.bids, k, reason, actor, now);
      assert Spaced(bids, l.terms.minIncrement);
      SpacedLeadersAgree(bids, l.terms.minIncrement, |bids|);
      LastAcceptedWithout(l.bids, bids, k);
    }
  }

  lemma LastAcceptedIs(bids: seq<Bid>, i: nat)
    requires i < |bids| && bids[i].status.Accepted? && forall j :: i < j < |bids| ==> !bids[j].status.Accepted?
    ensures LastAccepted(bids) == Some(i)
  {
  }

  lemma LastAcceptedWithout(bids: seq<Bid>, bids': seq<Bid>, k: nat)
    requires k < |bids| && |bids'| == |bids| && bids'[k].status.Invalidated?
    requires forall i :: 0 <= i < |bids| && i != k ==> bids'[i] == bids[i]
    ensures LastAccepted(bids') ==
            if LastAccepted(bids) == Some(k) then LastAccepted(bids[..k]) else LastAccepted(bids)
  {
    var last, next := LastAccepted(bids), LastAccepted(bids[..k]);
    if last == Some(k) {
      if next.Some? { LastAcceptedIs(bids', next.value); }
    } else if last.Some? {
      LastAcceptedIs(bids', last.value);
    }
  }

  // ---- Closing ----

  /** There is an accepted bid and the last one reaches the reserve, if there is a reserve. */
  predicate WillSell(l: Lot) {
    var last := LastAccepted(l.bids);
    last.Some? && (l.terms.reserve.Some? ==> l.terms.reserve.value <= l.bids[last.value].amount)
  }

  /**
   * The outcome of closing, told from the bids alone. No accepted bid: no winner and no reserve flag. A
   * leader below the reserve: no winner, reserve not met. Otherwise the last accepted bid wins at the
   * cached highest price, and a pending payment of exactly that price is created.
   */
  lemma ClosingOutcome(l: Lot, now: Time, actor: Option<User>, reason: Reason)
    requires Reachable(l, now) && l.status == Live
    ensures Bidding.CloseAuction(l, now, actor, reason).Ok?
    ensures var l' := Bidding.CloseAuction(l, now, actor, reason).value;
            var last := LastAccepted(l.bids);
            && l'.status == Closed
            && l'.reserveMet == (if last.None? then None else Some(WillSell(l)))
            && l'.finalPrice == (if WillSell(l) then l.highest else None)
            && l'.winner == (if WillSell(l) then Some(l.bids[last.value].bidder) else None)
            && l'.winner != Some(l.seller)
            && (WillSell(l) ==> l.highest.Some?)
            && l'.payment == (if WillSell(l) then Some(Payment(l.highest.value, Pending, "", "", "", None, None, now))
                              else None)
            && l' == l.(
                 status := Closed, winner := l'.winner, finalPrice := l'.finalPrice, reserveMet := l'.reserveMet,
                 payment := l'.payment, statusLog := l'.statusLog, audit := l'.audit)
  {
    hide Bidding.ClosingLeader;
    hide Apply;
    hide Lifecycle.IsPath;
    hide Reachable;
    LeadersAgree(l, now);
    ReachableInv(l, now);
    var last := LastAccepted(l.bids);
    if last.Some? { assert BidOk(l, last.value, now); }
  }

  /**
   * Closing happens once: from a finished status every later attempt is refused in every continuation,
   * and winner, price and reserve flag are never rewritten.
   */
  lemma ResultIsFinal(l: Lot, now: Time, calls: seq<Call>, at: Time, actor: Option<User>, reason: Reason)
    requires Reachable(l, now) && l.status in Lifecycle.FINISHED && Timely(now, calls)
    ensures var l' := Run(l, calls);
            && l'.status in Lifecycle.FINISHED
            && l'.winner == l.winner && l'.finalPrice == l.finalPrice && l'.reserveMet == l.reserveMet
            && Bidding.CloseAuction(l', at, actor, reason) == Err(NotLive)
            && Lifecycle.Closings(l'.statusLog) == 1
  {
    hide Reachable;
    hide Apply;
    ReachableInv(l, now);
    RunEvolves(l, now, calls);
    RunKeeps(l, now, calls);
    Lifecycle.ClosesAtMostOnce(Run(l, calls).statusLog, Run(l, calls).status);
  }

  /** A winner is never the seller, and always has a bid on record at the final price that met the reserve. */
  lemma WinnerHasARecordedBid(l: Lot, now: Time)
    requires Reachable(l, now) && l.winner.Some?
    ensures l.status in Lifecycle.FINISHED
    ensures l.winner.value != l.seller
    ensures l.finalPrice.Some? && l.reserveMet == Some(true)
    ensures exists i :: 0 <= i < |l.bids| &&
              l.bids[i].bidder == l.winner.value && l.bids[i].amount == l.finalPrice.value
    ensures l.terms.reserve.Some? ==> l.terms.reserve.value <= l.finalPrice.value
  {
    hide Reachable;
    ReachableInv(l, now);
    var i :| 0 <= i < |l.bids| && WonBy(l, i);
    assert BidOk(l, i, now);
  }

  // ---- The bounded auction ----

  /** The latest end that an accepted request of staff has set, or the present end if that is later. */
  function LatestStaffEnd(l: Lot, calls: seq<Call>): Time {
    if calls == [] then l.endTime
    else
      var n := |calls| - 1;
      LaterStaffEnd(Run(l, calls[..n]), calls[n].at, calls[n].op, LatestStaffEnd(l, calls[..n]))
  }

  /** `end`, or the end that the call sets if it is a reschedule, accepted, and that is later. */
  function LaterStaffEnd(l: Lot, now: Time, op: Op, end: Time): Time {
    if op.Reschedule? && op.newEnd.Some? && Apply(l, now, op).Ok? then Max(end, op.newEnd.value) else end
  }

  /** That end is the one at the start, or one that a call of the run has set. */
  lemma {:induction false} LatestStaffEndWasSet(l: Lot, calls: seq<Call>)
    ensures LatestStaffEnd(l, calls) == l.endTime ||
            exists i: nat :: i < |calls| && SetsEnd(Run(l, calls[..i]), calls[i], LatestStaffEnd(l, calls))
  {
    hide Apply;
    if calls != [] {
      var n := |calls| - 1;
      var latest := LatestStaffEnd(l, calls);
      LatestStaffEndWasSet(l, calls[..n]);
      if latest == LatestStaffEnd(l, calls[..n]) {
        if latest != l.endTime {
          var i: nat :| i < n && SetsEnd(Run(l, calls[..n][..i]), calls[..n][i], latest);
          assert calls[..n][..i] == calls[..i] && calls[..n][i] == calls[i];
        }
      } else {
        assert SetsEnd(Run(l, calls[..n]), calls[n], latest);
      }
    }
  }

  predicate SetsEnd(l: Lot, call: Call, end: Time) {
    call.op.Reschedule? && call.op.newEnd == Some(end) && Apply(l, call.at, call.op).Ok?
  }

  /** The length of `count` windows. */
  function Windows(window: int, count: nat): int {
    if count == 0 then 0 else window + Windows(window, count - 1)
  }

  lemma {:induction false} WindowsAdd(window: int, a: nat, b: nat)
    requires window >= 0
    ensures Windows(window, a) + Windows(window, b) == Windows(window, a + b)
    ensures Windows(window, b) >= 0
  {
    if b != 0 { WindowsAdd(window, a, b - 1); }
  }

  lemma OtherCallsKeepTheEnd(l: Lot, now: Time, op: Op)
    requires !op.EditDraft? && !op.Reschedule? && !op.PlaceBid?
    ensures Step(l, now, op).endTime == l.endTime && |Step(l, now, op).bids| == |l.bids|
  {
    hide Strip;
  }

  /** How far one call can push the end back. */
  lemma StepEndBound(l: Lot, now: Time, op: Op)
    requires l.status != Draft
    ensures var l' := Step(l, now, op);
            && |l.bids| <= |l'.bids|
            && l'.endTime <= LaterStaffEnd(l, now, op, l.endTime) + Windows(l.terms.Window(), |l'.bids| - |l.bids|)
  {
    if op.PlaceBid? && Apply(l, now, op).Ok? {
      assert Windows(l.terms.Window(), 1) == l.terms.Window();
      ExtensionLeavesAWindow(l, now, op.account, op.amount);
    } else if !op.EditDraft? && !op.Reschedule? && !op.PlaceBid? {
      OtherCallsKeepTheEnd(l, now, op);
    }
  }

  lemma TermsStay(l: Lot, start: Time, calls: seq<Call>)
    requires Reachable(l, start) && l.status != Draft && Timely(start, calls)
    ensures Run(l, calls).status != Draft && Run(l, calls).terms == l.terms
    ensures |l.bids| <= |Run(l, calls).bids|
  {
    hide Reachable;
    ReachableInv(l, start);
    RunEvolves(l, start, calls);
  }

  /** Adding one call's bound to that of the calls before it. */
  lemma BoundsAdd(l: Lot, now: Time, op: Op, pushed: Time, latest: Time, window: int, a: nat, b: nat)
    requires window >= 0
    requires l.endTime <= latest + Windows(window, a)
    requires pushed <= LaterStaffEnd(l, now, op, l.endTime) + Windows(window, b)
    ensures pushed <= LaterStaffEnd(l, now, op, latest) + Windows(window, a + b)
  {
    WindowsAdd(window, a, b);
    WindowsAdd(window, b, a);
  }

  /**
   * How late an auction can end: no later than the latest end staff have set, plus one window for each
   * bid placed since.
   */
  lemma {:induction false} EndIsBounded(l: Lot, start: Time, calls: seq<Call>)
    requires Reachable(l, start) && l.status != Draft && Timely(start, calls)
    ensures |l.bids| <= |Run(l, calls).bids|
    ensures Run(l, calls).endTime
         <= LatestStaffEnd(l, calls) + Windows(l.terms.Window(), |Run(l, calls).bids| - |l.bids|)
  {
    hide Reachable;
    hide Apply;
    if calls != [] {
      var n := |calls| - 1;
      var mid := Run(l, calls[..n]);
      EndIsBounded(l, start, calls[..n]);
      TermsStay(l, start, calls[..n]);
      var l' := Step(mid, calls[n].at, calls[n].op);
      assert Run(l, calls) == l';
      StepEndBound(mid, calls[n].at, calls[n].op);
      BoundsAdd(mid, calls[n].at, calls[n].op, l'.endTime, LatestStaffEnd(l, calls[..n]),
                l.terms.Window(), |mid.bids| - |l.bids|, |l'.bids| - |mid.bids|);
    }
  }

  lemma {:induction false} WindowsAreMultiples(window: int, count: nat)
    ensures Windows(window, count) == window * count
  {
    if count != 0 {
      WindowsAreMultiples(window, count - 1);
      assert window * count == window * (count - 1) + window;
    }
  }

  /**
   * Extensions cannot go on for ever. From a lot without bids, an auction whose bid list holds `v`
   * invalidated bids ends at most `MostAccepted + v` windows after the latest end staff have set.
   */
  lemma AuctionMustEnd(l: Lot, start: Time, calls: seq<Call>)
    requires Reachable(l, start) && l.status != Draft && l.bids == [] && Timely(start, calls)
    ensures ValidTerms(l.terms)
    ensures var l' := Run(l, calls);
            var most := MostAccepted(l.terms) + InvalidatedCount(l'.bids);
            l'.endTime <= LatestStaffEnd(l, calls) + l.terms.Window() * most
  {
    hide Reachable;
    hide Apply;
    ReachableTerms(l, start);
    var l' := Run(l, calls);
    EndIsBounded(l, start, calls);
    assert l'.terms == l.terms by { TermsStay(l, start, calls); }
    assert AcceptedCount(l'.bids) <= MostAccepted(l.terms) by {
      ReachableOnwards(l, start, calls);
      AcceptedBidsAreBounded(l', Clock(start, calls));
    }
    WindowsAdd(l.terms.Window(), |l'.bids|, MostAccepted(l.terms) - AcceptedCount(l'.bids));
    WindowsAreMultiples(l.terms.Window(), MostAccepted(l.terms) + InvalidatedCount(l'.bids));
  }
}
