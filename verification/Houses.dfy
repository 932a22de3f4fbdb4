/** Many auctions under one roof: listings, calls on single auctions, and the due sweep. */
module Houses {
  import opened Basics
  import opened Records
  import Lifecycle
  import Bidding
  import opened Engine
  import opened Invariants
  import BidLaws

  // ---- The sweep on one lot ----

  predicate Ended(l: Lot, now: Time) {
    l.status == Live && l.endTime <= now
  }

  function Started(l: Lot, now: Time, actor: Option<User>): Lot {
    Step(l, now, Activate(actor))
  }

  function ClosedIfEnded(l: Lot, now: Time, actor: Option<User>): Lot {
    if Ended(l, now) then Step(l, now, CloseAuction(actor, AutoClosed)) else l
  }

  function Swept(l: Lot, now: Time, actor: Option<User>): Lot {
    ClosedIfEnded(Started(l, now, actor), now, actor)
  }

  /** The auction is open, or opens by this sweep, and its end has passed. */
  predicate ToBeClosed(l: Lot, now: Time) {
    (l.status == Live || Lifecycle.DueToStart(l, now)) && l.endTime <= now
  }

  /**
   * What a sweep does to a lot: an auction to be closed is closed, one that is only due goes live, and any
   * other is left exactly as it was. Afterwards nothing is due.
   */
  lemma SweepOutcome(l: Lot, now: Time, actor: Option<User>)
    ensures var l' := Swept(l, now, actor);
            var open := l.status == Live || (l.status == Scheduled && l.startTime <= now);
            && l'.status == (if open && l.endTime <= now then Closed else if open then Live else l.status)
            && (!open || (l.status == Live && now < l.endTime) ==> l' == l)
            && !(l'.status == Scheduled && l'.startTime <= now) && !(l'.status == Live && l'.endTime <= now)
    ensures var l' := Swept(l, now, actor);
            && l'.status == (if ToBeClosed(l, now) then Closed
                             else if Lifecycle.DueToStart(l, now) then Live else l.status)
            && (!Lifecycle.DueToStart(l, now) && !Ended(l, now) ==> l' == l)
            && !Lifecycle.DueToStart(l', now) && !Ended(l', now)
            && l'.endTime == l.endTime && l'.startTime == l.startTime
            && l'.bids == l.bids && l'.disputes == l.disputes && l'.highest == l.highest
            && (!ToBeClosed(l, now) ==>
                  l'.winner == l.winner && l'.finalPrice == l.finalPrice && l'.payment == l.payment)
    ensures Ended(Started(l, now, actor), now) <==> ToBeClosed(l, now)
  {
    hide Bidding.Decide;
  }

  /** The two halves of a sweep, each on the rows. */
  lemma HalvesOfASweep(l: Lot, now: Time, actor: Option<User>)
    ensures var started := Started(l, now, actor);
            && started.status == (if l.status == Scheduled && l.startTime <= now then Live else l.status)
            && started == l.(status := started.status, statusLog := started.statusLog, audit := started.audit)
            && (started.status == l.status ==> started == l)
    ensures var closed := ClosedIfEnded(l, now, actor);
            && closed.status == (if l.status == Live && l.endTime <= now then Closed else l.status)
            && (closed.status == l.status ==> closed == l)
  {
    hide Bidding.Decide;
  }

  lemma StartedIsOpen(l: Lot, now: Time, actor: Option<User>)
    requires ToBeClosed(l, now)
    ensures var started := Started(l, now, actor);
            && Ended(started, now)
            && started == l.(status := Live, statusLog := started.statusLog, audit := started.audit)
  {
  }

  /**
   * What a sweep closes it closes by the closing rules: the last accepted bid wins at the cached highest
   * price if the reserve is met, and owes a payment of that price. One that was due but never open has no
   * bids, and closes without a winner.
   */
  lemma SweptByTheRules(l: Lot, before: Time, now: Time, actor: Option<User>)
    requires Reachable(l, before) && before <= now
    requires (l.status == Live || (l.status == Scheduled && l.startTime <= now)) && l.endTime <= now
    ensures var l' := Swept(l, now, actor);
            var last := BidLaws.LastAccepted(l.bids);
            var sells := BidLaws.WillSell(l);
            && l'.status == Closed
            && l'.reserveMet == (if last.None? then None else Some(sells))
            && l'.winner == (if sells then Some(l.bids[last.value].bidder) else None)
            && l'.finalPrice == (if sells then l.highest else None)
            && (sells ==> l.highest.Some?)
            && l'.payment
               == (if sells then Some(Payment(l.highest.value, Pending, "", "", "", None, None, now)) else None)
            && (l.status != Live ==> l'.winner.None?)
  {
    hide Reachable;
    var started := Started(l, now, actor);
    StartedIsOpen(l, now, actor);
    ReachableStep(l, before, now, Activate(actor));
    if l.status != Live {
      assert l.bids == [] by { ReachableInv(l, before); }
    }
    BidLaws.ClosingOutcome(started, now, actor, AutoClosed);
    assert Swept(l, now, actor) == Bidding.CloseAuction(started, now, actor, AutoClosed).value;
  }

  /** A second sweep at the same time finds nothing and changes nothing. */
  lemma SweepIsIdempotent(l: Lot, now: Time, actor: Option<User>, again: Option<User>)
    ensures Swept(Swept(l, now, actor), now, again) == Swept(l, now, actor)
    ensures !Lifecycle.DueToStart(Swept(l, now, actor), now) && !ToBeClosed(Swept(l, now, actor), now)
  {
    SweepOutcome(l, now, actor);
    SweepOutcome(Swept(l, now, actor), now, again);
  }

  lemma StartersAgree(l: Lot, now: Time, actor: Option<User>, other: Option<User>)
    ensures SameButLogs(Started(l, now, actor), Started(l, now, other))
  {
  }

  lemma ClosersAgree(l: Lot, now: Time, actor: Option<User>, other: Option<User>)
    ensures SameButLogs(Step(l, now, CloseAuction(actor, AutoClosed)), Step(l, now, CloseAuction(other, AutoClosed)))
  {
    hide Bidding.Decide;
  }

  /** Who sweeps shows only in the logs. */
  lemma SweepersAgree(l: Lot, now: Time, actor: Option<User>, other: Option<User>)
    ensures SameButLogs(Swept(l, now, actor), Swept(l, now, other))
  {
    hide Apply;
    var a, b := Started(l, now, actor), Started(l, now, other);
    StartersAgree(l, now, actor, other);
    ClosersAgree(a, now, actor, other);
    StepIgnoresLogs(a, b, now, CloseAuction(other, AutoClosed));
  }

  /** The figure after which a sweep is sure to end the bidding. */
  lemma SweepEndsTheAuction(l: Lot, start: Time, calls: seq<Call>, at: Time, actor: Option<User>)
    requires Reachable(l, start) && l.status != Draft && l.bids == [] && Timely(start, calls)
    requires ValidTerms(l.terms)
    requires at >= BidLaws.LatestStaffEnd(l, calls) + l.terms.Window() *
                   (BidLaws.MostAccepted(l.terms) + BidLaws.InvalidatedCount(Run(l, calls).bids))
    ensures Swept(Run(l, calls), at, actor).status != Live
    ensures Run(l, calls).status == Live ==> Swept(Run(l, calls), at, actor).status == Closed
  {
    hide Reachable;
    hide Apply;
    hide Swept;
    BidLaws.AuctionMustEnd(l, start, calls);
    SweepOutcome(Run(l, calls), at, actor);
  }

  // ---- The house ----

  type House = seq<Lot>

  datatype HouseCall =
    | List(seller: User, category: string, terms: Terms, start: Time, end: Time)
    | On(pk: nat, op: Op)
    | SweepDue(who: Option<User>)

  datatype Timed = Timed(at: Time, call: HouseCall)

  function SweptAll(house: House, now: Time, actor: Option<User>): (r: House)
    ensures |r| == |house|
  {
    seq(|house|, i requires 0 <= i < |house| => Swept(house[i], now, actor))
  }

  function HouseStep(house: House, at: Time, call: HouseCall): House {
    match call
    case List(seller, category, terms, start, end) =>
      if ValidListing(terms, start, end) then house + [NewListing(seller, category, at, terms, start, end)] else house
    case On(pk, op) => if pk < |house| then house[pk := Step(house[pk], at, op)] else house
    case SweepDue(actor) => SweptAll(house, at, actor)
  }

  function HouseRun(calls: seq<Timed>): House {
    if calls == [] then []
    else HouseStep(HouseRun(calls[..|calls| - 1]), calls[|calls| - 1].at, calls[|calls| - 1].call)
  }

  ghost predicate HouseTimely(calls: seq<Timed>, now: Time) {
    calls == [] ||
    (calls[|calls| - 1].at <= now && HouseTimely(calls[..|calls| - 1], calls[|calls| - 1].at))
  }

  /** A call on one auction touches no other, and a listing adds one draft behind the others. */
  lemma CallsTouchOneAuction(house: House, at: Time, call: HouseCall)
    requires !call.SweepDue?
    ensures var house' := HouseStep(house, at, call);
            match call
            case On(pk, op) =>
              && |house'| == |house|
              && (forall i :: 0 <= i < |house| && i != pk ==> house'[i] == house[i])
              && (pk < |house| ==>
                    house'[pk] == if Apply(house[pk], at, op).Ok? then Apply(house[pk], at, op).value else house[pk])
            case List(seller, category, terms, start, end) =>
              && (|house'| == |house| + 1 <==> ValidListing(terms, start, end))
              && house <= house'
              && (|house'| == |house| + 1 ==>
                    house'[|house|] == Lot(seller, category, at, terms, start, end, Draft,
                                           None, None, None, None, [], None, [], [], []))
            case SweepDue(_) => true
  {
    hide Apply;
  }

  /** Some run from the empty house leads here, and the clock has reached `now`. */
  ghost predicate ReachableHouse(house: House, now: Time) {
    exists calls :: HouseTimely(calls, now) && HouseRun(calls) == house
  }

  /** The empty house is reachable, and so is what any later call makes of a reachable one. */
  lemma HouseGoesOn(house: House, now: Time, at: Time, call: HouseCall)
    ensures ReachableHouse([], now)
    ensures ReachableHouse(house, now) && now <= at ==> ReachableHouse(HouseStep(house, at, call), at)
  {
    hide HouseStep;
    var none: seq<Timed> := [];
    assert HouseTimely(none, now) && HouseRun(none) == [];
    if ReachableHouse(house, now) && now <= at {
      var calls :| HouseTimely(calls, now) && HouseRun(calls) == house;
      var more := calls + [Timed(at, call)];
      assert more[..|calls|] == calls;
      EarlierIsTimely(calls, now, at);
      assert HouseTimely(more, at) && HouseRun(more) == HouseStep(house, at, call);
    }
  }

  lemma EarlierIsTimely(calls: seq<Timed>, now: Time, at: Time)
    requires HouseTimely(calls, now) && now <= at
    ensures HouseTimely(calls, at)
  {
  }

  /** Time may pass without anything happening to a lot. */
  lemma ReachableLater(l: Lot, now: Time, later: Time)
    requires Reachable(l, now) && now <= later
    ensures Reachable(l, later)
  {
    hide Reachable;
    var idle := TakeForReview(|l.disputes|, 0);
    ReachableStep(l, now, later, idle);
    assert Step(l, later, idle) == l;
  }

  lemma ReachableSwept(l: Lot, now: Time, at: Time, actor: Option<User>)
    requires Reachable(l, now) && now <= at
    ensures Reachable(Swept(l, at, actor), at)
  {
    hide Apply;
    ReachableStep(l, now, at, Activate(actor));
    ReachableStep(Started(l, at, actor), at, at, CloseAuction(actor, AutoClosed));
  }

  /** Whatever happens in a house, each of its lots is one that its own run of calls leads to. */
  lemma {:induction false} HouseLotsAreReachable(calls: seq<Timed>, now: Time)
    requires HouseTimely(calls, now)
    ensures forall i :: 0 <= i < |HouseRun(calls)| ==> Reachable(HouseRun(calls)[i], now)
  {
    hide Reachable;
    hide Apply;
    if calls != [] {
      var n := |calls| - 1;
      var at, call := calls[n].at, calls[n].call;
      var before := HouseRun(calls[..n]);
      var after := HouseRun(calls);
      HouseLotsAreReachable(calls[..n], at);
      forall i | 0 <= i < |after| ensures Reachable(after[i], now) {
        LotAfterCall(before, at, call, i);
        ReachableLater(after[i], at, now);
      }
    }
  }

  lemma LotAfterCall(before: House, at: Time, call: HouseCall, i: nat)
    requires forall j :: 0 <= j < |before| ==> Reachable(before[j], at)
    requires i < |HouseStep(before, at, call)|
    ensures Reachable(HouseStep(before, at, call)[i], at)
  {
    hide Reachable;
    hide Apply;
    hide Swept;
    var after := HouseStep(before, at, call);
    if i < |before| { assert Reachable(before[i], at); }
    match call
    case List(_, _, _, _, _) => if i == |before| { ReachableFromNew(after[i], at); }
    case On(pk, op) => if i == pk { ReachableStep(before[i], at, at, op); }
    case SweepDue(actor) => ReachableSwept(before[i], at, at, actor);
  }

  /** Every lot of a reachable house satisfies the invariant. */
  lemma HouseInv(house: House, now: Time)
    requires ReachableHouse(house, now)
    ensures forall i :: 0 <= i < |house| ==> Inv(house[i], now)
  {
    var calls :| HouseTimely(calls, now) && HouseRun(calls) == house;
    HouseLotsAreReachable(calls, now);
    forall i | 0 <= i < |house| ensures Inv(house[i], now) {
      ReachableInv(house[i], now);
    }
  }
}
