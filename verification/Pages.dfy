/** What the detail page of an auction offers a visitor, next to what the bidding service accepts. */
module Pages {
  import opened Basics
  import opened Records
  import opened Amounts
  import Bidding
  import opened Engine
  import opened Invariants
  import opened Examples

  /** The property of the auction row that the page asks. */
  predicate IsBiddable(l: Lot, now: Time) {
    l.startTime <= now && now < l.endTime && l.status == Live
  }

  /** The figure the page displays. */
  function DisplayedMinimum(l: Lot): Cents {
    match l.highest
    case None => l.terms.startingPrice
    case Some(highest) => highest + l.terms.minIncrement
  }

  /** The page shows its bid box to users with the bidder role only. */
  predicate ShowsBidBox(l: Lot, now: Time, account: Bidding.Account) {
    account.hasBidderRole && MayBid(l, now, account)
  }

  predicate MayBid(l: Lot, now: Time, account: Bidding.Account) {
    && IsBiddable(l, now)
    && account.profile.Some? && account.profile.value.IsEligible()
    && account.user != l.seller
  }

  /** The amount is written with at most two decimals and is a number from `minimum` up to the limit of 10^12. */
  ghost predicate Offers(amount: Amount, minimum: Cents) {
    WellFormed(amount) && Denotes(amount).Some? &&
    var (numerator, denominator) := Denotes(amount).value;
    minimum * denominator <= 100 * numerator && numerator < 1_000_000_000_000 * denominator
  }

  lemma Monotone(a: int, b: int, k: nat)
    requires a <= b
    ensures a * k <= b * k
  {
    assert (b - a) * k >= 0;
  }

  lemma ScaledOrder(a: int, b: int, k: nat)
    requires k > 0
    ensures a <= b <==> a * k <= b * k
  {
    if a <= b { Monotone(a, b, k); } else { Monotone(b + 1, a, k); }
  }

  lemma OffersInCents(amount: Amount, minimum: Cents)
    ensures Offers(amount, minimum) <==> ToCents(amount).Ok? && minimum <= ToCents(amount).value
  {
    ToCentsIsExact(amount);
    hide ToCents;
    if ToCents(amount).Ok? { ScaledOrder(minimum, ToCents(amount).value, Denotes(amount).value.1); }
  }

  /**
   * The displayed minimum is exact: a bid is accepted iff bidding is open to the user and the amount is a
   * number, written with at most two decimals, from the displayed minimum up to the limit. What is then
   * on record is that number exactly, positive and small enough for its column.
   */
  lemma OfferedMinimumIsExact(l: Lot, now: Time, account: Bidding.Account, amount: Amount)
    requires Reachable(l, now)
    ensures Bidding.PlaceBid(l, now, account, amount).Ok? <==>
              MayBid(l, now, account) && Offers(amount, DisplayedMinimum(l))
    ensures MayBid(l, now, account) <==>
              && l.status == Live && l.startTime <= now < l.endTime
              && account.profile == Some(Bidding.Profile(true, true, true)) && account.user != l.seller
    ensures DisplayedMinimum(l)
         == if l.highest.Some? then l.highest.value + l.terms.minIncrement else l.terms.startingPrice
    ensures Bidding.PlaceBid(l, now, account, amount).Ok? ==>
              var bids := Bidding.PlaceBid(l, now, account, amount).value.bids;
              && |bids| == |l.bids| + 1 && bids[..|l.bids|] == l.bids
              && var bid := bids[|l.bids|];
                 && bid == Bid(account.user, bid.amount, |l.bids| + 1, now, Accepted)
                 && bid.amount * Denotes(amount).value.1 == 100 * Denotes(amount).value.0
                 && 0 < bid.amount < MAX_BID
  {
    hide Reachable;
    ReachableInv(l, now);
    SeqNosAreDense(l, now);
    CacheIsTop(l, now);
    hide Inv;
    ToCentsIsExact(amount);
    OffersInCents(amount, DisplayedMinimum(l));
    hide Offers;
    hide Denotes;
    hide ToCents;
  }

  ghost predicate SomeBidAccepted(l: Lot, now: Time, account: Bidding.Account) {
    exists amount :: Bidding.PlaceBid(l, now, account, amount).Ok?
  }

  /** The service would accept some bid of the user: the minimum itself, if that is below the limit. */
  lemma SomeBidIsAccepted(l: Lot, now: Time, account: Bidding.Account)
    requires Reachable(l, now)
    ensures SomeBidAccepted(l, now, account) <==> MayBid(l, now, account) && DisplayedMinimum(l) < MAX_BID
  {
    hide Reachable;
    var minimum := DisplayedMinimum(l);
    assert minimum > 0 by { ReachableInv(l, now); CacheIsTop(l, now); }
    if SomeBidAccepted(l, now, account) {
      var amount :| Bidding.PlaceBid(l, now, account, amount).Ok?;
      OfferedMinimumIsExact(l, now, account, amount);
      OffersInCents(amount, minimum);
    }
    if MayBid(l, now, account) && minimum < MAX_BID {
      var amount := Finite(false, minimum, -2);
      TwoDecimalsRoundTrip(minimum);
      OffersInCents(amount, minimum);
      OfferedMinimumIsExact(l, now, account, amount);
    }
  }

  /**
   * When page and service agree on whether a user can bid. For whom bidding is closed they always do.
   * Anyone else must be shown the box exactly if the displayed minimum can still be offered: they part
   * for an eligible user without the bidder role, who is accepted but shown no box, and for a bidder who
   * is shown a box once the minimum has reached the limit.
   */
  lemma PageAgreesWithService(l: Lot, now: Time, account: Bidding.Account)
    requires Reachable(l, now)
    ensures ShowsBidBox(l, now, account) <==>
              && account.hasBidderRole && account.profile == Some(Bidding.Profile(true, true, true))
              && account.user != l.seller && l.status == Live && l.startTime <= now < l.endTime
    ensures (ShowsBidBox(l, now, account) <==> SomeBidAccepted(l, now, account)) <==>
              (MayBid(l, now, account) ==> (account.hasBidderRole <==> DisplayedMinimum(l) < MAX_BID))
  {
    hide Reachable;
    hide SomeBidAccepted;
    SomeBidIsAccepted(l, now, account);
  }

  /** An officer with an eligible bidder profile: accepted by the service, shown no box by the page. */
  lemma OfficerIsAcceptedWithoutBox()
    ensures exists l, now, account: Bidding.Account ::
              && Reachable(l, now) && !account.hasBidderRole
              && SomeBidAccepted(l, now, account) && !ShowsBidBox(l, now, account)
  {
    hide Reachable;
    var officer := Bidding.Account(4, false, Some(Bidding.Profile(true, true, true)));
    LiveLotState();
    var l := LiveLot();
    hide LiveLot;
    SomeBidIsAccepted(l, 10, officer);
    hide SomeBidAccepted;
    assert Reachable(l, 10) && SomeBidAccepted(l, 10, officer) && !ShowsBidBox(l, 10, officer);
  }

  /** One cent below the limit the page still shows a box to other bidders, and no amount at all is accepted. */
  lemma BoxWithoutAcceptableAmount()
    ensures exists l, now, account: Bidding.Account ::
              Reachable(l, now) && ShowsBidBox(l, now, account) && !SomeBidAccepted(l, now, account)
  {
    hide Reachable;
    LiveLotState();
    var l := LiveLot();
    hide LiveLot;
    var first := Bidding.Account(2, true, Some(Bidding.Profile(true, true, true)));
    var other := Bidding.Account(4, true, Some(Bidding.Profile(true, true, true)));
    var amount := Finite(false, MAX_BID - 1, -2);
    TwoDecimalsRoundTrip(MAX_BID - 1);
    hide ToCents;
    var l' := Step(l, 11, PlaceBid(first, amount));
    ReachableStep(l, 10, 11, PlaceBid(first, amount));
    assert l'.highest == Some(MAX_BID - 1);
    SomeBidIsAccepted(l', 11, other);
    hide SomeBidAccepted;
    assert Reachable(l', 11) && ShowsBidBox(l', 11, other) && !SomeBidAccepted(l', 11, other);
  }
}
