/** Small lots that concrete runs lead to; witnesses of what can happen start from them. */
module Examples {
  import opened Basics
  import opened Records
  import opened Amounts
  import Bidding
  import opened Engine

  function LiveLot(): Lot {
    var draft := NewListing(1, "", 0, Terms(100, None, 1, 0), 10, 20);
    Step(Step(Step(draft, 0, Submit(1)), 0, Approve(3, "", false)), 10, Activate(None))
  }

  function BidOnLot(): Lot {
    Step(LiveLot(), 11, PlaceBid(Bidding.Account(2, true, Some(Bidding.Profile(true, true, true))), Whole(1)))
  }

  /** An auction with one bid, closed at its end time. */
  function SoldLot(): Lot {
    Step(BidOnLot(), 20, CloseAuction(None, AutoClosed))
  }

  lemma LiveLotState()
    ensures Reachable(LiveLot(), 10)
    ensures LiveLot() == NewListing(1, "", 0, Terms(100, None, 1, 0), 10, 20).(
      status := Live, statusLog := LiveLot().statusLog, audit := LiveLot().audit)
  {
    hide Reachable;
    var draft := NewListing(1, "", 0, Terms(100, None, 1, 0), 10, 20);
    var submitted := Step(draft, 0, Submit(1));
    assert submitted.status == Submitted;
    var scheduled := Step(submitted, 0, Approve(3, "", false));
    assert scheduled.status == Scheduled;
    ReachableFromNew(draft, 0);
    ReachableStep(draft, 0, 0, Submit(1));
    ReachableStep(submitted, 0, 0, Approve(3, "", false));
    ReachableStep(scheduled, 0, 10, Activate(None));
  }

  lemma BidOnLotState()
    ensures Reachable(BidOnLot(), 11)
    ensures BidOnLot().bids == [Bid(2, 100, 1, 11, Accepted)]
    ensures BidOnLot() == LiveLot().(
      bids := BidOnLot().bids, highest := BidOnLot().highest, endTime := BidOnLot().endTime, audit := BidOnLot().audit)
  {
    hide Reachable;
    LiveLotState();
    hide LiveLot;
    var account := Bidding.Account(2, true, Some(Bidding.Profile(true, true, true)));
    ReachableStep(LiveLot(), 10, 11, PlaceBid(account, Whole(1)));
  }

  lemma SoldLotState()
    ensures Reachable(SoldLot(), 20)
    ensures SoldLot().status == Closed && SoldLot().seller == 1 && SoldLot().disputes == []
    ensures SoldLot().payment.Some? && SoldLot().payment.value.status == Pending
  {
    hide Reachable;
    LiveLotState();
    BidOnLotState();
    hide LiveLot;
    hide BidOnLot;
    ReachableStep(BidOnLot(), 11, 20, CloseAuction(None, AutoClosed));
    assert Bidding.Decide(BidOnLot()) == Bidding.Verdict(Some(2), Some(100), Some(true));
  }
}
