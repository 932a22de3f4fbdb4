/** The privacy-preserving bid history, and who is told about staff actions. */
module BidHistory {
  import opened Basics
  import opened Records
  import opened Engine
  import opened Invariants
  import opened Histories

  /** `Letter(65)` is shown as "Bidder A", `Letter(66)` as "Bidder B", and so on. */
  datatype Label = Letter(code: nat) | You | Username(user: User)

  datatype Entry = Entry(seqNo: nat, amount: Cents, time: Time, shownAs: Label, status: BidStatus, isMine: bool)

  /** A signed-in viewer; everybody else is `None`. */
  datatype Viewer = Viewer(user: User, isStaff: bool)

  // ---- Reference definition ----

  predicate HasBid(bids: seq<Bid>, user: User) {
    exists i :: 0 <= i < |bids| && bids[i].bidder == user
  }

  function FirstBid(bids: seq<Bid>, user: User): (k: nat)
    requires HasBid(bids, user)
    ensures k < |bids| && bids[k].bidder == user
    ensures forall i :: 0 <= i < k ==> bids[i].bidder != user
  {
    if bids[0].bidder == user then 0
    else
      assert HasBid(bids[1..], user) by {
        var i :| 0 <= i < |bids| && bids[i].bidder == user;
        assert bids[1..][i - 1].bidder == user;
      }
      var k := 1 + FirstBid(bids[1..], user);
      assert forall i :: 1 <= i < k ==> bids[i] == bids[1..][i - 1];
      k
  }

  function Bidders(bids: seq<Bid>): set<User> {
    set i | 0 <= i < |bids| :: bids[i].bidder
  }

  /** A bidder's letter counts the bidders who came before their first bid. */
  function LetterOf(bids: seq<Bid>, user: User): nat
    requires HasBid(bids, user)
  {
    'A' as nat + |Bidders(bids[..FirstBid(bids, user)])|
  }

  function LabelFor(bids: seq<Bid>, user: User, viewer: Option<Viewer>): Label
    requires HasBid(bids, user)
  {
    if viewer.Some? && viewer.value.isStaff then Username(user)
    else if viewer.Some? && viewer.value.user == user then You
    else Letter(LetterOf(bids, user))
  }

  function EntryFor(bids: seq<Bid>, i: nat, viewer: Option<Viewer>): Entry
    requires i < |bids|
  {
    var b := bids[i];
    assert HasBid(bids, b.bidder);
    Entry(b.seqNo, b.amount, b.time, LabelFor(bids, b.bidder, viewer), b.status,
          viewer.Some? && viewer.value.user == b.bidder)
  }

  function History(bids: seq<Bid>, viewer: Option<Viewer>): (h: seq<Entry>)
    ensures |h| == |bids|
  {
    seq(|bids|, i requires 0 <= i < |bids| => EntryFor(bids, i, viewer))
  }

  // ---- The service ----

  /** The dictionary after `i` bids: every bidder so far, with their letter. */
  ghost predicate LabelsAre(labels: map<User, nat>, bids: seq<Bid>, i: nat)
    requires i <= |bids|
  {
    && labels.Keys == Bidders(bids[..i])
    && forall u :: u in labels ==> HasBid(bids, u) && labels[u] == LetterOf(bids, u)
  }

  /** `bids` come in the order of their sequence numbers. */
  method GetBidHistory(bids: seq<Bid>, viewer: Option<Viewer>) returns (history: seq<Entry>)
    ensures history == History(bids, viewer)
    ensures |history| == |bids|
    ensures forall i :: 0 <= i < |bids| ==>
              && history[i].seqNo == bids[i].seqNo && history[i].amount == bids[i].amount
              && history[i].time == bids[i].time && history[i].status == bids[i].status
              && (history[i].isMine <==> viewer.Some? && viewer.value.user == bids[i].bidder)
  {
    hide LetterOf;
    hide FirstBid;
    hide HasBid;
    var isStaff := viewer.Some? && viewer.value.isStaff;
    var labels: map<User, nat> := map[];
    history := [];
    for i := 0 to |bids|
      invariant LabelsAre(labels, bids, i)
      invariant |history| == i && forall j :: 0 <= j < i ==> history[j] == EntryFor(bids, j, viewer)
    {
      var user := bids[i].bidder;
      LabelsStep(labels, bids, i);
      if user !in labels {
        labels := labels[user := 'A' as nat + |labels|];
      }
      var isMine := viewer.Some? && viewer.value.user == user;
      var shown := Letter(labels[user]);
      if isStaff {
        shown := Username(user);
      } else if isMine {
        shown := You;
      }
      history := history + [Entry(bids[i].seqNo, bids[i].amount, bids[i].time, shown, bids[i].status, isMine)];
    }
  }

  lemma LabelsStep(labels: map<User, nat>, bids: seq<Bid>, i: nat)
    requires i < |bids| && LabelsAre(labels, bids, i)
    ensures var user := bids[i].bidder;
            LabelsAre(if user in labels then labels else labels[user := 'A' as nat + |labels|], bids, i + 1)
  {
    hide LetterOf;
    hide FirstBid;
    hide Bidders;
    BiddersGrow(bids, i);
    if bids[i].bidder !in labels {
      NewBidder(bids, i);
      assert |labels| == |labels.Keys|;
    }
  }

  lemma NewBidder(bids: seq<Bid>, i: nat)
    requires i < |bids| && bids[i].bidder !in Bidders(bids[..i])
    ensures HasBid(bids, bids[i].bidder) && FirstBid(bids, bids[i].bidder) == i
    ensures LetterOf(bids, bids[i].bidder) == 'A' as nat + |Bidders(bids[..i])|
  {
  }

  lemma BiddersGrow(bids: seq<Bid>, i: nat)
    requires i < |bids|
    ensures Bidders(bids[..i + 1]) == Bidders(bids[..i]) + {bids[i].bidder}
  {
  }

  // ---- What the labels give away, and what they do not ----

  lemma StrictSubsetIsSmaller(a: set<User>, b: set<User>, u: User)
    requires a <= b && u in b && u !in a
    ensures |a| < |b|
  {
    assert |b| == |a| + |b - a| by { assert b == a + (b - a); }
    assert u in b - a;
  }

  /**
   * Whoever bid first is "Bidder A", and each bidder who comes in later gets the letter after those given
   * to everybody before.
   */
  lemma LettersAreConsecutive(bids: seq<Bid>, i: nat)
    requires i < |bids| && forall j :: 0 <= j < i ==> bids[j].bidder != bids[i].bidder
    ensures HasBid(bids, bids[i].bidder)
    ensures i == 0 ==> LetterOf(bids, bids[i].bidder) == 65
    ensures LetterOf(bids, bids[i].bidder) == 65 + |set j | 0 <= j < i :: bids[j].bidder|
  {
    assert bids[i].bidder !in Bidders(bids[..i]);
    NewBidder(bids, i);
    assert forall j :: 0 <= j < i ==> bids[..i][j] == bids[j];
    assert (set j | 0 <= j < i :: bids[j].bidder) == Bidders(bids[..i]);
  }

  /** Letters follow the order in which bidders first appeared, so no two bidders share one. */
  lemma LettersFollowFirstBids(bids: seq<Bid>, u: User, v: User)
    requires HasBid(bids, u) && HasBid(bids, v)
    ensures FirstBid(bids, u) < FirstBid(bids, v) ==> LetterOf(bids, u) < LetterOf(bids, v)
    ensures LetterOf(bids, u) == LetterOf(bids, v) <==> u == v
  {
    if FirstBid(bids, u) < FirstBid(bids, v) {
      EarlierHasSmallerLetter(bids, u, v);
    } else if FirstBid(bids, v) < FirstBid(bids, u) {
      EarlierHasSmallerLetter(bids, v, u);
    }
  }

  lemma EarlierHasSmallerLetter(bids: seq<Bid>, u: User, v: User)
    requires HasBid(bids, u) && HasBid(bids, v) && FirstBid(bids, u) < FirstBid(bids, v)
    ensures LetterOf(bids, u) < LetterOf(bids, v)
  {
    var p, q := FirstBid(bids, u), FirstBid(bids, v);
    forall w | w in Bidders(bids[..p]) ensures w in Bidders(bids[..q]) {
      var j :| 0 <= j < p && bids[..p][j].bidder == w;
      assert bids[..q][j].bidder == w;
    }
    assert bids[..q][p].bidder == u;
    assert u !in Bidders(bids[..p]);
    StrictSubsetIsSmaller(Bidders(bids[..p]), Bidders(bids[..q]), u);
  }

  /** To the public two entries carry the same label exactly when the same bidder made them. */
  lemma PublicLabelsTellBiddersApart(bids: seq<Bid>, i: nat, j: nat)
    requires i < |bids| && j < |bids|
    ensures History(bids, None)[i].shownAs == History(bids, None)[j].shownAs <==> bids[i].bidder == bids[j].bidder
    ensures History(bids, None)[i].shownAs.Letter?
  {
    assert HasBid(bids, bids[i].bidder) && HasBid(bids, bids[j].bidder);
    LettersFollowFirstBids(bids, bids[i].bidder, bids[j].bidder);
  }

  /** The letter depends only on who bid, in which order, up to the bidder's first bid. */
  lemma LetterIsStable(bids: seq<Bid>, later: seq<Bid>, user: User)
    requires BidsKept(bids, later) && HasBid(bids, user)
    ensures HasBid(later, user) && LetterOf(later, user) == LetterOf(bids, user)
  {
    var k := FirstBid(bids, user);
    assert later[k].bidder == user;
    var m := FirstBid(later, user);
    assert forall i :: 0 <= i < k ==> later[i].bidder == bids[i].bidder && bids[i].bidder != user;
    assert m == k;
    SameBidders(bids[..k], later[..k]);
  }

  lemma SameBidders(a: seq<Bid>, b: seq<Bid>)
    requires |a| == |b| && forall i :: 0 <= i < |a| ==> a[i].bidder == b[i].bidder
    ensures Bidders(a) == Bidders(b)
  {
  }

  /**
   * History is only ever added to: after any later bids and invalidations each earlier entry is shown
   * with the same label, amount, time and number, to the same viewer.
   */
  lemma HistoryIsStable(bids: seq<Bid>, later: seq<Bid>, viewer: Option<Viewer>, i: nat)
    requires BidsKept(bids, later) && i < |bids|
    ensures History(later, viewer)[i] == History(bids, viewer)[i].(status := later[i].status)
  {
    assert HasBid(bids, bids[i].bidder);
    LetterIsStable(bids, later, bids[i].bidder);
  }

  /** In particular over any continuation of any reachable auction. */
  lemma HistoryIsStableOverRuns(l: Lot, now: Time, calls: seq<Call>, viewer: Option<Viewer>, i: nat)
    requires Reachable(l, now) && Timely(now, calls) && i < |l.bids|
    ensures i < |Run(l, calls).bids|
    ensures History(Run(l, calls).bids, viewer)[i]
         == History(l.bids, viewer)[i].(status := Run(l, calls).bids[i].status)
  {
    hide Reachable;
    hide Apply;
    ReachableInv(l, now);
    RunEvolves(l, now, calls);
    HistoryIsStable(l.bids, Run(l, calls).bids, viewer, i);
  }

  /** New bids put entries behind the old history and change nothing in it. */
  lemma HistoryIsPrefix(bids: seq<Bid>, more: seq<Bid>, viewer: Option<Viewer>)
    ensures History(bids, viewer) == History(bids + more, viewer)[..|bids|]
  {
    forall i | 0 <= i < |bids| ensures History(bids, viewer)[i] == History(bids + more, viewer)[i] {
      HistoryIsStable(bids, bids + more, viewer, i);
    }
  }

  /** Somebody who is not staff sees the public history, with "You" on exactly their own bids. */
  lemma ViewersSeeThePublicHistory(bids: seq<Bid>, user: User, i: nat)
    requires i < |bids|
    ensures var seen := History(bids, Some(Viewer(user, false)))[i];
            var open := History(bids, None)[i];
            seen == if bids[i].bidder == user then open.(shownAs := You, isMine := true) else open
    ensures History(bids, Some(Viewer(user, true)))[i].shownAs == Username(bids[i].bidder)
  {
  }

  // ---- Recipients of staff updates ----

  /** The seller first, then everybody with an accepted bid, each once. */
  method UpdateRecipients(l: Lot) returns (recipients: seq<User>)
    ensures recipients != [] && recipients[0] == l.seller
    ensures forall u :: u in recipients <==>
              u == l.seller || exists i :: 0 <= i < |l.bids| && l.bids[i].status.Accepted? && l.bids[i].bidder == u
    ensures forall i, j :: 0 <= i < j < |recipients| ==> recipients[i] != recipients[j]
  {
    recipients := [l.seller];
    for k := 0 to |l.bids|
      invariant recipients != [] && recipients[0] == l.seller
      invariant forall u :: u in recipients <==>
                  u == l.seller || exists i :: 0 <= i < k && l.bids[i].status.Accepted? && l.bids[i].bidder == u
      invariant forall i, j :: 0 <= i < j < |recipients| ==> recipients[i] != recipients[j]
    {
      var bid := l.bids[k];
      if bid.status.Accepted? && bid.bidder !in recipients {
        recipients := recipients + [bid.bidder];
      }
    }
  }
}
