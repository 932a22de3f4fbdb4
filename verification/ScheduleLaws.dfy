/** The laws of the lifecycle and the staff controls, over every reachable lot. */
module ScheduleLaws {
  import opened Basics
  import opened Records
  import opened Amounts
  import Lifecycle
  import Bidding
  import Scheduling
  import opened Engine
  import opened Invariants
  import Histories
  import Pages

  /**
   * The status log is a path: it chains from `Draft` to the present status, every row is an edge of the
   * table, and it holds one closing when the auction has finished and none before.
   */
  lemma StatusLogIsAPath(l: Lot, now: Time)
    requires Reachable(l, now)
    ensures forall i :: 0 <= i < |l.statusLog| ==> l.statusLog[i].to in Lifecycle.Allowed(l.statusLog[i].from)
    ensures forall i :: 0 <= i < |l.statusLog| - 1 ==> l.statusLog[i].to == l.statusLog[i + 1].from
    ensures l.status == if l.statusLog == [] then Draft else l.statusLog[|l.statusLog| - 1].to
    ensures l.statusLog != [] ==> l.statusLog[0].from == Draft
    ensures Lifecycle.Closings(l.statusLog) == if l.status in Lifecycle.FINISHED then 1 else 0
  {
    hide Reachable;
    assert Lifecycle.IsPath(l.statusLog, l.status) by { ReachableInv(l, now); }
    Lifecycle.PathIsChained(l.statusLog, l.status);
    Lifecycle.ClosesAtMostOnce(l.statusLog, l.status);
  }

  // ---- The two commits of an approval ----

  /** An approval was accepted and its process stopped between the two commits. */
  predicate StopsHalfway(l: Lot, now: Time, op: Op) {
    op.Approve? && op.lost && Apply(l, now, op).Ok?
  }

  lemma OnlyHalfwayStopsApprove(l: Lot, now: Time, op: Op)
    requires l.status !in {Approved, Completed}
    ensures Step(l, now, op).status != Completed
    ensures Step(l, now, op).status == Approved <==> StopsHalfway(l, now, op)
  {
    hide Strip;
  }

  /** An auction that is merely approved is inert: no service call moves it on or changes it in any way. */
  lemma ApprovedIsInert(l: Lot, now: Time, op: Op)
    requires Inv(l, now) && l.status == Approved
    ensures Step(l, now, op) == l
  {
  }

  lemma {:induction false} ApprovedStays(l: Lot, start: Time, calls: seq<Call>)
    requires Inv(l, start) && l.status == Approved && Timely(start, calls)
    ensures Run(l, calls) == l
  {
    hide Apply;
    hide Inv;
    if calls != [] {
      var n := |calls| - 1;
      ApprovedStays(l, start, calls[..n]);
      RunKeeps(l, start, calls[..n]);
      InvAsTimePasses(l, Clock(start, calls[..n]), calls[n].at);
      ApprovedIsInert(l, calls[n].at, calls[n].op);
    }
  }

  ghost predicate SomeApprovalStopped(l: Lot, calls: seq<Call>) {
    exists i :: 0 <= i < |calls| && StopsHalfway(Run(l, calls[..i]), calls[i].at, calls[i].op)
  }

  lemma OneCallMore(l: Lot, calls: seq<Call>)
    requires calls != []
    ensures var n := |calls| - 1;
            SomeApprovalStopped(l, calls) <==>
              SomeApprovalStopped(l, calls[..n]) || StopsHalfway(Run(l, calls[..n]), calls[n].at, calls[n].op)
  {
    hide StopsHalfway;
    hide Run;
    var n := |calls| - 1;
    forall i | 0 <= i < n
      ensures StopsHalfway(Run(l, calls[..n][..i]), calls[..n][i].at, calls[..n][i].op)
         <==> StopsHalfway(Run(l, calls[..i]), calls[i].at, calls[i].op)
    {
      assert calls[..n][..i] == calls[..i] && calls[..n][i] == calls[i];
    }
  }

  /**
   * The two transitions of an approval are committed one after the other. An auction rests approved
   * exactly if some approval of it stopped between the commits, and from then on nothing ever changes
   * about it; no service call completes an auction.
   */
  lemma {:induction false} RestsApprovedIffStopped(l: Lot, start: Time, calls: seq<Call>)
    requires IsNewListing(l) && Timely(start, calls)
    ensures Run(l, calls).status == Approved <==> SomeApprovalStopped(l, calls)
    ensures Run(l, calls).status != Completed
  {
    hide Apply;
    hide Inv;
    hide StopsHalfway;
    if calls != [] {
      hide SomeApprovalStopped;
      var n := |calls| - 1;
      var mid := Run(l, calls[..n]);
      RestsApprovedIffStopped(l, start, calls[..n]);
      OneCallMore(l, calls);
      if mid.status == Approved {
        assert Inv(mid, calls[n].at) by {
          NewListingInv(l, start);
          RunKeeps(l, start, calls[..n]);
          InvAsTimePasses(mid, Clock(start, calls[..n]), calls[n].at);
        }
        ApprovedIsInert(mid, calls[n].at, calls[n].op);
      } else {
        OnlyHalfwayStopsApprove(mid, calls[n].at, calls[n].op);
      }
    }
  }

  /**
   * What other calls do between the two commits of an approval makes no difference: they find the
   * auction approved and leave it so, and the second commit gives what both at once would have given.
   */
  lemma CommitsMayBeApart(l: Lot, now: Time, actor: User, reason: string, between: seq<Call>)
    requires Reachable(l, now) && Timely(now, between) && Lifecycle.Approve(l, actor, reason, true).Ok?
    ensures var first := Lifecycle.Approve(l, actor, reason, true).value;
            && Run(first, between) == first
            && Lifecycle.Transition(Run(first, between), Scheduled, Some(actor), AutoScheduled)
               == Lifecycle.Approve(l, actor, reason, false)
  {
    hide Reachable;
    var first := Lifecycle.Approve(l, actor, reason, true).value;
    assert first == Step(l, now, Approve(actor, reason, true));
    hide Apply;
    assert Inv(first, now) by {
      ReachableInv(l, now);
      StepKeeps(l, now, Approve(actor, reason, true));
    }
    ApprovedStays(first, now, between);
  }

  /**
   * What may be rescheduled, and to what. While scheduled: start and end, the start only to a future
   * moment. While live: the end alone, and only to a later one that is still to come. While paused: the
   * end alone, to any moment still to come. In any other status: nothing.
   */
  lemma RescheduleRules(
    l: Lot, now: Time, actor: User, reason: string, start: Option<Time>, end: Option<Time>)
    requires Reachable(l, now)
    ensures Scheduling.Reschedule(l, now, actor, reason, start, end).Ok? <==>
              && Strip(reason) != ""
              && match l.status
                 case Scheduled =>
                   && (start.Some? || end.Some?)
                   && (start.Some? ==> now < start.value)
                   && now < (if end.Some? then end.value else l.endTime)
                   && (if start.Some? then start.value else l.startTime) < (if end.Some? then end.value else l.endTime)
                 case Live => start.None? && end.Some? && end.value > l.endTime && end.value > now
                 case Paused => start.None? && end.Some? && end.value > now
                 case _ => false
    ensures Scheduling.Reschedule(l, now, actor, reason, start, end).Ok? ==>
              var l' := Scheduling.Reschedule(l, now, actor, reason, start, end).value;
              && l' == l.(startTime := l'.startTime, endTime := l'.endTime, audit := l'.audit)
              && l'.startTime == (if start.Some? then start.value else l.startTime)
              && l'.endTime == (if end.Some? then end.value else l.endTime)
  {
    hide Reachable;
    ReachableInv(l, now);
  }

  /**
   * Starting by hand opens bidding at once, however early, and works exactly while the end is still to
   * come: any eligible user other than the seller can then place the first bid, from the starting price on.
   */
  lemma StartNowOpensBidding(l: Lot, now: Time, actor: User, account: Bidding.Account, amount: Amount)
    requires Reachable(l, now)
    ensures Scheduling.StartNow(l, now, actor).Ok? <==> l.status == Scheduled && now < l.endTime
    ensures Scheduling.StartNow(l, now, actor).Ok? ==>
              var l' := Scheduling.StartNow(l, now, actor).value;
              && l'.startTime == (if l.startTime > now then now else l.startTime) && l'.endTime == l.endTime
              && (account.profile.Some? && account.profile.value.IsEligible() && account.user != l.seller ==>
                    (Bidding.PlaceBid(l', now, account, amount).Ok? <==> Pages.Offers(amount, l.terms.startingPrice)))
  {
    hide Reachable;
    hide Pages.Offers;
    if Scheduling.StartNow(l, now, actor).Ok? {
      assert l.highest.None? by { ReachableInv(l, now); }
      var l' := Scheduling.StartNow(l, now, actor).value;
      assert l' == Step(l, now, StartNow(actor));
      ReachableStep(l, now, now, StartNow(actor));
      hide Bidding.PlaceBid;
      Pages.OfferedMinimumIsExact(l', now, account, amount);
    }
  }

  predicate Stopped(l: Lot) {
    l.status in {Paused, Cancelled}
  }

  lemma StoppedTakesNoBid(l: Lot, now: Time, op: Op)
    requires Stopped(l) && !op.Resume?
    ensures Stopped(Step(l, now, op)) && |Step(l, now, op).bids| == |l.bids|
    ensures op.PlaceBid? ==> Apply(l, now, op).Err?
  {
    hide Strip;
  }

  lemma {:induction false} StoppedUntilResumed(l: Lot, calls: seq<Call>)
    requires Stopped(l) && forall i :: 0 <= i < |calls| ==> !calls[i].op.Resume?
    ensures Stopped(Run(l, calls)) && |Run(l, calls).bids| == |l.bids|
  {
    hide Apply;
    hide Stopped;
    if calls != [] {
      var n := |calls| - 1;
      StoppedUntilResumed(l, calls[..n]);
      StoppedTakesNoBid(Run(l, calls[..n]), calls[n].at, calls[n].op);
    }
  }

  /** Once an auction is paused, whatever else is done, every bid is refused until somebody calls for its resumption. */
  lemma PauseStopsBidding(
    l: Lot, now: Time, actor: User, reason: string, calls: seq<Call>, at: Time, account: Bidding.Account,
    amount: Amount)
    requires forall i :: 0 <= i < |calls| ==> !calls[i].op.Resume?
    ensures Scheduling.Pause(l, actor, reason).Ok? <==> l.status == Live && Strip(reason) != ""
    ensures Scheduling.Pause(l, actor, reason).Ok? ==>
              var l' := Run(Scheduling.Pause(l, actor, reason).value, calls);
              Bidding.PlaceBid(l', at, account, amount).Err? && |l'.bids| == |l.bids|
  {
    if Scheduling.Pause(l, actor, reason).Ok? {
      var paused := Scheduling.Pause(l, actor, reason).value;
      StoppedUntilResumed(paused, calls);
      StoppedTakesNoBid(Run(paused, calls), at, PlaceBid(account, amount));
    }
  }

  /** Pausing and resuming gives back the same auction, open for bids, if the end has not passed meanwhile. */
  lemma PauseResumeRoundTrip(l: Lot, now: Time, actor: User, reason: string, later: Time, other: User)
    requires Reachable(l, now) && Scheduling.Pause(l, actor, reason).Ok? && now <= later
    ensures var r := Scheduling.Resume(Scheduling.Pause(l, actor, reason).value, later, other);
            && (r.Ok? <==> later < l.endTime)
            && (r.Ok? ==> SameButLogs(r.value, l) && Pages.IsBiddable(r.value, later))
  {
    hide Reachable;
    ReachableInv(l, now);
  }

  /** Cancelling is possible before closing only, for good, and leaves bids and schedule on record. */
  lemma CancellingKeepsTheRecord(l: Lot, now: Time, actor: User, reason: string, calls: seq<Call>)
    requires Reachable(l, now)
    ensures Scheduling.CancelAuction(l, actor, reason).Ok? <==>
              l.status in {Scheduled, Live, Paused} && Strip(reason) != ""
    ensures Scheduling.CancelAuction(l, actor, reason).Ok? && Timely(now, calls) ==>
              var l' := Scheduling.CancelAuction(l, actor, reason).value;
              && l' == l.(status := Cancelled, statusLog := l'.statusLog, audit := l'.audit)
              && Run(l', calls).status == Cancelled
              && Histories.BidsKept(l.bids, Run(l', calls).bids)
  {
    hide Reachable;
    if Scheduling.CancelAuction(l, actor, reason).Ok? && Timely(now, calls) {
      var l' := Scheduling.CancelAuction(l, actor, reason).value;
      assert l' == Step(l, now, CancelAuction(actor, reason));
      hide Apply;
      ReachableInv(l, now);
      StepKeeps(l, now, CancelAuction(actor, reason));
      Histories.RunEvolves(l', now, calls);
    }
  }

  /**
   * Ending by hand has the outcome of the automatic close. Only the logs tell them apart, and no call ever
   * reads those: after the same further calls the rows are still the same.
   */
  lemma EndNowClosesAlike(l: Lot, now: Time, actor: User, reason: string, calls: seq<Call>)
    ensures Scheduling.EndNow(l, now, actor, reason).Ok? <==> l.status == Live && Strip(reason) != ""
    ensures Scheduling.EndNow(l, now, actor, reason).Ok? ==>
              && Bidding.CloseAuction(l, now, None, AutoClosed).Ok?
              && SameButLogs(Run(Scheduling.EndNow(l, now, actor, reason).value, calls),
                             Run(Bidding.CloseAuction(l, now, None, AutoClosed).value, calls))
  {
    if Scheduling.EndNow(l, now, actor, reason).Ok? {
      var byHand := Scheduling.EndNow(l, now, actor, reason).value;
      var automatic := Bidding.CloseAuction(l, now, None, AutoClosed).value;
      assert SameButLogs(byHand, automatic);
      RunIgnoresLogs(byHand, automatic, calls);
    }
  }
}
