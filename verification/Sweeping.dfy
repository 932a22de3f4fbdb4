/** The sweep and the two management commands, as loops over the auctions a query returns. */
module Sweeping {
  import opened Basics
  import opened Records
  import Bidding
  import Lifecycle
  import opened Engine
  import opened Houses
  import opened Auctions

  datatype Query = StartDue | EndReached

  /** The filters of the two queries. */
  predicate Selects(q: Query, l: Lot, now: Time) {
    match q
    case StartDue => Lifecycle.DueToStart(l, now)
    case EndReached => Ended(l, now)
  }

  /** Primary keys of the rows a query returns. */
  function Matching(lots: seq<Lot>, q: Query, now: Time): (keys: seq<nat>)
    ensures forall j :: 0 <= j < |keys| ==> keys[j] < |lots|
    ensures forall i, j :: 0 <= i < j < |keys| ==> keys[i] != keys[j]
    ensures forall i: nat :: i in keys <==> i < |lots| && Selects(q, lots[i], now)
  {
    if lots == [] then []
    else
      var n := |lots| - 1;
      var before := Matching(lots[..n], q, now);
      if Selects(q, lots[n], now) then before + [n] else before
  }

  /** The scheduled auctions whose start has come. */
  ghost function DueRows(lots: seq<Lot>, now: Time): set<nat> {
    set i: nat | i < |lots| && lots[i].status == Scheduled && lots[i].startTime <= now
  }

  /** The live auctions whose end has come. */
  ghost function EndedRows(lots: seq<Lot>, now: Time): set<nat> {
    set i: nat | i < |lots| && lots[i].status == Live && lots[i].endTime <= now
  }

  /** The live auctions, and the scheduled ones whose start has come, if their end has come. */
  ghost function OverdueRows(lots: seq<Lot>, now: Time): set<nat> {
    set i: nat | i < |lots| && lots[i].endTime <= now &&
                 (lots[i].status == Live || (lots[i].status == Scheduled && lots[i].startTime <= now))
  }

  lemma {:induction false} KeysAreMembers(keys: seq<nat>, rows: set<nat>)
    requires forall i, j :: 0 <= i < j < |keys| ==> keys[i] != keys[j]
    requires forall i: nat :: i in keys <==> i in rows
    ensures |keys| == |rows|
  {
    if keys == [] {
      assert rows == {};
    } else {
      var n := |keys| - 1;
      assert forall i: nat :: i in keys <==> i in keys[..n] || i == keys[n];
      KeysAreMembers(keys[..n], rows - {keys[n]});
      assert rows == (rows - {keys[n]}) + {keys[n]};
    }
  }

  lemma MatchingIsExact(lots: seq<Lot>, now: Time)
    ensures |Matching(lots, StartDue, now)| == |DueRows(lots, now)|
    ensures |Matching(lots, EndReached, now)| == |EndedRows(lots, now)|
  {
    KeysAreMembers(Matching(lots, StartDue, now), DueRows(lots, now));
    KeysAreMembers(Matching(lots, EndReached, now), EndedRows(lots, now));
  }

  /** Nothing is due or overdue any more, and what was neither is exactly as it was. */
  ghost predicate LeavesNothingDue(lots: seq<Lot>, after: seq<Lot>, now: Time) {
    && |after| == |lots|
    && forall i: nat :: i < |lots| ==>
         && !(after[i].status == Scheduled && after[i].startTime <= now)
         && !(after[i].status == Live && after[i].endTime <= now)
         && (i !in OverdueRows(lots, now) && i !in DueRows(lots, now) ==> after[i] == lots[i])
  }

  lemma SweptRows(lots: seq<Lot>, now: Time, actor: Option<User>)
    ensures LeavesNothingDue(lots, SweptAll(lots, now, actor), now)
  {
    hide Swept;
    forall i | 0 <= i < |lots| { SweepOutcome(lots[i], now, actor); }
  }

  class AuctionHouse {
    var auctions: seq<Auction>

    /** Rows are distinct objects, and each is one that service calls lead to. */
    ghost predicate Valid(now: Time)
      reads this, auctions
    {
      && (forall i, j :: 0 <= i < j < |auctions| ==> auctions[i] != auctions[j])
      && forall i :: 0 <= i < |auctions| ==> auctions[i].Valid(now)
    }

    function Snapshots(): (lots: House)
      reads this, auctions
      ensures |lots| == |auctions|
    {
      seq(|auctions|, i requires 0 <= i < |auctions| reads this, auctions => auctions[i].Snapshot())
    }

    /** First loop of the sweep: a refused activation is passed over and not counted. */
    method ActivateDue(now: Time, actor: Option<User>) returns (count: nat)
      requires Valid(now)
      modifies auctions
      ensures Valid(now) && auctions == old(auctions)
      ensures forall i :: 0 <= i < |auctions| ==>
                            auctions[i].Snapshot() == Started(old(Snapshots())[i], now, actor)
      ensures count == |Matching(old(Snapshots()), StartDue, now)|
      ensures count == |DueRows(old(Snapshots()), now)|
    {
      hide DueRows;
      hide EndedRows;
      MatchingIsExact(Snapshots(), now);
      hide Reachable;
      hide Matching;
      hide Lifecycle.ActivateIfDue;
      hide Apply;
      ghost var lots := Snapshots();
      var due := Matching(Snapshots(), StartDue, now);
      count := 0;
      for j := 0 to |due|
        invariant Valid(now)
        invariant forall i :: 0 <= i < |auctions| ==>
                    auctions[i].Snapshot() == if i in due[..j] then Started(lots[i], now, actor) else lots[i]
        invariant count == j
      {
        var k := due[j];
        assert k !in due[..j];
        ActivationIsStarting(lots[k], now, actor);
        var refused := auctions[k].ActivateIfDue(now, actor);
        if refused.None? {
          count := count + 1;
        }
        assert due[..j + 1] == due[..j] + [k];
      }
      assert due[..|due|] == due;
      forall i | 0 <= i < |auctions| ensures auctions[i].Snapshot() == Started(lots[i], now, actor) {
        ActivationIsStarting(lots[i], now, actor);
      }
    }

    /** Second loop of the sweep: a refused closing is passed over and not counted. */
    method CloseEnded(now: Time, actor: Option<User>) returns (count: nat)
      requires Valid(now)
      modifies auctions
      ensures Valid(now) && auctions == old(auctions)
      ensures forall i :: 0 <= i < |auctions| ==>
                            auctions[i].Snapshot() == ClosedIfEnded(old(Snapshots())[i], now, actor)
      ensures count == |Matching(old(Snapshots()), EndReached, now)|
      ensures count == |EndedRows(old(Snapshots()), now)|
    {
      hide DueRows;
      hide EndedRows;
      MatchingIsExact(Snapshots(), now);
      hide Reachable;
      hide Matching;
      hide Bidding.CloseAuction;
      hide Apply;
      ghost var lots := Snapshots();
      var ended := Matching(Snapshots(), EndReached, now);
      count := 0;
      for j := 0 to |ended|
        invariant Valid(now)
        invariant forall i :: 0 <= i < |auctions| ==>
                    auctions[i].Snapshot() == if i in ended[..j] then ClosedIfEnded(lots[i], now, actor) else lots[i]
        invariant count == j
      {
        var k := ended[j];
        assert k !in ended[..j];
        ClosingTheEnded(lots[k], now, actor);
        var refused := auctions[k].CloseAuction(now, actor, AutoClosed);
        if refused.None? {
          count := count + 1;
        }
        assert ended[..j + 1] == ended[..j] + [k];
      }
      assert ended[..|ended|] == ended;
    }

    /**
     * Starts what is due and closes what has ended, in that order, so an auction that is both is started
     * and closed by one call. Returns how many were started and how many closed.
     */
    method SweepDue(now: Time, actor: Option<User>) returns (started: nat, closed: nat)
      requires Valid(now)
      modifies auctions
      ensures Valid(now) && auctions == old(auctions)
      ensures Snapshots() == SweptAll(old(Snapshots()), now, actor)
      ensures started == Count(old(Snapshots()), ToStart, now)
      ensures closed == Count(old(Snapshots()), ToClose, now)
      ensures started == |DueRows(old(Snapshots()), now)| && closed == |OverdueRows(old(Snapshots()), now)|
      ensures LeavesNothingDue(old(Snapshots()), Snapshots(), now)
    {
      hide LeavesNothingDue;
      hide DueRows;
      hide OverdueRows;
      hide Reachable;
      hide Apply;
      hide ClosedIfEnded;
      ghost var lots := Snapshots();
      started := ActivateDue(now, actor);
      ghost var afterStart := Snapshots();
      closed := CloseEnded(now, actor);
      assert Snapshots() == SweptAll(lots, now, actor);
      MatchingCounts(lots, afterStart, now, actor);
      CountIsExact(lots, now);
      SweptRows(lots, now, actor);
    }

    /** The command `activate_scheduled_auctions`: counts every row, and would stop at a refusal. */
    method ActivateScheduledAuctions(now: Time) returns (count: nat, stopped: Option<Refusal>)
      requires Valid(now)
      modifies auctions
      ensures Valid(now) && auctions == old(auctions)
      ensures forall i :: 0 <= i < |auctions| ==>
                            auctions[i].Snapshot() == Started(old(Snapshots())[i], now, None)
      ensures count == |Matching(old(Snapshots()), StartDue, now)| && stopped.None?
      ensures count == |DueRows(old(Snapshots()), now)|
    {
      hide DueRows;
      hide EndedRows;
      MatchingIsExact(Snapshots(), now);
      hide Reachable;
      hide Matching;
      hide Lifecycle.ActivateIfDue;
      hide Apply;
      ghost var lots := Snapshots();
      var due := Matching(Snapshots(), StartDue, now);
      count, stopped := 0, None;
      for j := 0 to |due|
        invariant Valid(now)
        invariant forall i :: 0 <= i < |auctions| ==>
                    auctions[i].Snapshot() == if i in due[..j] then Started(lots[i], now, None) else lots[i]
        invariant count == j && stopped.None?
      {
        var k := due[j];
        assert k !in due[..j];
        ActivationIsStarting(lots[k], now, None);
        stopped := auctions[k].ActivateIfDue(now, None);
        if stopped.Some? {
          return;
        }
        count := count + 1;
        assert due[..j + 1] == due[..j] + [k];
      }
      assert due[..|due|] == due;
      forall i | 0 <= i < |auctions| ensures auctions[i].Snapshot() == Started(lots[i], now, None) {
        ActivationIsStarting(lots[i], now, None);
      }
    }

    /** The command `close_ended_auctions`: counts every row, and would stop at a refusal. */
    method CloseEndedAuctions(now: Time) returns (count: nat, stopped: Option<Refusal>)
      requires Valid(now)
      modifies auctions
      ensures Valid(now) && auctions == old(auctions)
      ensures forall i :: 0 <= i < |auctions| ==>
                            auctions[i].Snapshot() == ClosedIfEnded(old(Snapshots())[i], now, None)
      ensures count == |Matching(old(Snapshots()), EndReached, now)| && stopped.None?
      ensures count == |EndedRows(old(Snapshots()), now)|
    {
      hide DueRows;
      hide EndedRows;
      MatchingIsExact(Snapshots(), now);
      hide Reachable;
      hide Matching;
      hide Bidding.CloseAuction;
      hide Apply;
      ghost var lots := Snapshots();
      var ended := Matching(Snapshots(), EndReached, now);
      count, stopped := 0, None;
      for j := 0 to |ended|
        invariant Valid(now)
        invariant forall i :: 0 <= i < |auctions| ==>
                    auctions[i].Snapshot() == if i in ended[..j] then ClosedIfEnded(lots[i], now, None) else lots[i]
        invariant count == j && stopped.None?
      {
        var k := ended[j];
        assert k !in ended[..j];
        ClosingTheEnded(lots[k], now, None);
        stopped := auctions[k].CloseAuction(now, None, AutoClosed);
        if stopped.Some? {
          return;
        }
        count := count + 1;
        assert ended[..j + 1] == ended[..j] + [k];
      }
      assert ended[..|ended|] == ended;
    }

    /** Both commands in order at one moment: the same house as a sweep without an actor, and the same counts. */
    method RunCommands(now: Time) returns (activated: nat, closed: nat)
      requires Valid(now)
      modifies auctions
      ensures Valid(now) && auctions == old(auctions)
      ensures Snapshots() == SweptAll(old(Snapshots()), now, None)
      ensures activated == Count(old(Snapshots()), ToStart, now)
      ensures closed == Count(old(Snapshots()), ToClose, now)
      ensures activated == |DueRows(old(Snapshots()), now)| && closed == |OverdueRows(old(Snapshots()), now)|
      ensures LeavesNothingDue(old(Snapshots()), Snapshots(), now)
    {
      hide LeavesNothingDue;
      hide DueRows;
      hide OverdueRows;
      hide Reachable;
      hide Apply;
      hide ClosedIfEnded;
      ghost var lots := Snapshots();
      var stopped;
      activated, stopped := ActivateScheduledAuctions(now);
      ghost var afterStart := Snapshots();
      closed, stopped := CloseEndedAuctions(now);
      assert Snapshots() == SweptAll(lots, now, None);
      MatchingCounts(lots, afterStart, now, None);
      CountIsExact(lots, now);
      SweptRows(lots, now, None);
    }
  }

  lemma ActivationIsStarting(l: Lot, now: Time, actor: Option<User>)
    ensures !Lifecycle.DueToStart(l, now) ==> Started(l, now, actor) == l
    ensures Lifecycle.ActivateIfDue(l, now, actor) == Ok(Started(l, now, actor))
  {
  }

  lemma ClosingTheEnded(l: Lot, now: Time, actor: Option<User>)
    requires Ended(l, now)
    ensures Bidding.CloseAuction(l, now, actor, AutoClosed) == Ok(ClosedIfEnded(l, now, actor))
  {
  }

  // ---- Counting ----

  datatype Tally = ToStart | ToClose

  predicate Counts(t: Tally, l: Lot, now: Time) {
    match t
    case ToStart => Lifecycle.DueToStart(l, now)
    case ToClose => ToBeClosed(l, now)
  }

  /** How many lots are to be started, or to be closed, by a sweep. */
  function Count(lots: seq<Lot>, t: Tally, now: Time): nat {
    if lots == [] then 0
    else
      var n := |lots| - 1;
      Count(lots[..n], t, now) + if Counts(t, lots[n], now) then 1 else 0
  }

  lemma {:induction false} MatchingCounts(lots: seq<Lot>, afterStart: seq<Lot>, now: Time, actor: Option<User>)
    requires |afterStart| == |lots|
    requires forall i :: 0 <= i < |lots| ==> afterStart[i] == Started(lots[i], now, actor)
    ensures |Matching(lots, StartDue, now)| == Count(lots, ToStart, now)
    ensures |Matching(afterStart, EndReached, now)| == Count(lots, ToClose, now)
  {
    hide Apply;
    if lots != [] {
      var n := |lots| - 1;
      MatchingCounts(lots[..n], afterStart[..n], now, actor);
      assert Ended(afterStart[n], now) <==> ToBeClosed(lots[n], now) by { SweepOutcome(lots[n], now, actor); }
    }
  }

  lemma CountIsExact(lots: seq<Lot>, now: Time)
    ensures Count(lots, ToStart, now) == |DueRows(lots, now)|
    ensures Count(lots, ToClose, now) == |OverdueRows(lots, now)|
  {
    hide Apply;
    hide Count;
    hide Matching;
    hide Started;
    var afterStart := seq(|lots|, i requires 0 <= i < |lots| => Started(lots[i], now, None));
    MatchingCounts(lots, afterStart, now, None);
    MatchingIsExact(lots, now);
    MatchingIsExact(afterStart, now);
    forall i | 0 <= i < |lots| { SweepOutcome(lots[i], now, None); }
    assert OverdueRows(lots, now) == EndedRows(afterStart, now);
  }

  /** After a sweep nothing is left to do: a second one at the same time reports (0, 0). */
  lemma {:induction false} SweepLeavesNothingDue(lots: seq<Lot>, now: Time, actor: Option<User>)
    ensures Count(SweptAll(lots, now, actor), ToStart, now) == 0
    ensures Count(SweptAll(lots, now, actor), ToClose, now) == 0
    ensures DueRows(SweptAll(lots, now, actor), now) == {} && OverdueRows(SweptAll(lots, now, actor), now) == {}
    ensures forall again :: SweptAll(SweptAll(lots, now, actor), now, again) == SweptAll(lots, now, actor)
  {
    hide Apply;
    hide Swept;
    var after := SweptAll(lots, now, actor);
    if lots != [] {
      var n := |lots| - 1;
      SweepLeavesNothingDue(lots[..n], now, actor);
      assert after[..n] == SweptAll(lots[..n], now, actor);
      SweepIsIdempotent(lots[n], now, actor, actor);
    }
    forall i | 0 <= i < |lots| { SweepOutcome(lots[i], now, actor); }
    forall again, i | 0 <= i < |lots| ensures Swept(after[i], now, again) == after[i] {
      SweepIsIdempotent(lots[i], now, actor, again);
    }
  }

  /** Whoever sweeps, the house is the one the commands leave, but for who appears in the logs. */
  lemma SweepMatchesCommands(lots: seq<Lot>, now: Time, actor: Option<User>)
    ensures forall i :: 0 <= i < |lots| ==>
                          SameButLogs(SweptAll(lots, now, actor)[i], SweptAll(lots, now, None)[i])
  {
    hide Apply;
    hide Swept;
    forall i | 0 <= i < |lots| ensures SameButLogs(Swept(lots[i], now, actor), Swept(lots[i], now, None)) {
      SweepersAgree(lots[i], now, actor, None);
    }
  }
}
