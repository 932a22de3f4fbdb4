/** Any number of transactions on one auction row, interleaved step by step. */
module Interleaving {
  import opened Basics
  import opened Records
  import Bidding
  import opened Engine
  import opened Histories
  import opened Locking
  import opened Examples

  /**
   * `Loaded` has read the row but not yet decided. `Done(true)` finished by commit or by raising;
   * `Done(false)` was lost and rolled back.
   */
  datatype Phase =
    | Waiting
    | Locked
    | Loaded
    | Writing(written: seq<Write>, todo: seq<Write>)
    | Done(served: bool)

  /**
   * A call under way. `argument` is what its caller had read of the auction, without a lock, when it made
   * the call; `copy` is the row it reads after locking, with its own writes since; `at` the time it takes
   * when it decides.
   */
  datatype Txn = Txn(op: Op, argument: Lot, phase: Phase, copy: Lot, at: Time)

  /**
   * `committed` is what other transactions can see; `working` what the database holds for the holder of
   * the lock. `lockOrder` and `releaseOrder` record who took and who gave up the lock, oldest first.
   */
  datatype System = System(
    committed: Lot, working: Lot, holder: Option<nat>, txns: seq<Txn>, clock: Time,
    lockOrder: seq<nat>, releaseOrder: seq<nat>)

  datatype Action =
    | Tick(to: Time)
    | Fetch(t: nat)
    | TakeLock(t: nat)
    | Read(t: nat)
    | Decide(t: nat)
    | WriteNext(t: nat)
    | Reread(t: nat)
    | Commit(t: nat)
    | Crash(t: nat)

  predicate Holds(s: System, t: nat) {
    t < |s.txns| && s.holder == Some(t)
  }

  function Release(s: System, t: nat, served: bool, row: Lot): System
    requires t < |s.txns|
  {
    s.(committed := row, working := row, holder := None,
       txns := s.txns[t := s.txns[t].(phase := Done(served))],
       releaseOrder := s.releaseOrder + [t])
  }

  /** One action; an action that is not possible does nothing. */
  function Acted(s: System, a: Action): System {
    match a
    case Tick(to) => if s.clock <= to then s.(clock := to) else s
    case Fetch(t) =>
      if t < |s.txns| && s.txns[t].phase.Waiting?
      then s.(txns := s.txns[t := s.txns[t].(argument := s.committed)]) else s
    case TakeLock(t) =>
      if t < |s.txns| && s.txns[t].phase.Waiting? && s.holder.None?
      then s.(holder := Some(t), working := s.committed, lockOrder := s.lockOrder + [t],
              txns := s.txns[t := s.txns[t].(phase := Locked)])
      else s
    case Read(t) =>
      if Holds(s, t) && s.txns[t].phase.Locked?
      then s.(txns := s.txns[t := s.txns[t].(copy := s.working, phase := Loaded)]) else s
    case Decide(t) =>
      if Holds(s, t) && s.txns[t].phase.Loaded? && TakesLock(s.txns[t].op) then
        var plan := Plan(s.txns[t].copy, s.txns[t].argument, s.clock, s.txns[t].op);
        var deciding := s.(txns := s.txns[t := s.txns[t].(at := s.clock)]);
        if plan.Err? then Release(deciding, t, true, s.committed)
        else deciding.(txns := deciding.txns[t := deciding.txns[t].(phase := Writing([], plan.value))])
      else s
    case WriteNext(t) =>
      if Holds(s, t) && s.txns[t].phase.Writing? && s.txns[t].phase.todo != [] then
        var w, rest := s.txns[t].phase.todo[0], s.txns[t].phase.todo[1..];
        s.(working := Written(s.working, w),
           txns := s.txns[t := s.txns[t].(
             copy := Written(s.txns[t].copy, w), phase := Writing(s.txns[t].phase.written + [w], rest))])
      else s
    case Reread(t) =>
      if Holds(s, t) && s.txns[t].phase.Writing?
      then s.(txns := s.txns[t := s.txns[t].(copy := s.working)]) else s
    case Commit(t) =>
      if Holds(s, t) && s.txns[t].phase.Writing? && s.txns[t].phase.todo == []
      then Release(s, t, true, s.working) else s
    case Crash(t) => if Holds(s, t) then Release(s, t, false, s.committed) else s
  }

  function Interleaved(s: System, actions: seq<Action>): System {
    if actions == [] then s
    else Acted(Interleaved(s, actions[..|actions| - 1]), actions[|actions| - 1])
  }

  /** What the caller passes in was read from the row at this or some earlier moment. */
  ghost predicate ArgumentOk(txn: Txn, row: Lot) {
    TakesLock(txn.op) && HasItsBid(txn.argument, txn.op) && BidsKept(txn.argument.bids, row.bids)
  }

  /** A row at rest and transactions waiting for it, each with what its caller has read, however long ago. */
  ghost predicate AtRest(s: System) {
    && s.holder.None? && s.working == s.committed && s.lockOrder == [] && s.releaseOrder == []
    && forall t :: 0 <= t < |s.txns| ==> s.txns[t].phase.Waiting? && ArgumentOk(s.txns[t], s.committed)
  }

  /** The calls that were served, in the order given, as one run. */
  function Served(txns: seq<Txn>, order: seq<nat>): seq<Call> {
    if order == [] then []
    else
      var t := order[|order| - 1];
      Served(txns, order[..|order| - 1])
      + if t < |txns| && txns[t].phase == Done(true) then [Call(txns[t].at, txns[t].op)] else []
  }

  function SerialRun(s: System): seq<Call> {
    Served(s.txns, s.releaseOrder)
  }

  /**
   * What the holder of the lock knows and does: its copy is the committed row with its own writes so far,
   * and these, with those to come, are what it would decide on the committed row.
   */
  ghost predicate HolderOk(s: System, since: Time) {
    s.holder.Some? ==>
      var t := s.holder.value;
      && t < |s.txns|
      && var txn := s.txns[t];
         match txn.phase
         case Locked => s.working == s.committed
         case Loaded => s.working == s.committed && txn.copy == s.committed
         case Writing(written, todo) =>
           && s.working == AllWritten(s.committed, written) && txn.copy == s.working
           && since <= txn.at <= s.clock
           && TakesLock(txn.op) && Plan(s.committed, txn.argument, txn.at, txn.op) == Ok(written + todo)
         case _ => false
  }

  predicate MayHold(phase: Phase) {
    phase.Locked? || phase.Loaded? || phase.Writing?
  }

  ghost predicate SystemOk(s: System, row: Lot, start: Time) {
    && (forall t :: 0 <= t < |s.txns| ==>
          ArgumentOk(s.txns[t], s.committed) && (MayHold(s.txns[t].phase) ==> s.holder == Some(t)))
    && s.lockOrder == s.releaseOrder + (if s.holder.Some? then [s.holder.value] else [])
    && (forall i :: 0 <= i < |s.releaseOrder| ==>
          s.releaseOrder[i] < |s.txns| && s.txns[s.releaseOrder[i]].phase.Done?)
    && s.committed == Run(row, SerialRun(s))
    && Timely(start, SerialRun(s)) && Clock(start, SerialRun(s)) <= s.clock
    && HolderOk(s, Clock(start, SerialRun(s)))
  }

  lemma {:induction false} ServedFrame(a: seq<Txn>, b: seq<Txn>, order: seq<nat>)
    requires |a| == |b|
    requires forall i :: 0 <= i < |order| ==> order[i] < |a| && a[order[i]] == b[order[i]]
    ensures Served(a, order) == Served(b, order)
  {
    if order != [] {
      var n := |order| - 1;
      assert forall i :: 0 <= i < n ==> order[..n][i] == order[i];
      ServedFrame(a, b, order[..n]);
      assert order[n] < |a|;
    }
  }

  /** Changing a transaction that has not released the lock leaves the serial run as it was. */
  lemma ServedUnchanged(s: System, t: nat, txn: Txn)
    requires t < |s.txns| && !s.txns[t].phase.Done?
    requires forall i :: 0 <= i < |s.releaseOrder| ==>
               s.releaseOrder[i] < |s.txns| && s.txns[s.releaseOrder[i]].phase.Done?
    ensures Served(s.txns[t := txn], s.releaseOrder) == SerialRun(s)
  {
    ServedFrame(s.txns[t := txn], s.txns, s.releaseOrder);
  }

  /** Releasing the lock adds the call to the serial run if it was served. */
  lemma ReleaseServes(s: System, t: nat, served: bool, next: Lot)
    requires t < |s.txns| && !s.txns[t].phase.Done?
    requires forall i :: 0 <= i < |s.releaseOrder| ==>
               s.releaseOrder[i] < |s.txns| && s.txns[s.releaseOrder[i]].phase.Done?
    ensures SerialRun(Release(s, t, served, next))
         == SerialRun(s) + if served then [Call(s.txns[t].at, s.txns[t].op)] else []
  {
    var s' := Release(s, t, served, next);
    ServedUnchanged(s, t, s'.txns[t]);
    assert s'.releaseOrder[..|s.releaseOrder|] == s.releaseOrder;
  }

  lemma StepKeepsBids(l: Lot, now: Time, op: Op)
    ensures BidsKept(l.bids, Step(l, now, op).bids)
  {
    hide Apply;
    if l.bids != [] { StepOnBid(l, now, op, |l.bids| - 1); }
    forall i: nat | i < |l.bids| { StepOnBid(l, now, op, i); }
  }

  /** What was read from the row stays an earlier version of it whatever is committed. */
  lemma ArgumentStaysOk(txn: Txn, row: Lot, at: Time, op: Op)
    requires ArgumentOk(txn, row)
    ensures ArgumentOk(txn, Step(row, at, op))
  {
    hide Apply;
    StepKeepsBids(row, at, op);
  }

  lemma ReleaseOk(s: System, row: Lot, start: Time, t: nat, served: bool, next: Lot)
    requires SystemOk(s, row, start) && Holds(s, t)
    requires served ==> Clock(start, SerialRun(s)) <= s.txns[t].at <= s.clock
    requires next == if served then Step(s.committed, s.txns[t].at, s.txns[t].op) else s.committed
    ensures SystemOk(Release(s, t, served, next), row, start)
  {
    hide TakesLock;
    hide Step;
    hide AllWritten;
    hide Served;
    hide ArgumentOk;
    hide Plan;
    ReleaseServes(s, t, served, next);
    var s' := Release(s, t, served, next);
    var before := SerialRun(s);
    forall u | 0 <= u < |s.txns| ensures ArgumentOk(s'.txns[u], next) {
      if served { ArgumentStaysOk(s.txns[u], s.committed, s.txns[t].at, s.txns[t].op); }
      SameArgument(s.txns[u], s'.txns[u], next);
    }
    if served {
      var after := before + [Call(s.txns[t].at, s.txns[t].op)];
      assert after[..|before|] == before;
    } else {
      assert before + [] == before;
    }
  }

  lemma SameArgument(a: Txn, b: Txn, row: Lot)
    requires ArgumentOk(a, row) && b.op == a.op && (b.argument == a.argument || b.argument == row)
    ensures ArgumentOk(b, row)
  {
  }

  lemma LockingOk(s: System, row: Lot, start: Time, a: Action)
    requires SystemOk(s, row, start)
    requires a.Tick? || a.Fetch? || a.TakeLock? || a.Read?
    ensures SystemOk(Acted(s, a), row, start)
  {
    hide Served;
    hide Apply;
    hide Plan;
    hide Written;
    hide ArgumentOk;
    var s' := Acted(s, a);
    match a
    case Tick(_) =>
    case Fetch(t) =>
      if t < |s.txns| && s.txns[t].phase.Waiting? {
        ServedUnchanged(s, t, s'.txns[t]);
        SameArgument(s.txns[t], s'.txns[t], s.committed);
      }
    case TakeLock(t) =>
      if t < |s.txns| && s.txns[t].phase.Waiting? {
        ServedUnchanged(s, t, s.txns[t].(phase := Locked));
        SameArgument(s.txns[t], s.txns[t].(phase := Locked), s.committed);
      }
    case Read(t) =>
      if Holds(s, t) && s.txns[t].phase.Locked? {
        ServedUnchanged(s, t, s'.txns[t]);
        SameArgument(s.txns[t], s'.txns[t], s.committed);
      }
  }

  /** Deciding with an argument of any age is deciding with the row itself. */
  lemma ArgumentsAlike(txn: Txn, row: Lot, now: Time)
    requires ArgumentOk(txn, row)
    ensures Plan(row, txn.argument, now, txn.op) == Plan(row, row, now, txn.op)
  {
    PlanReadsOneColumn(row, txn.argument, row, now, txn.op);
  }

  lemma DecideOk(s: System, row: Lot, start: Time, t: nat)
    requires SystemOk(s, row, start)
    ensures SystemOk(Acted(s, Decide(t)), row, start)
  {
    hide Served;
    hide Apply;
    hide Plan;
    hide Written;
    hide ArgumentOk;
    if Holds(s, t) && s.txns[t].phase.Loaded? && TakesLock(s.txns[t].op) {
      var op := s.txns[t].op;
      var deciding := s.txns[t].(at := s.clock);
      var plan := Plan(s.committed, s.txns[t].argument, s.clock, op);
      ServedUnchanged(s, t, deciding);
      SameArgument(s.txns[t], deciding, s.committed);
      if plan.Err? {
        var s1 := s.(txns := s.txns[t := deciding]);
        assert SystemOk(s1, row, start);
        ArgumentsAlike(s.txns[t], s.committed, s.clock);
        PlanCarriesOut(s.committed, s.clock, op);
        ReleaseOk(s1, row, start, t, true, s.committed);
      } else {
        var writing := deciding.(phase := Writing([], plan.value));
        ServedUnchanged(s, t, writing);
        SameArgument(s.txns[t], writing, s.committed);
        assert s.txns[t := deciding][t := writing] == s.txns[t := writing];
        assert [] + plan.value == plan.value;
      }
    }
  }

  lemma WriteOk(s: System, row: Lot, start: Time, a: Action)
    requires SystemOk(s, row, start)
    requires a.WriteNext? || a.Reread?
    ensures SystemOk(Acted(s, a), row, start)
  {
    hide Served;
    hide Apply;
    hide Plan;
    hide Written;
    hide ArgumentOk;
    var t := a.t;
    if Holds(s, t) && s.txns[t].phase.Writing? {
      var s' := Acted(s, a);
      ServedUnchanged(s, t, s'.txns[t]);
      SameArgument(s.txns[t], s'.txns[t], s.committed);
      if a.WriteNext? && s.txns[t].phase.todo != [] {
        var written, todo := s.txns[t].phase.written, s.txns[t].phase.todo;
        WrittenParts(s.committed, written, [todo[0]]);
        WrittenFew(s.working, todo[0], todo[0], todo[0]);
        assert written + [todo[0]] + todo[1..] == written + todo;
      }
    }
  }

  lemma FinishOk(s: System, row: Lot, start: Time, a: Action)
    requires SystemOk(s, row, start)
    requires a.Commit? || a.Crash?
    ensures SystemOk(Acted(s, a), row, start)
  {
    hide Served;
    hide Apply;
    hide Plan;
    hide Written;
    hide ArgumentOk;
    var t := a.t;
    if Holds(s, t) {
      if a.Crash? {
        ReleaseOk(s, row, start, t, false, s.committed);
      } else if s.txns[t].phase.Writing? && s.txns[t].phase.todo == [] {
        var txn := s.txns[t];
        assert txn.phase.written + txn.phase.todo == txn.phase.written;
        ArgumentsAlike(txn, s.committed, txn.at);
        PlanCarriesOut(s.committed, txn.at, txn.op);
        ReleaseOk(s, row, start, t, true, s.working);
      }
    }
  }

  lemma {:induction false} InterleavingOk(s: System, actions: seq<Action>)
    requires AtRest(s)
    ensures SystemOk(Interleaved(s, actions), s.committed, s.clock)
  {
    hide Acted;
    hide SystemOk;
    if actions == [] {
      assert SystemOk(s, s.committed, s.clock) by { RestIsOk(s); }
    } else {
      var n := |actions| - 1;
      InterleavingOk(s, actions[..n]);
      var before := Interleaved(s, actions[..n]);
      match actions[n]
      case Decide(t) => DecideOk(before, s.committed, s.clock, t);
      case WriteNext(_) => WriteOk(before, s.committed, s.clock, actions[n]);
      case Reread(_) => WriteOk(before, s.committed, s.clock, actions[n]);
      case Commit(_) => FinishOk(before, s.committed, s.clock, actions[n]);
      case Crash(_) => FinishOk(before, s.committed, s.clock, actions[n]);
      case _ => LockingOk(before, s.committed, s.clock, actions[n]);
    }
  }

  lemma RestIsOk(s: System)
    requires AtRest(s)
    ensures SystemOk(s, s.committed, s.clock)
  {
    hide Plan;
    hide AllWritten;
    hide ArgumentOk;
  }

  /** The lock was taken once by each transaction that is past waiting for it, and by no other. */
  ghost predicate OrderOk(s: System) {
    && (forall i, j :: 0 <= i < j < |s.lockOrder| ==> s.lockOrder[i] != s.lockOrder[j])
    && (forall i :: 0 <= i < |s.lockOrder| ==> s.lockOrder[i] < |s.txns|)
    && (forall t: nat :: t < |s.txns| ==> (t in s.lockOrder <==> !s.txns[t].phase.Waiting?))
    && (s.holder.Some? && s.holder.value < |s.txns| ==> !s.txns[s.holder.value].phase.Waiting?)
  }

  lemma ActionKeepsOrder(s: System, a: Action)
    requires OrderOk(s)
    ensures OrderOk(Acted(s, a))
  {
    hide Plan;
    hide Written;
    hide TakesLock;
  }

  lemma {:induction false} InterleavingKeepsOrder(s: System, actions: seq<Action>)
    requires AtRest(s)
    ensures OrderOk(Interleaved(s, actions))
  {
    hide Acted;
    hide ArgumentOk;
    if actions != [] {
      var n := |actions| - 1;
      InterleavingKeepsOrder(s, actions[..n]);
      ActionKeepsOrder(Interleaved(s, actions[..n]), actions[n]);
    }
  }

  /**
   * Serialisability. Whatever transactions wait for the row and however their steps interleave, with
   * crashes anywhere, what is committed is what the served calls make of the original row when run one
   * at a time in the order in which they took the lock; that order names each transaction that is past
   * waiting, and so each served one, exactly once. While one holds the lock, what it has read is the
   * committed row, its copy and the database hold that row with exactly its own writes, and what it has
   * written and has yet to write is what it would decide on the committed row.
   */
  lemma RowLockSerialises(s: System, actions: seq<Action>)
    requires AtRest(s)
    ensures var e := Interleaved(s, actions);
            && e.committed == Run(s.committed, Served(e.txns, e.lockOrder))
            && Timely(s.clock, Served(e.txns, e.lockOrder))
            && (forall i, j :: 0 <= i < j < |e.lockOrder| ==> e.lockOrder[i] != e.lockOrder[j])
            && (forall t: nat :: t < |e.txns| ==> (t in e.lockOrder <==> !e.txns[t].phase.Waiting?))
            && (e.holder.Some? && e.holder.value < |e.txns| ==>
                  var txn := e.txns[e.holder.value];
                  && (txn.phase.Loaded? ==> txn.copy == e.committed)
                  && (txn.phase.Writing? ==>
                        && txn.copy == AllWritten(e.committed, txn.phase.written) && e.working == txn.copy
                        && TakesLock(txn.op)
                        && Plan(e.committed, txn.argument, txn.at, txn.op)
                           == Ok(txn.phase.written + txn.phase.todo)))
  {
    hide Apply;
    hide Acted;
    hide Plan;
    hide AllWritten;
    hide ArgumentOk;
    var e := Interleaved(s, actions);
    InterleavingOk(s, actions);
    InterleavingKeepsOrder(s, actions);
    if e.holder.Some? {
      var n := |e.releaseOrder|;
      assert e.lockOrder == e.releaseOrder + [e.holder.value];
      assert e.lockOrder[..n] == e.releaseOrder && e.lockOrder[n] == e.holder.value;
      assert !e.txns[e.holder.value].phase.Done?;
      assert Served(e.txns, e.lockOrder) == Served(e.txns, e.lockOrder[..n]) + [];
      assert Served(e.txns, e.lockOrder) == SerialRun(e);
    } else {
      assert e.lockOrder == e.releaseOrder;
    }
  }

  // ---- Who is lost, and that nobody else is ----

  ghost predicate CrashedAsHolder(s: System, actions: seq<Action>, t: nat) {
    exists i :: 0 <= i < |actions| && actions[i] == Crash(t) && Holds(Interleaved(s, actions[..i]), t)
  }

  lemma OneActionMore(s: System, actions: seq<Action>, t: nat)
    requires actions != []
    ensures var n := |actions| - 1;
            CrashedAsHolder(s, actions, t) <==>
              CrashedAsHolder(s, actions[..n], t) ||
              (actions[n] == Crash(t) && Holds(Interleaved(s, actions[..n]), t))
  {
    hide Holds;
    hide Interleaved;
    var n := |actions| - 1;
    forall i | 0 <= i < n
      ensures Holds(Interleaved(s, actions[..n][..i]), t) <==> Holds(Interleaved(s, actions[..i]), t)
      ensures actions[..n][i] == actions[i]
    {
      assert actions[..n][..i] == actions[..i];
    }
  }

  lemma ActionLoses(s: System, a: Action, t: nat)
    requires t < |s.txns|
    requires s.holder == Some(t) ==> !s.txns[t].phase.Done?
    ensures |Acted(s, a).txns| == |s.txns|
    ensures Acted(s, a).txns[t].phase == Done(false) <==>
              s.txns[t].phase == Done(false) || (a == Crash(t) && Holds(s, t))
  {
    hide Plan;
    hide Written;
    hide TakesLock;
  }

  /** A transaction is lost and rolled back exactly if it crashed while it held the lock. */
  lemma {:induction false} LostIffCrashed(s: System, actions: seq<Action>, t: nat)
    requires AtRest(s) && t < |s.txns|
    ensures |Interleaved(s, actions).txns| == |s.txns|
    ensures Interleaved(s, actions).txns[t].phase == Done(false) <==> CrashedAsHolder(s, actions, t)
  {
    if actions != [] {
      hide Acted;
      hide ArgumentOk;
      hide CrashedAsHolder;
      var n := |actions| - 1;
      LostIffCrashed(s, actions[..n], t);
      OneActionMore(s, actions, t);
      if Interleaved(s, actions[..n]).holder == Some(t) { HolderIsNotDone(s, actions[..n], t); }
      ActionLoses(Interleaved(s, actions[..n]), actions[n], t);
    }
  }

  lemma HolderIsNotDone(s: System, actions: seq<Action>, t: nat)
    requires AtRest(s) && t < |Interleaved(s, actions).txns| && Interleaved(s, actions).holder == Some(t)
    ensures !Interleaved(s, actions).txns[t].phase.Done?
  {
    hide ArgumentOk;
    InterleavingOk(s, actions);
  }

  // ---- That a call takes effect ----

  lemma {:induction false} InterleavedSplits(s: System, a: seq<Action>, b: seq<Action>)
    ensures Interleaved(s, a + b) == Interleaved(Interleaved(s, a), b)
  {
    hide Acted;
    if b == [] {
      assert a + b == a;
    } else {
      var n := |b| - 1;
      InterleavedSplits(s, a, b[..n]);
      assert (a + b)[..|a| + n] == a + b[..n];
    }
  }

  lemma FirstAction(s: System, a: Action, more: seq<Action>)
    ensures Interleaved(s, [a] + more) == Interleaved(Acted(s, a), more)
  {
    hide Acted;
    InterleavedSplits(s, [a], more);
    assert [a][..0] == [];
  }

  predicate OwnStep(a: Action, t: nat) {
    a == TakeLock(t) || a == Read(t) || a == Decide(t) || a == WriteNext(t) || a == Commit(t)
  }

  /** By steps of its own, `t` is served, leaves the lock free and `next` committed, and touches no other. */
  ghost predicate ServedWith(s: System, actions: seq<Action>, t: nat, next: Lot) {
    && (forall i :: 0 <= i < |actions| ==> OwnStep(actions[i], t))
    && var e := Interleaved(s, actions);
       && |e.txns| == |s.txns| && t < |e.txns|
       && e.txns[t].phase == Done(true) && e.committed == next
       && e.holder.None? && e.clock == s.clock
       && forall u: nat :: u < |s.txns| && u != t ==> e.txns[u] == s.txns[u]
  }

  lemma StepBefore(s: System, a: Action, more: seq<Action>, t: nat, next: Lot)
    requires OwnStep(a, t) && ServedWith(Acted(s, a), more, t, next)
    requires |Acted(s, a).txns| == |s.txns| && Acted(s, a).clock == s.clock
    requires forall u: nat :: u < |s.txns| && u != t ==> Acted(s, a).txns[u] == s.txns[u]
    ensures ServedWith(s, [a] + more, t, next)
  {
    hide Acted;
    FirstAction(s, a, more);
  }

  lemma LastStep(s: System, a: Action, t: nat, next: Lot)
    requires OwnStep(a, t) && ServedWith(Acted(s, a), [], t, next)
    requires |Acted(s, a).txns| == |s.txns| && Acted(s, a).clock == s.clock
    requires forall u: nat :: u < |s.txns| && u != t ==> Acted(s, a).txns[u] == s.txns[u]
    ensures ServedWith(s, [a], t, next)
  {
    hide Acted;
    StepBefore(s, a, [], t, next);
    assert [a] + [] == [a];
  }

  lemma WriterCanFinish(s: System, row: Lot, start: Time, t: nat)
    requires SystemOk(s, row, start) && Holds(s, t) && s.txns[t].phase.Writing?
    ensures exists more :: ServedWith(s, more, t, Step(s.committed, s.txns[t].at, s.txns[t].op))
    decreases if s.txns[t].phase.Writing? then |s.txns[t].phase.todo| else 0
  {
    hide Apply;
    hide Plan;
    hide Written;
    hide ArgumentOk;
    hide Served;
    var txn := s.txns[t];
    if txn.phase.todo == [] {
      assert txn.phase.written + txn.phase.todo == txn.phase.written;
      ArgumentsAlike(txn, s.committed, txn.at);
      PlanCarriesOut(s.committed, txn.at, txn.op);
      LastStep(s, Commit(t), t, Step(s.committed, txn.at, txn.op));
    } else {
      var s1 := Acted(s, WriteNext(t));
      WriteOk(s, row, start, WriteNext(t));
      WriterCanFinish(s1, row, start, t);
      var more :| ServedWith(s1, more, t, Step(s1.committed, s1.txns[t].at, s1.txns[t].op));
      StepBefore(s, WriteNext(t), more, t, Step(s.committed, txn.at, txn.op));
    }
  }

  lemma ReaderCanFinish(s: System, row: Lot, start: Time, t: nat)
    requires SystemOk(s, row, start) && Holds(s, t) && s.txns[t].phase.Loaded?
    ensures exists more :: ServedWith(s, more, t, Step(s.committed, s.clock, s.txns[t].op))
  {
    hide Apply;
    hide Plan;
    hide Written;
    hide ArgumentOk;
    hide Served;
    var txn := s.txns[t];
    assert TakesLock(txn.op) by { TakesLockAll(txn, s.committed); }
    var s1 := Acted(s, Decide(t));
    DecideOk(s, row, start, t);
    ArgumentsAlike(txn, s.committed, s.clock);
    PlanCarriesOut(s.committed, s.clock, txn.op);
    if Plan(s.committed, txn.argument, s.clock, txn.op).Err? {
      LastStep(s, Decide(t), t, Step(s.committed, s.clock, txn.op));
    } else {
      WriterCanFinish(s1, row, start, t);
      var more :| ServedWith(s1, more, t, Step(s1.committed, s1.txns[t].at, s1.txns[t].op));
      StepBefore(s, Decide(t), more, t, Step(s.committed, s.clock, txn.op));
    }
  }

  lemma TakesLockAll(txn: Txn, row: Lot)
    requires ArgumentOk(txn, row)
    ensures TakesLock(txn.op)
  {
  }

  lemma LockerCanFinish(s: System, row: Lot, start: Time, t: nat)
    requires SystemOk(s, row, start) && t < |s.txns|
    requires (Holds(s, t) && s.txns[t].phase.Locked?) || (s.holder.None? && s.txns[t].phase.Waiting?)
    ensures exists more :: ServedWith(s, more, t, Step(s.committed, s.clock, s.txns[t].op))
    decreases if s.txns[t].phase.Waiting? then 1 else 0
  {
    hide Apply;
    hide Plan;
    hide Written;
    hide ArgumentOk;
    hide Served;
    var next := Step(s.committed, s.clock, s.txns[t].op);
    if s.txns[t].phase.Waiting? {
      var s1 := Acted(s, TakeLock(t));
      LockingOk(s, row, start, TakeLock(t));
      LockerCanFinish(s1, row, start, t);
      var more :| ServedWith(s1, more, t, next);
      StepBefore(s, TakeLock(t), more, t, next);
    } else {
      var s1 := Acted(s, Read(t));
      LockingOk(s, row, start, Read(t));
      ReaderCanFinish(s1, row, start, t);
      var more :| ServedWith(s1, more, t, next);
      StepBefore(s, Read(t), more, t, next);
    }
  }

  /** The moment at which a transaction decides, or has decided. */
  function DecisionTime(s: System, t: nat): Time
    requires t < |s.txns|
  {
    if s.txns[t].phase.Writing? then s.txns[t].at else s.clock
  }

  /**
   * Progress. Whatever has happened so far, the holder of the lock, or anyone who waits while it is free,
   * can finish by steps of its own, and then the call has taken effect: what is committed is what the call
   * makes of the row, and the lock is free again. Nobody is ever stuck.
   */
  lemma EveryCallCanTakeEffect(s: System, actions: seq<Action>, t: nat)
    requires AtRest(s)
    requires var e := Interleaved(s, actions);
             t < |e.txns| && !e.txns[t].phase.Done? && (e.txns[t].phase.Waiting? ==> e.holder.None?)
    ensures var e := Interleaved(s, actions);
            exists more :: ServedWith(e, more, t, Step(e.committed, DecisionTime(e, t), e.txns[t].op))
  {
    hide Apply;
    hide Acted;
    hide ArgumentOk;
    hide Served;
    var e := Interleaved(s, actions);
    InterleavingOk(s, actions);
    if e.txns[t].phase.Writing? {
      WriterCanFinish(e, s.committed, s.clock, t);
      var more :| ServedWith(e, more, t, Step(e.committed, e.txns[t].at, e.txns[t].op));
      assert ServedWith(e, more, t, Step(e.committed, DecisionTime(e, t), e.txns[t].op));
    } else if e.txns[t].phase.Loaded? {
      ReaderCanFinish(e, s.committed, s.clock, t);
      var more :| ServedWith(e, more, t, Step(e.committed, e.clock, e.txns[t].op));
      assert ServedWith(e, more, t, Step(e.committed, DecisionTime(e, t), e.txns[t].op));
    } else {
      LockerCanFinish(e, s.committed, s.clock, t);
      var more :| ServedWith(e, more, t, Step(e.committed, e.clock, e.txns[t].op));
      assert ServedWith(e, more, t, Step(e.committed, DecisionTime(e, t), e.txns[t].op));
    }
  }

  /** Time passes forwards only, and a caller that reads the auction again holds what is then committed. */
  lemma TickAndFetch(s: System, to: Time, t: nat)
    requires t < |s.txns| && s.txns[t].phase.Waiting?
    ensures Acted(s, Tick(to)) == s.(clock := if to > s.clock then to else s.clock)
    ensures Acted(s, Fetch(t)).txns[t] == s.txns[t].(argument := s.committed)
  {
  }

  /** So every law of reachable lots holds of what concurrent transactions commit. */
  lemma ConcurrentRunsAreReachable(s: System, actions: seq<Action>)
    requires AtRest(s) && Reachable(s.committed, s.clock)
    ensures exists now :: now <= Interleaved(s, actions).clock && Reachable(Interleaved(s, actions).committed, now)
  {
    hide Apply;
    hide Acted;
    hide ArgumentOk;
    hide HolderOk;
    var e := Interleaved(s, actions);
    InterleavingOk(s, actions);
    ReachableOnwards(s.committed, s.clock, SerialRun(e));
    assert Clock(s.clock, SerialRun(e)) <= e.clock && Reachable(e.committed, Clock(s.clock, SerialRun(e)));
  }

  // ---- The caller's argument ----

  ghost predicate SameButArguments(a: System, b: System) {
    && |a.txns| == |b.txns|
    && a == b.(txns := a.txns)
    && forall t :: 0 <= t < |a.txns| ==> a.txns[t] == b.txns[t].(argument := a.txns[t].argument)
  }

  lemma DecisionsIgnoreArguments(a: System, b: System, t: nat)
    requires SameButArguments(a, b) && HolderOk(a, a.clock) && Holds(a, t) && a.txns[t].phase.Loaded?
    requires ArgumentOk(a.txns[t], a.committed) && ArgumentOk(b.txns[t], b.committed)
    ensures SameButArguments(Acted(a, Decide(t)), Acted(b, Decide(t)))
  {
    ArgumentsAlike(a.txns[t], a.committed, a.clock);
    ArgumentsAlike(b.txns[t], b.committed, b.clock);
    hide Plan;
    hide ArgumentOk;
  }

  lemma ActionIgnoresArguments(a: System, b: System, action: Action)
    requires SameButArguments(a, b) && !action.Decide?
    ensures SameButArguments(Acted(a, action), Acted(b, action))
  {
    hide Plan;
    hide Written;
  }

  /**
   * How stale the objects are that callers pass in makes no difference to anything that is stored, as long
   * as they were read from the row at some moment.
   */
  lemma {:induction false} StaleArgumentsNeverMatter(a: System, b: System, actions: seq<Action>)
    requires SameButArguments(a, b) && AtRest(a) && AtRest(b)
    ensures SameButArguments(Interleaved(a, actions), Interleaved(b, actions))
    ensures Interleaved(a, actions).committed == Interleaved(b, actions).committed
  {
    hide Acted;
    if actions != [] {
      var n := |actions| - 1;
      var a', b' := Interleaved(a, actions[..n]), Interleaved(b, actions[..n]);
      StaleArgumentsNeverMatter(a, b, actions[..n]);
      if actions[n].Decide? {
        InterleavingOk(a, actions[..n]);
        InterleavingOk(b, actions[..n]);
        DecideIgnoresArguments(a', b', a.committed, b.committed, a.clock, actions[n].t);
      } else {
        ActionIgnoresArguments(a', b', actions[n]);
      }
    }
  }

  lemma DecideIgnoresArguments(a: System, b: System, rowA: Lot, rowB: Lot, start: Time, t: nat)
    requires SameButArguments(a, b) && SystemOk(a, rowA, start) && SystemOk(b, rowB, start)
    ensures SameButArguments(Acted(a, Decide(t)), Acted(b, Decide(t)))
  {
    hide Plan;
    hide ArgumentOk;
    if Holds(a, t) && a.txns[t].phase.Loaded? { DecisionsIgnoreArguments(a, b, t); }
  }

  lemma {:induction false} ResultAsSaved(l: Lot, ws: seq<Write>)
    requires forall i :: 0 <= i < |ws| ==> !ws[i].SaveResult?
    ensures AllWritten(l, ws).winner == l.winner && AllWritten(l, ws).finalPrice == l.finalPrice
    decreases |ws|
  {
    if ws != [] { ResultAsSaved(Written(l, ws[0]), ws[1..]); }
  }

  /** A closing decided from the argument saves the argument's winner and price, whatever the row says. */
  lemma DecidedFromTheArgument(row: Lot, argument: Lot, now: Time, actor: Option<User>, why: Reason)
    requires argument.status == Live
    ensures var r := CarriedOut(row, Plan(argument, argument, now, CloseAuction(actor, why)));
            && r.Ok?
            && r.value.winner == Bidding.Decide(argument).winner
            && r.value.finalPrice == Bidding.Decide(argument).finalPrice
  {
    hide AllWritten;
    hide Bidding.Decide;
    var v := Bidding.Decide(argument);
    var result := SaveResult(v.winner, v.finalPrice, v.reserveMet);
    var more := MoveWrites(Live, Closed, actor, why) + AwardWrites(v, argument.payment, now, actor);
    assert ClosingWrites(argument, now, actor, why) == [result] + more;
    WrittenOne(row, result, more);
    ResultAsSaved(Written(row, result), more);
  }

  /**
   * Reading the row again after locking is what makes that so. Closing as decided from the object passed in
   * would ignore a bid that was committed since: no winner, where the row says who has won.
   */
  lemma DecidingFromTheArgumentLosesABid()
    ensures exists row, argument: Lot, now ::
              && Reachable(row, now) && BidsKept(argument.bids, row.bids)
              && var op := CloseAuction(None, AutoClosed);
                 var locked := CarriedOut(row, Plan(row, argument, now, op));
                 var stale := CarriedOut(row, Plan(argument, argument, now, op));
                 locked.Ok? && locked.value.winner.Some? && stale.Ok? && stale.value.winner.None?
  {
    hide Reachable;
    LiveLotState();
    BidOnLotState();
    var row, argument := BidOnLot(), LiveLot();
    hide BidOnLot;
    hide LiveLot;
    var op := CloseAuction(None, AutoClosed);
    assert Bidding.Decide(row) == Bidding.Verdict(Some(2), Some(100), Some(true));
    assert Bidding.Decide(argument) == Bidding.Verdict(None, None, None);
    hide Bidding.Decide;
    assert Plan(row, argument, 11, op) == Plan(row, row, 11, op);
    DecidedFromTheArgument(row, row, 11, None, AutoClosed);
    DecidedFromTheArgument(row, argument, 11, None, AutoClosed);
    hide CarriedOut;
    hide Plan;
    assert Reachable(row, 11) && BidsKept(argument.bids, row.bids);
  }
}
