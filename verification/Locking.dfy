/**
 * Row locking: bidding and staff calls split into lock, read, single writes and commit, interleaved in
 * any way, have the effect of running one at a time in the order in which they took the lock.
 */
module Locking {
  import opened Basics
  import opened Records
  import Lifecycle
  import Bidding
  import Scheduling
  import opened Engine

  // ---- Calls as lists of writes ----

  /** A single statement on the stored rows; saves name the columns they update and touch no others. */
  datatype Write =
    | InsertBid(bid: Bid)
    | UpdateBid(k: nat, bidStatus: BidStatus)
    | SaveHighest(highest: Option<Cents>)
    | SaveHighestAndEnd(highest: Option<Cents>, end: Time)
    | SaveStart(start: Time)
    | SaveSchedule(start: Time, end: Time)
    | SaveResult(winner: Option<User>, price: Option<Cents>, reserveMet: Option<bool>)
    | SaveStatus(status: Status)
    | InsertStatusRow(row: StatusRow)
    | InsertPayment(payment: Payment)
    | InsertAudit(event: AuditEvent)

  function Written(l: Lot, w: Write): Lot {
    match w
    case InsertBid(bid) => l.(bids := l.bids + [bid])
    case UpdateBid(k, s) => if k < |l.bids| then l.(bids := l.bids[k := l.bids[k].(status := s)]) else l
    case SaveHighest(h) => l.(highest := h)
    case SaveHighestAndEnd(h, end) => l.(highest := h, endTime := end)
    case SaveStart(start) => l.(startTime := start)
    case SaveSchedule(start, end) => l.(startTime := start, endTime := end)
    case SaveResult(winner, price, met) => l.(winner := winner, finalPrice := price, reserveMet := met)
    case SaveStatus(s) => l.(status := s)
    case InsertStatusRow(row) => l.(statusLog := l.statusLog + [row])
    case InsertPayment(p) => l.(payment := Some(p))
    case InsertAudit(event) => l.(audit := l.audit + [event])
  }

  function AllWritten(l: Lot, ws: seq<Write>): Lot
    decreases |ws|
  {
    if ws == [] then l else AllWritten(Written(l, ws[0]), ws[1..])
  }

  /** The bidding and scheduling calls that take the row lock before they decide anything. */
  predicate TakesLock(op: Op) {
    || op.PlaceBid? || op.InvalidateBid? || op.CloseAuction?
    || op.StartNow? || op.Reschedule? || op.Pause? || op.Resume? || op.CancelAuction? || op.EndNow?
  }

  function MoveWrites(from: Status, to: Status, actor: Option<User>, reason: Reason): seq<Write> {
    [SaveStatus(to), InsertStatusRow(StatusRow(from, to, actor, reason))]
    + if to in Lifecycle.AUDITED then [InsertAudit(Entered(to, actor, reason))] else []
  }

  function InvalidationWrites(copy: Lot, given: Bid, now: Time, k: nat, actor: User, reason: string): seq<Write>
    requires k < |copy.bids|
  {
    [UpdateBid(k, Invalidated(reason, actor, now)),
     SaveHighest(Bidding.BestAmount(Bidding.MarkInvalid(copy.bids, k, reason, actor, now))),
     InsertAudit(BidInvalidated(actor, given.seqNo, reason))]
  }

  function BidWrites(copy: Lot, now: Time, user: User, cents: Cents): seq<Write> {
    var seqNo := Bidding.HighestSeqNo(copy.bids) + 1;
    var pushed := Bidding.PushesEnd(copy, now);
    var end := if pushed then now + copy.terms.Window() else copy.endTime;
    [InsertBid(Bid(user, cents, seqNo, now, Accepted))]
    + (if pushed then [InsertAudit(Extended(user, end))] else [])
    + [SaveHighestAndEnd(Some(cents), end), InsertAudit(BidPlaced(user, seqNo, cents))]
  }

  function ClosingWrites(copy: Lot, now: Time, actor: Option<User>, reason: Reason): seq<Write> {
    var v := Bidding.Decide(copy);
    [SaveResult(v.winner, v.finalPrice, v.reserveMet)]
    + MoveWrites(Live, Closed, actor, reason)
    + AwardWrites(v, copy.payment, now, actor)
  }

  /**
   * What a call decides to write; or why it raises instead. It decides from `copy`, the row as it read it
   * after taking the lock. Of `argument`, what its caller had read of the auction at some earlier moment,
   * only an invalidation makes use: it saves and logs the bid object it was given.
   */
  function Plan(copy: Lot, argument: Lot, now: Time, op: Op): Result<seq<Write>, Refusal>
    requires TakesLock(op)
  {
    match op
    case PlaceBid(account, amount) =>
      var cents :- Bidding.CheckBid(copy, now, account, amount);
      Ok(BidWrites(copy, now, account.user, cents))
    case InvalidateBid(k, actor, reason) =>
      if k >= |argument.bids| || k >= |copy.bids| then Err(NoSuchBid)
      else if reason == "" then Err(ReasonRequired)
      else
        Ok(InvalidationWrites(copy, argument.bids[k], now, k, actor, reason))
    case CloseAuction(actor, why) =>
      if copy.status != Live then Err(NotLive) else Ok(ClosingWrites(copy, now, actor, why))
    case EndNow(actor, reason) =>
      if Strip(reason) == "" then Err(ReasonRequired)
      else if copy.status != Live then Err(NotLive)
      else Ok(ClosingWrites(copy, now, Some(actor), EndedEarly(Strip(reason))))
    case StartNow(actor) =>
      if copy.status != Scheduled then Err(NotScheduled)
      else if copy.endTime <= now then Err(EndPassed)
      else
        Ok((if copy.startTime <= now then []
            else [SaveStart(now), InsertAudit(StartedEarly(actor, copy.startTime, now))])
           + MoveWrites(copy.status, Live, Some(actor), StartedByStaff))
    case Resume(actor) =>
      if copy.status != Paused then Err(NotPaused)
      else if copy.endTime <= now then Err(EndPassed)
      else Ok(MoveWrites(copy.status, Live, Some(actor), ResumedByStaff) + [InsertAudit(ResumedBy(actor))])
    case CancelAuction(actor, reason) =>
      if Strip(reason) == "" then Err(ReasonRequired)
      else if copy.status !in {Scheduled, Live, Paused} then Err(CannotCancelHere)
      else Ok(MoveWrites(copy.status, Cancelled, Some(actor), Given(Strip(reason))))
    case Pause(actor, reason) =>
      if Strip(reason) == "" then Err(ReasonRequired)
      else if Paused !in Lifecycle.Allowed(copy.status) then Err(InvalidTransition(copy.status, Paused))
      else Ok(MoveWrites(copy.status, Paused, Some(actor), Given(Strip(reason)))
              + [InsertAudit(PausedBy(actor, Strip(reason)))])
    case Reschedule(actor, reason, start, end) =>
      var changed :- Scheduling.Reschedule(copy, now, actor, reason, start, end);
      Ok([SaveSchedule(changed.startTime, changed.endTime),
          InsertAudit(Rescheduled(
            actor, Strip(reason), copy.startTime, changed.startTime, copy.endTime, changed.endTime))])
  }

  /** The call that a plan amounts to. */
  function CarriedOut(l: Lot, plan: Result<seq<Write>, Refusal>): Reply {
    match plan
    case Ok(ws) => Ok(AllWritten(l, ws))
    case Err(why) => Err(why)
  }

  lemma WrittenOne(l: Lot, w: Write, ws: seq<Write>)
    ensures AllWritten(l, [w] + ws) == AllWritten(Written(l, w), ws)
  {
  }

  lemma {:induction false} WrittenParts(l: Lot, a: seq<Write>, b: seq<Write>)
    ensures AllWritten(l, a + b) == AllWritten(AllWritten(l, a), b)
    decreases |a|
  {
    if a == [] {
      assert a + b == b;
    } else {
      WrittenParts(Written(l, a[0]), a[1..], b);
      assert (a + b)[1..] == a[1..] + b;
    }
  }

  lemma WrittenFew(l: Lot, x: Write, y: Write, z: Write)
    ensures AllWritten(l, [x]) == Written(l, x)
    ensures AllWritten(l, [x, y]) == Written(Written(l, x), y)
    ensures AllWritten(l, [x, y, z]) == Written(Written(Written(l, x), y), z)
  {
    hide Written;
    assert forall l, w: Write :: AllWritten(l, [w]) == Written(l, w) by {
      forall l, w: Write ensures AllWritten(l, [w]) == Written(l, w) { assert [w][1..] == []; }
    }
    WrittenOne(l, x, [y]);
    assert [x] + [y] == [x, y];
    WrittenOne(l, x, [y, z]);
    assert [x] + [y, z] == [x, y, z];
    WrittenOne(Written(l, x), y, [z]);
    assert [y] + [z] == [y, z];
  }

  lemma MoveIsWritten(l: Lot, to: Status, actor: Option<User>, reason: Reason)
    requires Lifecycle.Transition(l, to, actor, reason).Ok?
    ensures AllWritten(l, MoveWrites(l.status, to, actor, reason)) == Lifecycle.Transition(l, to, actor, reason).value
  {
    var a, b := SaveStatus(to), InsertStatusRow(StatusRow(l.status, to, actor, reason));
    var c := InsertAudit(Entered(to, actor, reason));
    WrittenFew(l, a, b, c);
    assert [a, b] + [c] == [a, b, c];
    assert [a, b] + [] == [a, b];
  }

  lemma BidIsWritten(l: Lot, now: Time, user: User, cents: Cents)
    ensures AllWritten(l, BidWrites(l, now, user, cents)) == Bidding.RecordBid(l, now, user, cents)
  {
    var seqNo := Bidding.HighestSeqNo(l.bids) + 1;
    var pushed := Bidding.PushesEnd(l, now);
    var end := if pushed then now + l.terms.Window() else l.endTime;
    var insert := InsertBid(Bid(user, cents, seqNo, now, Accepted));
    var middle := if pushed then [InsertAudit(Extended(user, end))] else [];
    var save, log := SaveHighestAndEnd(Some(cents), end), InsertAudit(BidPlaced(user, seqNo, cents));
    assert BidWrites(l, now, user, cents) == [insert] + (middle + [save, log]);
    WrittenOne(l, insert, middle + [save, log]);
    var l1 := Written(l, insert);
    WrittenParts(l1, middle, [save, log]);
    if pushed { WrittenFew(l1, middle[0], save, log); }
    WrittenFew(AllWritten(l1, middle), save, log, log);
  }

  /** The writes of a closing that follow the move to `Closed`. */
  function AwardWrites(v: Bidding.Verdict, payment: Option<Payment>, now: Time, actor: Option<User>): seq<Write> {
    if v.winner.None? || v.finalPrice.None? then []
    else
      [InsertAudit(WinnerDetermined(actor, v.winner.value, v.finalPrice.value))]
      + if payment.Some? then []
        else [InsertPayment(Payment(v.finalPrice.value, Pending, "", "", "", None, None, now)),
              InsertAudit(PaymentPending)]
  }

  lemma AwardIsWritten(closed: Lot, v: Bidding.Verdict, now: Time, actor: Option<User>)
    requires closed.winner == v.winner && closed.finalPrice == v.finalPrice
    ensures AllWritten(closed, AwardWrites(v, closed.payment, now, actor))
         == if v.winner.None? || v.finalPrice.None? then closed
            else Bidding.CreatePendingPayment(closed.(
              audit := closed.audit + [WinnerDetermined(actor, v.winner.value, v.finalPrice.value)]), now)
  {
    if v.winner.Some? && v.finalPrice.Some? {
      var won := InsertAudit(WinnerDetermined(actor, v.winner.value, v.finalPrice.value));
      var pay := InsertPayment(Payment(v.finalPrice.value, Pending, "", "", "", None, None, now));
      WrittenFew(closed, won, pay, InsertAudit(PaymentPending));
      assert [won] + [] == [won];
      assert [won] + [pay, InsertAudit(PaymentPending)] == [won, pay, InsertAudit(PaymentPending)];
    }
  }

  lemma ClosingIsWritten(l: Lot, now: Time, actor: Option<User>, reason: Reason)
    requires l.status == Live
    ensures Bidding.CloseAuction(l, now, actor, reason) == Ok(AllWritten(l, ClosingWrites(l, now, actor, reason)))
  {
    hide Bidding.Decide;
    hide AwardWrites;
    hide MoveWrites;
    var v := Bidding.Decide(l);
    var result := SaveResult(v.winner, v.finalPrice, v.reserveMet);
    var moves := MoveWrites(Live, Closed, actor, reason);
    var award := AwardWrites(v, l.payment, now, actor);
    assert ClosingWrites(l, now, actor, reason) == [result] + (moves + award);
    WrittenOne(l, result, moves + award);
    var decided := Written(l, result);
    WrittenParts(decided, moves, award);
    MoveIsWritten(decided, Closed, actor, reason);
    AwardIsWritten(AllWritten(decided, moves), v, now, actor);
  }

  lemma InvalidationIsWritten(l: Lot, now: Time, k: nat, actor: User, reason: string)
    requires k < |l.bids| && reason != ""
    ensures Bidding.InvalidateBid(l, now, k, actor, reason)
         == Ok(AllWritten(l, InvalidationWrites(l, l.bids[k], now, k, actor, reason)))
  {
    hide AllWritten;
    hide Bidding.BestAmount;
    var ws := InvalidationWrites(l, l.bids[k], now, k, actor, reason);
    WrittenFew(l, ws[0], ws[1], ws[2]);
  }

  lemma PauseIsWritten(l: Lot, actor: User, reason: string)
    requires Strip(reason) != "" && Lifecycle.Transition(l, Paused, Some(actor), Given(Strip(reason))).Ok?
    ensures Scheduling.Pause(l, actor, reason)
         == Ok(AllWritten(l, MoveWrites(l.status, Paused, Some(actor), Given(Strip(reason)))
                             + [InsertAudit(PausedBy(actor, Strip(reason)))]))
  {
    var moves := MoveWrites(l.status, Paused, Some(actor), Given(Strip(reason)));
    var log := InsertAudit(PausedBy(actor, Strip(reason)));
    MoveIsWritten(l, Paused, Some(actor), Given(Strip(reason)));
    WrittenParts(l, moves, [log]);
    WrittenFew(AllWritten(l, moves), log, log, log);
  }

  lemma ResumptionIsWritten(l: Lot, now: Time, actor: User)
    requires l.status == Paused && now < l.endTime
    ensures Scheduling.Resume(l, now, actor)
         == Ok(AllWritten(l, MoveWrites(l.status, Live, Some(actor), ResumedByStaff) + [InsertAudit(ResumedBy(actor))]))
  {
    hide AllWritten;
    hide MoveWrites;
    var moves := MoveWrites(l.status, Live, Some(actor), ResumedByStaff);
    var log := InsertAudit(ResumedBy(actor));
    MoveIsWritten(l, Live, Some(actor), ResumedByStaff);
    WrittenParts(l, moves, [log]);
    WrittenFew(AllWritten(l, moves), log, log, log);
  }

  lemma StartIsWritten(l: Lot, now: Time, actor: User)
    requires l.status == Scheduled && now < l.endTime
    ensures Scheduling.StartNow(l, now, actor)
         == Ok(AllWritten(l, Plan(l, l, now, StartNow(actor)).value))
  {
    hide AllWritten;
    hide MoveWrites;
    var save, log := SaveStart(now), InsertAudit(StartedEarly(actor, l.startTime, now));
    var early := if l.startTime > now then [save, log] else [];
    var moves := MoveWrites(l.status, Live, Some(actor), StartedByStaff);
    WrittenParts(l, early, moves);
    WrittenFew(l, save, log, log);
    WrittenNone(l);
    MoveIsWritten(AllWritten(l, early), Live, Some(actor), StartedByStaff);
  }

  lemma WrittenNone(l: Lot)
    ensures AllWritten(l, []) == l
  {
  }

  lemma RescheduleIsWritten(l: Lot, now: Time, actor: User, reason: string, start: Option<Time>, end: Option<Time>)
    requires Scheduling.Reschedule(l, now, actor, reason, start, end).Ok?
    ensures Scheduling.Reschedule(l, now, actor, reason, start, end)
         == Ok(AllWritten(l, Plan(l, l, now, Reschedule(actor, reason, start, end)).value))
  {
    var ws := Plan(l, l, now, Reschedule(actor, reason, start, end)).value;
    WrittenFew(l, ws[0], ws[1], ws[1]);
  }

  /** The caller of an invalidation has read the bid it passes in. */
  predicate HasItsBid(argument: Lot, op: Op) {
    op.InvalidateBid? ==> op.k < |argument.bids|
  }

  /**
   * Exactly how much of its argument a call depends on: the number of the bid it was given, which is
   * never rewritten, and that only if there is an invalidation to record.
   */
  lemma PlanReadsOneColumn(copy: Lot, x: Lot, y: Lot, now: Time, op: Op)
    requires TakesLock(op) && HasItsBid(x, op) && HasItsBid(y, op)
    ensures Plan(copy, x, now, op) == Plan(copy, y, now, op) <==>
              (op.InvalidateBid? && op.k < |copy.bids| && op.reason != "" ==>
                 x.bids[op.k].seqNo == y.bids[op.k].seqNo)
  {
    hide Bidding.CheckBid;
    hide Bidding.BestAmount;
    if op.InvalidateBid? && op.k < |copy.bids| && op.reason != "" {
      var xs := InvalidationWrites(copy, x.bids[op.k], now, op.k, op.actor, op.reason);
      var ys := InvalidationWrites(copy, y.bids[op.k], now, op.k, op.actor, op.reason);
      assert Plan(copy, x, now, op) == Ok(xs) && Plan(copy, y, now, op) == Ok(ys);
      assert xs[2] == InsertAudit(BidInvalidated(op.actor, x.bids[op.k].seqNo, op.reason));
      assert ys[2] == InsertAudit(BidInvalidated(op.actor, y.bids[op.k].seqNo, op.reason));
    }
  }

  /** Planning from the row and writing the plan out on it is the call itself, refusals included. */
  lemma PlanCarriesOut(l: Lot, now: Time, op: Op)
    requires TakesLock(op)
    ensures Apply(l, now, op) == CarriedOut(l, Plan(l, l, now, op))
  {
    hide AllWritten;
    match op
    case PlaceBid(account, amount) =>
      hide Bidding.CheckBid;
      var checked := Bidding.CheckBid(l, now, account, amount);
      if checked.Ok? { BidIsWritten(l, now, account.user, checked.value); }
    case InvalidateBid(k, actor, reason) =>
      if k < |l.bids| && reason != "" { InvalidationIsWritten(l, now, k, actor, reason); }
    case CloseAuction(actor, why) => if l.status == Live { ClosingIsWritten(l, now, actor, why); }
    case EndNow(actor, reason) =>
      if l.status == Live { ClosingIsWritten(l, now, Some(actor), EndedEarly(Strip(reason))); }
    case Pause(actor, reason) =>
      if Strip(reason) != "" && Paused in Lifecycle.Allowed(l.status) { PauseIsWritten(l, actor, reason); }
    case StartNow(actor) => if l.status == Scheduled && now < l.endTime { StartIsWritten(l, now, actor); }
    case Resume(actor) => if l.status == Paused && now < l.endTime { ResumptionIsWritten(l, now, actor); }
    case CancelAuction(actor, reason) =>
      if l.status in {Scheduled, Live, Paused} { MoveIsWritten(l, Cancelled, Some(actor), Given(Strip(reason))); }
    case Reschedule(actor, reason, start, end) =>
      if Plan(l, l, now, op).Ok? { RescheduleIsWritten(l, now, actor, reason, start, end); }
  }
}
