/** Staff scheduling controls: each takes a named actor and has its own rules per status. */
module Scheduling {
  import opened Basics
  import opened Records
  import Lifecycle
  import Bidding

  function StartNow(l: Lot, now: Time, actor: User): Reply {
    if l.status != Scheduled then Err(NotScheduled)
    else if l.endTime <= now then Err(EndPassed)
    else
      var early := l.startTime > now;
      Lifecycle.Transition(
        if early then l.(startTime := now, audit := l.audit + [StartedEarly(actor, l.startTime, now)]) else l,
        Live, Some(actor), StartedByStaff)
  }

  function Reschedule(
    l: Lot, now: Time, actor: User, reason: string, start: Option<Time>, end: Option<Time>): Reply
  {
    if Strip(reason) == "" then Err(ReasonRequired)
    else if l.status !in {Scheduled, Live, Paused} then Err(CannotReschedule)
    else if start.None? && end.None? then Err(NothingToChange)
    else if start.Some? && l.status != Scheduled then Err(StartFrozen)
    else
      var newStart := if start.Some? then start.value else l.startTime;
      var newEnd := if end.Some? then end.value else l.endTime;
      if newStart >= newEnd then Err(StartNotBeforeEnd)
      else if newEnd <= now then Err(EndNotFuture)
      else if l.status == Scheduled && start.Some? && newStart <= now then Err(StartNotFuture)
      else if l.status == Live && end.Some? && end.value <= l.endTime then Err(OnlyExtension)
      else
        Ok(l.(
          startTime := newStart,
          endTime := newEnd,
          audit := l.audit + [Rescheduled(actor, Strip(reason), l.startTime, newStart, l.endTime, newEnd)]))
  }

  function Pause(l: Lot, actor: User, reason: string): Reply {
    if Strip(reason) == "" then Err(ReasonRequired)
    else
      var paused :- Lifecycle.Transition(l, Paused, Some(actor), Given(Strip(reason)));
      Ok(paused.(audit := paused.audit + [PausedBy(actor, Strip(reason))]))
  }

  function Resume(l: Lot, now: Time, actor: User): Reply {
    if l.status != Paused then Err(NotPaused)
    else if l.endTime <= now then Err(EndPassed)
    else
      var live :- Lifecycle.Transition(l, Live, Some(actor), ResumedByStaff);
      Ok(live.(audit := live.audit + [ResumedBy(actor)]))
  }

  function CancelAuction(l: Lot, actor: User, reason: string): Reply {
    if Strip(reason) == "" then Err(ReasonRequired)
    else if l.status !in {Scheduled, Live, Paused} then Err(CannotCancelHere)
    else
      Lifecycle.Cancel(l, actor, Strip(reason))
  }

  function EndNow(l: Lot, now: Time, actor: User, reason: string): Reply {
    if Strip(reason) == "" then Err(ReasonRequired)
    else
      Bidding.CloseAuction(l, now, Some(actor), EndedEarly(Strip(reason)))
  }
}
