/** The send cap over everything a request ever dispatched, interrupted dispatches included: as long as no
    request outlives the retention of resolutions, nothing that counts is ever forgotten. */
module SendCapHistory {
  import opened Common
  import opened LedgerModel
  import opened Budget
  import opened Fleet
  import opened SendCap
  import Replaying = LedgerReplay

  // ---------------------------------------------------------------- time

  function CommandClock(c: Command): Option<nat> {
    match c
    case Reserve(_, _, clock, _) => Some(clock)
    case Dispatching(_, clock, _) => Some(clock)
    case Finishing(_, _, clock, _) => Some(clock)
    case Publishing(_, clock) => Some(clock)
    case Reading(clock) => Some(clock)
    case _ => None
  }

  /** What an event makes of the time: events that read no clock leave it. */
  function Then(now: nat, e: Event): nat {
    match e
    case Admitting(_, clock, _) => clock
    case Reserving(_, _, clock, _) => clock
    case Marking(clock, _, _) => clock
    case Shadowing(_, _, _, clock, _) => clock
    case ShadowMarking(_, _, clock, _) => clock
    case Other(a) => if CommandClock(a.command).Some? then CommandClock(a.command).value else now
    case _ => now
  }

  /** The clock never goes back; a shadow looks at it before it is reserved. */
  predicate Ticks(now: nat, e: Event) { now <= Then(now, e) && (e.Shadowing? ==> now <= e.seen <= e.clock) }

  predicate InOrder(now: nat, events: seq<Event>)
    decreases |events|
  {
    events == [] || (Ticks(now, events[0]) && InOrder(Then(now, events[0]), events[1..]))
  }

  /** The records of a restart are written before a process admits anything. */
  predicate OneProcess(events: seq<Event>) { forall e :: e in events ==> NoRestart(e) }

  predicate NoRestart(e: Event) { e.Other? ==> !e.action.command.Marking? }

  /** Requests are admitted with a deadline at most this far ahead. */
  predicate Lifetimes(events: seq<Event>, lifetime: nat) { forall e :: e in events ==> Lives(e, lifetime) }

  predicate Lives(e: Event, lifetime: nat) { e.Admitting? ==> e.deadline <= e.clock + lifetime }

  // ---------------------------------------------------------------- dispatches that cannot be forgotten yet

  /** The dispatch is still open and live, or resolved at its time or later; so it stays until the deadline. */
  ghost predicate Firm(l: Ledger, d: Dispatch, deadline: nat, retention: nat) {
    && deadline <= d.at + retention && d.at <= l.highWater
    && (|| (d.attempt in l.attempts && d.attempt !in l.resolutions && l.attempts[d.attempt].state.Live?
            && l.attempts[d.attempt].receipt.Some? && DispatchOf(d.attempt, l.attempts[d.attempt]) == Some(d))
        || (d.attempt in l.resolutions && l.resolutions[d.attempt].dispatch == Some(d) && d.at <= l.resolutions[d.attempt].at))
  }

  lemma FirmShows(l: Ledger, d: Dispatch, deadline: nat, retention: nat)
    requires Firm(l, d, deadline, retention)
    ensures Shows(l, d)
  {
  }

  lemma FirmPruned(l: Ledger, d: Dispatch, deadline: nat, limits: Limits, clock: nat)
    requires Firm(l, d, deadline, limits.retention) && Now(l, clock) < deadline
    ensures Firm(PruneResolutions(Tick(l, clock), Now(l, clock), limits.retention), d, deadline, limits.retention)
    ensures Firm(Settled(l, limits, clock), d, deadline, limits.retention)
    ensures Firm(ReadCapacity(l, clock), d, deadline, limits.retention)
  {
  }

  lemma FirmGranted(l: Ledger, d: Dispatch, deadline: nat, retention: nat, q: Request, now: nat)
    requires Firm(l, d, deadline, retention) && q.attempt != d.attempt
    ensures Firm(Grant(l, q, now), d, deadline, retention)
  {
  }

  lemma FirmReserved(limits: Limits, r: Runtime, c: Command, d: Dispatch, deadline: nat)
    requires Runnable(r.ledger) && c.Reserve? && c.request.attempt != d.attempt
    requires Firm(r.ledger, d, deadline, limits.retention) && Now(r.ledger, c.clock) < deadline
    ensures Firm(Step(limits, r, c).0.ledger, d, deadline, limits.retention)
  {
    Replaying.ReserveShape(r.account, limits, r.ledger, c.request, c.status, c.clock, c.append);
    FirmPruned(r.ledger, d, deadline, limits, c.clock);
    FirmGranted(Settled(r.ledger, limits, c.clock), d, deadline, limits.retention, c.request, Now(r.ledger, c.clock));
    hide Firm, TryReserve, Settled, PruneResolutions, Grant, Screen, CapacityScreen;
  }

  lemma FirmFinished(l: Ledger, id: Id, resolution: Resolution, clock: nat, append: Append, d: Dispatch, deadline: nat, retention: nat)
    requires Runnable(l) && Firm(l, d, deadline, retention)
    ensures Firm(Finish(l, id, resolution, clock, append).ledger, d, deadline, retention)
  {
  }

  lemma FirmDispatched(l: Ledger, id: Id, clock: nat, append: Append, d: Dispatch, deadline: nat, retention: nat)
    requires Firm(l, d, deadline, retention)
    ensures Firm(MarkDispatched(l, id, clock, append).ledger, d, deadline, retention)
  {
  }

  /** While a dispatch is open its attempt is live, and then no count and no probe is accepted. */
  lemma FirmSlots(l: Ledger, c: Command, d: Dispatch, deadline: nat, retention: nat)
    requires Firm(l, d, deadline, retention)
    ensures c.Counting? ==> Firm(SetActiveCount(l, c.count, c.append).ledger, d, deadline, retention)
    ensures c.ProbeEnds? ==> Firm(FinishProbe(l, c.probe, c.probing, c.append).ledger, d, deadline, retention)
  {
    assert d.attempt in l.attempts && l.attempts[d.attempt].state.Live? ==> l.AnyLive();
    hide ApplyActiveCount, ApplyProbeFinished;
    CountedSame(l, c);
  }

  lemma CountedSame(l: Ledger, c: Command)
    ensures c.Counting? ==> var after := SetActiveCount(l, c.count, c.append).ledger;
                            after.resolutions == l.resolutions && after.highWater == l.highWater && (l.AnyLive() ==> after == l)
    ensures c.ProbeEnds? ==> var after := FinishProbe(l, c.probe, c.probing, c.append).ledger;
                             after.resolutions == l.resolutions && after.highWater == l.highWater && (l.AnyLive() ==> after == l)
  {
  }

  lemma FirmRest(l: Ledger, c: Command, d: Dispatch, deadline: nat, retention: nat)
    requires Firm(l, d, deadline, retention)
    ensures c.Swapping? ==> Firm(SwapCircuit(l, c.generation, c.expected, c.replacement, c.append).ledger, d, deadline, retention)
    ensures c.ProbeBegins? ==> Firm(BeginProbe(l, c.probe, c.append).ledger, d, deadline, retention)
    ensures c.Publishing? ==> Firm(Publish(l, c.account, c.clock), d, deadline, retention)
  {
    hide DispatchOf, UncertainOf, Forget;
  }

  /** Before the deadline no command of a running process takes a firm dispatch away. */
  lemma FirmKept(limits: Limits, r: Runtime, c: Command, d: Dispatch, deadline: nat, now: nat)
    requires Runnable(r.ledger) && Firm(r.ledger, d, deadline, limits.retention) && r.ledger.highWater <= now < deadline
    requires !c.Marking? && (c.Reserve? ==> c.request.attempt != d.attempt)
    requires CommandClock(c).Some? ==> CommandClock(c).value <= now
    ensures Firm(Step(limits, r, c).0.ledger, d, deadline, limits.retention)
  {
    var l := r.ledger;
    hide Firm, TryReserve, Finish, MarkDispatched, SwapCircuit, SetActiveCount, BeginProbe, FinishProbe, Publish, ReadCapacity;
    match c
    case Reserve(_, _, _, _) => FirmReserved(limits, r, c, d, deadline);
    case Finishing(id, resolution, clock, append) => FirmFinished(l, id, resolution, clock, append, d, deadline, limits.retention);
    case Dispatching(id, clock, append) => FirmDispatched(l, id, clock, append, d, deadline, limits.retention);
    case Reading(clock) => FirmPruned(l, d, deadline, limits, clock);
    case _ =>
      FirmSlots(l, c, d, deadline, limits.retention);
      FirmRest(l, c, d, deadline, limits.retention);
  }

  lemma ClockOfReserve(limits: Limits, r: Runtime, c: Command, now: nat)
    requires Runnable(r.ledger) && r.ledger.highWater <= now && c.Reserve? && c.clock <= now
    ensures Step(limits, r, c).0.ledger.highWater <= now
  {
    Replaying.ReserveShape(r.account, limits, r.ledger, c.request, c.status, c.clock, c.append);
    ReservedClock(limits, r.ledger, c.request, c.clock);
    hide TryReserve, Screen, CapacityScreen, Settled, PruneResolutions, Grant;
  }

  lemma ReservedClock(limits: Limits, l: Ledger, q: Request, clock: nat)
    ensures PruneResolutions(Tick(l, clock), Now(l, clock), limits.retention).highWater == Now(l, clock)
    ensures Settled(l, limits, clock).highWater == Now(l, clock)
    ensures Grant(Settled(l, limits, clock), q, Now(l, clock)).highWater == Now(l, clock)
  {
  }

  lemma ClockOfChange(l: Ledger, c: Command)
    requires Runnable(l)
    ensures c.Dispatching? ==> MarkDispatched(l, c.attempt, c.clock, c.append).ledger.highWater <= Now(l, c.clock)
    ensures c.Finishing? ==> Finish(l, c.attempt, c.resolution, c.clock, c.append).ledger.highWater <= Now(l, c.clock)
    ensures c.Publishing? ==> Publish(l, c.account, c.clock).highWater <= Now(l, c.clock)
    ensures c.Reading? ==> ReadCapacity(l, c.clock).highWater <= Now(l, c.clock)
  {
    hide CloseAttempt, Settle, ExceedsReservation, DispatchOf;
  }

  lemma ClockOfRest(l: Ledger, c: Command)
    ensures c.Swapping? ==> SwapCircuit(l, c.generation, c.expected, c.replacement, c.append).ledger.highWater == l.highWater
    ensures c.ProbeBegins? ==> BeginProbe(l, c.probe, c.append).ledger.highWater == l.highWater
    ensures c.Marking? ==> MarkUncertain(l, c.attempt, c.append).ledger.highWater == l.highWater
  {
    hide UncertainOf;
  }

  lemma ClockKept(limits: Limits, r: Runtime, c: Command, now: nat)
    requires Runnable(r.ledger) && r.ledger.highWater <= now && (CommandClock(c).Some? ==> CommandClock(c).value <= now)
    ensures Step(limits, r, c).0.ledger.highWater <= now
  {
    hide TryReserve, Finish, MarkDispatched, SwapCircuit, SetActiveCount, BeginProbe, FinishProbe, MarkUncertain, Publish, ReadCapacity;
    if c.Reserve? {
      ClockOfReserve(limits, r, c, now);
    } else {
      ClockOfChange(r.ledger, c);
      ClockOfRest(r.ledger, c);
      CountedSame(r.ledger, c);
    }
  }

  // ---------------------------------------------------------------- the dispatch in hand

  /** An attempt that is not live any more has been resolved. */
  ghost predicate LiveOrResolved(l: Ledger, id: Id) { id in l.attempts ==> id in l.resolutions || l.attempts[id].state.Live? }

  lemma ReserveLeavesLive(limits: Limits, r: Runtime, c: Command, id: Id)
    requires Runnable(r.ledger) && c.Reserve? && LiveOrResolved(r.ledger, id)
    ensures LiveOrResolved(Step(limits, r, c).0.ledger, id)
  {
    Replaying.ReserveShape(r.account, limits, r.ledger, c.request, c.status, c.clock, c.append);
    ReservedLive(limits, r.ledger, c.request, c.clock, id);
    hide TryReserve, Screen, CapacityScreen, Settled, PruneResolutions, Grant, LiveOrResolved;
  }

  lemma ReservedLive(limits: Limits, l: Ledger, q: Request, clock: nat, id: Id)
    requires LiveOrResolved(l, id)
    ensures LiveOrResolved(PruneResolutions(Tick(l, clock), Now(l, clock), limits.retention), id)
    ensures LiveOrResolved(Settled(l, limits, clock), id)
    ensures LiveOrResolved(Grant(Settled(l, limits, clock), q, Now(l, clock)), id)
  {
  }

  lemma ChangeLeavesLive(l: Ledger, c: Command, id: Id)
    requires Runnable(l) && LiveOrResolved(l, id)
    ensures c.Dispatching? ==> LiveOrResolved(MarkDispatched(l, c.attempt, c.clock, c.append).ledger, id)
    ensures c.Finishing? ==> LiveOrResolved(Finish(l, c.attempt, c.resolution, c.clock, c.append).ledger, id)
    ensures c.Swapping? ==> LiveOrResolved(SwapCircuit(l, c.generation, c.expected, c.replacement, c.append).ledger, id)
    ensures c.ProbeBegins? ==> LiveOrResolved(BeginProbe(l, c.probe, c.append).ledger, id)
  {
  }

  lemma RestLeavesLive(l: Ledger, c: Command, id: Id)
    requires LiveOrResolved(l, id)
    ensures c.Counting? ==> LiveOrResolved(SetActiveCount(l, c.count, c.append).ledger, id)
    ensures c.ProbeEnds? ==> LiveOrResolved(FinishProbe(l, c.probe, c.probing, c.append).ledger, id)
    ensures c.Publishing? ==> LiveOrResolved(Publish(l, c.account, c.clock), id)
    ensures c.Reading? ==> LiveOrResolved(ReadCapacity(l, c.clock), id)
  {
  }

  lemma LiveKept(limits: Limits, r: Runtime, c: Command, id: Id)
    requires Runnable(r.ledger) && !c.Marking? && LiveOrResolved(r.ledger, id)
    ensures LiveOrResolved(Step(limits, r, c).0.ledger, id)
  {
    hide LiveOrResolved, TryReserve, Finish, MarkDispatched, SwapCircuit, SetActiveCount, BeginProbe, FinishProbe, Publish, ReadCapacity;
    if c.Reserve? {
      ReserveLeavesLive(limits, r, c, id);
    } else {
      ChangeLeavesLive(r.ledger, c, id);
      RestLeavesLive(r.ledger, c, id);
    }
  }

  ghost predicate Pending(fleet: map<Id, Runtime>, stage: Stage) {
    stage.Reserved? && stage.candidate.account in fleet ==> LiveOrResolved(fleet[stage.candidate.account].ledger, stage.attempt)
  }

  /** The dispatch in hand is for a request that has been admitted, and has that request's deadline. */
  ghost predicate OnTime(s: System, r: Id) {
    !s.stage.Idle? && s.stage.request == r ==> r in s.books && s.stage.deadline == s.books[r].deadline
  }

  // ---------------------------------------------------------------- what an event asks of the ledgers

  /** The command that an event puts to an account, if it comes that far. */
  ghost function ActionOf(s: System, e: Event): Option<Action> {
    match e
    case Reserving(q, status, clock, append) =>
      if s.stage.Chosen? && q.attempt !in s.minted then
        var asked := Asked(q, s.stage.request, s.stage.candidate, s.stage.deadline);
        Some(Action(s.stage.candidate.account, LedgerModel.Reserve(asked, status, clock, append)))
      else None
    case Marking(clock, append, _) =>
      if s.stage.Reserved? then Some(Action(s.stage.candidate.account, Dispatching(s.stage.attempt, clock, append))) else None
    case Shadowing(q, seen, status, clock, append) =>
      if q.attempt !in s.minted && seen < q.deadline then Some(Action(q.account, LedgerModel.Reserve(q, status, clock, append))) else None
    case ShadowMarking(account, attempt, clock, append) =>
      if attempt in s.shadows then Some(Action(account, Dispatching(attempt, clock, append))) else None
    case Other(a) => if a.command.Reserve? || a.command.Dispatching? then None else Some(a)
    case _ => None
  }

  lemma GoActs(limits: Limits, s: System, e: Event)
    requires Runs(s.fleet)
    ensures Go(limits, s, e).fleet == if ActionOf(s, e).Some? then Act(limits, s.fleet, ActionOf(s, e).value).0 else s.fleet
  {
    hide Act, Runs, IsView, Look, CanSend, Booked, Asked;
  }

  /** A command of the running process, at its time, for an attempt that is new if it reserves. */
  ghost predicate Timed(c: Command, minted: set<Id>, now: nat) {
    && !c.Marking? && (c.Reserve? ==> c.request.attempt !in minted)
    && (CommandClock(c).Some? ==> CommandClock(c).value <= now)
  }

  lemma ActionTimed(s: System, e: Event, now: nat)
    requires NoRestart(e)
    ensures ActionOf(s, e).Some? ==> Timed(ActionOf(s, e).value.command, s.minted, Then(now, e))
  {
  }

  // ---------------------------------------------------------------- one step of all accounts

  ghost predicate Clocked(fleet: map<Id, Runtime>, now: nat) { forall k :: k in fleet ==> fleet[k].ledger.highWater <= now }

  lemma ActClocked(limits: Limits, fleet: map<Id, Runtime>, a: Action, minted: set<Id>, now: nat)
    requires Runs(fleet) && Clocked(fleet, now) && Timed(a.command, minted, now)
    ensures Clocked(Act(limits, fleet, a).0, now)
  {
    if a.account in fleet {
      ClockKept(limits, fleet[a.account], a.command, now);
    }
    hide Step;
  }

  /** The request's dispatch is still firm at some account. */
  ghost predicate FirmIn(fleet: map<Id, Runtime>, r: Id, x: Sent, deadline: nat, retention: nat) {
    exists k, d :: FirmAt(fleet, k, d, deadline, retention) && d.request == r && SentFrom(d) == x
  }

  ghost predicate FirmAt(fleet: map<Id, Runtime>, k: Id, d: Dispatch, deadline: nat, retention: nat) {
    k in fleet && Firm(fleet[k].ledger, d, deadline, retention)
  }

  lemma ActFirm(limits: Limits, fleet: map<Id, Runtime>, a: Action, minted: set<Id>, r: Id, x: Sent, deadline: nat, now: nat)
    requires Runs(fleet) && Clocked(fleet, now) && now < deadline && Timed(a.command, minted, now)
    requires forall d :: Visible(fleet, d) ==> d.attempt in minted
    requires FirmIn(fleet, r, x, deadline, limits.retention)
    ensures FirmIn(Act(limits, fleet, a).0, r, x, deadline, limits.retention)
  {
    hide Step, Firm, Shows, SentFrom;
    var k, d :| FirmAt(fleet, k, d, deadline, limits.retention) && d.request == r && SentFrom(d) == x;
    FirmShows(fleet[k].ledger, d, deadline, limits.retention);
    assert Visible(fleet, d);
    if k == a.account {
      FirmKept(limits, fleet[k], a.command, d, deadline, now);
    }
    assert FirmAt(Act(limits, fleet, a).0, k, d, deadline, limits.retention);
  }

  lemma FirmIsShown(fleet: map<Id, Runtime>, r: Id, x: Sent, deadline: nat, retention: nat)
    requires FirmIn(fleet, r, x, deadline, retention)
    ensures ShownFor(fleet, r, x)
  {
    hide Firm, Shows, SentFrom;
    var k, d :| FirmAt(fleet, k, d, deadline, retention) && d.request == r && SentFrom(d) == x;
    FirmShows(fleet[k].ledger, d, deadline, retention);
    assert Visible(fleet, d);
  }

  lemma ActPending(limits: Limits, fleet: map<Id, Runtime>, a: Action, stage: Stage)
    requires Runs(fleet) && !a.command.Marking? && Pending(fleet, stage)
    ensures Pending(Act(limits, fleet, a).0, stage)
  {
    hide Step, LiveOrResolved;
    if stage.Reserved? && stage.candidate.account == a.account && a.account in fleet {
      LiveKept(limits, fleet[a.account], a.command, stage.attempt);
    }
  }

  // ---------------------------------------------------------------- one step of the system

  lemma ClockedStep(limits: Limits, s: System, e: Event, now: nat)
    requires Runs(s.fleet) && Clocked(s.fleet, now) && Ticks(now, e) && NoRestart(e)
    ensures Clocked(Go(limits, s, e).fleet, Then(now, e))
  {
    GoActs(limits, s, e);
    ActionTimed(s, e, now);
    hide Runs, Act, Go, ActionOf, Timed, Then;
    if ActionOf(s, e).Some? {
      ActClocked(limits, s.fleet, ActionOf(s, e).value, s.minted, Then(now, e));
    }
  }

  lemma FirmStep(limits: Limits, s: System, r: Id, x: Sent, deadline: nat, e: Event, now: nat)
    requires Runs(s.fleet) && Accounted(s) && Clocked(s.fleet, now) && Ticks(now, e) && NoRestart(e) && Then(now, e) < deadline
    requires FirmIn(s.fleet, r, x, deadline, limits.retention)
    ensures FirmIn(Go(limits, s, e).fleet, r, x, deadline, limits.retention)
  {
    GoActs(limits, s, e);
    ActionTimed(s, e, now);
    hide Runs, Act, Go, ActionOf, Timed, Then, FirmIn, Visible, Awaiting;
    if ActionOf(s, e).Some? {
      ActFirm(limits, s.fleet, ActionOf(s, e).value, s.minted, r, x, deadline, Then(now, e));
    }
  }

  lemma PendingStep(limits: Limits, s: System, e: Event)
    requires Runs(s.fleet) && Pending(s.fleet, s.stage) && NoRestart(e)
    ensures Pending(Go(limits, s, e).fleet, Go(limits, s, e).stage)
  {
    GoActs(limits, s, e);
    ActionTimed(s, e, 0);
    if e.Reserving? && ActionOf(s, e).Some? {
      PendingReserved(limits, s, e);
    } else {
      StageKept(limits, s, e);
      hide Runs, Act, Go, ActionOf, Then;
      if ActionOf(s, e).Some? {
        ActPending(limits, s.fleet, ActionOf(s, e).value, s.stage);
      }
    }
  }

  lemma StageKept(limits: Limits, s: System, e: Event)
    requires Runs(s.fleet) && !(e.Reserving? && ActionOf(s, e).Some?)
    ensures Go(limits, s, e).stage.Reserved? ==> Go(limits, s, e).stage == s.stage
  {
    hide Act, Runs, IsView, Look, CanSend, Booked, Asked;
  }

  lemma PendingReserved(limits: Limits, s: System, e: Event)
    requires Runs(s.fleet) && e.Reserving? && s.stage.Chosen? && e.q.attempt !in s.minted
    ensures Pending(Go(limits, s, e).fleet, Go(limits, s, e).stage)
  {
    var c := s.stage.candidate;
    if c.account in s.fleet {
      ReservedAsChosen(limits, s.fleet[c.account], e.q, s.stage.request, c, s.stage.deadline, e.status, e.clock, e.append);
    }
    hide Step, Awaits, Asked;
  }

  lemma OnTimeStep(limits: Limits, s: System, r: Id, e: Event)
    requires Runs(s.fleet) && OnTime(s, r)
    ensures OnTime(Go(limits, s, e), r)
  {
    hide Act, Runs, IsView, CanSend, Absorb, SortSent, Mark, Asked;
  }

  /** A deadline is given once. */
  lemma DeadlinesKept(limits: Limits, s: System, r: Id, e: Event)
    requires Runs(s.fleet)
    ensures var after := Go(limits, s, e).books;
            && (r in s.books ==> r in after && after[r].deadline == s.books[r].deadline)
            && (r in after && r !in s.books ==> e.Admitting? && after[r].deadline == e.deadline)
  {
    hide Act, Runs, IsView, CanSend, Absorb, SortSent, Mark, Asked;
  }

  /** Once the deadline has come nothing more is dispatched for the request. */
  lemma LateIsRefused(limits: Limits, s: System, r: Id, e: Event, now: nat)
    requires Runs(s.fleet) && Accounted(s) && OnTime(s, r) && r in s.books && s.books[r].deadline <= Then(now, e)
    ensures NewSend(limits, s, r, e) == []
  {
    if NewSend(limits, s, r, e) != [] {
      var k := s.stage.candidate.account;
      var _ := DispatchShows(limits, s.fleet[k], s.stage.attempt, e.clock, e.append);
      hide Step, Visible, Shows, SentFrom, SentOf;
    }
  }

  lemma MarkedIsFirm(l: Ledger, id: Id, clock: nat, append: Append, deadline: nat, retention: nat)
    requires LiveOrResolved(l, id) && l.highWater <= clock && deadline <= clock + retention
    ensures var change := MarkDispatched(l, id, clock, append);
            change.entry.Some? ==>
              id in change.ledger.attempts && DispatchOf(id, change.ledger.attempts[id]).Some?
              && Firm(change.ledger, DispatchOf(id, change.ledger.attempts[id]).value, deadline, retention)
  {
  }

  /** A new dispatch is firm until the deadline, which is no further off than the retention. */
  lemma NewIsFirm(limits: Limits, s: System, r: Id, e: Event, now: nat, deadline: nat)
    requires Runs(s.fleet) && Accounted(s) && Clocked(s.fleet, now) && Pending(s.fleet, s.stage)
    requires NewSend(limits, s, r, e) != [] && now <= e.clock && deadline <= e.clock + limits.retention
    ensures FirmIn(Go(limits, s, e).fleet, r, NewSend(limits, s, r, e)[0].sent, deadline, limits.retention)
  {
    var k, id := s.stage.candidate.account, s.stage.attempt;
    var l := s.fleet[k].ledger;
    var after := Go(limits, s, e).fleet;
    MarkedIsFirm(l, id, e.clock, e.append, deadline, limits.retention);
    var d := DispatchOf(id, MarkDispatched(l, id, e.clock, e.append).ledger.attempts[id]).value;
    assert after[k].ledger == MarkDispatched(l, id, e.clock, e.append).ledger;
    assert FirmAt(after, k, d, deadline, limits.retention);
    assert Some(d) == DispatchOf(id, l.attempts[id].(dispatchedAt := Some(d.at)));
    AwaitedDispatch(l.attempts[id], r, s.stage.candidate, id, s.stage.deadline, d);
    hide Firm, Awaits, SentFrom, SentOf, Visible, Act, Mark;
  }

  // ---------------------------------------------------------------- the history of a request

  ghost predicate AllFirm(fleet: map<Id, Runtime>, r: Id, sends: seq<Send>, deadline: nat, retention: nat) {
    forall x :: x in sends ==> FirmIn(fleet, r, x.sent, deadline, retention)
  }

  /** Before the deadline whatever was dispatched is remembered, and firm. */
  ghost predicate Timely(limits: Limits, s: System, r: Id, known: seq<Send>, made: seq<Send>, now: nat) {
    && Inv(s, r, known) && Capped(made) && Clocked(s.fleet, now) && Pending(s.fleet, s.stage) && OnTime(s, r)
    && (r !in s.books ==> made == [] && known == [])
    && (r in s.books ==> Lasting(limits, s, r, known, made, s.books[r].deadline, now))
  }

  ghost predicate Lasting(limits: Limits, s: System, r: Id, known: seq<Send>, made: seq<Send>, deadline: nat, now: nat) {
    deadline <= now + limits.retention && (now < deadline ==> known == made && AllFirm(s.fleet, r, made, deadline, limits.retention))
  }

  lemma {:induction false} RecallAll(sends: seq<Send>, s: System, r: Id)
    requires forall x :: x in sends ==> Remembered(s, r, x.sent)
    ensures Recall(sends, s, r) == sends
    decreases |sends|
  {
    hide Remembered;
    if sends != [] {
      var n := |sends| - 1;
      RecallAll(sends[..n], s, r);
      assert sends == sends[..n] + [sends[n]];
    }
  }

  lemma FirmRecalled(s: System, r: Id, sends: seq<Send>, deadline: nat, retention: nat)
    requires AllFirm(s.fleet, r, sends, deadline, retention)
    ensures Recall(sends, s, r) == sends
  {
    hide FirmIn, ShownFor, Recall;
    forall x | x in sends
      ensures Remembered(s, r, x.sent)
    {
      FirmIsShown(s.fleet, r, x.sent, deadline, retention);
    }
    RecallAll(sends, s, r);
  }

  lemma InvAccounted(s: System, r: Id, sends: seq<Send>)
    requires Inv(s, r, sends)
    ensures Runs(s.fleet) && Accounted(s)
  {
    hide Runs, Accounted, Apart, BookFine, InHand, Capped, Made, Remembered;
  }

  lemma FirmAfter(limits: Limits, s: System, r: Id, sends: seq<Send>, deadline: nat, e: Event, now: nat)
    requires Runs(s.fleet) && Accounted(s) && Clocked(s.fleet, now) && Pending(s.fleet, s.stage) && Ticks(now, e) && NoRestart(e)
    requires AllFirm(s.fleet, r, sends, deadline, limits.retention) && Then(now, e) < deadline <= now + limits.retention
    ensures AllFirm(Go(limits, s, e).fleet, r, sends + NewSend(limits, s, r, e), deadline, limits.retention)
  {
    var made := NewSend(limits, s, r, e);
    assert made != [] ==> e.Marking? && Then(now, e) == e.clock && |made| == 1;
    hide Runs, Accounted, Clocked, Pending, FirmIn, Go, NewSend;
    forall x | x in sends + made
      ensures FirmIn(Go(limits, s, e).fleet, r, x.sent, deadline, limits.retention)
    {
      if x in sends {
        FirmStep(limits, s, r, x.sent, deadline, e, now);
      } else {
        NewIsFirm(limits, s, r, e, now, deadline);
      }
    }
  }

  /** Before its deadline a request's new dispatch joins those that are remembered; after it there is none. */
  lemma LastingStep(limits: Limits, s: System, r: Id, known: seq<Send>, made: seq<Send>, e: Event, now: nat)
    requires Timely(limits, s, r, known, made, now) && r in s.books && Ticks(now, e) && NoRestart(e) && Runs(s.fleet)
    ensures Lasting(limits, Go(limits, s, e), r, KnownAfter(limits, s, r, known, e), made + NewSend(limits, s, r, e), s.books[r].deadline, Then(now, e))
    ensures Capped(made + NewSend(limits, s, r, e))
  {
    var deadline := s.books[r].deadline;
    InvAccounted(s, r, known);
    hide Inv, Runs, Accounted, Clocked, Pending, OnTime, AllFirm, Capped, Go, NewSend, Recall, Then;
    if Then(now, e) < deadline {
      FirmAfter(limits, s, r, made, deadline, e, now);
      FirmRecalled(Go(limits, s, e), r, made + NewSend(limits, s, r, e), deadline, limits.retention);
      MarkedCapped(limits, s, r, known, e);
    } else {
      LateIsRefused(limits, s, r, e, now);
      assert made + [] == made;
    }
  }

  lemma NothingBefore(limits: Limits, s: System, r: Id, e: Event)
    requires Runs(s.fleet) && OnTime(s, r) && r !in s.books
    ensures NewSend(limits, s, r, e) == [] && KnownAfter(limits, s, r, [], e) == []
  {
    hide Runs, Mark, Go, Remembered;
  }

  lemma FreshDeadline(limits: Limits, s: System, r: Id, e: Event, lifetime: nat, now: nat)
    requires Runs(s.fleet) && r !in s.books && Lives(e, lifetime) && lifetime <= limits.retention
    ensures var after := Go(limits, s, e).books; r in after ==> after[r].deadline <= Then(now, e) + limits.retention
  {
    DeadlinesKept(limits, s, r, e);
    hide Runs, Go;
  }

  /** One step keeps the history of the request in order. */
  lemma TimelyStep(limits: Limits, s: System, r: Id, known: seq<Send>, made: seq<Send>, e: Event, now: nat, lifetime: nat)
    requires Timely(limits, s, r, known, made, now) && Runs(s.fleet)
    requires Proper(e) && NotShadow(e, r) && Ticks(now, e) && NoRestart(e) && Lives(e, lifetime) && lifetime <= limits.retention
    ensures Timely(limits, Go(limits, s, e), r, KnownAfter(limits, s, r, known, e), made + NewSend(limits, s, r, e), Then(now, e))
  {
    StepKeeps(limits, s, r, known, e);
    ClockedStep(limits, s, e, now);
    PendingStep(limits, s, e);
    OnTimeStep(limits, s, r, e);
    DeadlinesKept(limits, s, r, e);
    if r in s.books {
      LastingStep(limits, s, r, known, made, e, now);
    } else {
      NothingBefore(limits, s, r, e);
      FreshDeadline(limits, s, r, e, lifetime, now);
      NothingFirm(Go(limits, s, e).fleet, r);
    }
    hide Inv, Runs, Clocked, Pending, OnTime, AllFirm, Capped, Go, NewSend, KnownAfter, Then, Ticks, Proper, NotShadow, NoRestart, Lives;
  }

  lemma NothingFirm(fleet: map<Id, Runtime>, r: Id)
    ensures forall deadline, retention :: AllFirm(fleet, r, [], deadline, retention)
  {
    hide FirmIn;
  }

  /** What a run is: one process, its clock, and requests that live no longer than this. */
  ghost predicate Running(now: nat, events: seq<Event>, r: Id, lifetime: nat) {
    AllProper(events) && Serving(events, r) && InOrder(now, events) && OneProcess(events) && Lifetimes(events, lifetime)
  }

  lemma RunningStep(now: nat, events: seq<Event>, r: Id, lifetime: nat)
    requires Running(now, events, r, lifetime) && events != []
    ensures Running(Then(now, events[0]), events[1..], r, lifetime)
    ensures Proper(events[0]) && NotShadow(events[0], r) && Ticks(now, events[0]) && NoRestart(events[0]) && Lives(events[0], lifetime)
  {
    hide Proper, NotShadow, Ticks, Then, NoRestart, Lives;
  }

  lemma {:induction false} TimelyRun(limits: Limits, s: System, r: Id, known: seq<Send>, made: seq<Send>, now: nat, events: seq<Event>, lifetime: nat)
    requires Timely(limits, s, r, known, made, now) && Running(now, events, r, lifetime) && lifetime <= limits.retention && Runs(s.fleet)
    ensures Capped(made + MadeIn(limits, s, r, events))
    decreases |events|
  {
    if events == [] {
      assert made + [] == made;
      hide Inv, Runs, Clocked, Pending, OnTime, Lasting, Capped;
    } else {
      RunningStep(now, events, r, lifetime);
      TimelyStep(limits, s, r, known, made, events[0], now, lifetime);
      GoRuns(limits, s, events[0]);
      hide Timely, Running, Runs, Capped, Go, NewSend, KnownAfter, Proper, Then, Lives, Ticks, NoRestart;
      var next := Go(limits, s, events[0]);
      TimelyRun(limits, next, r, KnownAfter(limits, s, r, known, events[0]), made + NewSend(limits, s, r, events[0]), Then(now, events[0]), events[1..], lifetime);
      assert (made + NewSend(limits, s, r, events[0])) + MadeIn(limits, next, r, events[1..]) == made + MadeIn(limits, s, r, events);
    }
  }

  /** Where a request's history begins: no budget for it, nothing in hand, and nothing of it shown. */
  ghost predicate Beginning(s: System, r: Id, now: nat) {
    && Runs(s.fleet) && Accounted(s) && Apart(s, r) && s.stage.Idle? && r !in s.books && Clocked(s.fleet, now)
    && forall x :: !ShownFor(s.fleet, r, x)
  }

  /** As long as no request's deadline is further off than resolutions are retained, everything that was ever
      dispatched for a request satisfies the cap: the interrupted, resolved and pruned dispatches as well. */
  lemma HistoryIsCapped(limits: Limits, s: System, r: Id, now: nat, events: seq<Event>, lifetime: nat)
    requires Beginning(s, r, now) && Running(now, events, r, lifetime) && lifetime <= limits.retention
    ensures Capped(MadeIn(limits, s, r, events))
  {
    StartIsCapped(s, r);
    NothingIsCapped();
    hide Running, Runs, Accounted, Apart, Clocked, ShownFor, Capped, MadeIn, Inv;
    TimelyRun(limits, s, r, [], [], now, events, lifetime);
    assert [] + MadeIn(limits, s, r, events) == MadeIn(limits, s, r, events);
  }
}
