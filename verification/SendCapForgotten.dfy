/** What happens to the send cap when a request may outlive the retention of resolutions: an interrupted
    dispatch is resolved, a shadow's reservation prunes it before the request looks again, and the request is
    sent to the same place once more. So the whole history is capped exactly when no request outlives it. */
module SendCapForgotten {
  import opened Common
  import opened LedgerModel
  import opened Budget
  import opened SendCap
  import opened SendCapHistory
  import Fleets = Fleet
  import Replaying = LedgerReplay

  // ---------------------------------------------------------------- one account without quotas

  const PLACE := Candidate(1, 1, 1, PrimaryCause, CLOSED_CIRCUIT, CLOSED_CIRCUIT)

  const ACCOUNT := Account(1, Active, Known(1), 1, AttestedAbsent, 60, AttestedAbsent, 60, AttestedAbsent, 0, None)

  /** How an interrupted dispatch is resolved: the slot is given back, and nothing was used. */
  const INTERRUPTED := Resolution(ClientCancelled, true, Some(0), Some(0), Some(0))

  function Asking(attempt: Id, request: Id, deadline: nat): Request {
    Request(attempt, 1, Binding(request, 1, 1, 0, 0, 0, 0, 0, 0), deadline, 0, 0, 0, 0, CLOSED_CIRCUIT, CLOSED_CIRCUIT)
  }

  /** No circuit, probe, hold or month stands in the way. */
  ghost predicate Plain(l: Ledger) {
    && Replaying.Sound(l) && l.circuits == map[] && l.accountCircuit == CLOSED_CIRCUIT
    && l.recoveryProbe.None? && l.holds == 0 && l.monthlyReset == 0
  }

  /** Nothing is held; resolutions and starts are those of these attempts, from then on. */
  ghost predicate Idling(l: Ledger, resolved: set<Id>, started: set<Id>, at: nat) {
    Plain(l) && l.attempts == map[] && l.resolutions.Keys == resolved && l.starts.Keys <= started && l.highWater == at
  }

  /** The first request's one attempt, reserved or dispatched. */
  ghost predicate Holding(l: Ledger, attempt: Id, started: set<Id>, deadline: nat, dispatched: bool, at: nat) {
    && Plain(l) && l.attempts.Keys == {attempt} && l.resolutions == map[] && l.starts.Keys <= started && l.highWater == at
    && l.attempts[attempt].deadline == deadline && l.attempts[attempt].binding.request == 1 && l.attempts[attempt].quota == 0
    && (if dispatched then l.attempts[attempt].receipt.Some? && l.attempts[attempt].dispatchedAt.Some? else l.attempts[attempt].receipt.None?)
  }

  lemma SettledIdles(limits: Limits, l: Ledger, started: set<Id>, at: nat, clock: nat)
    requires Idling(l, {}, started, at) && at <= clock
    ensures Idling(Settled(l, limits, clock), {}, started, clock)
    ensures var pruned := PruneResolutions(Tick(l, clock), Now(l, clock), limits.retention);
            pruned.resolutions == map[] && pruned.attempts == map[] && pruned == l.(resolutions := map[], highWater := clock)
  {
    Replaying.PruningIsSound(limits, l, clock);
  }

  lemma AskingPasses(limits: Limits, l: Ledger, q: Request, now: nat)
    requires Plain(l) && l.attempts == map[] && l.resolutions == map[] && q == Asking(q.attempt, q.binding.request, q.deadline)
    requires q.attempt !in l.starts && now < q.deadline && limits.ledger > 0
    ensures Screen(ACCOUNT, limits, l, q, now).None?
  {
    assert l.Unresolved() == {};
  }

  lemma CapacityPasses(l: Ledger, q: Request, now: nat)
    requires Plain(l) && l.attempts == map[] && q == Asking(q.attempt, q.binding.request, q.deadline)
    ensures CapacityScreen(ACCOUNT, l, q, now).None?
  {
  }

  lemma GrantHolds(l: Ledger, q: Request, started: set<Id>, now: nat)
    requires Idling(l, {}, started, now) && q == Asking(q.attempt, 1, q.deadline)
    ensures Holding(Grant(l, q, now), q.attempt, started + {q.attempt}, q.deadline, false, now)
  {
    Replaying.GrantIsSound(l, q, now);
  }

  /** With nothing held and time left, the request is granted. */
  lemma Granting(limits: Limits, l: Ledger, q: Request, started: set<Id>, at: nat, clock: nat, receipt: Receipt)
    requires Idling(l, {}, started, at) && at <= clock < q.deadline && q == Asking(q.attempt, 1, q.deadline) && q.attempt !in started && limits.ledger > 0
    ensures var (after, entry) := Step(limits, Runtime(ACCOUNT, l), LedgerModel.Reserve(q, Healthy, clock, Appended(receipt)));
            entry.Some? && after.account == ACCOUNT && Holding(after.ledger, q.attempt, started + {q.attempt}, q.deadline, false, clock)
  {
    SettledIdles(limits, l, started, at, clock);
    var pruned := PruneResolutions(Tick(l, clock), clock, limits.retention);
    AskingPasses(limits, pruned, q, clock);
    CapacityPasses(Settled(l, limits, clock), q, clock);
    GrantHolds(Settled(l, limits, clock), q, started, clock);
    hide Screen, CapacityScreen, PruneResolutions, Settled, Grant, Replaying.Sound, Holding;
  }

  /** A shadow whose deadline has just passed is refused, and prunes all the same. */
  lemma Refusing(limits: Limits, l: Ledger, q: Request, resolved: set<Id>, started: set<Id>, at: nat, clock: nat, append: Append)
    requires Idling(l, resolved, started, at) && at <= clock && q.deadline <= clock && q.account == 1 && limits.ledger > 0
    requires forall id :: id in resolved ==> l.resolutions[id].at + limits.retention <= clock
    ensures var (after, _) := Step(limits, Runtime(ACCOUNT, l), LedgerModel.Reserve(q, Healthy, clock, append));
            after.account == ACCOUNT && Idling(after.ledger, {}, started, clock)
  {
    var pruned := PruneResolutions(Tick(l, clock), clock, limits.retention);
    assert pruned.resolutions == map[];
    assert pruned.Unresolved() == {};
    assert Screen(ACCOUNT, limits, pruned, q, clock) == Some(Denied(DeadlinePassed, None));
    Replaying.PruningIsSound(limits, l, clock);
    hide Screen, PruneResolutions, Replaying.Sound;
  }

  lemma Marking(l: Ledger, attempt: Id, started: set<Id>, deadline: nat, clock: nat, receipt: Receipt)
    requires Holding(l, attempt, started, deadline, false, clock) && clock < deadline
    ensures var change := MarkDispatched(l, attempt, clock, Appended(receipt));
            change.entry.Some? && Holding(change.ledger, attempt, started, deadline, true, clock)
  {
  }

  lemma Resolving(l: Ledger, attempt: Id, started: set<Id>, deadline: nat, clock: nat, receipt: Receipt)
    requires Holding(l, attempt, started, deadline, true, clock)
    ensures var after := Finish(l, attempt, INTERRUPTED, clock, Appended(receipt)).ledger;
            Idling(after, {attempt}, started, clock) && after.resolutions[attempt].at == clock
  {
    Replaying.FinishIsSound(l, attempt, INTERRUPTED, clock, Appended(receipt));
  }

  // ---------------------------------------------------------------- a system of that account

  const NO_BOOK: map<Id, Book> := map[]

  function BookOf(deadline: nat): map<Id, Book> { map[1 := Book([], false, deadline)] }

  function Alone(l: Ledger, books: map<Id, Book>, stage: Stage, minted: set<Id>, shadows: set<Id>): System {
    System(map[1 := Runtime(ACCOUNT, l)], books, stage, minted, shadows)
  }

  lemma AloneRuns(l: Ledger, books: map<Id, Book>, stage: Stage, minted: set<Id>, shadows: set<Id>)
    requires Plain(l)
    ensures Fleets.Runs(Alone(l, books, stage, minted, shadows).fleet) && Runnable(l)
  {
    hide Replaying.CircuitsValid;
  }

  lemma ActAlone(limits: Limits, l: Ledger, c: Command)
    requires Plain(l)
    ensures Fleets.Runs(map[1 := Runtime(ACCOUNT, l)]) && Runnable(l)
    ensures var (after, line) := Fleets.Act(limits, map[1 := Runtime(ACCOUNT, l)], Fleets.Action(1, c));
            var (next, entry) := Step(limits, Runtime(ACCOUNT, l), c);
            after == map[1 := next] && (line.Some? <==> entry.Some?)
  {
    hide Step, Replaying.CircuitsValid;
    var r := Runtime(ACCOUNT, l);
    assert map[1 := r][1 := Step(limits, r, c).0] == map[1 := Step(limits, r, c).0];
  }

  lemma ChoosesPlace(limits: Limits, l: Ledger, deadline: nat, minted: set<Id>, shadows: set<Id>)
    requires Plain(l) && l.attempts == map[] && l.resolutions == map[]
    ensures var s := Alone(l, BookOf(deadline), Idle, minted, shadows);
            && Fleets.Runs(s.fleet)
            && Go(limits, s, Choosing(1, PLACE, [])) == Alone(l, BookOf(deadline), Chosen(1, PLACE, deadline), minted, shadows)
  {
    var s := Alone(l, BookOf(deadline), Idle, minted, shadows);
    AloneRuns(l, BookOf(deadline), Idle, minted, shadows);
    assert forall d :: !Visible(s.fleet, d);
    assert s.books[1 := s.books[1]] == s.books;
    hide Fleets.Runs, Plain, Visible;
  }

  lemma ReservesPlace(limits: Limits, l: Ledger, started: set<Id>, at: nat, deadline: nat, minted: set<Id>, shadows: set<Id>, attempt: Id, clock: nat)
    returns (after: Ledger)
    requires Idling(l, {}, started, at) && at <= clock < deadline && attempt !in started && attempt !in minted && limits.ledger > 0
    ensures var s := Alone(l, BookOf(deadline), Chosen(1, PLACE, deadline), minted, shadows);
            && Fleets.Runs(s.fleet)
            && Go(limits, s, Reserving(Asking(attempt, 1, deadline), Healthy, clock, Appended(Receipt(attempt, 1))))
               == Alone(after, BookOf(deadline), Stage.Reserved(1, PLACE, attempt, deadline), minted + {attempt}, shadows)
    ensures Holding(after, attempt, started + {attempt}, deadline, false, clock)
  {
    var q := Asking(attempt, 1, deadline);
    assert Asked(q, 1, PLACE, deadline) == q;
    Granting(limits, l, q, started, at, clock, Receipt(attempt, 1));
    var command := LedgerModel.Reserve(q, Healthy, clock, Appended(Receipt(attempt, 1)));
    hide Step, Plain, Holding, Asked, Asking, Fleets.Runs;
    ActAlone(limits, l, command);
    hide Fleets.Act;
    after := Step(limits, Runtime(ACCOUNT, l), command).0.ledger;
    AskingNames(attempt, 1, deadline);
  }

  lemma AskingNames(attempt: Id, request: Id, deadline: nat)
    ensures var q := Asking(attempt, request, deadline); q.attempt == attempt && q.account == 1 && q.deadline == deadline
  {
  }

  /** Marking, interrupted before the budget hears of it. */
  lemma MarksPlace(limits: Limits, l: Ledger, started: set<Id>, deadline: nat, minted: set<Id>, shadows: set<Id>, attempt: Id, clock: nat)
    returns (after: Ledger)
    requires Holding(l, attempt, started, deadline, false, clock) && clock < deadline
    ensures var s := Alone(l, BookOf(deadline), Stage.Reserved(1, PLACE, attempt, deadline), minted, shadows);
            var e := Event.Marking(clock, Appended(Receipt(attempt, 2)), false);
            && Fleets.Runs(s.fleet) && Go(limits, s, e) == Alone(after, BookOf(deadline), Idle, minted, shadows)
            && NewSend(limits, s, 1, e) == [Send(SentOf(PLACE, attempt), PrimaryCause)]
    ensures Holding(after, attempt, started, deadline, true, clock)
  {
    Marking(l, attempt, started, deadline, clock, Receipt(attempt, 2));
    after := MarkDispatched(l, attempt, clock, Appended(Receipt(attempt, 2))).ledger;
    hide Plain, Holding, Fleets.Runs, MarkDispatched, SentOf;
    ActAlone(limits, l, Dispatching(attempt, clock, Appended(Receipt(attempt, 2))));
    hide Fleets.Act;
  }

  /** The handler's resolution of the interrupted dispatch. */
  lemma ResolvesPlace(limits: Limits, l: Ledger, started: set<Id>, deadline: nat, minted: set<Id>, shadows: set<Id>, attempt: Id, clock: nat)
    returns (after: Ledger)
    requires Holding(l, attempt, started, deadline, true, clock)
    ensures var s := Alone(l, BookOf(deadline), Idle, minted, shadows);
            var e := Other(Fleets.Action(1, Finishing(attempt, INTERRUPTED, clock, Appended(Receipt(attempt, 3)))));
            Fleets.Runs(s.fleet) && Go(limits, s, e) == Alone(after, BookOf(deadline), Idle, minted, shadows)
    ensures Idling(after, {attempt}, started, clock) && after.resolutions[attempt].at == clock
  {
    Resolving(l, attempt, started, deadline, clock, Receipt(attempt, 3));
    var command := Finishing(attempt, INTERRUPTED, clock, Appended(Receipt(attempt, 3)));
    HeldRuns(l, attempt, started, deadline, clock);
    after := Finish(l, attempt, INTERRUPTED, clock, Appended(Receipt(attempt, 3))).ledger;
    hide Plain, Holding, Fleets.Runs, Finish, Idling;
    ActAlone(limits, l, command);
    hide Fleets.Act;
  }

  lemma HeldRuns(l: Ledger, attempt: Id, started: set<Id>, deadline: nat, clock: nat)
    requires Holding(l, attempt, started, deadline, true, clock)
    ensures Runnable(l)
  {
  }

  lemma ShadowRefused(limits: Limits, l: Ledger, started: set<Id>, at: nat, shadow: Id, clock: nat) returns (after: Ledger)
    requires Idling(l, {1}, started, at) && at < clock && l.resolutions[1].at + limits.retention <= clock && limits.ledger > 0
    ensures var fleet := map[1 := Runtime(ACCOUNT, l)];
            var command := LedgerModel.Reserve(Asking(shadow, 2, clock), Healthy, clock, Appended(Receipt(shadow, 4)));
            Fleets.Runs(fleet) && Fleets.Act(limits, fleet, Fleets.Action(1, command)).0 == map[1 := Runtime(ACCOUNT, after)]
    ensures Idling(after, {}, started, clock)
    ensures Asking(shadow, 2, clock).attempt == shadow && Asking(shadow, 2, clock).account == 1 && Asking(shadow, 2, clock).deadline == clock
  {
    var q := Asking(shadow, 2, clock);
    var command := LedgerModel.Reserve(q, Healthy, clock, Appended(Receipt(shadow, 4)));
    hide Step, Fleets.Runs, Fleets.Act, Replaying.Sound;
    ActAlone(limits, l, command);
    Refusing(limits, l, q, {1}, started, at, clock, Appended(Receipt(shadow, 4)));
    after := Step(limits, Runtime(ACCOUNT, l), command).0.ledger;
  }

  /** The shadow of a second request: it looked at the clock before its deadline and is reserved at it. */
  lemma ShadowPrunes(limits: Limits, l: Ledger, started: set<Id>, at: nat, deadline: nat, minted: set<Id>, shadow: Id, clock: nat)
    returns (after: Ledger)
    requires Idling(l, {1}, started, at) && at < clock && l.resolutions[1].at + limits.retention <= clock && shadow !in minted && limits.ledger > 0
    ensures var s := Alone(l, BookOf(deadline), Idle, minted, {});
            var e := Shadowing(Asking(shadow, 2, clock), clock - 1, Healthy, clock, Appended(Receipt(shadow, 4)));
            Fleets.Runs(s.fleet) && Go(limits, s, e) == Alone(after, BookOf(deadline), Idle, minted + {shadow}, {shadow})
    ensures Idling(after, {}, started, clock)
  {
    hide Idling, Plain, Step, Asking, Fleets.Runs, Fleets.Act, BookOf;
    after := ShadowRefused(limits, l, started, at, shadow, clock);
    assert {} + {shadow} == {shadow};
  }

  // ---------------------------------------------------------------- the run

  /** The time once the events are over. */
  function Until(now: nat, events: seq<Event>): nat
    decreases |events|
  {
    if events == [] then now else Until(Then(now, events[0]), events[1..])
  }

  lemma {:induction false} OneMoreTick(now: nat, events: seq<Event>, e: Event)
    requires InOrder(now, events) && Ticks(Until(now, events), e)
    ensures InOrder(now, events + [e]) && Until(now, events + [e]) == Then(Until(now, events), e)
    decreases |events|
  {
    hide Ticks, Then;
    var longer := events + [e];
    if events == [] {
      assert longer[1..] == [];
    } else {
      assert longer[0] == events[0] && longer[1..] == events[1..] + [e];
      OneMoreTick(Then(now, events[0]), events[1..], e);
    }
  }

  lemma {:induction false} OneMoreEvent(limits: Limits, s: System, r: Id, events: seq<Event>, e: Event)
    requires Fleets.Runs(s.fleet) && AllProper(events) && Proper(e)
    ensures AllProper(events + [e]) && Fleets.Runs(GoAll(limits, s, events).fleet)
    ensures GoAll(limits, s, events + [e]) == Go(limits, GoAll(limits, s, events), e)
    ensures MadeIn(limits, s, r, events + [e]) == MadeIn(limits, s, r, events) + NewSend(limits, GoAll(limits, s, events), r, e)
    decreases |events|
  {
    hide Go, Proper, NewSend, Fleets.Runs;
    var longer := events + [e];
    if events == [] {
      assert longer == [e] && longer[1..] == [];
      var made := NewSend(limits, s, r, e);
      assert made + [] == made && [] + made == made;
    } else {
      assert longer[0] == events[0] && longer[1..] == events[1..] + [e];
      GoRuns(limits, s, events[0]);
      var next := Go(limits, s, events[0]);
      OneMoreEvent(limits, next, r, events[1..], e);
      Regroup(NewSend(limits, s, r, events[0]), MadeIn(limits, next, r, events[1..]), NewSend(limits, GoAll(limits, next, events[1..]), r, e));
    }
  }

  lemma Regroup(a: seq<Send>, b: seq<Send>, c: seq<Send>)
    ensures a + (b + c) == (a + b) + c
  {
  }

  /** A run so far: where it is, the time, and what it has dispatched for the first request. */
  ghost predicate Reached(limits: Limits, start: System, lifetime: nat, events: seq<Event>, s: System, now: nat, made: seq<Send>) {
    && Fleets.Runs(start.fleet) && Running(1, events, 1, lifetime) && Until(1, events) == now
    && GoAll(limits, start, events) == s && MadeIn(limits, start, 1, events) == made
  }

  lemma Extend(limits: Limits, start: System, lifetime: nat, events: seq<Event>, s: System, now: nat, made: seq<Send>, e: Event)
    returns (longer: seq<Event>)
    requires Reached(limits, start, lifetime, events, s, now, made)
    requires Proper(e) && NotShadow(e, 1) && Ticks(now, e) && NoRestart(e) && Lives(e, lifetime)
    ensures Fleets.Runs(s.fleet) && Reached(limits, start, lifetime, longer, Go(limits, s, e), Then(now, e), made + NewSend(limits, s, 1, e))
  {
    hide GoAll, MadeIn, Go, NewSend, Proper, NotShadow, Ticks, NoRestart, Lives, Then, InOrder, Until, Fleets.Runs;
    longer := events + [e];
    OneMoreEvent(limits, start, 1, events, e);
    OneMoreTick(1, events, e);
  }

  lemma NothingYet(limits: Limits, start: System, lifetime: nat)
    requires Fleets.Runs(start.fleet)
    ensures Reached(limits, start, lifetime, [], start, 1, [])
  {
    hide Fleets.Runs;
  }

  /** An event that marks nothing dispatches nothing. */
  lemma Quietly(limits: Limits, start: System, lifetime: nat, events: seq<Event>, s: System, now: nat, made: seq<Send>, e: Event)
    returns (longer: seq<Event>)
    requires Reached(limits, start, lifetime, events, s, now, made) && !e.Marking?
    requires Proper(e) && NotShadow(e, 1) && Ticks(now, e) && NoRestart(e) && Lives(e, lifetime)
    ensures Fleets.Runs(s.fleet) && Reached(limits, start, lifetime, longer, Go(limits, s, e), Then(now, e), made)
  {
    hide Reached, Go, Proper, NotShadow, Ticks, NoRestart, Lives, Then, Fleets.Runs, Mark;
    longer := Extend(limits, start, lifetime, events, s, now, made, e);
    assert made + [] == made;
  }

  lemma ReserveAgain(limits: Limits, start: System, lifetime: nat, events: seq<Event>, l: Ledger, started: set<Id>, deadline: nat,
                     minted: set<Id>, shadows: set<Id>, now: nat, made: seq<Send>, attempt: Id) returns (longer: seq<Event>, after: Ledger)
    requires Reached(limits, start, lifetime, events, Alone(l, BookOf(deadline), Idle, minted, shadows), now, made)
    requires Idling(l, {}, started, now) && now < deadline && attempt !in started && attempt !in minted && limits.ledger > 0
    ensures Reached(limits, start, lifetime, longer,
                    Alone(after, BookOf(deadline), Stage.Reserved(1, PLACE, attempt, deadline), minted + {attempt}, shadows), now, made)
    ensures Holding(after, attempt, started + {attempt}, deadline, false, now)
  {
    ChoosesPlace(limits, l, deadline, minted, shadows);
    hide Go, Reached, Idling, Plain, Holding, Fleets.Runs, Alone, BookOf, Asking;
    var s, e := Alone(l, BookOf(deadline), Idle, minted, shadows), Choosing(1, PLACE, []);
    longer := Quietly(limits, start, lifetime, events, s, now, made, e);
    after := ReservesPlace(limits, l, started, now, deadline, minted, shadows, attempt, now);
    s, e := Go(limits, s, e), Reserving(Asking(attempt, 1, deadline), Healthy, now, Appended(Receipt(attempt, 1)));
    longer := Quietly(limits, start, lifetime, longer, s, now, made, e);
  }

  /** Choose, reserve and mark at the place, interrupted: one more dispatch of the first request. */
  lemma DispatchAgain(limits: Limits, start: System, lifetime: nat, events: seq<Event>, l: Ledger, started: set<Id>, deadline: nat,
                      minted: set<Id>, shadows: set<Id>, now: nat, made: seq<Send>, attempt: Id) returns (longer: seq<Event>, after: Ledger)
    requires Reached(limits, start, lifetime, events, Alone(l, BookOf(deadline), Idle, minted, shadows), now, made)
    requires Idling(l, {}, started, now) && now < deadline && attempt !in started && attempt !in minted && limits.ledger > 0
    ensures Reached(limits, start, lifetime, longer, Alone(after, BookOf(deadline), Idle, minted + {attempt}, shadows), now,
                    made + [Send(SentOf(PLACE, attempt), PrimaryCause)])
    ensures Holding(after, attempt, started + {attempt}, deadline, true, now)
  {
    hide Go, NewSend, Reached, Idling, Plain, Holding, Fleets.Runs, Alone, BookOf, SentOf;
    var held: Ledger;
    longer, held := ReserveAgain(limits, start, lifetime, events, l, started, deadline, minted, shadows, now, made, attempt);
    after := MarksPlace(limits, held, started + {attempt}, deadline, minted + {attempt}, shadows, attempt, now);
    var s := Alone(held, BookOf(deadline), Stage.Reserved(1, PLACE, attempt, deadline), minted + {attempt}, shadows);
    longer := Extend(limits, start, lifetime, longer, s, now, made, Event.Marking(now, Appended(Receipt(attempt, 2)), false));
  }

  /** The dispatch is resolved, and when the retention has gone by a shadow prunes it. */
  lemma ForgetAgain(limits: Limits, start: System, lifetime: nat, events: seq<Event>, l: Ledger, deadline: nat, now: nat, made: seq<Send>)
    returns (longer: seq<Event>, after: Ledger)
    requires Reached(limits, start, lifetime, events, Alone(l, BookOf(deadline), Idle, {1}, {}), now, made)
    requires Holding(l, 1, {1}, deadline, true, now) && limits.ledger > 0 && limits.retention > 0
    ensures Reached(limits, start, lifetime, longer, Alone(after, BookOf(deadline), Idle, {1} + {2}, {2}), now + limits.retention, made)
    ensures Idling(after, {}, {1}, now + limits.retention)
  {
    var resolved := ResolvesPlace(limits, l, {1}, deadline, {1}, {}, 1, now);
    var later := now + limits.retention;
    after := ShadowPrunes(limits, resolved, {1}, now, deadline, {1}, 2, later);
    hide Go, NewSend, Reached, Idling, Plain, Holding, Fleets.Runs, Alone, BookOf;
    var s, e := Alone(l, BookOf(deadline), Idle, {1}, {}), Other(Fleets.Action(1, Finishing(1, INTERRUPTED, now, Appended(Receipt(1, 3)))));
    longer := Quietly(limits, start, lifetime, events, s, now, made, e);
    s, e := Go(limits, s, e), Shadowing(Asking(2, 2, later), later - 1, Healthy, later, Appended(Receipt(2, 4)));
    longer := Quietly(limits, start, lifetime, longer, s, now, made, e);
  }

  ghost predicate Fresh(s: System) { s == Alone(NewLedger(ACCOUNT, 1), NO_BOOK, Idle, {}, {}) }

  lemma FreshBegins(s: System)
    requires Fresh(s)
    ensures Beginning(s, 1, 1) && Idling(s.fleet[1].ledger, {}, {}, 1)
  {
    assert forall d :: !Visible(s.fleet, d);
  }

  lemma Admitted(limits: Limits, start: System, lifetime: nat, deadline: nat) returns (events: seq<Event>)
    requires Fresh(start) && deadline <= 1 + lifetime
    ensures Reached(limits, start, lifetime, events, Alone(start.fleet[1].ledger, BookOf(deadline), Idle, {}, {}), 1, [])
  {
    FreshBegins(start);
    hide Beginning, Idling, Reached, Fleets.Runs;
    BeginningRuns(start);
    NothingYet(limits, start, lifetime);
    var e := Admitting(1, 1, deadline);
    events := Quietly(limits, start, lifetime, [], start, 1, [], e);
  }

  lemma BeginningRuns(s: System)
    requires Beginning(s, 1, 1)
    ensures Fleets.Runs(s.fleet)
  {
    hide Fleets.Runs, Accounted, Apart, Clocked, ShownFor;
  }

  /** A run from a fresh account, for any retention and any longer lifetime: the request is dispatched at the
      instant of its admission and interrupted, and is sent to the same place again once a shadow has pruned
      the resolution. */
  lemma OutlivedHistoryRepeats(limits: Limits, start: System, lifetime: nat) returns (events: seq<Event>)
    requires Fresh(start) && 0 < limits.ledger && 0 < limits.retention < lifetime
    ensures Beginning(start, 1, 1) && Running(1, events, 1, lifetime)
    ensures MadeIn(limits, start, 1, events) == [Send(SentOf(PLACE, 1), PrimaryCause), Send(SentOf(PLACE, 3), PrimaryCause)]
    ensures !Capped(MadeIn(limits, start, 1, events))
  {
    FreshBegins(start);
    var deadline := 1 + limits.retention + 1;
    events := Admitted(limits, start, lifetime, deadline);
    SamePlaceTwice();
    hide Beginning, Reached, Idling, Holding, SentOf, Capped, Alone, BookOf, Fresh;
    var one: Ledger, two: Ledger, three: Ledger;
    var sent, again := Send(SentOf(PLACE, 1), PrimaryCause), Send(SentOf(PLACE, 3), PrimaryCause);
    events, one := DispatchAgain(limits, start, lifetime, events, start.fleet[1].ledger, {}, deadline, {}, {}, 1, [], 1);
    assert {} + {1} == {1} && [] + [sent] == [sent];
    events, two := ForgetAgain(limits, start, lifetime, events, one, deadline, 1, [sent]);
    events, three := DispatchAgain(limits, start, lifetime, events, two, {1}, deadline, {1} + {2}, {2}, 1 + limits.retention, [sent], 3);
    EndOf(limits, start, lifetime, events, Alone(three, BookOf(deadline), Idle, {1} + {2} + {3}, {2}), 1 + limits.retention, [sent] + [again]);
  }

  lemma EndOf(limits: Limits, start: System, lifetime: nat, events: seq<Event>, s: System, now: nat, made: seq<Send>)
    requires Reached(limits, start, lifetime, events, s, now, made)
    ensures Fleets.Runs(start.fleet) && Running(1, events, 1, lifetime) && MadeIn(limits, start, 1, events) == made
  {
    hide MadeIn, GoAll, Running, Fleets.Runs, Until;
  }

  lemma SamePlaceTwice()
    ensures !Capped([Send(SentOf(PLACE, 1), PrimaryCause), Send(SentOf(PLACE, 3), PrimaryCause)])
  {
    var sends := [Send(SentOf(PLACE, 1), PrimaryCause), Send(SentOf(PLACE, 3), PrimaryCause)];
    assert sends[..1] == [sends[0]] && sends[0] in sends[..1];
    assert !MayFollow(sends[..1], sends[1]);
  }

  // ---------------------------------------------------------------- the condition

  ghost predicate CappedRun(limits: Limits, s: System, r: Id, now: nat, events: seq<Event>, lifetime: nat) {
    Beginning(s, r, now) && Running(now, events, r, lifetime) ==> Capped(MadeIn(limits, s, r, events))
  }

  ghost predicate AlwaysCapped(limits: Limits, lifetime: nat) {
    forall s, r, now, events :: CappedRun(limits, s, r, now, events, lifetime)
  }

  /** The whole history of every request satisfies the send cap, in every run of a process, if and only if no
      deadline can be further off than resolutions are retained. */
  lemma HistoryIsCappedIff(limits: Limits, lifetime: nat)
    requires 0 < limits.ledger && 0 < limits.retention
    ensures AlwaysCapped(limits, lifetime) <==> lifetime <= limits.retention
  {
    hide Capped, MadeIn;
    if lifetime <= limits.retention {
      forall s, r, now, events
        ensures CappedRun(limits, s, r, now, events, lifetime)
      {
        if Beginning(s, r, now) && Running(now, events, r, lifetime) {
          HistoryIsCapped(limits, s, r, now, events, lifetime);
        }
      }
    } else {
      var start := Alone(NewLedger(ACCOUNT, 1), NO_BOOK, Idle, {}, {});
      var events := OutlivedHistoryRepeats(limits, start, lifetime);
      assert !CappedRun(limits, start, 1, 1, events, lifetime);
    }
  }
}
