/** The send cap over whole runs: admission chooses, reserves and marks one dispatch at a time, the accounts'
    ledgers change in between, and each request's budget is refreshed from what the ledgers still show. */
module SendCap {
  import opened Common
  import opened LedgerModel
  import opened Budget
  import opened Fleet
  import Replaying = LedgerReplay

  // ---------------------------------------------------------------- the dispatches that the ledgers show

  /** A dispatch is shown by its attempt while that is held, and by its resolution until that is pruned. */
  ghost predicate Shows(l: Ledger, d: Dispatch) {
    || (exists id :: id in l.attempts && DispatchOf(id, l.attempts[id]) == Some(d))
    || (exists id :: id in l.resolutions && l.resolutions[id].dispatch == Some(d))
  }

  ghost predicate Visible(fleet: map<Id, Runtime>, d: Dispatch) { exists k :: k in fleet && Shows(fleet[k].ledger, d) }

  /** The dispatches of an operational view, in whatever order. */
  ghost predicate IsView(fleet: map<Id, Runtime>, view: seq<Dispatch>) { forall d :: d in view <==> Visible(fleet, d) }

  // ---------------------------------------------------------------- the system

  /** The budget of one request, and its deadline. */
  datatype Book = Book(attempts: seq<Sent>, started: bool, deadline: nat)

  /** How far the one dispatch in hand has come; admission works on one at a time. */
  datatype Stage =
    | Idle
    | Chosen(request: Id, candidate: Candidate, deadline: nat)
    | Reserved(request: Id, candidate: Candidate, attempt: Id, deadline: nat)

  /** `shadows` are the attempts of shadow requests, which are reserved and marked beside the queue. */
  datatype System = System(fleet: map<Id, Runtime>, books: map<Id, Book>, stage: Stage, minted: set<Id>, shadows: set<Id>)

  datatype Event =
    | Admitting(request: Id, clock: nat, deadline: nat)
    | Looking(request: Id, view: seq<Dispatch>)
    | Rebuilding(request: Id, view: seq<Dispatch>)
    | Responding(request: Id)
    | Choosing(request: Id, candidate: Candidate, view: seq<Dispatch>)
    | Reserving(q: Request, status: JournalStatus, clock: nat, append: Append)
    | Marking(clock: nat, append: Append, recorded: bool)
    | Shadowing(q: Request, seen: nat, status: JournalStatus, clock: nat, append: Append)
    | ShadowMarking(account: Id, attempt: Id, clock: nat, append: Append)
    | Other(action: Action)

  /** A shadow is reserved under a request identifier of its own. */
  ghost predicate NotShadow(e: Event, r: Id) { e.Shadowing? ==> e.q.binding.request != r }

  ghost predicate Proper(e: Event) { e.Other? ==> Replaying.WellFormed(e.action.command) }

  function Look(b: Book, view: seq<Dispatch>, request: Id): Book { b.(attempts := SortSent(Absorb(b.attempts, view, request))) }

  /** What admission asks the account for: the request's and the candidate's values, under a new attempt, and
      until no later than the request's deadline. */
  function Asked(q: Request, request: Id, c: Candidate, deadline: nat): Request {
    q.(deadline := Min(q.deadline, deadline), account := c.account, binding := q.binding.(request := request, leg := c.leg, generation := c.generation),
       accountCircuit := c.accountCircuit, circuit := c.deployment)
  }

  ghost function Reserve(limits: Limits, s: System, q: Request, status: JournalStatus, clock: nat, append: Append): System
    requires Runs(s.fleet) && s.stage.Chosen?
  {
    var c := s.stage.candidate;
    var (fleet, line) := Act(limits, s.fleet, Action(c.account, LedgerModel.Reserve(Asked(q, s.stage.request, c, s.stage.deadline), status, clock, append)));
    System(fleet, s.books, if line.Some? then Reserved(s.stage.request, c, q.attempt, s.stage.deadline) else Idle, s.minted + {q.attempt}, s.shadows)
  }

  ghost function Mark(limits: Limits, s: System, clock: nat, append: Append): (map<Id, Runtime>, bool)
    requires Runs(s.fleet) && s.stage.Reserved?
  {
    var (fleet, line) := Act(limits, s.fleet, Action(s.stage.candidate.account, Dispatching(s.stage.attempt, clock, append)));
    (fleet, line.Some?)
  }

  /** The budget after a dispatch: it takes the send over unless admission was interrupted, or the send is no
      longer permitted. */
  function Booked(books: map<Id, Book>, request: Id, c: Candidate, attempt: Id): map<Id, Book> {
    if request in books && CanSend(books[request].attempts, books[request].started, c)
    then books[request := books[request].(attempts := books[request].attempts + [SentOf(c, attempt)])]
    else books
  }

  /** One step. What cannot happen in a state leaves it as it is; attempt identifiers are minted once. */
  ghost function Go(limits: Limits, s: System, e: Event): System
    requires Runs(s.fleet)
  {
    match e
    case Admitting(r, _, deadline) => if r in s.books then s else s.(books := s.books[r := Book([], false, deadline)])
    case Looking(r, view) => if r in s.books && IsView(s.fleet, view) then s.(books := s.books[r := Look(s.books[r], view, r)]) else s
    case Rebuilding(r, view) =>
      if r in s.books && IsView(s.fleet, view) then s.(books := s.books[r := Look(Book([], false, s.books[r].deadline), view, r)]) else s
    case Responding(r) => if r in s.books then s.(books := s.books[r := s.books[r].(started := true)]) else s
    case Choosing(r, c, view) =>
      if s.stage.Idle? && r in s.books && IsView(s.fleet, view) then
        var b := Look(s.books[r], view, r);
        s.(books := s.books[r := b], stage := if CanSend(b.attempts, b.started, c) then Chosen(r, c, b.deadline) else Idle)
      else s
    case Reserving(q, status, clock, append) =>
      if s.stage.Chosen? && q.attempt !in s.minted then Reserve(limits, s, q, status, clock, append) else s
    case Marking(clock, append, recorded) =>
      if s.stage.Reserved? then
        var (fleet, durable) := Mark(limits, s, clock, append);
        System(fleet, if durable && recorded then Booked(s.books, s.stage.request, s.stage.candidate, s.stage.attempt) else s.books, Idle, s.minted, s.shadows)
      else s
    case Shadowing(q, seen, status, clock, append) =>
      if q.attempt !in s.minted && seen < q.deadline then
        s.(fleet := Act(limits, s.fleet, Action(q.account, LedgerModel.Reserve(q, status, clock, append))).0,
           minted := s.minted + {q.attempt}, shadows := s.shadows + {q.attempt})
      else s
    case ShadowMarking(account, attempt, clock, append) =>
      if attempt in s.shadows then s.(fleet := Act(limits, s.fleet, Action(account, Dispatching(attempt, clock, append))).0) else s
    case Other(a) =>
      if a.command.Reserve? || a.command.Dispatching? then s else s.(fleet := Act(limits, s.fleet, a).0)
  }

  lemma GoRuns(limits: Limits, s: System, e: Event)
    requires Runs(s.fleet) && Proper(e)
    ensures Runs(Go(limits, s, e).fleet)
  {
    hide Runs, Act, IsView, CanSend, Look, Booked;
    match e
    case Reserving(q, status, clock, append) =>
      if s.stage.Chosen? {
        var c := s.stage.candidate;
        ActRuns(limits, s.fleet, Action(c.account, LedgerModel.Reserve(Asked(q, s.stage.request, c, s.stage.deadline), status, clock, append)));
      }
    case Marking(clock, append, _) =>
      if s.stage.Reserved? {
        ActRuns(limits, s.fleet, Action(s.stage.candidate.account, Dispatching(s.stage.attempt, clock, append)));
      }
    case Shadowing(q, _, status, clock, append) => ActRuns(limits, s.fleet, Action(q.account, LedgerModel.Reserve(q, status, clock, append)));
    case ShadowMarking(account, attempt, clock, append) => ActRuns(limits, s.fleet, Action(account, Dispatching(attempt, clock, append)));
    case Other(a) => ActRuns(limits, s.fleet, a);
    case _ =>
  }

  // ---------------------------------------------------------------- what one command does to what is shown

  ghost predicate SameButState(before: Attempt, after: Attempt) { after.(state := before.state) == before }

  /** Attempts stay as they are, but for their state, or go; resolutions keep the dispatch of their attempt. */
  ghost predicate NoNewDispatch(before: Ledger, after: Ledger, added: set<Id>) {
    && (forall id :: id in after.attempts ==>
          if id in before.attempts then SameButState(before.attempts[id], after.attempts[id])
          else id in added && after.attempts[id].dispatchedAt.None?)
    && (forall id :: id in after.resolutions ==>
          || (id in before.resolutions && after.resolutions[id].dispatch == before.resolutions[id].dispatch)
          || (id in before.attempts && after.resolutions[id].dispatch == DispatchOf(id, before.attempts[id])))
  }

  lemma ShownBefore(before: Ledger, after: Ledger, added: set<Id>, d: Dispatch)
    requires NoNewDispatch(before, after, added) && Shows(after, d)
    ensures Shows(before, d)
  {
    if id :| id in after.attempts && DispatchOf(id, after.attempts[id]) == Some(d) {
      assert DispatchOf(id, before.attempts[id]) == Some(d);
    } else {
      var id :| id in after.resolutions && after.resolutions[id].dispatch == Some(d);
      if !(id in before.resolutions && after.resolutions[id].dispatch == before.resolutions[id].dispatch) {
        assert DispatchOf(id, before.attempts[id]) == Some(d);
      }
    }
  }

  lemma PruningShowsNothingNew(limits: Limits, l: Ledger, clock: nat)
    ensures NoNewDispatch(l, PruneResolutions(Tick(l, clock), Now(l, clock), limits.retention), {})
    ensures NoNewDispatch(l, Settled(l, limits, clock), {}) && Settled(l, limits, clock).attempts == l.attempts
    ensures NoNewDispatch(l, ReadCapacity(l, clock), {})
  {
  }

  lemma FinishShowsNothingNew(l: Ledger, id: Id, resolution: Resolution, clock: nat, append: Append)
    requires Runnable(l)
    ensures NoNewDispatch(l, Finish(l, id, resolution, clock, append).ledger, {})
  {
  }

  lemma SlotsShowNothingNew(l: Ledger, c: Command)
    ensures c.Counting? ==> NoNewDispatch(l, SetActiveCount(l, c.count, c.append).ledger, {})
    ensures c.ProbeEnds? ==> NoNewDispatch(l, FinishProbe(l, c.probe, c.probing, c.append).ledger, {})
  {
  }

  lemma CircuitsShowNothingNew(l: Ledger, c: Command)
    ensures c.Swapping? ==> NoNewDispatch(l, SwapCircuit(l, c.generation, c.expected, c.replacement, c.append).ledger, {})
    ensures c.ProbeBegins? ==> NoNewDispatch(l, BeginProbe(l, c.probe, c.append).ledger, {})
  {
  }

  lemma RestShowsNothingNew(l: Ledger, c: Command)
    ensures c.Marking? ==> NoNewDispatch(l, MarkUncertain(l, c.attempt, c.append).ledger, {})
    ensures c.Publishing? ==> NoNewDispatch(l, Publish(l, c.account, c.clock), {})
  {
  }

  /** No command but a dispatch makes a new dispatch visible. */
  lemma OtherShowsNothingNew(limits: Limits, r: Runtime, c: Command)
    requires Runnable(r.ledger) && !c.Reserve? && !c.Dispatching?
    ensures NoNewDispatch(r.ledger, Step(limits, r, c).0.ledger, {})
  {
    hide NoNewDispatch, Finish, SetActiveCount, FinishProbe, SwapCircuit, BeginProbe, MarkUncertain, Publish, ReadCapacity;
    match c
    case Finishing(id, resolution, clock, append) => FinishShowsNothingNew(r.ledger, id, resolution, clock, append);
    case Reading(clock) => PruningShowsNothingNew(limits, r.ledger, clock);
    case _ =>
      SlotsShowNothingNew(r.ledger, c);
      CircuitsShowNothingNew(r.ledger, c);
      RestShowsNothingNew(r.ledger, c);
  }

  /** The attempt that a grant adds, as the dispatch in hand needs it. */
  ghost predicate Awaits(a: Attempt, request: Id, c: Candidate, attempt: Id, deadline: nat) {
    && a.dispatchedAt.None? && a.receipt.None? && a.binding.request == request && a.deadline <= deadline
    && forall at :: SentFrom(DispatchOf(attempt, a.(dispatchedAt := Some(at))).value) == SentOf(c, attempt)
  }

  lemma GrantAwaits(l: Ledger, q: Request, now: nat, request: Id, c: Candidate, deadline: nat)
    requires l.accountCircuit == c.accountCircuit && c.deployment.Valid()
    ensures Awaits(Grant(l, Asked(q, request, c, deadline), now).attempts[q.attempt], request, c, q.attempt, deadline)
  {
  }

  lemma GrantShowsNothingNew(before: Ledger, l: Ledger, q: Request, now: nat)
    requires NoNewDispatch(before, l, {}) && q.attempt !in before.attempts
    ensures NoNewDispatch(before, Grant(l, q, now), {q.attempt})
  {
  }

  /** No reservation makes a dispatch visible. */
  lemma ReserveShowsNothingNew(limits: Limits, r: Runtime, q: Request, status: JournalStatus, clock: nat, append: Append)
    requires q.attempt !in r.ledger.attempts && Runnable(r.ledger)
    ensures NoNewDispatch(r.ledger, Step(limits, r, LedgerModel.Reserve(q, status, clock, append)).0.ledger, {q.attempt})
  {
    var l := r.ledger;
    var pruned, settled := PruneResolutions(Tick(l, clock), Now(l, clock), limits.retention), Settled(l, limits, clock);
    Replaying.ReserveShape(r.account, limits, l, q, status, clock, append);
    PruningShowsNothingNew(limits, l, clock);
    SelfShowsNothingNew(l);
    WiderShowsNothingNew(l, l, q.attempt);
    WiderShowsNothingNew(l, pruned, q.attempt);
    WiderShowsNothingNew(l, settled, q.attempt);
    GrantShowsNothingNew(l, settled, q, Now(l, clock));
    hide NoNewDispatch, TryReserve, Settled, PruneResolutions, Grant, Screen, CapacityScreen;
  }

  /** A granted reservation leaves its attempt with the leg, epochs and probes that were chosen. */
  lemma ReservedAsChosen(limits: Limits, r: Runtime, q: Request, request: Id, c: Candidate, deadline: nat, status: JournalStatus, clock: nat, append: Append)
    requires Replaying.Sound(r.ledger)
    ensures var (after, entry) := Step(limits, r, LedgerModel.Reserve(Asked(q, request, c, deadline), status, clock, append));
            entry.Some? ==>
              && q.attempt in after.ledger.attempts && Awaits(after.ledger.attempts[q.attempt], request, c, q.attempt, deadline)
              && after.ledger.attempts[q.attempt].state.Live?
  {
    var asked := Asked(q, request, c, deadline);
    var l := r.ledger;
    Replaying.ReserveShape(r.account, limits, l, asked, status, clock, append);
    if TryReserve(r.account, limits, l, asked, status, clock, append).1.Granted? {
      ScreenedCircuits(r.account, limits, l, asked, clock);
      GrantAwaits(Settled(l, limits, clock), q, Now(l, clock), request, c, deadline);
    }
    hide TryReserve, Settled, PruneResolutions, Awaits, Screen, CapacityScreen;
  }

  lemma SelfShowsNothingNew(l: Ledger)
    ensures NoNewDispatch(l, l, {})
  {
  }

  lemma WiderShowsNothingNew(before: Ledger, after: Ledger, id: Id)
    requires NoNewDispatch(before, after, {})
    ensures NoNewDispatch(before, after, {id})
  {
  }

  /** A reservation that passes its checks was asked for with the circuits as they are. */
  lemma ScreenedCircuits(a: Account, limits: Limits, l: Ledger, q: Request, clock: nat)
    requires Replaying.Sound(l)
    requires Screen(a, limits, PruneResolutions(Tick(l, clock), Now(l, clock), limits.retention), q, Now(l, clock)).None?
    ensures Settled(l, limits, clock).accountCircuit == q.accountCircuit && q.circuit.Valid()
  {
  }

  /** Marking one attempt as dispatched adds at most that dispatch to what is shown. */
  lemma MarkedShows(l: Ledger, after: Ledger, id: Id, at: nat, receipt: Receipt, d: Dispatch)
    requires id in l.attempts && after.resolutions == l.resolutions
    requires after.attempts == l.attempts[id := l.attempts[id].(dispatchedAt := Some(at), receipt := Some(receipt))]
    ensures Shows(after, d) ==> Shows(l, d) || d == DispatchOf(id, l.attempts[id].(dispatchedAt := Some(at))).value
  {
    if k :| k in after.attempts && DispatchOf(k, after.attempts[k]) == Some(d) {
      assert k != id ==> DispatchOf(k, l.attempts[k]) == Some(d);
    }
  }

  lemma SameShows(l: Ledger, after: Ledger, d: Dispatch)
    requires after.attempts == l.attempts && after.resolutions == l.resolutions
    ensures Shows(after, d) <==> Shows(l, d)
  {
  }

  /** A dispatch adds itself to what is shown, if it is durable, and nothing else. */
  lemma DispatchShows(limits: Limits, r: Runtime, id: Id, clock: nat, append: Append) returns (added: Dispatch)
    requires Runnable(r.ledger)
    ensures var (after, entry) := Step(limits, r, Dispatching(id, clock, append));
            && (forall d :: Shows(after.ledger, d) ==> Shows(r.ledger, d) || (entry.Some? && d == added))
            && after.ledger.attempts.Keys == r.ledger.attempts.Keys
            && (forall k :: k in r.ledger.attempts ==>
                  after.ledger.attempts[k] == r.ledger.attempts[k].(dispatchedAt := after.ledger.attempts[k].dispatchedAt,
                                                                    receipt := after.ledger.attempts[k].receipt)
                  && (k != id || entry.None? ==> after.ledger.attempts[k] == r.ledger.attempts[k]))
            && (entry.Some? ==>
                  && id in r.ledger.attempts && added.attempt == id && added.at == Now(r.ledger, clock) < r.ledger.attempts[id].deadline
                  && Some(added) == DispatchOf(id, r.ledger.attempts[id].(dispatchedAt := Some(added.at)))
                  && DispatchOf(id, after.ledger.attempts[id]) == Some(added) && after.ledger.attempts[id].receipt.Some?
                  && id !in r.ledger.resolutions)
  {
    var l := r.ledger;
    var change := MarkDispatched(l, id, clock, append);
    added := Dispatch(0, 0, 0, 0, 0, 0, None, None, 0);
    if change.entry.Some? {
      var at := Now(l, clock);
      added := DispatchOf(id, l.attempts[id].(dispatchedAt := Some(at))).value;
      forall d | Shows(change.ledger, d)
        ensures Shows(l, d) || d == added
      {
        MarkedShows(l, change.ledger, id, at, append.receipt, d);
      }
    } else {
      forall d
        ensures Shows(change.ledger, d) <==> Shows(l, d)
      {
        SameShows(l, change.ledger, d);
      }
    }
    hide Shows, SentFrom, SentOf;
  }

  // ---------------------------------------------------------------- what is remembered of one request

  /** A send is remembered by the request's budget, or by a ledger that still shows its dispatch. */
  ghost predicate Remembered(s: System, r: Id, x: Sent) { InBook(s.books, r, x) || ShownFor(s.fleet, r, x) }

  ghost predicate InBook(books: map<Id, Book>, r: Id, x: Sent) { r in books && x in books[r].attempts }

  ghost predicate ShownFor(fleet: map<Id, Runtime>, r: Id, x: Sent) { exists d :: Visible(fleet, d) && d.request == r && SentFrom(d) == x }

  /** The sends that are still remembered, in the order they were made. */
  ghost function Recall(sends: seq<Send>, s: System, r: Id): seq<Send> {
    if sends == [] then []
    else
      var last := sends[|sends| - 1];
      Recall(sends[..|sends| - 1], s, r) + if Remembered(s, r, last.sent) then [last] else []
  }

  lemma {:induction false} RecallMembers(sends: seq<Send>, s: System, r: Id)
    ensures forall x :: x in Recall(sends, s, r) <==> x in sends && Remembered(s, r, x.sent)
    ensures |Recall(sends, s, r)| <= |sends|
    decreases |sends|
  {
    hide Remembered;
    if sends != [] {
      RecallMembers(sends[..|sends| - 1], s, r);
    }
  }

  lemma RecallMade(sends: seq<Send>, s: System, r: Id, x: Sent)
    ensures Made(Recall(sends, s, r), x) <==> Made(sends, x) && Remembered(s, r, x)
  {
    hide Remembered, Recall;
    RecallMembers(sends, s, r);
    if Made(sends, x) && Remembered(s, r, x) {
      var y :| y in sends && y.sent == x;
      assert y in Recall(sends, s, r);
    }
  }

  lemma FewerFollow(earlier: seq<Send>, fewer: seq<Send>, later: Send)
    requires MayFollow(earlier, later) && forall x :: x in fewer ==> x in earlier
    ensures MayFollow(fewer, later)
  {
  }

  /** Forgetting sends cannot break the cap for the others. */
  lemma {:induction false} RecallCapped(sends: seq<Send>, s: System, r: Id)
    requires Capped(sends)
    ensures Capped(Recall(sends, s, r))
    decreases |sends|
  {
    hide Remembered, Capped, MayFollow;
    if sends == [] {
      NothingIsCapped();
    } else {
      var n := |sends| - 1;
      var before, last := sends[..n], sends[n];
      assert before + [last] == sends;
      CapShrinks(before, last);
      RecallCapped(before, s, r);
      RecallMembers(before, s, r);
      FewerFollow(before, Recall(before, s, r), last);
      CapExtends(Recall(before, s, r), last);
      assert Recall(before, s, r) + [] == Recall(before, s, r);
    }
  }

  lemma NothingIsCapped()
    ensures Capped([])
  {
  }

  lemma CapShrinks(sends: seq<Send>, last: Send)
    requires Capped(sends + [last])
    ensures Capped(sends) && |sends| < 3 && MayFollow(sends, last)
  {
    var longer := sends + [last];
    forall j | 0 <= j < |sends|
      ensures MayFollow(sends[..j], sends[j])
    {
      assert longer[..j] == sends[..j];
    }
    CapExtends(sends, last);
  }

  /** What the cap permits, said of the sends themselves. */
  ghost predicate Permits(sends: seq<Send>, c: Candidate) {
    && |sends| < 3
    && (forall x :: x in sends ==> !SamePlace(x.sent, c))
    && ((exists x :: x in sends && x.sent.generation == c.generation) ==>
          && c.cause.CapacityCauseSpill? && ProbesOf(c) != []
          && forall p, x :: p in ProbesOf(c) && x in sends ==> p !in x.sent.probes)
  }

  lemma PermitsFollow(sends: seq<Send>, c: Candidate, attempt: Id)
    requires Permits(sends, c) && Capped(sends) && forall x :: x in sends ==> x.sent.attempt != attempt
    ensures Capped(sends + [Send(SentOf(c, attempt), c.cause)])
  {
    CapExtends(sends, Send(SentOf(c, attempt), c.cause));
  }

  lemma FewerPermit(sends: seq<Send>, fewer: seq<Send>, c: Candidate)
    requires Permits(sends, c) && |fewer| <= |sends| && forall x :: x in fewer ==> x in sends
    ensures Permits(fewer, c)
  {
  }

  lemma CanSendPermits(attempts: seq<Sent>, sends: seq<Send>, started: bool, c: Candidate)
    requires HoldsAll(attempts, sends) && CanSend(attempts, started, c)
    ensures Permits(sends, c)
  {
    forall x | x in sends
      ensures x.sent in attempts
    {
      assert Made(sends, x.sent);
    }
  }

  // ---------------------------------------------------------------- budgets hold what is remembered

  ghost predicate Owns(view: seq<Dispatch>, r: Id, x: Sent) { exists d :: d in view && d.request == r && SentFrom(d) == x }

  lemma SameAttempt(sends: seq<Send>, x: Sent, y: Sent)
    requires Capped(sends) && Made(sends, x) && Made(sends, y) && x.attempt == y.attempt
    ensures x == y
  {
    var a :| a in sends && a.sent == x;
    var b :| b in sends && b.sent == y;
    var i :| 0 <= i < |sends| && sends[i] == a;
    var j :| 0 <= j < |sends| && sends[j] == b;
    AttemptsDiffer(sends, i, j);
    AttemptsDiffer(sends, j, i);
  }

  lemma AttemptsDiffer(sends: seq<Send>, i: nat, j: nat)
    requires Capped(sends) && i < |sends| && j < |sends|
    ensures i < j ==> sends[i].sent.attempt != sends[j].sent.attempt
  {
    if i < j {
      assert MayFollow(sends[..j], sends[j]) && sends[..j][i] == sends[i];
    }
  }

  /** Reading a view of sends that are all accounted for takes over exactly the request's own. */
  lemma {:induction false} AbsorbMembers(attempts: seq<Sent>, view: seq<Dispatch>, r: Id, sends: seq<Send>)
    requires Capped(sends) && DistinctAttempts(attempts) && forall x :: x in attempts ==> Made(sends, x)
    requires forall d :: d in view && d.request == r ==> Made(sends, SentFrom(d))
    ensures DistinctAttempts(Absorb(attempts, view, r))
    ensures forall x :: x in Absorb(attempts, view, r) <==> x in attempts || Owns(view, r, x)
    decreases |view|
  {
    hide Capped, Made;
    if view != [] {
      var d, rest := view[0], view[1..];
      assert d in view && forall e :: e in rest ==> e in view;
      OwnsCons(view, r);
      if d.request == r && !Budget.Knows(attempts, d.attempt) {
        AbsorbMembers(attempts + [SentFrom(d)], rest, r, sends);
      } else {
        AbsorbMembers(attempts, rest, r, sends);
        if d.request == r {
          var x :| x in attempts && x.attempt == d.attempt;
          SameAttempt(sends, x, SentFrom(d));
        }
      }
    }
  }

  lemma OwnsCons(view: seq<Dispatch>, r: Id)
    requires view != []
    ensures forall x :: Owns(view, r, x) <==> (view[0].request == r && SentFrom(view[0]) == x) || Owns(view[1..], r, x)
  {
    assert forall d :: d in view <==> d == view[0] || d in view[1..];
    hide SentFrom;
  }

  lemma {:induction false} InsertDistinct(attempts: seq<Sent>, x: Sent)
    requires DistinctAttempts(attempts) && forall y :: y in attempts ==> y.attempt != x.attempt
    ensures DistinctAttempts(InsertSent(attempts, x))
    decreases |attempts|
  {
    if attempts != [] && x.attempt >= attempts[0].attempt {
      InsertDistinct(attempts[1..], x);
      InsertKeeps(attempts[1..], x);
      assert forall y :: y in attempts[1..] ==> y.attempt != attempts[0].attempt;
    }
  }

  lemma {:induction false} SortDistinct(attempts: seq<Sent>)
    requires DistinctAttempts(attempts)
    ensures DistinctAttempts(SortSent(attempts))
    decreases |attempts|
  {
    if attempts != [] {
      SortDistinct(attempts[1..]);
      SortKeeps(attempts[1..]);
      InsertDistinct(SortSent(attempts[1..]), attempts[0]);
    }
  }

  lemma LookMembers(b: Book, view: seq<Dispatch>, r: Id, sends: seq<Send>)
    requires Capped(sends) && DistinctAttempts(b.attempts) && forall x :: x in b.attempts ==> Made(sends, x)
    requires forall d :: d in view && d.request == r ==> Made(sends, SentFrom(d))
    ensures DistinctAttempts(Look(b, view, r).attempts) && Look(b, view, r) == b.(attempts := Look(b, view, r).attempts)
    ensures forall x :: x in Look(b, view, r).attempts <==> x in b.attempts || Owns(view, r, x)
  {
    AbsorbMembers(b.attempts, view, r, sends);
    SortKeeps(Absorb(b.attempts, view, r));
    SortDistinct(Absorb(b.attempts, view, r));
    hide Absorb, SortSent, Owns, Made, Capped;
  }

  lemma {:induction false} DistinctCount(attempts: seq<Sent>)
    requires DistinctAttempts(attempts)
    ensures |set x | x in attempts| == |attempts|
    decreases |attempts|
  {
    if attempts != [] {
      DistinctCount(attempts[1..]);
      assert (set x | x in attempts) == {attempts[0]} + set x | x in attempts[1..];
    }
  }

  function SentsOf(sends: seq<Send>): seq<Sent> { seq(|sends|, i requires 0 <= i < |sends| => sends[i].sent) }

  lemma SentsDistinct(sends: seq<Send>)
    requires Capped(sends)
    ensures DistinctAttempts(SentsOf(sends)) && forall x :: x in SentsOf(sends) <==> Made(sends, x)
  {
    forall i, j | 0 <= i < j < |sends|
      ensures sends[i].sent.attempt != sends[j].sent.attempt
    {
      AttemptsDiffer(sends, i, j);
    }
    forall x | Made(sends, x)
      ensures x in SentsOf(sends)
    {
      var y :| y in sends && y.sent == x;
      var i :| 0 <= i < |sends| && sends[i] == y;
      assert SentsOf(sends)[i] == x;
    }
    forall x | x in SentsOf(sends)
      ensures Made(sends, x)
    {
      var i :| 0 <= i < |SentsOf(sends)| && SentsOf(sends)[i] == x;
      assert sends[i] in sends;
    }
  }

  lemma SameMembersSameCount(attempts: seq<Sent>, sends: seq<Send>)
    requires Capped(sends) && DistinctAttempts(attempts) && forall x :: x in attempts <==> Made(sends, x)
    ensures HoldsAll(attempts, sends)
  {
    SentsDistinct(sends);
    DistinctCount(attempts);
    DistinctCount(SentsOf(sends));
    assert (set x | x in attempts) == set x | x in SentsOf(sends);
  }

  // ---------------------------------------------------------------- the invariant of a run

  /** Every attempt and every dispatch that a ledger holds was minted; the one in hand is as it was granted. */
  ghost predicate Accounted(s: System) {
    && (forall k, id :: k in s.fleet && id in s.fleet[k].ledger.attempts ==> id in s.minted)
    && (forall d :: Visible(s.fleet, d) ==> d.attempt in s.minted)
    && Awaiting(s.fleet, s.stage, s.minted)
  }

  ghost predicate Awaiting(fleet: map<Id, Runtime>, stage: Stage, minted: set<Id>) {
    stage.Reserved? ==>
      && stage.attempt in minted
      && (stage.candidate.account in fleet && stage.attempt in fleet[stage.candidate.account].ledger.attempts ==>
            Awaits(fleet[stage.candidate.account].ledger.attempts[stage.attempt], stage.request, stage.candidate, stage.attempt, stage.deadline))
  }

  /** The attempts of shadows belong to other requests, and the dispatch in hand is none of them. */
  ghost predicate Apart(s: System, r: Id) {
    && s.shadows <= s.minted && (s.stage.Reserved? ==> s.stage.attempt !in s.shadows)
    && forall k, id :: k in s.fleet && id in s.fleet[k].ledger.attempts && id in s.shadows ==>
         s.fleet[k].ledger.attempts[id].binding.request != r
  }

  /** The budget names each attempt once, and only minted ones. */
  ghost predicate BookFine(s: System, r: Id) {
    r in s.books ==> DistinctAttempts(s.books[r].attempts) && forall x :: x in s.books[r].attempts ==> x.attempt in s.minted
  }

  /** The dispatch in hand is one that the cap permits, and is not among the sends yet. */
  ghost predicate InHand(stage: Stage, r: Id, sends: seq<Send>) {
    && (!stage.Idle? && stage.request == r ==> Permits(sends, stage.candidate))
    && (stage.Reserved? && stage.request == r ==> forall x :: x in sends ==> x.sent.attempt != stage.attempt)
  }

  /** The sends of the request that are remembered anywhere, in some order, satisfy the cap. */
  ghost predicate Inv(s: System, r: Id, sends: seq<Send>) {
    && Runs(s.fleet) && Accounted(s) && Apart(s, r) && BookFine(s, r) && InHand(s.stage, r, sends) && Capped(sends)
    && forall x :: Remembered(s, r, x) <==> Made(sends, x)
  }

  /** The same with some sends that may have been forgotten since. */
  ghost predicate Spans(s: System, r: Id, sends: seq<Send>) {
    && Runs(s.fleet) && Accounted(s) && Apart(s, r) && BookFine(s, r) && InHand(s.stage, r, sends) && Capped(sends)
    && forall x :: Remembered(s, r, x) ==> Made(sends, x)
  }

  lemma SpansRecalled(s: System, r: Id, sends: seq<Send>)
    requires Spans(s, r, sends)
    ensures Inv(s, r, Recall(sends, s, r))
  {
    hide Runs, Accounted, Apart, BookFine, Capped, Made, Remembered, Recall, Permits;
    RecallCapped(sends, s, r);
    RecallMembers(sends, s, r);
    if !s.stage.Idle? && s.stage.request == r {
      FewerPermit(sends, Recall(sends, s, r), s.stage.candidate);
    }
    forall x
      ensures Remembered(s, r, x) <==> Made(Recall(sends, s, r), x)
    {
      RecallMade(sends, s, r, x);
    }
  }

  // ---------------------------------------------------------------- steps that only read the ledgers

  lemma ShownIsMade(s: System, r: Id, sends: seq<Send>, view: seq<Dispatch>)
    requires Inv(s, r, sends) && IsView(s.fleet, view)
    ensures forall d :: d in view && d.request == r ==> Made(sends, SentFrom(d)) && d.attempt in s.minted
    ensures forall x :: Owns(view, r, x) <==> ShownFor(s.fleet, r, x)
  {
    hide Runs, BookFine, InHand, Capped, Made, Awaiting, SentFrom;
    forall d | d in view && d.request == r
      ensures Made(sends, SentFrom(d))
    {
      assert ShownFor(s.fleet, r, SentFrom(d));
      assert Remembered(s, r, SentFrom(d));
    }
  }

  /** A look at the ledgers leaves the budget with exactly what is remembered, and changes nothing about that. */
  lemma LookKeeps(s: System, r: Id, sends: seq<Send>, request: Id, b: Book, view: seq<Dispatch>, after: System)
    requires Inv(s, r, sends) && IsView(s.fleet, view)
    requires (request in s.books && b == s.books[request]) || b.attempts == []
    requires after == s.(books := s.books[request := Look(b, view, request)])
    ensures Spans(after, r, sends)
    ensures request == r && r in s.books && b == s.books[r] ==> HoldsAll(after.books[r].attempts, sends)
  {
    hide Runs, Capped, Made, Accounted, InHand, IsView, Look, DistinctAttempts;
    if request == r {
      ShownIsMade(s, r, sends, view);
      BookMade(s, r, sends, b);
      LookMembers(b, view, r, sends);
      LookedBook(s, r, b, view, after);
      if r in s.books && b == s.books[r] {
        SameMembersSameCount(after.books[r].attempts, sends);
      }
    }
    OtherParts(s, r, after);
  }

  lemma BookMade(s: System, r: Id, sends: seq<Send>, b: Book)
    requires Inv(s, r, sends) && ((r in s.books && b == s.books[r]) || b.attempts == [])
    ensures DistinctAttempts(b.attempts) && forall x :: x in b.attempts ==> Made(sends, x) && x.attempt in s.minted
  {
    hide Runs, Capped, Made, Accounted, InHand;
    forall x | x in b.attempts
      ensures Made(sends, x)
    {
      assert InBook(s.books, r, x);
      assert Remembered(s, r, x);
    }
  }

  lemma LookedBook(s: System, r: Id, b: Book, view: seq<Dispatch>, after: System)
    requires after == s.(books := s.books[r := Look(b, view, r)])
    requires DistinctAttempts(Look(b, view, r).attempts)
    requires forall x :: x in Look(b, view, r).attempts <==> x in b.attempts || Owns(view, r, x)
    requires forall x :: x in b.attempts ==> x.attempt in s.minted
    requires forall d :: d in view && d.request == r ==> d.attempt in s.minted
    requires forall x :: Owns(view, r, x) <==> ShownFor(s.fleet, r, x)
    ensures BookFine(after, r)
    ensures forall x :: InBook(after.books, r, x) <==> x in b.attempts || ShownFor(s.fleet, r, x)
  {
    hide DistinctAttempts, ShownFor, Look;
  }

  lemma OtherParts(s: System, r: Id, after: System)
    requires Accounted(s) && Apart(s, r) && after == s.(books := after.books)
    ensures Accounted(after) && Apart(after, r)
  {
  }

  // ---------------------------------------------------------------- steps of the ledgers

  lemma ActShowsNothingNew(limits: Limits, fleet: map<Id, Runtime>, a: Action, added: set<Id>)
    requires Runs(fleet)
    requires a.account in fleet ==> NoNewDispatch(fleet[a.account].ledger, Step(limits, fleet[a.account], a.command).0.ledger, added)
    ensures forall d :: Visible(Act(limits, fleet, a).0, d) ==> Visible(fleet, d)
  {
    hide NoNewDispatch, Shows, Step;
    var after := Act(limits, fleet, a).0;
    forall d | Visible(after, d)
      ensures Visible(fleet, d)
    {
      var k :| k in after && Shows(after[k].ledger, d);
      if k == a.account {
        ShownBefore(fleet[k].ledger, after[k].ledger, added, d);
      }
      assert Shows(fleet[k].ledger, d);
    }
  }

  lemma ActMints(limits: Limits, fleet: map<Id, Runtime>, a: Action, added: set<Id>, minted: set<Id>)
    requires Runs(fleet) && forall k, id :: k in fleet && id in fleet[k].ledger.attempts ==> id in minted
    requires a.account in fleet ==> NoNewDispatch(fleet[a.account].ledger, Step(limits, fleet[a.account], a.command).0.ledger, added)
    ensures forall k, id :: k in Act(limits, fleet, a).0 && id in Act(limits, fleet, a).0[k].ledger.attempts ==> id in minted + added
  {
    hide Step;
  }

  lemma AwaitingKept(limits: Limits, fleet: map<Id, Runtime>, a: Action, stage: Stage, minted: set<Id>, added: set<Id>)
    requires Runs(fleet) && Awaiting(fleet, stage, minted) && (stage.Reserved? ==> stage.attempt !in added)
    requires a.account in fleet ==> NoNewDispatch(fleet[a.account].ledger, Step(limits, fleet[a.account], a.command).0.ledger, added)
    ensures Awaiting(Act(limits, fleet, a).0, stage, minted)
  {
    hide Step, SentFrom, SentOf;
    if stage.Reserved? && stage.candidate.account == a.account && a.account in fleet && stage.attempt in fleet[a.account].ledger.attempts {
      var before, after := fleet[a.account].ledger, Step(limits, fleet[a.account], a.command).0.ledger;
      if stage.attempt in after.attempts {
        StateAside(before.attempts[stage.attempt], after.attempts[stage.attempt], stage.request, stage.candidate, stage.attempt, stage.deadline);
      }
    }
  }

  lemma StateAside(before: Attempt, after: Attempt, request: Id, c: Candidate, attempt: Id, deadline: nat)
    requires SameButState(before, after) && Awaits(before, request, c, attempt, deadline)
    ensures Awaits(after, request, c, attempt, deadline)
  {
    forall at
      ensures SentFrom(DispatchOf(attempt, after.(dispatchedAt := Some(at))).value) == SentOf(c, attempt)
    {
      assert SentFrom(DispatchOf(attempt, before.(dispatchedAt := Some(at))).value) == SentOf(c, attempt);
    }
    hide SentOf;
  }

  lemma ApartKept(limits: Limits, s: System, r: Id, a: Action, added: set<Id>, after: System)
    requires Runs(s.fleet) && Apart(s, r) && added !! s.shadows
    requires a.account in s.fleet ==> NoNewDispatch(s.fleet[a.account].ledger, Step(limits, s.fleet[a.account], a.command).0.ledger, added)
    requires after.fleet == Act(limits, s.fleet, a).0 && after.shadows == s.shadows && s.minted <= after.minted
    requires after.stage.Reserved? ==> after.stage.attempt !in s.shadows
    ensures Apart(after, r)
  {
    hide Step;
  }

  /** A step of one ledger that shows nothing new leaves the cap as it was. */
  lemma FleetKeeps(limits: Limits, s: System, r: Id, sends: seq<Send>, a: Action, added: set<Id>, after: System)
    requires Inv(s, r, sends)
    requires a.account in s.fleet ==> NoNewDispatch(s.fleet[a.account].ledger, Step(limits, s.fleet[a.account], a.command).0.ledger, added)
    requires after.fleet == Act(limits, s.fleet, a).0 && after.books == s.books && s.minted + added <= after.minted
    requires Runs(after.fleet) && Awaiting(after.fleet, after.stage, after.minted) && InHand(after.stage, r, sends) && Apart(after, r)
    ensures Spans(after, r, sends)
  {
    hide Runs, NoNewDispatch, Act, Step, InHand, Awaiting, Apart, Capped, Made, DistinctAttempts, Visible, SentFrom;
    ActShowsNothingNew(limits, s.fleet, a, added);
    ActMints(limits, s.fleet, a, added, s.minted);
    forall x | Remembered(after, r, x)
      ensures Made(sends, x)
    {
      assert Remembered(s, r, x);
    }
  }

  lemma OtherKeeps(limits: Limits, s: System, r: Id, sends: seq<Send>, a: Action)
    requires Inv(s, r, sends) && Replaying.WellFormed(a.command) && !a.command.Reserve? && !a.command.Dispatching?
    ensures Spans(s.(fleet := Act(limits, s.fleet, a).0), r, sends)
  {
    var after := s.(fleet := Act(limits, s.fleet, a).0);
    ActRuns(limits, s.fleet, a);
    if a.account in s.fleet {
      OtherShowsNothingNew(limits, s.fleet[a.account], a.command);
    }
    AwaitingKept(limits, s.fleet, a, s.stage, s.minted, {});
    ApartKept(limits, s, r, a, {}, after);
    hide Runs, NoNewDispatch, Act, Step, InHand, Awaiting, Apart, Capped, Made, BookFine, Remembered;
    FleetKeeps(limits, s, r, sends, a, {}, after);
  }

  /** Reserving puts the attempt in hand, as granted, and shows nothing. */
  lemma ReserveKeeps(limits: Limits, s: System, r: Id, sends: seq<Send>, q: Request, status: JournalStatus, clock: nat, append: Append)
    requires Inv(s, r, sends) && s.stage.Chosen? && q.attempt !in s.minted
    ensures Spans(Reserve(limits, s, q, status, clock, append), r, sends)
  {
    var c := s.stage.candidate;
    var a := Action(c.account, LedgerModel.Reserve(Asked(q, s.stage.request, c, s.stage.deadline), status, clock, append));
    var after := Reserve(limits, s, q, status, clock, append);
    ActRuns(limits, s.fleet, a);
    ReservedAwaits(limits, s, q, status, clock, append);
    ApartKept(limits, s, r, a, {q.attempt}, after);
    NotAmong(s, r, sends, q.attempt);
    hide Runs, NoNewDispatch, Act, Step, Awaiting, Apart, Capped, Made, BookFine, Remembered, Accounted, Asked, Permits;
    FleetKeeps(limits, s, r, sends, a, {q.attempt}, after);
  }

  lemma NotAmong(s: System, r: Id, sends: seq<Send>, attempt: Id)
    requires Inv(s, r, sends) && attempt !in s.minted
    ensures forall x :: x in sends ==> x.sent.attempt != attempt
  {
    hide Runs, Capped, Awaiting, Apart, InHand;
    forall x | x in sends
      ensures x.sent.attempt in s.minted
    {
      assert Made(sends, x.sent);
      assert Remembered(s, r, x.sent);
    }
  }

  lemma ReservedAwaits(limits: Limits, s: System, q: Request, status: JournalStatus, clock: nat, append: Append)
    requires Runs(s.fleet) && Accounted(s) && s.stage.Chosen? && q.attempt !in s.minted
    ensures var c := s.stage.candidate;
            var command := LedgerModel.Reserve(Asked(q, s.stage.request, c, s.stage.deadline), status, clock, append);
            && (c.account in s.fleet ==>
                  NoNewDispatch(s.fleet[c.account].ledger, Step(limits, s.fleet[c.account], command).0.ledger, {q.attempt}))
            && var after := Reserve(limits, s, q, status, clock, append); Awaiting(after.fleet, after.stage, after.minted)
  {
    hide NoNewDispatch, Step, Awaits, Visible;
    var c := s.stage.candidate;
    if c.account in s.fleet {
      ReserveShowsNothingNew(limits, s.fleet[c.account], Asked(q, s.stage.request, c, s.stage.deadline), status, clock, append);
      ReservedAsChosen(limits, s.fleet[c.account], q, s.stage.request, c, s.stage.deadline, status, clock, append);
    }
  }

  /** A shadow's reservation is another request's. */
  lemma ShadowKeeps(limits: Limits, s: System, r: Id, sends: seq<Send>, e: Event)
    requires Inv(s, r, sends) && e.Shadowing? && e.q.attempt !in s.minted && e.q.binding.request != r
    ensures var a := Action(e.q.account, LedgerModel.Reserve(e.q, e.status, e.clock, e.append));
            Spans(s.(fleet := Act(limits, s.fleet, a).0, minted := s.minted + {e.q.attempt}, shadows := s.shadows + {e.q.attempt}), r, sends)
  {
    var q := e.q;
    var a := Action(q.account, LedgerModel.Reserve(q, e.status, e.clock, e.append));
    var after := s.(fleet := Act(limits, s.fleet, a).0, minted := s.minted + {q.attempt}, shadows := s.shadows + {q.attempt});
    ActRuns(limits, s.fleet, a);
    if q.account in s.fleet {
      ReserveShowsNothingNew(limits, s.fleet[q.account], q, e.status, e.clock, e.append);
      ReservedBinding(limits, s.fleet[q.account], q, e.status, e.clock, e.append);
    }
    AwaitingKept(limits, s.fleet, a, s.stage, s.minted, {q.attempt});
    ShadowApart(limits, s, r, q, a, after);
    hide Runs, NoNewDispatch, Act, Step, InHand, Apart, Capped, Made, BookFine, Remembered, Awaits;
    FleetKeeps(limits, s, r, sends, a, {q.attempt}, after);
  }

  lemma ReservedBinding(limits: Limits, r: Runtime, q: Request, status: JournalStatus, clock: nat, append: Append)
    requires Runnable(r.ledger) && q.attempt !in r.ledger.attempts
    ensures var after := Step(limits, r, LedgerModel.Reserve(q, status, clock, append)).0.ledger;
            q.attempt in after.attempts ==> after.attempts[q.attempt].binding == q.binding
  {
    Replaying.ReserveShape(r.account, limits, r.ledger, q, status, clock, append);
    PruningShowsNothingNew(limits, r.ledger, clock);
    hide TryReserve, Settled, Screen, CapacityScreen;
  }

  lemma ShadowApart(limits: Limits, s: System, r: Id, q: Request, a: Action, after: System)
    requires Runs(s.fleet) && Accounted(s) && Apart(s, r) && q.attempt !in s.minted && q.binding.request != r && a.account == q.account
    requires a.account in s.fleet ==> NoNewDispatch(s.fleet[a.account].ledger, Step(limits, s.fleet[a.account], a.command).0.ledger, {q.attempt})
    requires a.account in s.fleet ==>
               var ledger := Step(limits, s.fleet[a.account], a.command).0.ledger;
               q.attempt in ledger.attempts ==> ledger.attempts[q.attempt].binding == q.binding
    requires after.fleet == Act(limits, s.fleet, a).0 && after.stage == s.stage
    requires after.minted == s.minted + {q.attempt} && after.shadows == s.shadows + {q.attempt}
    ensures Apart(after, r)
  {
    hide Step, Visible, Awaits;
  }

  /** A shadow's dispatch is another request's, and leaves the dispatch in hand as it is. */
  lemma ShadowMarkKeeps(limits: Limits, s: System, r: Id, sends: seq<Send>, e: Event)
    requires Inv(s, r, sends) && e.ShadowMarking? && e.attempt in s.shadows
    ensures Spans(s.(fleet := Act(limits, s.fleet, Action(e.account, Dispatching(e.attempt, e.clock, e.append))).0), r, sends)
  {
    var a := Action(e.account, Dispatching(e.attempt, e.clock, e.append));
    var after := s.(fleet := Act(limits, s.fleet, a).0);
    ActRuns(limits, s.fleet, a);
    if e.account in s.fleet {
      var (next, entry) := Step(limits, s.fleet[e.account], a.command);
      var added := DispatchShows(limits, s.fleet[e.account], e.attempt, e.clock, e.append);
      assert entry.Some? ==> added.request != r;
      OneAccountShows(s.fleet, e.account, next, added, entry.Some?);
      VisibleMinted(s, after.fleet, e.attempt);
      ShadowMarked(s, r, e.account, next, e.attempt);
      hide Runs, Step, InHand, Capped, Made, BookFine, Visible, Accounted, Apart, SentFrom, Shows;
      forall x | Remembered(after, r, x)
        ensures Made(sends, x)
      {
        assert Remembered(s, r, x);
      }
      SpansFrom(s, r, sends, after);
    } else {
      InvSpans(s, r, sends);
    }
  }

  lemma ShadowMarked(s: System, r: Id, k: Id, next: Runtime, attempt: Id)
    requires Accounted(s) && Apart(s, r) && k in s.fleet && attempt in s.shadows
    requires next.ledger.attempts.Keys == s.fleet[k].ledger.attempts.Keys
    requires forall id :: id in s.fleet[k].ledger.attempts ==>
               && next.ledger.attempts[id].binding == s.fleet[k].ledger.attempts[id].binding
               && (id != attempt ==> next.ledger.attempts[id] == s.fleet[k].ledger.attempts[id])
    requires forall d :: Visible(s.fleet[k := next], d) ==> d.attempt in s.minted
    ensures Accounted(s.(fleet := s.fleet[k := next])) && Apart(s.(fleet := s.fleet[k := next]), r)
  {
    hide Awaits, Visible;
  }

  lemma VisibleMinted(s: System, fleet: map<Id, Runtime>, attempt: Id)
    requires Accounted(s) && attempt in s.minted && forall d :: Visible(fleet, d) ==> Visible(s.fleet, d) || d.attempt == attempt
    ensures forall d :: Visible(fleet, d) ==> d.attempt in s.minted
  {
    hide Visible, Awaiting;
  }

  lemma SpansFrom(s: System, r: Id, sends: seq<Send>, after: System)
    requires Inv(s, r, sends) && after == s.(fleet := after.fleet)
    requires Runs(after.fleet) && Accounted(after) && Apart(after, r) && forall x :: Remembered(after, r, x) ==> Made(sends, x)
    ensures Spans(after, r, sends)
  {
    hide Runs, Accounted, Apart, Capped, Made, Remembered, InHand;
  }

  /** The send that a marking makes durable for the request, if it does. */
  ghost function NewSend(limits: Limits, s: System, r: Id, e: Event): seq<Send>
    requires Runs(s.fleet)
  {
    if e.Marking? && s.stage.Reserved? && s.stage.request == r && Mark(limits, s, e.clock, e.append).1
    then [Send(SentOf(s.stage.candidate, s.stage.attempt), s.stage.candidate.cause)]
    else []
  }

  /** Marking shows the dispatch in hand and nothing else. */
  lemma MarkShows(limits: Limits, s: System, clock: nat, append: Append) returns (added: Dispatch)
    requires Runs(s.fleet) && Accounted(s) && s.stage.Reserved?
    ensures var (fleet, durable) := Mark(limits, s, clock, append);
            && Runs(fleet)
            && (forall d :: Visible(fleet, d) ==> Visible(s.fleet, d) || (durable && d == added))
            && (forall k, id :: k in fleet && id in fleet[k].ledger.attempts ==> id in s.minted)
    ensures Mark(limits, s, clock, append).1 ==>
              && added.request == s.stage.request && added.attempt == s.stage.attempt
              && SentFrom(added) == SentOf(s.stage.candidate, s.stage.attempt)
  {
    var k := s.stage.candidate.account;
    var a := Action(k, Dispatching(s.stage.attempt, clock, append));
    ActRuns(limits, s.fleet, a);
    added := Dispatch(0, 0, 0, 0, 0, 0, None, None, 0);
    hide Shows, Step, SentFrom, SentOf, Awaits;
    if k in s.fleet {
      added := DispatchShows(limits, s.fleet[k], s.stage.attempt, clock, append);
      if Step(limits, s.fleet[k], a.command).1.Some? {
        AwaitedDispatch(s.fleet[k].ledger.attempts[s.stage.attempt], s.stage.request, s.stage.candidate, s.stage.attempt, s.stage.deadline, added);
      }
      OneAccountShows(s.fleet, k, Step(limits, s.fleet[k], a.command).0, added, Step(limits, s.fleet[k], a.command).1.Some?);
    }
    hide Visible, Runs;
  }

  lemma AwaitedDispatch(a: Attempt, request: Id, c: Candidate, attempt: Id, deadline: nat, added: Dispatch)
    requires Awaits(a, request, c, attempt, deadline) && Some(added) == DispatchOf(attempt, a.(dispatchedAt := Some(added.at)))
    ensures added.request == request && added.attempt == attempt && SentFrom(added) == SentOf(c, attempt)
  {
  }

  lemma OneAccountShows(fleet: map<Id, Runtime>, k: Id, next: Runtime, added: Dispatch, durable: bool)
    requires k in fleet && forall d :: Shows(next.ledger, d) ==> Shows(fleet[k].ledger, d) || (durable && d == added)
    ensures forall d :: Visible(fleet[k := next], d) ==> Visible(fleet, d) || (durable && d == added)
  {
    hide Shows;
    forall d | Visible(fleet[k := next], d)
      ensures Visible(fleet, d) || (durable && d == added)
    {
      var j :| j in fleet && Shows(fleet[k := next][j].ledger, d);
      if j != k {
        assert Shows(fleet[j].ledger, d);
      }
    }
  }

  lemma MadeMore(sends: seq<Send>, added: seq<Send>, x: Sent)
    ensures Made(sends + added, x) <==> Made(sends, x) || Made(added, x)
  {
    if Made(sends, x) {
      var y :| y in sends && y.sent == x;
      assert y in sends + added;
    }
    if Made(added, x) {
      var y :| y in added && y.sent == x;
      assert y in sends + added;
    }
  }

  lemma JustMade(sent: Send)
    ensures Made([sent], sent.sent)
  {
    assert sent in [sent];
  }

  lemma MarkedCapped(limits: Limits, s: System, r: Id, sends: seq<Send>, e: Event)
    requires Inv(s, r, sends)
    ensures Capped(sends + NewSend(limits, s, r, e))
  {
    hide Runs, Accounted, Apart, BookFine, Capped, Made, Remembered, Mark;
    assert sends + [] == sends;
    if NewSend(limits, s, r, e) != [] {
      PermitsFollow(sends, s.stage.candidate, s.stage.attempt);
    }
  }

  /** The budget after a marking holds what it held, and at most the new send. */
  lemma MarkedBook(s: System, r: Id, sends: seq<Send>, books: map<Id, Book>, after: System)
    requires Inv(s, r, sends) && s.stage.Reserved? && after.minted == s.minted && after.books == books
    requires books == s.books || books == Booked(s.books, s.stage.request, s.stage.candidate, s.stage.attempt)
    ensures BookFine(after, r)
    ensures forall x :: InBook(books, r, x) ==>
              InBook(s.books, r, x) || (books != s.books && s.stage.request == r && x == SentOf(s.stage.candidate, s.stage.attempt))
  {
    hide Runs, Capped, CanSend, Permits, Visible, Made;
    if r in s.books && s.stage.request == r {
      forall x | x in s.books[r].attempts
        ensures x.attempt != s.stage.attempt
      {
        assert InBook(s.books, r, x) && Remembered(s, r, x);
        var y := MadeBy(sends, x);
      }
      OneMoreDistinct(s.books[r].attempts, SentOf(s.stage.candidate, s.stage.attempt));
    }
  }

  lemma MadeBy(sends: seq<Send>, x: Sent) returns (y: Send)
    requires Made(sends, x)
    ensures y in sends && y.sent == x
  {
    y :| y in sends && y.sent == x;
  }

  lemma OneMoreDistinct(attempts: seq<Sent>, x: Sent)
    requires DistinctAttempts(attempts) && forall y :: y in attempts ==> y.attempt != x.attempt
    ensures DistinctAttempts(attempts + [x])
  {
  }

  /** Marking a dispatch adds one send that the cap permits, or none. */
  lemma MarkKeeps(limits: Limits, s: System, r: Id, sends: seq<Send>, e: Event)
    requires Inv(s, r, sends) && e.Marking? && s.stage.Reserved?
    ensures Spans(Go(limits, s, e), r, sends + NewSend(limits, s, r, e))
  {
    var after := Go(limits, s, e);
    var made := NewSend(limits, s, r, e);
    var added := MarkShows(limits, s, e.clock, e.append);
    MarkedCapped(limits, s, r, sends, e);
    hide Runs, Capped, Made, Permits, Mark, Booked, CanSend, Visible, SentFrom, SentOf;
    MarkedBook(s, r, sends, after.books, after);
    forall x | Remembered(after, r, x)
      ensures Made(sends + made, x)
    {
      MadeMore(sends, made, x);
      if made != [] {
        JustMade(made[0]);
      }
      if !Remembered(s, r, x) && !InBook(after.books, r, x) {
        var d :| Visible(after.fleet, d) && d.request == r && SentFrom(d) == x;
        assert d == added;
      }
    }
  }

  // ---------------------------------------------------------------- every step, every run

  lemma BooksOnly(s: System, r: Id, sends: seq<Send>, after: System)
    requires Inv(s, r, sends) && after == s.(books := after.books) && BookFine(after, r)
    requires forall x :: InBook(after.books, r, x) ==> InBook(s.books, r, x)
    ensures Spans(after, r, sends)
  {
    hide Runs, Capped, Made, InHand, BookFine, InBook;
    OtherParts(s, r, after);
    hide Accounted;
    forall x | Remembered(after, r, x)
      ensures Remembered(s, r, x)
    {
    }
  }

  /** Choosing looks first; what it then chooses is what the cap permits. */
  lemma ChooseKeeps(limits: Limits, s: System, r: Id, sends: seq<Send>, e: Event)
    requires Inv(s, r, sends) && e.Choosing? && s.stage.Idle? && e.request in s.books && IsView(s.fleet, e.view)
    ensures Spans(Go(limits, s, e), r, sends)
  {
    var b := Look(s.books[e.request], e.view, e.request);
    var looked := s.(books := s.books[e.request := b]);
    LookKeeps(s, r, sends, e.request, s.books[e.request], e.view, looked);
    if e.request == r && CanSend(b.attempts, b.started, e.candidate) {
      CanSendPermits(b.attempts, sends, b.started, e.candidate);
    }
    hide Runs, Capped, Made, Look, CanSend, Permits, IsView, HoldsAll, Visible;
    var after := Go(limits, s, e);
    forall x | Remembered(after, r, x)
      ensures Remembered(looked, r, x)
    {
    }
  }

  lemma InvSpans(s: System, r: Id, sends: seq<Send>)
    requires Inv(s, r, sends)
    ensures Spans(s, r, sends)
  {
    hide Runs, Accounted, Apart, BookFine, InHand, Capped, Made, Remembered;
  }

  /** One step: what is remembered afterwards satisfies the cap again. */
  lemma StepSpans(limits: Limits, s: System, r: Id, sends: seq<Send>, e: Event)
    requires Inv(s, r, sends) && Proper(e) && NotShadow(e, r)
    ensures Spans(Go(limits, s, e), r, sends + NewSend(limits, s, r, e))
  {
    assert sends + [] == sends;
    InvSpans(s, r, sends);
    match e
    case Admitting(q, _, deadline) =>
      EmptyBook(s, r, sends, q, deadline);
      hide Inv, Spans;
    case Looking(q, view) =>
      if q in s.books && IsView(s.fleet, view) {
        LookKeeps(s, r, sends, q, s.books[q], view, Go(limits, s, e));
      }
      hide Inv, Spans, IsView, Look;
    case Rebuilding(q, view) =>
      if q in s.books && IsView(s.fleet, view) {
        LookKeeps(s, r, sends, q, Book([], false, s.books[q].deadline), view, Go(limits, s, e));
      }
      hide Inv, Spans, IsView, Look;
    case Responding(q) =>
      StartedBook(s, r, sends, q);
      hide Inv, Spans;
    case Choosing(q, c, view) =>
      if s.stage.Idle? && q in s.books && IsView(s.fleet, view) {
        ChooseKeeps(limits, s, r, sends, e);
      }
      hide Inv, Spans, IsView, Look, CanSend;
    case Reserving(q, status, clock, append) =>
      if s.stage.Chosen? && q.attempt !in s.minted {
        ReserveKeeps(limits, s, r, sends, q, status, clock, append);
      }
      hide Inv, Spans, Reserve;
    case Marking(_, _, _) =>
      if s.stage.Reserved? {
        MarkKeeps(limits, s, r, sends, e);
      }
      hide Inv, Spans, Mark, Booked;
    case Shadowing(q, seen, _, _, _) =>
      if q.attempt !in s.minted && seen < q.deadline {
        ShadowKeeps(limits, s, r, sends, e);
      }
      hide Inv, Spans, Act;
    case ShadowMarking(_, attempt, _, _) =>
      if attempt in s.shadows {
        ShadowMarkKeeps(limits, s, r, sends, e);
      }
      hide Inv, Spans, Act;
    case Other(a) =>
      if !a.command.Reserve? && !a.command.Dispatching? {
        OtherKeeps(limits, s, r, sends, a);
      }
      hide Inv, Spans, Act;
  }

  lemma EmptyBook(s: System, r: Id, sends: seq<Send>, q: Id, deadline: nat)
    requires Inv(s, r, sends)
    ensures q !in s.books ==> Spans(s.(books := s.books[q := Book([], false, deadline)]), r, sends)
  {
    hide Inv, Spans;
    if q !in s.books {
      InvParts(s, r, sends);
      BooksOnly(s, r, sends, s.(books := s.books[q := Book([], false, deadline)]));
    }
  }

  lemma StartedBook(s: System, r: Id, sends: seq<Send>, q: Id)
    requires Inv(s, r, sends)
    ensures q in s.books ==> Spans(s.(books := s.books[q := s.books[q].(started := true)]), r, sends)
  {
    hide Inv, Spans;
    if q in s.books {
      InvParts(s, r, sends);
      BooksOnly(s, r, sends, s.(books := s.books[q := s.books[q].(started := true)]));
    }
  }

  lemma InvParts(s: System, r: Id, sends: seq<Send>)
    requires Inv(s, r, sends)
    ensures Runs(s.fleet) && BookFine(s, r) && Capped(sends)
  {
    hide Runs, Accounted, Apart, BookFine, InHand, Capped, Made, Remembered;
  }

  /** What is remembered of the request after a step, in the order it was made. */
  ghost function KnownAfter(limits: Limits, s: System, r: Id, sends: seq<Send>, e: Event): seq<Send>
    requires Runs(s.fleet)
  {
    Recall(sends + NewSend(limits, s, r, e), Go(limits, s, e), r)
  }

  lemma StepKeeps(limits: Limits, s: System, r: Id, sends: seq<Send>, e: Event)
    requires Inv(s, r, sends) && Proper(e) && NotShadow(e, r)
    ensures Inv(Go(limits, s, e), r, KnownAfter(limits, s, r, sends, e))
  {
    StepSpans(limits, s, r, sends, e);
    SpansRecalled(Go(limits, s, e), r, sends + NewSend(limits, s, r, e));
    hide Inv, Spans, Go, NewSend, Recall;
  }

  ghost predicate Serving(events: seq<Event>, r: Id) { forall e :: e in events ==> NotShadow(e, r) }

  ghost predicate AllProper(events: seq<Event>) { forall e :: e in events ==> Proper(e) }

  ghost function GoAll(limits: Limits, s: System, events: seq<Event>): System
    requires Runs(s.fleet) && AllProper(events)
    decreases |events|
  {
    if events == [] then s
    else
      GoRuns(limits, s, events[0]);
      GoAll(limits, Go(limits, s, events[0]), events[1..])
  }

  /** What is remembered at the end of a run. */
  ghost function KnownAtEnd(limits: Limits, s: System, r: Id, sends: seq<Send>, events: seq<Event>): seq<Send>
    requires Runs(s.fleet) && AllProper(events)
    decreases |events|
  {
    if events == [] then sends
    else
      GoRuns(limits, s, events[0]);
      KnownAtEnd(limits, Go(limits, s, events[0]), r, KnownAfter(limits, s, r, sends, events[0]), events[1..])
  }

  /** Whatever is admitted, looked at, chosen, reserved, dispatched, interrupted, resolved, pruned or given
      back, in whatever order: at the end of every run the sends of a request that its budget or a ledger
      remembers are at most three and satisfy the cap, in the order they were made. */
  lemma {:induction false} EveryRunIsCapped(limits: Limits, s: System, r: Id, sends: seq<Send>, events: seq<Event>)
    requires Inv(s, r, sends) && AllProper(events) && Serving(events, r)
    ensures Runs(s.fleet) && Inv(GoAll(limits, s, events), r, KnownAtEnd(limits, s, r, sends, events))
    decreases |events|
  {
    InvParts(s, r, sends);
    hide Inv, Runs, Go, Proper, KnownAfter;
    if events != [] {
      GoRuns(limits, s, events[0]);
      StepKeeps(limits, s, r, sends, events[0]);
      EveryRunIsCapped(limits, Go(limits, s, events[0]), r, KnownAfter(limits, s, r, sends, events[0]), events[1..]);
    }
  }

  /** A system whose ledgers show no dispatch of the request, and which has no budget for it yet. */
  lemma StartIsCapped(s: System, r: Id)
    requires Runs(s.fleet) && Accounted(s) && Apart(s, r) && s.stage.Idle? && r !in s.books && forall x :: !ShownFor(s.fleet, r, x)
    ensures Inv(s, r, [])
  {
    NothingIsCapped();
    hide Runs, Accounted, Apart, Capped, ShownFor;
  }

  // ---------------------------------------------------------------- the durable dispatches

  /** The request's dispatches that attempts and resolutions still show can be put into an order in which
      they satisfy the cap; and so there are never more than three of them. */
  lemma DurableDispatchesAreCapped(s: System, r: Id, sends: seq<Send>) returns (shown: seq<Send>)
    requires Inv(s, r, sends)
    ensures Capped(shown) && forall x :: Made(shown, x) <==> ShownFor(s.fleet, r, x)
  {
    var unbooked := s.(books := map[]);
    shown := Recall(sends, unbooked, r);
    RecallCapped(sends, unbooked, r);
    hide Runs, Accounted, Apart, BookFine, InHand, Capped, Made, Recall, ShownFor;
    forall x
      ensures Made(shown, x) <==> ShownFor(s.fleet, r, x)
    {
      RecallMade(sends, unbooked, r, x);
      assert ShownFor(s.fleet, r, x) ==> Remembered(s, r, x);
    }
  }

  lemma AtMostThreeDispatches(s: System, r: Id, sends: seq<Send>, dispatches: seq<Dispatch>)
    requires Inv(s, r, sends)
    requires forall d :: d in dispatches ==> Visible(s.fleet, d) && d.request == r
    requires forall i, j :: 0 <= i < j < |dispatches| ==> dispatches[i].attempt != dispatches[j].attempt
    ensures |dispatches| <= 3
    ensures forall i, j :: 0 <= i < j < |dispatches| ==> !SameSpot(SentFrom(dispatches[i]), SentFrom(dispatches[j]))
  {
    InvParts(s, r, sends);
    var own := seq(|dispatches|, i requires 0 <= i < |dispatches| => SentFrom(dispatches[i]));
    forall i | 0 <= i < |own|
      ensures Made(sends, own[i])
    {
      assert dispatches[i] in dispatches && ShownFor(s.fleet, r, own[i]);
      assert Remembered(s, r, own[i]);
    }
    hide Inv, Runs, Visible;
    forall i, j | 0 <= i < j < |own|
      ensures own[i].attempt != own[j].attempt && !SameSpot(SentFrom(dispatches[i]), SentFrom(dispatches[j]))
    {
      assert own[i] == SentFrom(dispatches[i]) && own[j] == SentFrom(dispatches[j]);
      SpotsDiffer(sends, own[i], own[j]);
    }
    hide Capped, Made, SameSpot, SentFrom;
    FewMade(own, sends);
  }

  lemma SpotsDiffer(sends: seq<Send>, x: Sent, y: Sent)
    requires Capped(sends) && Made(sends, x) && Made(sends, y) && x.attempt != y.attempt
    ensures !SameSpot(x, y)
  {
    var a := MadeBy(sends, x);
    var b := MadeBy(sends, y);
    var i :| 0 <= i < |sends| && sends[i] == a;
    var j :| 0 <= j < |sends| && sends[j] == b;
    SpotsApart(sends, i, j);
    SpotsApart(sends, j, i);
  }

  lemma SpotsApart(sends: seq<Send>, i: nat, j: nat)
    requires Capped(sends) && i < |sends| && j < |sends|
    ensures i < j ==> !SameSpot(sends[i].sent, sends[j].sent)
  {
    if i < j {
      assert MayFollow(sends[..j], sends[j]) && sends[..j][i] == sends[i];
    }
  }

  lemma FewMade(own: seq<Sent>, sends: seq<Send>)
    requires Capped(sends) && DistinctAttempts(own) && forall i :: 0 <= i < |own| ==> Made(sends, own[i])
    ensures |own| <= 3
  {
    SentsDistinct(sends);
    DistinctCount(own);
    DistinctCount(SentsOf(sends));
    FewerElements(set x | x in own, set x | x in SentsOf(sends));
  }

  lemma {:induction false} FewerElements(a: set<Sent>, b: set<Sent>)
    requires a <= b
    ensures |a| <= |b|
    decreases |a|
  {
    if a != {} {
      var x :| x in a;
      FewerElements(a - {x}, b - {x});
    }
  }

  /** The send cap from a fresh start: whatever happens, distinct dispatches of one request that the ledgers
      show are at most three, and no two of them went to the same leg under the same circuit epochs. */
  lemma FreshRunsAreCapped(limits: Limits, s: System, r: Id, events: seq<Event>, dispatches: seq<Dispatch>)
    requires Runs(s.fleet) && s.books == map[] && s.stage.Idle? && s.shadows == {} && AllProper(events) && Serving(events, r)
    requires forall k :: k in s.fleet ==> s.fleet[k].ledger.attempts == map[] && s.fleet[k].ledger.resolutions == map[]
    requires forall d :: d in dispatches ==> Visible(GoAll(limits, s, events).fleet, d) && d.request == r
    requires forall i, j :: 0 <= i < j < |dispatches| ==> dispatches[i].attempt != dispatches[j].attempt
    ensures |dispatches| <= 3
    ensures forall i, j :: 0 <= i < j < |dispatches| ==> !SameSpot(SentFrom(dispatches[i]), SentFrom(dispatches[j]))
  {
    FreshIsCapped(s, r);
    EveryRunIsCapped(limits, s, r, [], events);
    hide Inv, Runs, GoAll, KnownAtEnd, Visible, SameSpot, SentFrom;
    AtMostThreeDispatches(GoAll(limits, s, events), r, KnownAtEnd(limits, s, r, [], events), dispatches);
  }

  lemma FreshIsCapped(s: System, r: Id)
    requires Runs(s.fleet) && s.books == map[] && s.stage.Idle? && s.shadows == {}
    requires forall k :: k in s.fleet ==> s.fleet[k].ledger.attempts == map[] && s.fleet[k].ledger.resolutions == map[]
    ensures Inv(s, r, [])
  {
    assert forall d :: !Visible(s.fleet, d);
    StartIsCapped(s, r);
  }

  // ---------------------------------------------------------------- a budget rebuilt from the ledgers

  /** At any point of any run, a budget rebuilt from the ledgers holds exactly what they still show; it
      holds what the budget of the request holds after a look if and only if everything the budget knows is
      still shown, and it then permits the same. */
  lemma RebuiltHoldsWhatIsShown(s: System, r: Id, sends: seq<Send>, view: seq<Dispatch>)
    requires Inv(s, r, sends) && IsView(s.fleet, view) && r in s.books
    ensures var rebuilt := Look(Book([], false, 0), view, r).attempts;
            var looked := Look(s.books[r], view, r).attempts;
            && (forall x :: x in rebuilt <==> ShownFor(s.fleet, r, x))
            && ((forall x :: x in rebuilt <==> x in looked) <==> forall x :: x in s.books[r].attempts ==> ShownFor(s.fleet, r, x))
            && ((forall x :: x in rebuilt <==> x in looked) ==>
                  |rebuilt| == |looked| && forall started, c :: CanSend(rebuilt, started, c) == CanSend(looked, started, c))
  {
    InvParts(s, r, sends);
    ShownIsMade(s, r, sends, view);
    BookMade(s, r, sends, s.books[r]);
    hide Inv, Runs, Capped, Made, IsView, Look, CanSend;
    var rebuilt, looked := Look(Book([], false, 0), view, r).attempts, Look(s.books[r], view, r).attempts;
    LookMembers(Book([], false, 0), view, r, sends);
    LookMembers(s.books[r], view, r, sends);
    hide ShownFor, Owns;
    if forall x :: x in rebuilt <==> x in looked {
      SameMembersAlike(rebuilt, looked);
    }
  }

  lemma SameMembersAlike(a: seq<Sent>, b: seq<Sent>)
    requires DistinctAttempts(a) && DistinctAttempts(b) && forall x :: x in a <==> x in b
    ensures |a| == |b| && forall started, c :: CanSend(a, started, c) == CanSend(b, started, c)
  {
    DistinctCount(a);
    DistinctCount(b);
    assert (set x | x in a) == set x | x in b;
    hide CanSend;
    forall started, c
      ensures CanSend(a, started, c) == CanSend(b, started, c)
    {
      SameMembersSameAnswer(a, b, started, c);
    }
  }

  lemma SameMembersSameAnswer(a: seq<Sent>, b: seq<Sent>, started: bool, c: Candidate)
    requires |a| == |b| && forall x :: x in a <==> x in b
    ensures CanSend(a, started, c) == CanSend(b, started, c)
  {
  }

  // ---------------------------------------------------------------- the whole history

  /** Every durable dispatch of the request in a run, forgotten or not. */
  ghost function MadeIn(limits: Limits, s: System, r: Id, events: seq<Event>): seq<Send>
    requires Runs(s.fleet) && AllProper(events)
    decreases |events|
  {
    if events == [] then []
    else
      GoRuns(limits, s, events[0]);
      NewSend(limits, s, r, events[0]) + MadeIn(limits, Go(limits, s, events[0]), r, events[1..])
  }
}
