/** What each step of admission does to budgets, to the dispatch in hand and to the ledgers, said over their
    fields, and what it means that a response has started. */
module SendCapSteps {
  import opened Common
  import opened LedgerModel
  import opened Budget
  import opened Fleet
  import opened SendCap

  // ---------------------------------------------------------------- one send

  /** The candidate goes through a half-open circuit that lends this probe. */
  predicate Borrows(c: Candidate, probe: Id) {
    || (c.accountCircuit.state == HalfOpen && c.accountCircuit.probe == Some(probe))
    || (c.deployment.state == HalfOpen && c.deployment.probe == Some(probe))
  }

  /** A send as the budget writes it down. */
  ghost predicate WrittenAs(c: Candidate, attempt: Id, x: Sent) {
    && x.attempt == attempt && x.leg == c.leg && x.generation == c.generation
    && x.circuitEpoch == c.deployment.epoch && x.accountEpoch == c.accountCircuit.epoch
    && forall p :: p in x.probes <==> Borrows(c, p)
  }

  /** A dispatch as the budget takes it over. */
  ghost predicate TakenAs(d: Dispatch, x: Sent) {
    && x.attempt == d.attempt && x.leg == d.leg && x.generation == d.generation
    && x.circuitEpoch == d.circuitEpoch && x.accountEpoch == d.accountEpoch
    && forall p :: p in x.probes <==> d.accountProbe == Some(p) || d.circuitProbe == Some(p)
  }

  /** Another send is allowed: no response yet, at most two so far, nowhere under the same epochs, and to a
      generation used before only for capacity, through a probe, and through none used before. */
  ghost predicate Allowed(attempts: seq<Sent>, started: bool, c: Candidate) {
    && !started && |attempts| <= 2
    && (forall x :: x in attempts ==> !(x.leg == c.leg && x.circuitEpoch == c.deployment.epoch && x.accountEpoch == c.accountCircuit.epoch))
    && ((forall x :: x in attempts ==> x.generation != c.generation)
        || (c.cause == CapacityCauseSpill && (exists p :: Borrows(c, p)) && forall p, x :: Borrows(c, p) && x in attempts ==> p !in x.probes))
  }

  lemma SendIs(c: Candidate, attempt: Id, d: Dispatch)
    ensures WrittenAs(c, attempt, SentOf(c, attempt)) && TakenAs(d, SentFrom(d))
  {
  }

  lemma AllowedIs(attempts: seq<Sent>, started: bool, c: Candidate)
    ensures CanSend(attempts, started, c) <==> Allowed(attempts, started, c)
  {
    assert forall p :: p in ProbesOf(c) <==> Borrows(c, p);
    if ProbesOf(c) != [] {
      assert ProbesOf(c)[0] in ProbesOf(c);
    }
  }

  // ---------------------------------------------------------------- refreshing a budget

  ghost predicate HasAttempt(attempts: seq<Sent>, id: Id) { exists x :: x in attempts && x.attempt == id }

  /** Everything stays; the request's dispatches under attempts not yet known are taken over, and nothing
      else; the whole is in the order of attempt identifiers. */
  ghost predicate Refreshed(before: seq<Sent>, view: seq<Dispatch>, r: Id, after: seq<Sent>) {
    && (forall x :: x in before ==> x in after)
    && (forall x :: x in after ==> x in before || exists d :: d in view && d.request == r && TakenAs(d, x) && !HasAttempt(before, d.attempt))
    && (forall d :: d in view && d.request == r ==> HasAttempt(after, d.attempt))
    && (forall i, j :: 0 <= i < j < |after| ==> after[i].attempt <= after[j].attempt)
    && (DistinctAttempts(before) ==> DistinctAttempts(after))
  }

  /** Everything stays, and what is new is taken from the view. */
  ghost predicate Takes(before: seq<Sent>, view: seq<Dispatch>, r: Id, after: seq<Sent>) {
    && (forall x :: x in before ==> x in after)
    && (forall x :: x in after ==> x in before || exists d :: d in view && d.request == r && TakenAs(d, x) && !HasAttempt(before, d.attempt))
    && (forall d :: d in view && d.request == r ==> HasAttempt(after, d.attempt))
    && (DistinctAttempts(before) ==> DistinctAttempts(after))
  }

  lemma {:induction false} AbsorbTakes(before: seq<Sent>, view: seq<Dispatch>, r: Id)
    ensures Takes(before, view, r, Absorb(before, view, r))
    decreases |view|
  {
    hide TakenAs, SentFrom, Takes;
    if view == [] {
      NothingTaken(before, r);
    } else {
      var more := if view[0].request == r && !Knows(before, view[0].attempt) then before + [SentFrom(view[0])] else before;
      AbsorbTakes(more, view[1..], r);
      TakesOneMore(before, more, view, r, Absorb(before, view, r));
    }
  }

  lemma NothingTaken(before: seq<Sent>, r: Id)
    ensures Takes(before, [], r, before)
  {
  }

  lemma TakesOneMore(before: seq<Sent>, more: seq<Sent>, view: seq<Dispatch>, r: Id, after: seq<Sent>)
    requires view != [] && Takes(more, view[1..], r, after)
    requires more == if view[0].request == r && !Knows(before, view[0].attempt) then before + [SentFrom(view[0])] else before
    ensures Takes(before, view, r, after)
  {
    hide TakenAs, SentFrom, DistinctAttempts;
    var d := view[0];
    TakenIs(d);
    forall x | x in after
      ensures x in before || exists e :: e in view && e.request == r && TakenAs(e, x) && !HasAttempt(before, e.attempt)
    {
      if x !in more {
        var e :| e in view[1..] && e.request == r && TakenAs(e, x) && !HasAttempt(more, e.attempt);
        FewerAttempts(before, more, e.attempt);
        assert e in view;
      } else if x !in before {
        assert d in view && x == SentFrom(d);
      }
    }
    forall e | e in view && e.request == r
      ensures HasAttempt(after, e.attempt)
    {
      if e !in view[1..] {
        HeadKnown(before, more, after, d);
      }
    }
    OneMoreDistinct(before, d);
  }

  lemma OneMoreDistinct(before: seq<Sent>, d: Dispatch)
    ensures DistinctAttempts(before) && !Knows(before, d.attempt) ==> DistinctAttempts(before + [SentFrom(d)])
  {
  }

  lemma TakenIs(d: Dispatch)
    ensures TakenAs(d, SentFrom(d)) && SentFrom(d).attempt == d.attempt
  {
  }

  lemma FewerAttempts(before: seq<Sent>, more: seq<Sent>, id: Id)
    requires (forall x :: x in before ==> x in more) && !HasAttempt(more, id)
    ensures !HasAttempt(before, id)
  {
  }

  lemma HeadKnown(before: seq<Sent>, more: seq<Sent>, after: seq<Sent>, d: Dispatch)
    requires (forall x :: x in more ==> x in after) && (forall x :: x in before ==> x in more)
    requires Knows(before, d.attempt) || SentFrom(d) in more
    ensures HasAttempt(after, d.attempt)
  {
    if x :| x in before && x.attempt == d.attempt {
      assert x in after;
    } else {
      assert SentFrom(d) in after;
    }
  }

  ghost predicate Ascending(s: seq<Sent>) { forall i, j :: 0 <= i < j < |s| ==> s[i].attempt <= s[j].attempt }

  lemma {:induction false} InsertAscends(s: seq<Sent>, x: Sent)
    requires Ascending(s)
    ensures Ascending(InsertSent(s, x))
    ensures DistinctAttempts(s) && !HasAttempt(s, x.attempt) ==> DistinctAttempts(InsertSent(s, x))
    decreases |s|
  {
    InsertKeeps(s, x);
    if s != [] && x.attempt >= s[0].attempt {
      assert forall y :: y in s[1..] ==> y in s;
      InsertKeeps(s[1..], x);
      InsertAscends(s[1..], x);
      var rest := InsertSent(s[1..], x);
      assert InsertSent(s, x) == [s[0]] + rest;
      forall j | 0 <= j < |rest|
        ensures s[0].attempt <= rest[j].attempt
        ensures DistinctAttempts(s) && !HasAttempt(s, x.attempt) ==> rest[j].attempt != s[0].attempt
      {
        HeadLeast(s, x, rest[j]);
      }
    }
  }

  lemma HeadLeast(s: seq<Sent>, x: Sent, y: Sent)
    requires s != [] && Ascending(s) && s[0].attempt <= x.attempt && (y in s[1..] || y == x)
    ensures s[0].attempt <= y.attempt
    ensures DistinctAttempts(s) && !HasAttempt(s, x.attempt) ==> y.attempt != s[0].attempt
  {
    if y in s[1..] {
      var k :| 0 <= k < |s[1..]| && s[1..][k] == y;
      assert s[k + 1] == y;
    } else {
      assert s[0] in s;
    }
  }

  lemma {:induction false} SortAscends(s: seq<Sent>)
    ensures Ascending(SortSent(s))
    ensures DistinctAttempts(s) ==> DistinctAttempts(SortSent(s))
    decreases |s|
  {
    if s != [] {
      SortAscends(s[1..]);
      SortKeeps(s[1..]);
      InsertAscends(SortSent(s[1..]), s[0]);
      if DistinctAttempts(s) {
        HeadApart(s);
      }
    }
  }

  lemma HeadApart(s: seq<Sent>)
    requires s != [] && DistinctAttempts(s)
    ensures DistinctAttempts(s[1..]) && forall x :: x in s[1..] ==> x.attempt != s[0].attempt
  {
    forall x | x in s[1..]
      ensures x.attempt != s[0].attempt
    {
      var k :| 0 <= k < |s[1..]| && s[1..][k] == x;
      assert s[k + 1] == x;
    }
  }

  lemma RefreshIs(before: seq<Sent>, view: seq<Dispatch>, r: Id)
    ensures Refreshed(before, view, r, SortSent(Absorb(before, view, r)))
  {
    hide Absorb, SortSent, TakenAs, DistinctAttempts;
    AbsorbTakes(before, view, r);
    SortKeeps(Absorb(before, view, r));
    SortAscends(Absorb(before, view, r));
    forall d | d in view && d.request == r
      ensures HasAttempt(SortSent(Absorb(before, view, r)), d.attempt)
    {
      var x :| x in Absorb(before, view, r) && x.attempt == d.attempt;
      assert x in SortSent(Absorb(before, view, r));
    }
  }

  // ---------------------------------------------------------------- one step of the system

  /** One command on one account; `written` says whether it appended a record. */
  ghost predicate OnAccount(limits: Limits, before: map<Id, Runtime>, account: Id, c: Command, after: map<Id, Runtime>, written: bool)
    requires Runs(before)
  {
    if account in before then
      after == before[account := Step(limits, before[account], c).0] && (written <==> Step(limits, before[account], c).1.Some?)
    else after == before && !written
  }

  lemma ActIs(limits: Limits, fleet: map<Id, Runtime>, account: Id, c: Command)
    requires Runs(fleet)
    ensures OnAccount(limits, fleet, account, c, Act(limits, fleet, Action(account, c)).0, Act(limits, fleet, Action(account, c)).1.Some?)
  {
    hide Step;
  }

  /** What admission asks for: the chosen leg on the chosen account, under the circuits as they were seen, and
      for no longer than the request has. */
  predicate AskedFor(q: Request, r: Id, c: Candidate, deadline: nat, asked: Request) {
    && asked.attempt == q.attempt && asked.account == c.account
    && asked.deadline == (if q.deadline < deadline then q.deadline else deadline)
    && asked.inputTokens == q.inputTokens && asked.outputTokens == q.outputTokens && asked.reasoningTokens == q.reasoningTokens
    && asked.quota == q.quota && asked.accountCircuit == c.accountCircuit && asked.circuit == c.deployment
    && asked.binding.request == r && asked.binding.leg == c.leg && asked.binding.generation == c.generation
  }

  lemma AskedIs(q: Request, r: Id, c: Candidate, deadline: nat)
    ensures AskedFor(q, r, c, deadline, Asked(q, r, c, deadline))
  {
  }

  /** Only the budget of `r` changes. */
  predicate OnlyBook(s: System, r: Id, after: System) {
    && r in s.books && r in after.books && after.books == s.books[r := after.books[r]]
    && after.fleet == s.fleet && after.minted == s.minted && after.shadows == s.shadows
  }

  /** The budget of a request, refreshed from what it knew. */
  ghost predicate BookRefreshed(known: seq<Sent>, view: seq<Dispatch>, r: Id, started: bool, deadline: nat, b: Book) {
    Refreshed(known, view, r, b.attempts) && b.started == started && b.deadline == deadline
  }

  /** What one step leaves. Where it does not apply, everything stays. */
  ghost predicate Leads(limits: Limits, s: System, e: Event, after: System)
    requires Runs(s.fleet)
  {
    match e
    case Admitting(r, _, deadline) =>
      if r in s.books then after == s
      else OnlyBook(s.(books := s.books[r := Book([], false, deadline)]), r, after) && after.stage == s.stage && after.books[r] == Book([], false, deadline)
    case Looking(r, view) =>
      if r in s.books && IsView(s.fleet, view) then
        && OnlyBook(s, r, after) && after.stage == s.stage
        && BookRefreshed(s.books[r].attempts, view, r, s.books[r].started, s.books[r].deadline, after.books[r])
      else after == s
    case Rebuilding(r, view) =>
      if r in s.books && IsView(s.fleet, view) then
        OnlyBook(s, r, after) && after.stage == s.stage && BookRefreshed([], view, r, false, s.books[r].deadline, after.books[r])
      else after == s
    case Responding(r) =>
      if r in s.books then
        OnlyBook(s, r, after) && after.stage == s.stage && after.books[r] == Book(s.books[r].attempts, true, s.books[r].deadline)
      else after == s
    case Choosing(r, c, view) =>
      if s.stage == Idle && r in s.books && IsView(s.fleet, view) then
        && OnlyBook(s, r, after)
        && BookRefreshed(s.books[r].attempts, view, r, s.books[r].started, s.books[r].deadline, after.books[r])
        && (if Allowed(after.books[r].attempts, s.books[r].started, c) then after.stage == Chosen(r, c, s.books[r].deadline) else after.stage == Idle)
      else after == s
    case Reserving(q, status, clock, append) =>
      if s.stage.Chosen? && q.attempt !in s.minted then ReservesChosen(limits, s, q, status, clock, append, after) else after == s
    case Marking(clock, append, recorded) =>
      if s.stage.Reserved? then MarksReserved(limits, s, clock, append, recorded, after) else after == s
    case Shadowing(q, seen, status, clock, append) =>
      if q.attempt !in s.minted && seen < q.deadline then
        && after.books == s.books && after.stage == s.stage
        && after.minted == s.minted + {q.attempt} && after.shadows == s.shadows + {q.attempt}
        && exists written :: OnAccount(limits, s.fleet, q.account, LedgerModel.Reserve(q, status, clock, append), after.fleet, written)
      else after == s
    case ShadowMarking(account, attempt, clock, append) =>
      if attempt in s.shadows then OnlyFleet(limits, s, account, Dispatching(attempt, clock, append), after) else after == s
    case Other(a) =>
      if a.command.Reserve? || a.command.Dispatching? then after == s else OnlyFleet(limits, s, a.account, a.command, after)
  }

  /** Only one account's ledger changes. */
  ghost predicate OnlyFleet(limits: Limits, s: System, account: Id, c: Command, after: System)
    requires Runs(s.fleet)
  {
    after == s.(fleet := after.fleet) && exists written :: OnAccount(limits, s.fleet, account, c, after.fleet, written)
  }

  /** The chosen send is asked of its account; it is in hand exactly if the account granted it. */
  ghost predicate ReservesChosen(limits: Limits, s: System, q: Request, status: JournalStatus, clock: nat, append: Append, after: System)
    requires Runs(s.fleet) && s.stage.Chosen?
  {
    && after.books == s.books && after.minted == s.minted + {q.attempt} && after.shadows == s.shadows
    && exists asked, granted ::
         && AskedFor(q, s.stage.request, s.stage.candidate, s.stage.deadline, asked)
         && OnAccount(limits, s.fleet, s.stage.candidate.account, LedgerModel.Reserve(asked, status, clock, append), after.fleet, granted)
         && after.stage == (if granted then Reserved(s.stage.request, s.stage.candidate, q.attempt, s.stage.deadline) else Idle)
  }

  /** The send in hand is made durable by its account; the budget writes it down unless admission was
      interrupted or the budget allows it no longer. */
  ghost predicate MarksReserved(limits: Limits, s: System, clock: nat, append: Append, recorded: bool, after: System)
    requires Runs(s.fleet) && s.stage.Reserved?
  {
    var r, c, attempt := s.stage.request, s.stage.candidate, s.stage.attempt;
    && after.stage == Idle && after.minted == s.minted && after.shadows == s.shadows
    && exists durable ::
         && OnAccount(limits, s.fleet, c.account, Dispatching(attempt, clock, append), after.fleet, durable)
         && (if durable && recorded && r in s.books && Allowed(s.books[r].attempts, s.books[r].started, c) then
               && r in after.books && after.books == s.books[r := after.books[r]]
               && after.books[r].started == s.books[r].started && after.books[r].deadline == s.books[r].deadline
               && exists x :: WrittenAs(c, attempt, x) && after.books[r].attempts == s.books[r].attempts + [x]
             else after.books == s.books)
  }

  lemma LookIs(b: Book, view: seq<Dispatch>, r: Id)
    ensures BookRefreshed(b.attempts, view, r, b.started, b.deadline, Look(b, view, r))
  {
    hide Refreshed, Absorb, SortSent;
    RefreshIs(b.attempts, view, r);
  }

  lemma ReservingIs(limits: Limits, s: System, q: Request, status: JournalStatus, clock: nat, append: Append)
    requires Runs(s.fleet) && s.stage.Chosen?
    ensures ReservesChosen(limits, s, q, status, clock, append, SendCap.Reserve(limits, s, q, status, clock, append))
  {
    hide OnAccount, AskedFor, Act, Asked, Runs;
    var c := s.stage.candidate;
    var asked := Asked(q, s.stage.request, c, s.stage.deadline);
    AskedIs(q, s.stage.request, c, s.stage.deadline);
    ActIs(limits, s.fleet, c.account, LedgerModel.Reserve(asked, status, clock, append));
    var granted := Act(limits, s.fleet, Action(c.account, LedgerModel.Reserve(asked, status, clock, append))).1.Some?;
    assert SendCap.Reserve(limits, s, q, status, clock, append).stage
           == if granted then Reserved(s.stage.request, c, q.attempt, s.stage.deadline) else Idle;
  }

  lemma MarkingIs(limits: Limits, s: System, clock: nat, append: Append, recorded: bool)
    requires Runs(s.fleet) && s.stage.Reserved?
    ensures MarksReserved(limits, s, clock, append, recorded, Go(limits, s, Event.Marking(clock, append, recorded)))
  {
    hide OnAccount, Act, CanSend, Allowed, WrittenAs, SentOf, Runs;
    var r, c, attempt := s.stage.request, s.stage.candidate, s.stage.attempt;
    ActIs(limits, s.fleet, c.account, Dispatching(attempt, clock, append));
    SendIs(c, attempt, Dispatch(0, 0, 0, 0, 0, 0, None, None, 0));
    if r in s.books {
      AllowedIs(s.books[r].attempts, s.books[r].started, c);
    }
    var durable := Act(limits, s.fleet, Action(c.account, Dispatching(attempt, clock, append))).1.Some?;
    assert durable == Mark(limits, s, clock, append).1;
  }

  lemma ChoosingIs(limits: Limits, s: System, r: Id, c: Candidate, view: seq<Dispatch>)
    requires Runs(s.fleet)
    ensures Leads(limits, s, Choosing(r, c, view), Go(limits, s, Choosing(r, c, view)))
  {
    hide Look, BookRefreshed, CanSend, Allowed, IsView, Runs;
    if r in s.books {
      var b := Look(s.books[r], view, r);
      LookIs(s.books[r], view, r);
      Kept(s.books[r], view, r);
      AllowedIs(b.attempts, b.started, c);
    }
  }

  lemma Kept(b: Book, view: seq<Dispatch>, r: Id)
    ensures Look(b, view, r).started == b.started && Look(b, view, r).deadline == b.deadline
  {
  }

  lemma LookingIs(limits: Limits, s: System, r: Id, view: seq<Dispatch>)
    requires Runs(s.fleet)
    ensures Leads(limits, s, Looking(r, view), Go(limits, s, Looking(r, view)))
    ensures Leads(limits, s, Rebuilding(r, view), Go(limits, s, Rebuilding(r, view)))
  {
    hide Look, BookRefreshed, IsView, Runs;
    if r in s.books {
      LookIs(s.books[r], view, r);
      LookIs(Book([], false, s.books[r].deadline), view, r);
    }
  }

  /** Every step of the system does what is said of it above. */
  lemma GoLeads(limits: Limits, s: System, e: Event)
    requires Runs(s.fleet)
    ensures Leads(limits, s, e, Go(limits, s, e))
  {
    hide OnAccount, ReservesChosen, MarksReserved, Act, Look, BookRefreshed, CanSend, Allowed, IsView, Booked, Runs;
    match e
    case Choosing(r, c, view) => ChoosingIs(limits, s, r, c, view);
    case Looking(r, view) => LookingIs(limits, s, r, view);
    case Rebuilding(r, view) => LookingIs(limits, s, r, view);
    case Reserving(q, status, clock, append) =>
      if s.stage.Chosen? {
        ReservingIs(limits, s, q, status, clock, append);
      }
    case Marking(clock, append, recorded) =>
      if s.stage.Reserved? {
        MarkingIs(limits, s, clock, append, recorded);
      }
    case Shadowing(q, _, status, clock, append) => ActIs(limits, s.fleet, q.account, LedgerModel.Reserve(q, status, clock, append));
    case ShadowMarking(account, attempt, clock, append) => ActIs(limits, s.fleet, account, Dispatching(attempt, clock, append));
    case Other(a) => ActIs(limits, s.fleet, a.account, a.command);
    case _ =>
  }

  // ---------------------------------------------------------------- after a response

  /** The request's response has started, and no send of it is in hand. */
  predicate Answered(s: System, r: Id) {
    r in s.books && s.books[r].started && !(s.stage.Chosen? && s.stage.request == r) && !(s.stage.Reserved? && s.stage.request == r)
  }

  lemma AnsweredStays(limits: Limits, s: System, r: Id, e: Event)
    requires Runs(s.fleet) && Answered(s, r) && !(e.Rebuilding? && e.request == r)
    ensures Answered(Go(limits, s, e), r) && NewSend(limits, s, r, e) == []
  {
    hide Act, IsView, Runs, SortSent, Absorb;
  }

  /** Once a response has started and no send is in hand, nothing more is dispatched for the request, unless
      its budget is rebuilt, which forgets the response. */
  lemma {:induction false} ResponseClosesSends(limits: Limits, s: System, r: Id, events: seq<Event>)
    requires Runs(s.fleet) && AllProper(events) && Answered(s, r)
    requires forall e :: e in events ==> !(e.Rebuilding? && e.request == r)
    ensures MadeIn(limits, s, r, events) == [] && Answered(GoAll(limits, s, events), r)
    decreases |events|
  {
    hide Go, Runs, NewSend, Answered, Proper;
    if events != [] {
      GoRuns(limits, s, events[0]);
      AnsweredStays(limits, s, r, events[0]);
      ResponseClosesSends(limits, Go(limits, s, events[0]), r, events[1..]);
    }
  }
}
