/** All accounts over many process generations: each opens what a power loss left of the journal, rebuilds the
    ledgers from the checkpoint that it finds, marks them as a restart does, runs on, takes checkpoints, and is
    cut off in turn. */
module Generations {
  import opened Common
  import opened LedgerModel
  import opened LedgerReplay
  import opened Fleet
  import opened Journal
  import opened JournalWriter
  import opened Recovery

  // ---------------------------------------------------------------- replaying onto two ledgers

  lemma ReservedIs(l: Ledger, v: Reservation)
    ensures var after := ApplyReserved(l, v);
            && after.starts == l.starts[v.attempt := Start(v.startedAt, v.tokens, true)]
            && after.attempts == l.attempts[v.attempt := after.attempts[v.attempt]]
            && after.attempts[v.attempt] == Attempt(v.binding, v.deadline, v.circuitEpoch, v.accountEpoch, v.circuitProbe, v.accountProbe,
                                                    v.monthlyReset, v.startedAt, None, None, v.tokens, v.quota, Live)
            && after.consumed == Consume(Consume(l.consumed, v.accountProbe, v.attempt), v.circuitProbe, v.attempt)
            && after == l.(starts := after.starts, attempts := after.attempts, consumed := after.consumed,
                           monthlyUsed := after.monthlyUsed, monthlyReset := after.monthlyReset)
  {
    hide Consume;
  }

  /** Replaying one record onto two ledgers of which one holds what the other has dropped keeps them so. */
  lemma ReservedTogether(limits: Limits, x: Ledger, y: Ledger, v: Reservation)
    requires Agree(limits, x, y) && v.attempt !in y.starts && v.attempt !in y.resolutions
    ensures Agree(limits, ApplyReserved(x, v), ApplyReserved(y, v))
  {
    ReservedIs(x, v);
    ReservedIs(y, v);
    hide ApplyReserved, Consume;
  }

  lemma DispatchedTogether(limits: Limits, x: Ledger, y: Ledger, receipt: Receipt, id: Id, at: nat)
    requires Agree(limits, x, y) && ApplyDispatched(x, receipt, id, at).Some?
    ensures ApplyDispatched(y, receipt, id, at).Some?
    ensures Agree(limits, ApplyDispatched(x, receipt, id, at).value, ApplyDispatched(y, receipt, id, at).value)
  {
  }

  lemma ResolvedTogether(limits: Limits, x: Ledger, y: Ledger, receipt: Receipt, id: Id, resolution: Resolution, at: nat)
    requires Agree(limits, x, y) && ApplyResolved(x, receipt, id, resolution, at).Some?
    ensures ApplyResolved(y, receipt, id, resolution, at).Some?
    ensures Agree(limits, ApplyResolved(x, receipt, id, resolution, at).value, ApplyResolved(y, receipt, id, resolution, at).value)
  {
  }

  lemma CircuitTogether(limits: Limits, x: Ledger, y: Ledger, generation: Option<Id>, value: Circuit)
    requires Agree(limits, x, y) && ApplyCircuit(x, generation, value).Some?
    ensures ApplyCircuit(y, generation, value).Some?
    ensures Agree(limits, ApplyCircuit(x, generation, value).value, ApplyCircuit(y, generation, value).value)
  {
  }

  lemma ProbeTogether(limits: Limits, x: Ledger, y: Ledger, probing: Probing)
    requires Agree(limits, x, y)
    ensures Agree(limits, ApplyProbeFinished(x, probing), ApplyProbeFinished(y, probing))
  {
    var after := ApplyProbeFinished(x, probing);
    assert ApplyProbeFinished(y, probing) == y.(attempts := after.attempts, holds := after.holds, recoveryProbe := None);
    FreedSlotsAgree(limits, x, after.attempts, after.holds, None, y);
  }

  lemma ApplyTogether(limits: Limits, x: Ledger, y: Ledger, e: Entry)
    requires Agree(limits, x, y) && Apply(x, e).Some? && Minted(Some(e)) !! y.starts.Keys + y.resolutions.Keys
    ensures Apply(y, e).Some? && Agree(limits, Apply(x, e).value, Apply(y, e).value)
  {
    hide Agree, ApplyReserved, ApplyDispatched, ApplyResolved, ApplyCircuit, ApplyActiveCount, ApplyProbeFinished;
    SameKnown(limits, x, y);
    match e.record
    case AttemptReserved(v) => ReservedTogether(limits, x, y, v);
    case AttemptDispatched(id, at) => DispatchedTogether(limits, x, y, e.receipt, id, at);
    case AttemptResolved(id, resolution, at) => ResolvedTogether(limits, x, y, e.receipt, id, resolution, at);
    case AttemptUncertain(id) => UncertainTogether(limits, x, y, id);
    case CircuitUpdated(generation, value) => CircuitTogether(limits, x, y, generation, value);
    case ActiveCountRecorded(count) => ActiveCountAgrees(limits, x, count, y);
    case ProbeStarted(probe) => StartedTogether(limits, x, y, probe);
    case ProbeFinished(_, probing) => ProbeTogether(limits, x, y, probing);
  }

  lemma SameKnown(limits: Limits, x: Ledger, y: Ledger)
    requires Agree(limits, x, y)
    ensures x.AnyLive() <==> y.AnyLive()
    ensures forall id :: Knows(x, id) ==> Knows(y, id)
  {
  }

  lemma UncertainTogether(limits: Limits, x: Ledger, y: Ledger, id: Id)
    requires Agree(limits, x, y)
    ensures Agree(limits, ApplyUncertain(x, id), ApplyUncertain(y, id))
  {
  }

  lemma StartedTogether(limits: Limits, x: Ledger, y: Ledger, probe: Id)
    requires Agree(limits, x, y)
    ensures Agree(limits, x.(recoveryProbe := Some(probe)), y.(recoveryProbe := Some(probe)))
  {
  }

  // ---------------------------------------------------------------- replaying onto two fleets

  /** Ledgers that hold everything the others hold, and what those have dropped. */
  ghost predicate AgreeEach(limits: Limits, x: map<Id, Ledger>, y: map<Id, Ledger>) {
    x.Keys == y.Keys && forall k :: k in x ==> Agree(limits, x[k], y[k])
  }

  /** Ledgers that replay can go on from. */
  ghost predicate Ready(order: seq<Id>, ledgers: map<Id, Ledger>, owner: map<Id, Id>) {
    && Owned(ledgers, owner) && Covers(order, ledgers)
    && forall k :: k in ledgers ==> ledgers[k].attempts.Keys <= ledgers[k].starts.Keys
  }

  /** A line as an account writes it, whose attempt, if it mints one, is new. */
  ghost predicate FreshLine(line: Line, owner: map<Id, Id>) {
    && (line.account.None? <==> NamesAttemptOnly(line.entry.record))
    && Minted(Some(line.entry)) !! owner.Keys
  }

  lemma ReservedKeys(l: Ledger, v: Reservation)
    requires l.attempts.Keys <= l.starts.Keys
    ensures ApplyReserved(l, v).attempts.Keys <= ApplyReserved(l, v).starts.Keys
  {
    hide Consume;
  }

  lemma ChangedKeys(l: Ledger, receipt: Receipt, id: Id, resolution: Resolution, at: nat)
    requires l.attempts.Keys <= l.starts.Keys
    ensures var after := ApplyDispatched(l, receipt, id, at); after.Some? ==> after.value.attempts.Keys <= after.value.starts.Keys
    ensures var after := ApplyResolved(l, receipt, id, resolution, at); after.Some? ==> after.value.attempts.Keys <= after.value.starts.Keys
    ensures ApplyUncertain(l, id).attempts.Keys <= ApplyUncertain(l, id).starts.Keys
  {
  }

  lemma SlotKeys(l: Ledger, count: nat, probing: Probing)
    requires l.attempts.Keys <= l.starts.Keys
    ensures ApplyActiveCount(l, count).attempts.Keys <= ApplyActiveCount(l, count).starts.Keys
    ensures ApplyProbeFinished(l, probing).attempts.Keys <= ApplyProbeFinished(l, probing).starts.Keys
  {
  }

  lemma KeysKept(l: Ledger, e: Entry)
    requires l.attempts.Keys <= l.starts.Keys && Apply(l, e).Some?
    ensures Apply(l, e).value.attempts.Keys <= Apply(l, e).value.starts.Keys
  {
    hide ApplyReserved, ApplyDispatched, ApplyResolved, ApplyUncertain, ApplyActiveCount, ApplyProbeFinished;
    match e.record
    case AttemptReserved(v) => ReservedKeys(l, v);
    case AttemptDispatched(id, at) => ChangedKeys(l, e.receipt, id, Resolution(Completed, true, None, None, None), at);
    case AttemptResolved(id, resolution, at) => ChangedKeys(l, e.receipt, id, resolution, at);
    case AttemptUncertain(id) => ChangedKeys(l, e.receipt, id, Resolution(Completed, true, None, None, None), 0);
    case ActiveCountRecorded(count) => SlotKeys(l, count, Available);
    case ProbeFinished(_, probing) => SlotKeys(l, 0, probing);
    case _ =>
  }

  /** One line finds the same account on both sides, and keeps them alike. */
  lemma LineTogether(limits: Limits, order: seq<Id>, x: map<Id, Ledger>, y: map<Id, Ledger>, line: Line, owner: map<Id, Id>)
    requires AgreeEach(limits, x, y) && Ready(order, x, owner) && Ready(order, y, owner)
    requires FreshLine(line, owner) && ApplyLine(order, x, line).Some?
    ensures ApplyLine(order, y, line).Some?
    ensures AgreeEach(limits, ApplyLine(order, x, line).value, ApplyLine(order, y, line).value)
    ensures Ready(order, ApplyLine(order, x, line).value, Claim(owner, Some(line)))
    ensures Ready(order, ApplyLine(order, y, line).value, Claim(owner, Some(line)))
  {
    var k := Route(order, x, line).value;
    SameRoute(limits, order, x, y, line, owner, k);
    ApplyTogether(limits, x[k], y[k], line.entry);
    ReadyStep(order, x, owner, k, line);
    ReadyStep(order, y, owner, k, line);
    hide Agree, Apply, Ready, Claim, Route, FreshLine;
  }

  lemma SameRoute(limits: Limits, order: seq<Id>, x: map<Id, Ledger>, y: map<Id, Ledger>, line: Line, owner: map<Id, Id>, k: Id)
    requires AgreeEach(limits, x, y) && Ready(order, y, owner) && FreshLine(line, owner)
    requires Route(order, x, line) == Some(k) && k in x && Apply(x[k], line.entry).Some?
    ensures Route(order, y, line) == Some(k) && line == LineFor(k, line.entry)
    ensures Minted(Some(line.entry)) !! y[k].starts.Keys + y[k].resolutions.Keys
  {
    if NamesAttemptOnly(line.entry.record) {
      FirstKnows(order, x, AttemptNamed(line.entry.record), k);
      SameKnown(limits, x[k], y[k]);
      RouteFinds(order, y, owner, k, AttemptNamed(line.entry.record));
    }
    assert OwnedBy(y[k], k, owner);
    hide Agree, Apply;
  }

  lemma {:induction false} FirstKnows(order: seq<Id>, ledgers: map<Id, Ledger>, attempt: Id, k: Id)
    requires FirstKnowing(order, ledgers, attempt) == Some(k)
    ensures k in ledgers && Knows(ledgers[k], attempt)
    decreases |order|
  {
    if !(order[0] in ledgers && Knows(ledgers[order[0]], attempt)) {
      FirstKnows(order[1..], ledgers, attempt, k);
    }
  }

  lemma ReadyStep(order: seq<Id>, ledgers: map<Id, Ledger>, owner: map<Id, Id>, k: Id, line: Line)
    requires Ready(order, ledgers, owner) && k in ledgers && Apply(ledgers[k], line.entry).Some? && line == LineFor(k, line.entry)
    requires Minted(Some(line.entry)) !! owner.Keys
    ensures Ready(order, ledgers[k := Apply(ledgers[k], line.entry).value], Claim(owner, Some(line)))
  {
    OwnedStep(ledgers, owner, k, line.entry);
    KeysKept(ledgers[k], line.entry);
    hide Apply, Owned, Claim, Covers;
  }

  function ClaimAll(owner: map<Id, Id>, lines: seq<Line>): map<Id, Id>
    decreases |lines|
  {
    if lines == [] then owner else ClaimAll(Claim(owner, Some(lines[0])), lines[1..])
  }

  ghost predicate FreshLines(lines: seq<Line>, owner: map<Id, Id>)
    decreases |lines|
  {
    lines == [] || (FreshLine(lines[0], owner) && FreshLines(lines[1..], Claim(owner, Some(lines[0]))))
  }

  /** Replaying the same lines onto ledgers that are alike gives ledgers that are alike. */
  lemma {:induction false} LinesTogether(limits: Limits, order: seq<Id>, x: map<Id, Ledger>, y: map<Id, Ledger>, lines: seq<Line>, owner: map<Id, Id>)
    requires AgreeEach(limits, x, y) && Ready(order, x, owner) && Ready(order, y, owner)
    requires FreshLines(lines, owner) && ReplayLines(order, x, lines).Some?
    ensures ReplayLines(order, y, lines).Some?
    ensures AgreeEach(limits, ReplayLines(order, x, lines).value, ReplayLines(order, y, lines).value)
    ensures Ready(order, ReplayLines(order, x, lines).value, ClaimAll(owner, lines))
    ensures Ready(order, ReplayLines(order, y, lines).value, ClaimAll(owner, lines))
    decreases |lines|
  {
    hide AgreeEach, Ready, FreshLine, ApplyLine, Claim;
    if lines != [] {
      LineTogether(limits, order, x, y, lines[0], owner);
      LinesTogether(limits, order, ApplyLine(order, x, lines[0]).value, ApplyLine(order, y, lines[0]).value, lines[1..], Claim(owner, Some(lines[0])));
    }
  }

  lemma {:induction false} ReplayLinesSplit(order: seq<Id>, ledgers: map<Id, Ledger>, a: seq<Line>, b: seq<Line>)
    ensures ReplayLines(order, ledgers, a + b) ==
            if ReplayLines(order, ledgers, a).None? then None else ReplayLines(order, ReplayLines(order, ledgers, a).value, b)
    decreases |a|
  {
    hide ApplyLine;
    if a == [] {
      assert [] + b == b;
    } else {
      assert (a + b)[0] == a[0] && (a + b)[1..] == a[1..] + b;
      if ApplyLine(order, ledgers, a[0]).Some? {
        ReplayLinesSplit(order, ApplyLine(order, ledgers, a[0]).value, a[1..], b);
      }
    }
  }

  lemma {:induction false} FreshSplit(a: seq<Line>, b: seq<Line>, owner: map<Id, Id>)
    ensures ClaimAll(owner, a + b) == ClaimAll(ClaimAll(owner, a), b)
    ensures FreshLines(a + b, owner) <==> FreshLines(a, owner) && FreshLines(b, ClaimAll(owner, a))
    decreases |a|
  {
    hide FreshLine, Claim;
    if a == [] {
      assert [] + b == b;
    } else {
      assert (a + b)[0] == a[0] && (a + b)[1..] == a[1..] + b;
      FreshSplit(a[1..], b, Claim(owner, Some(a[0])));
    }
  }

  ghost predicate Extends(owner: map<Id, Id>, wider: map<Id, Id>) { forall id :: id in owner ==> id in wider && wider[id] == owner[id] }

  lemma {:induction false} ClaimExtends(lines: seq<Line>, owner: map<Id, Id>)
    requires FreshLines(lines, owner)
    ensures Extends(owner, ClaimAll(owner, lines))
    decreases |lines|
  {
    if lines != [] {
      ClaimExtends(lines[1..], Claim(owner, Some(lines[0])));
    }
  }

  lemma ReadyWider(order: seq<Id>, ledgers: map<Id, Ledger>, owner: map<Id, Id>, wider: map<Id, Id>)
    requires Ready(order, ledgers, owner) && Extends(owner, wider)
    ensures Ready(order, ledgers, wider)
  {
    forall k | k in ledgers
      ensures OwnedBy(ledgers[k], k, wider)
    {
      assert OwnedBy(ledgers[k], k, owner);
    }
  }

  // ---------------------------------------------------------------- a run, from ledgers that agree with it

  lemma FreshAct(limits: Limits, fleet: map<Id, Runtime>, a: Action, owner: map<Id, Id>)
    requires Runs(fleet) && MintsFresh(a.command, owner.Keys)
    ensures var line := Act(limits, fleet, a).1; line.Some? ==> FreshLine(line.value, owner)
  {
    if a.account in fleet {
      MintedByReserve(limits, fleet[a.account], a.command);
    }
    hide Step;
  }

  lemma ReadyAct(limits: Limits, order: seq<Id>, fleet: map<Id, Runtime>, ledgers: map<Id, Ledger>, owner: map<Id, Id>)
    requires Runs(fleet) && AgreeAll(limits, fleet, ledgers) && Owned(ledgers, owner) && Covers(order, ledgers)
    ensures Ready(order, ledgers, owner)
  {
    AttemptsHaveStarts(limits, fleet, ledgers);
    hide AgreeAll, Runs;
  }

  /** Replaying what a run writes onto ledgers that agree with where it starts. */
  lemma {:induction false} RunOwns(limits: Limits, order: seq<Id>, fleet: map<Id, Runtime>, actions: seq<Action>, ledgers: map<Id, Ledger>, owner: map<Id, Id>)
    returns (applied: map<Id, Ledger>)
    requires Runs(fleet) && AllWellFormed(actions) && AgreeAll(limits, fleet, ledgers) && Ready(order, ledgers, owner)
    requires MintsOnceAll(limits, fleet, actions, owner)
    ensures var (last, lines) := RunAll(limits, fleet, actions);
            && ReplayLines(order, ledgers, lines) == Some(applied) && AgreeAll(limits, last, applied)
            && FreshLines(lines, owner) && Ready(order, applied, ClaimAll(owner, lines))
    decreases |actions|
  {
    hide AgreeAll, Runs, WellFormed, Owned, Covers, FreshLine, Claim, MintsFresh;
    applied := ledgers;
    if actions != [] {
      var a := actions[0];
      assert a in actions && AllWellFormed(actions[1..]);
      ActRuns(limits, fleet, a);
      var next, line := Act(limits, fleet, a).0, Act(limits, fleet, a).1;
      var once := ActReplays(limits, order, fleet, a, ledgers, owner);
      FreshAct(limits, fleet, a, owner);
      ReadyAct(limits, order, next, once, Claim(owner, line));
      applied := RunOwns(limits, order, next, actions[1..], once, Claim(owner, line));
      assert actions == [a] + actions[1..];
      RunCons(limits, fleet, a, actions[1..]);
      ReplayListed(order, ledgers, line, RunAll(limits, next, actions[1..]).1, once);
      FreshListed(line, RunAll(limits, next, actions[1..]).1, owner);
    }
  }

  lemma FreshListed(line: Option<Line>, rest: seq<Line>, owner: map<Id, Id>)
    ensures ClaimAll(owner, Listed(line) + rest) == ClaimAll(Claim(owner, line), rest)
    ensures FreshLines(Listed(line) + rest, owner) <==> (line.Some? ==> FreshLine(line.value, owner)) && FreshLines(rest, Claim(owner, line))
  {
    hide FreshLine;
    if line.Some? {
      assert ([line.value] + rest)[1..] == rest;
    } else {
      assert [] + rest == rest;
    }
  }

  lemma {:induction false} MintsSplit(limits: Limits, fleet: map<Id, Runtime>, a: seq<Action>, b: seq<Action>, owner: map<Id, Id>)
    requires Runs(fleet) && AllWellFormed(a + b) && MintsOnceAll(limits, fleet, a + b, owner)
    ensures AllWellFormed(a) && AllWellFormed(b) && Runs(RunAll(limits, fleet, a).0) && MintsOnceAll(limits, fleet, a, owner)
    ensures MintsOnceAll(limits, RunAll(limits, fleet, a).0, b, ClaimAll(owner, RunAll(limits, fleet, a).1))
    decreases |a|
  {
    hide Runs, WellFormed, Claim, MintsFresh;
    AllSplit(a, b);
    if a == [] {
      assert [] + b == b;
    } else {
      assert (a + b)[0] == a[0] && (a + b)[1..] == a[1..] + b && a[0] in a;
      ActRuns(limits, fleet, a[0]);
      var next, line := Act(limits, fleet, a[0]).0, Act(limits, fleet, a[0]).1;
      MintsSplit(limits, next, a[1..], b, Claim(owner, line));
      assert a == [a[0]] + a[1..];
      RunCons(limits, fleet, a[0], a[1..]);
      FreshListed(line, RunAll(limits, next, a[1..]).1, owner);
    }
  }

  // ---------------------------------------------------------------- one generation

  /** What does not change from one process to the next: the limits, the order in which accounts are asked,
      the ledgers of a new installation, the numbering of digests, and the replay bound. */
  datatype World = World(limits: Limits, order: seq<Id>, initial: map<Id, Ledger>, rank: Digest -> Id, bound: nat)

  /** One process: the accounts as it started with them, what it did (a restart's own records are those of
      Marking, ProbeEnds and Swapping commands), an instant of its journal, with the checkpoints that read there,
      of which the first `earlier` were there at the start, and the points of its run at which it had each of them,
      and what a power loss made of that. */
  datatype Life = Life(fleet: map<Id, Runtime>, actions: seq<Action>, instant: Instant, kept: seq<Checkpoint>, earlier: nat, points: seq<nat>,
                       lost: Disk)

  ghost predicate Ran(w: World, g: Life, owner: map<Id, Id>) {
    Runs(g.fleet) && AllWellFormed(g.actions) && MintsOnceAll(w.limits, g.fleet, g.actions, owner)
  }

  lemma PrefixFormed(actions: seq<Action>, p: nat)
    requires AllWellFormed(actions) && p <= |actions|
    ensures AllWellFormed(actions[..p]) && AllWellFormed(actions[p..])
  {
  }

  ghost function LiveAt(w: World, g: Life, p: nat): map<Id, Runtime>
    requires Runs(g.fleet) && AllWellFormed(g.actions) && p <= |g.actions|
  {
    PrefixFormed(g.actions, p);
    RunAll(w.limits, g.fleet, g.actions[..p]).0
  }

  /** How many lines the first actions write. */
  ghost function Wrote(w: World, g: Life, p: nat): nat
    requires Runs(g.fleet) && AllWellFormed(g.actions) && p <= |g.actions|
  {
    PrefixFormed(g.actions, p);
    |RunAll(w.limits, g.fleet, g.actions[..p]).1|
  }

  ghost function AllLines(w: World, g: Life): seq<Line>
    requires Runs(g.fleet) && AllWellFormed(g.actions)
  {
    RunAll(w.limits, g.fleet, g.actions).1
  }

  lemma Slices(actions: seq<Action>, p: nat, p2: nat)
    requires p <= p2 <= |actions| && AllWellFormed(actions)
    ensures AllWellFormed(actions[..p]) && AllWellFormed(actions[p..p2]) && AllWellFormed(actions[p2..])
    ensures actions[..p] + actions[p..p2] == actions[..p2] && actions[..p] + (actions[p..p2] + actions[p2..]) == actions
  {
  }

  lemma FrontOf(a: seq<Line>, b: seq<Line>)
    ensures (a + b)[..|a|] == a
  {
  }

  /** The run between two of its points. */
  lemma Stretch(w: World, g: Life, p: nat, p2: nat)
    requires Runs(g.fleet) && AllWellFormed(g.actions) && p <= p2 <= |g.actions|
    ensures AllWellFormed(g.actions[p..p2]) && Runs(LiveAt(w, g, p)) && Wrote(w, g, p) <= Wrote(w, g, p2) <= |AllLines(w, g)|
    ensures RunAll(w.limits, LiveAt(w, g, p), g.actions[p..p2]) == (LiveAt(w, g, p2), AllLines(w, g)[Wrote(w, g, p)..Wrote(w, g, p2)])
    ensures AllLines(w, g)[..Wrote(w, g, p)] == RunAll(w.limits, g.fleet, g.actions[..p]).1
  {
    hide RunAll, Runs, AllWellFormed;
    Slices(g.actions, p, p2);
    var first, part, rest := g.actions[..p], g.actions[p..p2], g.actions[p2..];
    LinesBetween(w.limits, g.fleet, first, part, rest);
    AllSplit(part, rest);
    RunSplit(w.limits, g.fleet, first, part + rest);
    FrontOf(RunAll(w.limits, g.fleet, first).1, RunAll(w.limits, RunAll(w.limits, g.fleet, first).0, part + rest).1);
  }

  ghost function OwnerAt(w: World, g: Life, owner: map<Id, Id>, p: nat): map<Id, Id>
    requires Runs(g.fleet) && AllWellFormed(g.actions) && p <= |g.actions|
  {
    Stretch(w, g, p, |g.actions|);
    ClaimAll(owner, AllLines(w, g)[..Wrote(w, g, p)])
  }

  /** Ledgers that agree with the run at one of its points, and from which replay can go on. */
  ghost predicate Seat(w: World, g: Life, owner: map<Id, Id>, p: nat, ledgers: map<Id, Ledger>)
    requires Runs(g.fleet) && AllWellFormed(g.actions)
  {
    p <= |g.actions| && AgreeAll(w.limits, LiveAt(w, g, p), ledgers) && Ready(w.order, ledgers, OwnerAt(w, g, owner, p))
  }

  lemma MintsBetween(w: World, g: Life, owner: map<Id, Id>, p: nat, p2: nat)
    requires Ran(w, g, owner) && p <= p2 <= |g.actions|
    ensures Runs(LiveAt(w, g, p)) && AllWellFormed(g.actions[p..p2])
    ensures MintsOnceAll(w.limits, LiveAt(w, g, p), g.actions[p..p2], OwnerAt(w, g, owner, p))
  {
    var first, part, rest := g.actions[..p], g.actions[p..p2], g.actions[p2..];
    assert first + (part + rest) == g.actions;
    Stretch(w, g, p, p2);
    hide RunAll, Runs, AllWellFormed, ClaimAll, MintsOnceAll;
    MintsSplit(w.limits, g.fleet, first, part + rest, owner);
    MintsSplit(w.limits, LiveAt(w, g, p), part, rest, ClaimAll(owner, RunAll(w.limits, g.fleet, first).1));
  }

  lemma OwnerBetween(w: World, g: Life, owner: map<Id, Id>, p: nat, p2: nat)
    requires Runs(g.fleet) && AllWellFormed(g.actions) && p <= p2 <= |g.actions|
    ensures Wrote(w, g, p) <= Wrote(w, g, p2) <= |AllLines(w, g)|
    ensures ClaimAll(OwnerAt(w, g, owner, p), AllLines(w, g)[Wrote(w, g, p)..Wrote(w, g, p2)]) == OwnerAt(w, g, owner, p2)
  {
    Stretch(w, g, p, p2);
    hide Wrote, AllLines, LiveAt, ClaimAll;
    var lines, a, b := AllLines(w, g), Wrote(w, g, p), Wrote(w, g, p2);
    FreshSplit(lines[..a], lines[a..b], owner);
    assert lines[..a] + lines[a..b] == lines[..b];
  }

  /** From one seat, the lines of the run lead to a seat at every later point. */
  lemma SeatRuns(w: World, g: Life, owner: map<Id, Id>, p: nat, p2: nat, ledgers: map<Id, Ledger>) returns (applied: map<Id, Ledger>)
    requires Ran(w, g, owner) && Seat(w, g, owner, p, ledgers) && p <= p2 <= |g.actions|
    ensures Wrote(w, g, p) <= Wrote(w, g, p2) <= |AllLines(w, g)|
    ensures ReplayLines(w.order, ledgers, AllLines(w, g)[Wrote(w, g, p)..Wrote(w, g, p2)]) == Some(applied)
    ensures Seat(w, g, owner, p2, applied)
    ensures FreshLines(AllLines(w, g)[Wrote(w, g, p)..Wrote(w, g, p2)], OwnerAt(w, g, owner, p))
  {
    MintsBetween(w, g, owner, p, p2);
    Stretch(w, g, p, p2);
    OwnerBetween(w, g, owner, p, p2);
    hide RunAll, Runs, AgreeAll, Ready, MintsOnceAll, AllWellFormed, FreshLines, ReplayLines, ClaimAll, LiveAt, Wrote, AllLines, OwnerAt;
    applied := RunOwns(w.limits, w.order, LiveAt(w, g, p), g.actions[p..p2], ledgers, OwnerAt(w, g, owner, p));
  }

  lemma SeatReady(w: World, g: Life, owner: map<Id, Id>, p: nat, ledgers: map<Id, Ledger>)
    requires Ran(w, g, owner) && Seat(w, g, owner, p, ledgers)
    ensures p <= |g.actions| && Ready(w.order, ledgers, OwnerAt(w, g, owner, p))
  {
    hide Ready, AgreeAll, Runs, AllWellFormed, LiveAt, OwnerAt, MintsOnceAll;
  }

  lemma RanParts(w: World, g: Life, owner: map<Id, Id>)
    requires Ran(w, g, owner)
    ensures Runs(g.fleet) && AllWellFormed(g.actions)
  {
  }

  lemma JoinTogether(limits: Limits, order: seq<Id>, x1: map<Id, Ledger>, y: map<Id, Ledger>, x2: map<Id, Ledger>,
                     front: seq<Line>, back: seq<Line>, owner: map<Id, Id>)
    requires ReplayLines(order, x1, front) == Some(y) && AgreeEach(limits, x2, y)
    requires Ready(order, x2, owner) && Ready(order, y, owner) && FreshLines(back, owner) && ReplayLines(order, x2, back).Some?
    ensures ReplayLines(order, x1, front + back).Some?
    ensures AgreeEach(limits, ReplayLines(order, x2, back).value, ReplayLines(order, x1, front + back).value)
  {
    hide AgreeEach, Ready, FreshLines, ReplayLines;
    LinesTogether(limits, order, x2, y, back, owner);
    ReplayLinesSplit(order, x1, front, back);
  }

  lemma Joined(lines: seq<Line>, a: nat, b: nat, c: nat)
    requires a <= b <= c <= |lines|
    ensures lines[a..b] + lines[b..c] == lines[a..c]
  {
  }

  /** Two seats, the later of which holds no more than what the earlier one leads to: the lines after them
      keep it so. */
  lemma SeatsTogether(w: World, g: Life, owner: map<Id, Id>, p1: nat, x1: map<Id, Ledger>, p2: nat, x2: map<Id, Ledger>, e: nat)
    requires Ran(w, g, owner) && Seat(w, g, owner, p1, x1) && Seat(w, g, owner, p2, x2) && p1 <= p2 <= e <= |g.actions|
    requires Wrote(w, g, p1) <= Wrote(w, g, p2) <= Wrote(w, g, e) <= |AllLines(w, g)|
    requires var y := ReplayLines(w.order, x1, AllLines(w, g)[Wrote(w, g, p1)..Wrote(w, g, p2)]); y.Some? ==> AgreeEach(w.limits, x2, y.value)
    ensures var lines := AllLines(w, g);
            var y1, y2 := ReplayLines(w.order, x1, lines[Wrote(w, g, p1)..Wrote(w, g, e)]), ReplayLines(w.order, x2, lines[Wrote(w, g, p2)..Wrote(w, g, e)]);
            y1.Some? && y2.Some? && AgreeEach(w.limits, y2.value, y1.value)
  {
    RanParts(w, g, owner);
    hide Ran, Seat, Runs, AllWellFormed, Wrote, AllLines, ReplayLines, AgreeEach, OwnerAt, FreshLines, Ready;
    var y := SeatRuns(w, g, owner, p1, p2, x1);
    var _ := SeatRuns(w, g, owner, p2, e, x2);
    SeatReady(w, g, owner, p2, x2);
    SeatReady(w, g, owner, p2, y);
    Joined(AllLines(w, g), Wrote(w, g, p1), Wrote(w, g, p2), Wrote(w, g, e));
    JoinTogether(w.limits, w.order, x1, y, x2, AllLines(w, g)[Wrote(w, g, p1)..Wrote(w, g, p2)], AllLines(w, g)[Wrote(w, g, p2)..Wrote(w, g, e)],
                 OwnerAt(w, g, owner, p2));
  }

  // ---------------------------------------------------------------- what recovery can start from

  /** A checkpoint, or the beginning of everything. */
  function SequenceOf(c: Option<Checkpoint>): nat { if c.Some? then c.value.sequence else 0 }

  function Restored(w: World, c: Option<Checkpoint>): Option<map<Id, Ledger>> {
    if c.Some? then RestoreImage(w.limits, c.value.snapshot) else Some(w.initial)
  }

  /** The ledgers that replaying the lines after a checkpoint rebuilds from it. */
  ghost function Point(w: World, c: Option<Checkpoint>, lines: seq<Line>): Option<map<Id, Ledger>> {
    if Restored(w, c).None? || SequenceOf(c) > |lines| then None else ReplayLines(w.order, Restored(w, c).value, lines[SequenceOf(c)..])
  }

  ghost predicate Good(w: World, c: Option<Checkpoint>, lines: seq<Line>, owner: map<Id, Id>) {
    var x := Point(w, c, lines); x.Some? && Ready(w.order, x.value, owner)
  }

  /** What is rebuilt from the later one is what is rebuilt from the earlier one, less what has been dropped
      in between. */
  ghost predicate Follows(w: World, earlier: Option<Checkpoint>, later: Option<Checkpoint>, lines: seq<Line>) {
    var x, y := Point(w, earlier, lines), Point(w, later, lines);
    x.Some? && y.Some? && AgreeEach(w.limits, y.value, x.value)
  }

  /** The `i`-th of what recovery can start from: nothing, and then the checkpoints. */
  function StartAt(cs: seq<Checkpoint>, i: nat): Option<Checkpoint>
    requires i <= |cs|
  {
    if i == 0 then None else Some(cs[i - 1])
  }

  /** Whatever of the first ones recovery starts from, it rebuilds the same, up to what has been dropped. */
  ghost predicate ConsistentTo(w: World, cs: seq<Checkpoint>, n: nat, lines: seq<Line>, owner: map<Id, Id>)
    requires n <= |cs|
  {
    && (forall i :: 0 <= i <= n ==> Good(w, StartAt(cs, i), lines, owner))
    && (forall i, j :: 0 <= i < j <= n ==> Follows(w, StartAt(cs, i), StartAt(cs, j), lines))
  }

  ghost predicate Consistent(w: World, cs: seq<Checkpoint>, lines: seq<Line>, owner: map<Id, Id>) { ConsistentTo(w, cs, |cs|, lines, owner) }

  /** The first `n` of `a` are some of the elements of `b`: their indices there. */
  ghost predicate PicksTo<T(!new)>(a: seq<T>, n: nat, b: seq<T>, f: seq<nat>)
    requires n <= |a|
  {
    && |f| == n && (forall i :: 0 <= i < n ==> f[i] < |b| && a[i] == b[f[i]])
    && forall i, j :: 0 <= i < j < n ==> f[i] < f[j]
  }

  ghost predicate Picks<T(!new)>(a: seq<T>, b: seq<T>, f: seq<nat>) { PicksTo(a, |a|, b, f) }

  function PickedAt(f: seq<nat>, i: nat): nat
    requires i <= |f|
  {
    if i == 0 then 0 else f[i - 1] + 1
  }

  lemma PickedFrom(a: seq<Checkpoint>, n: nat, b: seq<Checkpoint>, f: seq<nat>, i: nat) returns (k: nat)
    requires n <= |a| && PicksTo(a, n, b, f) && i <= n
    ensures k == PickedAt(f, i) && k <= |b| && StartAt(a, i) == StartAt(b, k)
    ensures forall j :: 0 <= j < i ==> PickedAt(f, j) < k
  {
    k := PickedAt(f, i);
  }

  lemma PickConsistent(w: World, a: seq<Checkpoint>, n: nat, b: seq<Checkpoint>, f: seq<nat>, lines: seq<Line>, owner: map<Id, Id>)
    requires n <= |a| && PicksTo(a, n, b, f) && Consistent(w, b, lines, owner)
    ensures ConsistentTo(w, a, n, lines, owner)
  {
    hide Good, Follows, StartAt, PickedAt, PicksTo;
    forall i | 0 <= i <= n
      ensures Good(w, StartAt(a, i), lines, owner)
    {
      var k := PickedFrom(a, n, b, f, i);
    }
    forall i, j | 0 <= i < j <= n
      ensures Follows(w, StartAt(a, i), StartAt(a, j), lines)
    {
      var m := PickedFrom(a, n, b, f, j);
      var k := PickedFrom(a, n, b, f, i);
    }
  }

  lemma PicksCons<T(!new)>(x: T, a: seq<T>, b: seq<T>, f: seq<nat>, taken: bool) returns (g: seq<nat>)
    requires Picks(a, b, f)
    ensures Picks(if taken then [x] + a else a, [x] + b, g)
  {
    var moved := seq(|f|, i requires 0 <= i < |f| => f[i] + 1);
    g := if taken then [0] + moved else moved;
  }

  /** A power loss leaves some of the readable checkpoints readable. */
  lemma {:induction false} ReadableWorn(before: seq<Checkpoint>, after: seq<Checkpoint>) returns (f: seq<nat>)
    requires |after| == |before|
    requires forall i :: 0 <= i < |after| ==> after[i] == before[i] || after[i] == before[i].(readable := false)
    ensures Picks(Readable(after), Readable(before), f)
    decreases |before|
  {
    if before == [] {
      f := [];
    } else {
      hide Picks;
      f := ReadableWorn(before[1..], after[1..]);
      if before[0].readable {
        f := PicksCons(before[0], Readable(after[1..]), Readable(before[1..]), f, after[0].readable);
      } else {
        assert !after[0].readable && Readable(after) == Readable(after[1..]) && Readable(before) == Readable(before[1..]);
      }
    }
  }

  /** More lines are replayed onto what the lines so far rebuild. */
  lemma PointMore(w: World, c: Option<Checkpoint>, lines: seq<Line>, more: seq<Line>)
    requires Point(w, c, lines).Some?
    ensures Point(w, c, lines + more) == ReplayLines(w.order, Point(w, c, lines).value, more)
  {
    var from := SequenceOf(c);
    assert (lines + more)[from..] == lines[from..] + more;
    ReplayLinesSplit(w.order, Restored(w, c).value, lines[from..], more);
    hide ReplayLines, Restored;
  }

  // ---------------------------------------------------------------- a process after a power loss

  /** The accounts hold what was rebuilt; the clock may have moved on. */
  ghost predicate Resumed(fleet: map<Id, Runtime>, ledgers: map<Id, Ledger>) {
    fleet.Keys == ledgers.Keys
    && forall k :: k in fleet ==> ledgers[k].highWater <= fleet[k].ledger.highWater
                                  && fleet[k].ledger == ledgers[k].(highWater := fleet[k].ledger.highWater)
  }

  /** A checkpoint is of the live ledgers, at the sequence that the journal had reached. */
  ghost predicate Taken(w: World, g: Life, before: nat, c: Checkpoint, p: nat) {
    && Runs(g.fleet) && AllWellFormed(g.actions) && p <= |g.actions| && c.sequence == before + Wrote(w, g, p)
    && exists ledgers :: ImageAt(w, g, c, p, ledgers)
  }

  ghost predicate ImageAt(w: World, g: Life, c: Checkpoint, p: nat, ledgers: map<Id, Ledger>)
    requires Runs(g.fleet) && AllWellFormed(g.actions) && p <= |g.actions|
  {
    LedgersOf(LiveAt(w, g, p), ledgers) && Restores(w.limits, ledgers) && c.snapshot == TakeImage(ledgers)
  }

  /** The checkpoints that read at the instant: some of those there were at the start, and those taken since, in
      the order in which they were taken. */
  ghost predicate Checkpointed(w: World, d: Disk, before: nat, g: Life) {
    && Readable(g.instant.disk.checkpoints) == g.kept && g.earlier <= |g.kept| == |g.points|
    && (exists f :: PicksTo(g.kept, g.earlier, Readable(d.checkpoints), f))
    && InOrder(w, before, g)
  }

  ghost predicate InOrder(w: World, before: nat, g: Life)
    requires g.earlier <= |g.kept| == |g.points|
  {
    && (forall i :: 0 <= i < |g.kept| ==> if i < g.earlier then g.points[i] == 0 else Taken(w, g, before, g.kept[i], g.points[i]))
    && forall i, j :: 0 <= i <= j < |g.points| ==> g.points[i] <= g.points[j]
  }

  /** A process that opens the directory `d`, which holds the history `h`, and is cut off at an instant. */
  ghost predicate Lived(w: World, d: Disk, h: seq<Item>, owner: map<Id, Id>, g: Life) {
    && Ran(w, g, owner)
    && (var r := Recover(d, w.bound);
        && r.Healthy?
        && (var rebuilt := Rebuilt(w.limits, w.order, w.initial, w.rank, r.checkpoint, r.records);
            rebuilt.Some? ==> Resumed(g.fleet, rebuilt.value)))
    && g.instant.Sound() && h <= g.instant.history && |h| <= g.instant.acked
    && LinesOf(w.rank, g.instant.history) == LinesOf(w.rank, h) + AllLines(w, g)
    && Checkpointed(w, d, |h|, g)
    && PowerLoss(g.instant.disk, g.lost)
  }

  /** Where a process stands when it is cut off, seen from a checkpoint: its point in the run, and the ledgers
      that it rebuilds there. */
  ghost predicate Seated(w: World, g: Life, owner: map<Id, Id>, lines: seq<Line>, c: Option<Checkpoint>, p: nat, x: map<Id, Ledger>)
    requires Runs(g.fleet) && AllWellFormed(g.actions)
  {
    && Seat(w, g, owner, p, x)
    && forall e :: p <= e <= |g.actions| ==> Meets(w, g, lines, c, p, x, e)
  }

  ghost predicate Meets(w: World, g: Life, lines: seq<Line>, c: Option<Checkpoint>, p: nat, x: map<Id, Ledger>, e: nat)
    requires Runs(g.fleet) && AllWellFormed(g.actions) && p <= e <= |g.actions|
  {
    Stretch(w, g, p, e);
    Point(w, c, lines + AllLines(w, g)[..Wrote(w, g, e)]) == ReplayLines(w.order, x, AllLines(w, g)[Wrote(w, g, p)..Wrote(w, g, e)])
  }

  lemma ClockRaised(limits: Limits, x: Ledger, y: Ledger, later: Ledger)
    requires Agree(limits, x, y) && later == x.(highWater := later.highWater) && x.highWater <= later.highWater
    ensures Agree(limits, later, y)
  {
  }

  lemma AgreeItself(limits: Limits, x: map<Id, Ledger>)
    ensures AgreeEach(limits, x, x)
  {
    forall k | k in x
      ensures Agree(limits, x[k], x[k])
    {
      AgreeSelf(limits, x[k]);
    }
  }

  lemma ResumedAgrees(limits: Limits, fleet: map<Id, Runtime>, x: map<Id, Ledger>, y: map<Id, Ledger>)
    requires Resumed(fleet, x) && AgreeEach(limits, x, y)
    ensures AgreeAll(limits, fleet, y)
  {
    hide Agree;
    forall k | k in fleet
      ensures Agree(limits, fleet[k].ledger, y[k])
    {
      ClockRaised(limits, x[k], y[k], fleet[k].ledger);
    }
  }

  lemma AtTheStart(w: World, g: Life, owner: map<Id, Id>)
    requires Runs(g.fleet) && AllWellFormed(g.actions)
    ensures LiveAt(w, g, 0) == g.fleet && Wrote(w, g, 0) == 0 && OwnerAt(w, g, owner, 0) == owner
  {
    assert g.actions[..0] == [];
    hide Runs, AllWellFormed;
  }

  /** A checkpoint that was there at the start. */
  lemma OldSeat(w: World, g: Life, owner: map<Id, Id>, lines: seq<Line>, base: map<Id, Ledger>, c: Option<Checkpoint>) returns (x: map<Id, Ledger>)
    requires Runs(g.fleet) && AllWellFormed(g.actions) && Resumed(g.fleet, base)
    requires Good(w, c, lines, owner) && AgreeEach(w.limits, base, Point(w, c, lines).value)
    ensures Point(w, c, lines) == Some(x) && Seated(w, g, owner, lines, c, 0, x)
  {
    hide Runs, AllWellFormed, AgreeEach, AgreeAll, Ready, Resumed, Point, LiveAt, Wrote, AllLines, OwnerAt;
    x := Point(w, c, lines).value;
    ResumedAgrees(w.limits, g.fleet, base, x);
    AtTheStart(w, g, owner);
    forall e | 0 <= e <= |g.actions|
      ensures Meets(w, g, lines, c, 0, x, e)
    {
      Stretch(w, g, 0, e);
      PointMore(w, c, lines, AllLines(w, g)[..Wrote(w, g, e)]);
    }
  }

  lemma LiveReady(w: World, fleet: map<Id, Runtime>, x: map<Id, Ledger>, applied: map<Id, Ledger>, owner: map<Id, Id>)
    requires Runs(fleet) && LedgersOf(fleet, x) && AgreeAll(w.limits, fleet, applied) && Ready(w.order, applied, owner)
    ensures AgreeAll(w.limits, fleet, x) && Ready(w.order, x, owner) && AgreeEach(w.limits, x, applied)
  {
    LiveOwned(w.limits, fleet, x, applied, owner);
    LiveAgrees(w.limits, fleet, x);
    hide Owned, Agree;
  }

  lemma TailOf(lines: seq<Line>, all: seq<Line>, a: nat, b: nat)
    requires a <= b <= |all|
    ensures (lines + all[..b])[|lines| + a..] == all[a..b]
  {
  }

  lemma TakenMeets(w: World, g: Life, lines: seq<Line>, c: Checkpoint, p: nat, x: map<Id, Ledger>, e: nat)
    requires Taken(w, g, |lines|, c, p) && RestoreImage(w.limits, c.snapshot) == Some(x) && p <= e <= |g.actions|
    ensures Meets(w, g, lines, Some(c), p, x, e)
  {
    hide Runs, AllWellFormed, LiveAt, Wrote, AllLines, ReplayLines, RestoreImage;
    Stretch(w, g, p, e);
    TailOf(lines, AllLines(w, g), Wrote(w, g, p), Wrote(w, g, e));
  }

  /** A checkpoint that was taken since. */
  lemma NewSeat(w: World, g: Life, owner: map<Id, Id>, lines: seq<Line>, base: map<Id, Ledger>, c: Checkpoint, p: nat) returns (x: map<Id, Ledger>)
    requires Ran(w, g, owner) && Seat(w, g, owner, 0, base) && Taken(w, g, |lines|, c, p)
    ensures p <= |g.actions| && LedgersOf(LiveAt(w, g, p), x) && Seated(w, g, owner, lines, Some(c), p, x)
  {
    RanParts(w, g, owner);
    x :| ImageAt(w, g, c, p, x);
    ImageRoundTrip(w.limits, x);
    hide Runs, AllWellFormed, AgreeAll, Ready, LedgersOf, LiveAt, Wrote, AllLines, OwnerAt, ReplayLines, Restores, MintsOnceAll, Ran;
    var applied := SeatRuns(w, g, owner, 0, p, base);
    SeatReady(w, g, owner, p, applied);
    Stretch(w, g, p, p);
    LiveReady(w, LiveAt(w, g, p), x, applied, OwnerAt(w, g, owner, p));
    forall e | p <= e <= |g.actions|
      ensures Meets(w, g, lines, Some(c), p, x, e)
    {
      TakenMeets(w, g, lines, c, p, x, e);
    }
  }

  /** What the earlier seat leads to at the later one holds everything that the later one does. */
  ghost predicate Precedes(w: World, g: Life, p1: nat, x1: map<Id, Ledger>, p2: nat, x2: map<Id, Ledger>)
    requires Runs(g.fleet) && AllWellFormed(g.actions) && p1 <= p2 <= |g.actions|
  {
    Stretch(w, g, p1, p2);
    var y := ReplayLines(w.order, x1, AllLines(w, g)[Wrote(w, g, p1)..Wrote(w, g, p2)]);
    y.Some? ==> AgreeEach(w.limits, x2, y.value)
  }

  lemma NewIsPreceded(w: World, g: Life, owner: map<Id, Id>, p1: nat, x1: map<Id, Ledger>, p2: nat, x2: map<Id, Ledger>)
    requires Ran(w, g, owner) && Seat(w, g, owner, p1, x1) && p1 <= p2 <= |g.actions| && LedgersOf(LiveAt(w, g, p2), x2)
    ensures Precedes(w, g, p1, x1, p2, x2)
  {
    RanParts(w, g, owner);
    hide Runs, AllWellFormed, Ready, LedgersOf, LiveAt, Wrote, AllLines, OwnerAt, ReplayLines, MintsOnceAll, Ran, AgreeAll;
    var applied := SeatRuns(w, g, owner, p1, p2, x1);
    SeatReady(w, g, owner, p2, applied);
    Stretch(w, g, p2, p2);
    LiveReady(w, LiveAt(w, g, p2), x2, applied, OwnerAt(w, g, owner, p2));
  }

  lemma OldIsPreceded(w: World, g: Life, x1: map<Id, Ledger>, x2: map<Id, Ledger>)
    requires Runs(g.fleet) && AllWellFormed(g.actions) && AgreeEach(w.limits, x2, x1)
    ensures Precedes(w, g, 0, x1, 0, x2)
  {
    AtTheStart(w, g, map[]);
    hide Runs, AllWellFormed, AgreeEach, LiveAt, Wrote, AllLines;
  }

  /** At the end a seat is good to recover from. */
  lemma SeatEnds(w: World, g: Life, owner: map<Id, Id>, lines: seq<Line>, c: Option<Checkpoint>, p: nat, x: map<Id, Ledger>, e: nat)
    requires Ran(w, g, owner) && Seated(w, g, owner, lines, c, p, x) && p <= e <= |g.actions| && Wrote(w, g, e) <= |AllLines(w, g)|
    ensures Good(w, c, lines + AllLines(w, g)[..Wrote(w, g, e)], OwnerAt(w, g, owner, e))
    ensures AgreeAll(w.limits, LiveAt(w, g, e), Point(w, c, lines + AllLines(w, g)[..Wrote(w, g, e)]).value)
  {
    RanParts(w, g, owner);
    assert Meets(w, g, lines, c, p, x, e);
    var applied := SeatRuns(w, g, owner, p, e, x);
    hide Runs, AllWellFormed, Ready, LiveAt, Wrote, AllLines, OwnerAt, ReplayLines, MintsOnceAll, Ran, AgreeAll, Point;
  }

  lemma SeatsEnd(w: World, g: Life, owner: map<Id, Id>, lines: seq<Line>, c1: Option<Checkpoint>, p1: nat, x1: map<Id, Ledger>,
                 c2: Option<Checkpoint>, p2: nat, x2: map<Id, Ledger>, e: nat)
    requires Ran(w, g, owner) && Seated(w, g, owner, lines, c1, p1, x1) && Seated(w, g, owner, lines, c2, p2, x2)
    requires p1 <= p2 <= e <= |g.actions| && Precedes(w, g, p1, x1, p2, x2) && Wrote(w, g, e) <= |AllLines(w, g)|
    ensures Follows(w, c1, c2, lines + AllLines(w, g)[..Wrote(w, g, e)])
  {
    RanParts(w, g, owner);
    Stretch(w, g, p1, p2);
    Stretch(w, g, p2, e);
    hide Runs, AllWellFormed, LiveAt, Wrote, AllLines, OwnerAt, ReplayLines, MintsOnceAll, Ran, Seat, Point, AgreeEach;
    assert Meets(w, g, lines, c1, p1, x1, e) && Meets(w, g, lines, c2, p2, x2, e);
    SeatsTogether(w, g, owner, p1, x1, p2, x2, e);
  }

  // ---------------------------------------------------------------- all checkpoints of one process

  /** A process on its way: the ledgers it was resumed from, and the checkpoints that it has. */
  ghost predicate Opening(w: World, lines: seq<Line>, owner: map<Id, Id>, g: Life, base: map<Id, Ledger>) {
    && Ran(w, g, owner) && Resumed(g.fleet, base) && Ready(w.order, base, owner)
    && g.earlier <= |g.kept| == |g.points| && ConsistentTo(w, g.kept, g.earlier, lines, owner)
    && (forall i :: 0 <= i <= g.earlier ==> AgreeEach(w.limits, base, Point(w, StartAt(g.kept, i), lines).value))
    && InOrder(w, |lines|, g)
  }

  /** When the process could first have recovered from its `i`-th starting point. */
  function Since(g: Life, i: nat): nat
    requires i <= |g.points|
  {
    if i == 0 then 0 else g.points[i - 1]
  }

  lemma OpeningRan(w: World, lines: seq<Line>, owner: map<Id, Id>, g: Life, base: map<Id, Ledger>)
    requires Opening(w, lines, owner, g, base)
    ensures Ran(w, g, owner) && Runs(g.fleet) && AllWellFormed(g.actions) && g.earlier <= |g.kept| == |g.points|
    ensures Seat(w, g, owner, 0, base)
  {
    AtTheStart(w, g, owner);
    AgreeItself(w.limits, base);
    ResumedAgrees(w.limits, g.fleet, base, base);
    hide Runs, AllWellFormed, MintsOnceAll, Ready, Resumed, InOrder, ConsistentTo, AgreeEach, AgreeAll, LiveAt, OwnerAt;
  }

  lemma OpeningOlds(w: World, lines: seq<Line>, owner: map<Id, Id>, g: Life, base: map<Id, Ledger>, i: nat)
    requires Opening(w, lines, owner, g, base) && i <= g.earlier
    ensures Good(w, StartAt(g.kept, i), lines, owner) && AgreeEach(w.limits, base, Point(w, StartAt(g.kept, i), lines).value)
    ensures Resumed(g.fleet, base) && Since(g, i) == 0
    ensures forall k :: 0 <= k < i ==> Follows(w, StartAt(g.kept, k), StartAt(g.kept, i), lines)
  {
    hide Ran, Resumed, Ready, Taken, AgreeEach, Point, StartAt;
    OldSince(w, |lines|, g, i);
  }

  lemma OldSince(w: World, before: nat, g: Life, i: nat)
    requires g.earlier <= |g.kept| == |g.points| && InOrder(w, before, g) && i <= g.earlier
    ensures Since(g, i) == 0
  {
    hide Taken;
  }

  lemma OpeningNews(w: World, lines: seq<Line>, owner: map<Id, Id>, g: Life, base: map<Id, Ledger>, i: nat)
    requires Opening(w, lines, owner, g, base) && g.earlier < i <= |g.kept|
    ensures Taken(w, g, |lines|, g.kept[i - 1], Since(g, i)) && StartAt(g.kept, i) == Some(g.kept[i - 1])
  {
    hide Ran, Resumed, Ready, Taken, AgreeEach, Point, ConsistentTo;
  }

  lemma SinceGrows(w: World, lines: seq<Line>, owner: map<Id, Id>, g: Life, base: map<Id, Ledger>, i: nat, j: nat)
    requires Opening(w, lines, owner, g, base) && i <= j <= |g.kept|
    ensures Since(g, i) <= Since(g, j)
  {
    hide Ran, Resumed, Ready, ConsistentTo, Taken, AgreeEach, Point, StartAt;
  }

  lemma SeatOf(w: World, lines: seq<Line>, owner: map<Id, Id>, g: Life, base: map<Id, Ledger>, i: nat) returns (x: map<Id, Ledger>)
    requires Opening(w, lines, owner, g, base) && i <= |g.kept|
    ensures Runs(g.fleet) && AllWellFormed(g.actions) && Since(g, i) <= |g.actions|
    ensures Seated(w, g, owner, lines, StartAt(g.kept, i), Since(g, i), x)
    ensures i <= g.earlier ==> Point(w, StartAt(g.kept, i), lines) == Some(x)
    ensures i > g.earlier ==> LedgersOf(LiveAt(w, g, Since(g, i)), x)
  {
    OpeningRan(w, lines, owner, g, base);
    hide Opening, Runs, AllWellFormed, Ran, Resumed, Seat, Good, Follows, Seated, AgreeEach, LedgersOf, Point, Taken, StartAt, Since;
    if i <= g.earlier {
      OpeningOlds(w, lines, owner, g, base, i);
      x := OldSeat(w, g, owner, lines, base, StartAt(g.kept, i));
    } else {
      OpeningNews(w, lines, owner, g, base, i);
      x := NewSeat(w, g, owner, lines, base, g.kept[i - 1], Since(g, i));
    }
  }

  /** Before the end every starting point is good, and agrees with the run. */
  lemma StartEnds(w: World, lines: seq<Line>, owner: map<Id, Id>, g: Life, base: map<Id, Ledger>, i: nat, e: nat)
    requires Opening(w, lines, owner, g, base) && i <= |g.kept| == |g.points| && Since(g, i) <= e <= |g.actions|
    ensures Runs(g.fleet) && AllWellFormed(g.actions) && Wrote(w, g, e) <= |AllLines(w, g)|
    ensures var all := lines + AllLines(w, g)[..Wrote(w, g, e)];
            Good(w, StartAt(g.kept, i), all, OwnerAt(w, g, owner, e))
            && AgreeAll(w.limits, LiveAt(w, g, e), Point(w, StartAt(g.kept, i), all).value)
  {
    OpeningRan(w, lines, owner, g, base);
    Stretch(w, g, e, |g.actions|);
    hide Opening, Runs, AllWellFormed, Ran, Seated, LiveAt, Wrote, AllLines, OwnerAt, Point, AgreeAll, StartAt, Since;
    var x := SeatOf(w, lines, owner, g, base, i);
    SeatEnds(w, g, owner, lines, StartAt(g.kept, i), Since(g, i), x, e);
  }

  lemma SeatsPrecede(w: World, lines: seq<Line>, owner: map<Id, Id>, g: Life, base: map<Id, Ledger>, i: nat, x: map<Id, Ledger>, j: nat, y: map<Id, Ledger>)
    requires Opening(w, lines, owner, g, base) && i < j <= |g.kept| == |g.points|
    requires Runs(g.fleet) && AllWellFormed(g.actions) && Since(g, i) <= Since(g, j) <= |g.actions|
    requires Seat(w, g, owner, Since(g, i), x)
    requires i <= g.earlier ==> Point(w, StartAt(g.kept, i), lines) == Some(x)
    requires if j <= g.earlier then Point(w, StartAt(g.kept, j), lines) == Some(y) else LedgersOf(LiveAt(w, g, Since(g, j)), y)
    ensures Precedes(w, g, Since(g, i), x, Since(g, j), y)
  {
    OpeningRan(w, lines, owner, g, base);
    hide Opening, Runs, AllWellFormed, Ran, Seat, AgreeEach, Point, StartAt, LedgersOf, LiveAt, Precedes, Since;
    if j <= g.earlier {
      OpeningOlds(w, lines, owner, g, base, j);
      OpeningOlds(w, lines, owner, g, base, i);
      assert Follows(w, StartAt(g.kept, i), StartAt(g.kept, j), lines);
      OldIsPreceded(w, g, x, y);
    } else {
      NewIsPreceded(w, g, owner, Since(g, i), x, Since(g, j), y);
    }
  }

  /** And of two of them the later rebuilds what the earlier does, less what has been dropped. */
  lemma StartsEnd(w: World, lines: seq<Line>, owner: map<Id, Id>, g: Life, base: map<Id, Ledger>, i: nat, j: nat, e: nat)
    requires Opening(w, lines, owner, g, base) && i < j <= |g.kept| == |g.points| && Since(g, j) <= e <= |g.actions|
    ensures Runs(g.fleet) && AllWellFormed(g.actions) && Wrote(w, g, e) <= |AllLines(w, g)|
    ensures Follows(w, StartAt(g.kept, i), StartAt(g.kept, j), lines + AllLines(w, g)[..Wrote(w, g, e)])
  {
    OpeningRan(w, lines, owner, g, base);
    SinceGrows(w, lines, owner, g, base, i, j);
    Stretch(w, g, e, |g.actions|);
    hide Opening, Runs, AllWellFormed, Ran, Seated, Seat, LiveAt, Wrote, AllLines, OwnerAt, Point, StartAt, Precedes, LedgersOf, Since, Follows;
    var x := SeatOf(w, lines, owner, g, base, i);
    var y := SeatOf(w, lines, owner, g, base, j);
    SeatedIsSeat(w, g, owner, lines, StartAt(g.kept, i), Since(g, i), x);
    SeatsPrecede(w, lines, owner, g, base, i, x, j, y);
    SeatsEnd(w, g, owner, lines, StartAt(g.kept, i), Since(g, i), x, StartAt(g.kept, j), Since(g, j), y, e);
  }

  lemma SeatedIsSeat(w: World, g: Life, owner: map<Id, Id>, lines: seq<Line>, c: Option<Checkpoint>, p: nat, x: map<Id, Ledger>)
    requires Runs(g.fleet) && AllWellFormed(g.actions) && Seated(w, g, owner, lines, c, p, x)
    ensures Seat(w, g, owner, p, x)
  {
    hide Runs, AllWellFormed, Seat, Meets;
  }

  /** The checkpoints that still read at the end, all of them taken by then. */
  lemma ConsistentEnd(w: World, lines: seq<Line>, owner: map<Id, Id>, g: Life, base: map<Id, Ledger>, a: seq<Checkpoint>, f: seq<nat>, e: nat)
    requires Opening(w, lines, owner, g, base) && Picks(a, g.kept, f)
    requires |g.points| == |g.kept| && e <= |g.actions| && forall i :: 0 <= i <= |a| ==> Since(g, PickedAt(f, i)) <= e
    ensures Runs(g.fleet) && AllWellFormed(g.actions) && Wrote(w, g, e) <= |AllLines(w, g)|
    ensures Consistent(w, a, lines + AllLines(w, g)[..Wrote(w, g, e)], OwnerAt(w, g, owner, e))
  {
    OpeningRan(w, lines, owner, g, base);
    Stretch(w, g, e, |g.actions|);
    var all := lines + AllLines(w, g)[..Wrote(w, g, e)];
    hide Opening, Runs, AllWellFormed, Ran, LiveAt, Wrote, AllLines, OwnerAt, StartAt, Good, Follows, AgreeAll, PickedAt, Since, PicksTo;
    forall i | 0 <= i <= |a|
      ensures Good(w, StartAt(a, i), all, OwnerAt(w, g, owner, e))
    {
      var k := PickedFrom(a, |a|, g.kept, f, i);
      StartEnds(w, lines, owner, g, base, k, e);
    }
    forall i, j | 0 <= i < j <= |a|
      ensures Follows(w, StartAt(a, i), StartAt(a, j), all)
    {
      var m := PickedFrom(a, |a|, g.kept, f, j);
      var k := PickedFrom(a, |a|, g.kept, f, i);
      StartsEnd(w, lines, owner, g, base, k, m, e);
    }
  }

  // ---------------------------------------------------------------- from one process to the next

  /** Where recovery starts from. */
  function LastStart(d: Disk): Option<Checkpoint> { StartAt(Readable(d.checkpoints), |Readable(d.checkpoints)|) }

  /** A directory that holds this history, and from any checkpoint of which recovery rebuilds the same. */
  ghost predicate Stands(w: World, d: Disk, h: seq<Item>, owner: map<Id, Id>) {
    (exists acked, offered :: Intact(d, h, acked, offered)) && Consistent(w, Readable(d.checkpoints), LinesOf(w.rank, h), owner)
  }

  lemma RecoversLast(d: Disk, h: seq<Item>, acked: nat, offered: set<(nat, Image)>, bound: nat)
    requires Intact(d, h, acked, offered) && Recover(d, bound).Healthy?
    ensures var r := Recover(d, bound);
            && r.checkpoint == LastStart(d) && r.lastSequence == |h|
            && SequenceOf(LastStart(d)) <= |h| && r.records == h[SequenceOf(LastStart(d))..]
  {
    RecoverIntact(d, h, acked, offered, bound);
    hide Intact, Recover, Readable;
  }

  lemma TailLines(rank: Digest -> Id, h: seq<Item>, from: nat)
    requires from <= |h|
    ensures LinesOf(rank, h[from..]) == LinesOf(rank, h)[from..]
  {
    LinesSlice(rank, h, from, |h|);
    assert h[from..|h|] == h[from..] && LinesOf(rank, h)[from..|h|] == LinesOf(rank, h)[from..];
    hide LinesOf;
  }

  lemma RebuiltIsPoint(w: World, d: Disk, h: seq<Item>, owner: map<Id, Id>)
    requires Stands(w, d, h, owner) && Recover(d, w.bound).Healthy?
    ensures var r := Recover(d, w.bound);
            && Rebuilt(w.limits, w.order, w.initial, w.rank, r.checkpoint, r.records) == Point(w, LastStart(d), LinesOf(w.rank, h))
            && r.lastSequence == |h|
    ensures Good(w, LastStart(d), LinesOf(w.rank, h), owner)
  {
    hide Intact, LinesOf, ReplayLines, RestoreImage, Recover, Good, Follows, LastStart;
    var acked, offered :| Intact(d, h, acked, offered);
    RecoversLast(d, h, acked, offered, w.bound);
    TailLines(w.rank, h, SequenceOf(LastStart(d)));
    LastIsGood(w, d, h, owner);
  }

  lemma LastIsGood(w: World, d: Disk, h: seq<Item>, owner: map<Id, Id>)
    requires Stands(w, d, h, owner)
    ensures Good(w, LastStart(d), LinesOf(w.rank, h), owner)
  {
    hide Intact, LinesOf, Good, Follows, StartAt;
  }

  lemma LastFollows(w: World, cs: seq<Checkpoint>, k: nat, lines: seq<Line>, owner: map<Id, Id>)
    requires Consistent(w, cs, lines, owner) && k <= |cs|
    ensures var last := Point(w, StartAt(cs, |cs|), lines);
            && Point(w, StartAt(cs, k), lines).Some? && last.Some? && AgreeEach(w.limits, last.value, Point(w, StartAt(cs, k), lines).value)
  {
    hide Point, AgreeEach, Ready, StartAt;
    assert Good(w, StartAt(cs, k), lines, owner);
    if k < |cs| {
      assert Follows(w, StartAt(cs, k), StartAt(cs, |cs|), lines);
    } else {
      AgreeItself(w.limits, Point(w, StartAt(cs, k), lines).value);
    }
  }

  lemma Opens(w: World, d: Disk, h: seq<Item>, owner: map<Id, Id>, g: Life) returns (base: map<Id, Ledger>)
    requires Stands(w, d, h, owner) && Lived(w, d, h, owner, g)
    ensures Opening(w, LinesOf(w.rank, h), owner, g, base)
  {
    RebuiltIsPoint(w, d, h, owner);
    var lines := LinesOf(w.rank, h);
    var b := Readable(d.checkpoints);
    var f :| PicksTo(g.kept, g.earlier, b, f);
    base := Point(w, LastStart(d), lines).value;
    hide Good, Follows, Point, AgreeEach, Resumed, Ran, InOrder, LinesOf, Intact, Ready, Instant.Sound, Rebuilt, Recover, StartAt, PowerLoss, Readable, PicksTo;
    PickConsistent(w, g.kept, g.earlier, b, f, lines, owner);
    forall i | 0 <= i <= g.earlier
      ensures AgreeEach(w.limits, base, Point(w, StartAt(g.kept, i), lines).value)
    {
      var k := PickedFrom(g.kept, g.earlier, b, f, i);
      LastFollows(w, b, k, lines, owner);
    }
    GoodParts(w, LastStart(d), lines, owner);
  }

  lemma GoodParts(w: World, c: Option<Checkpoint>, lines: seq<Line>, owner: map<Id, Id>)
    requires Good(w, c, lines, owner)
    ensures Point(w, c, lines).Some? && Ready(w.order, Point(w, c, lines).value, owner)
  {
    hide Point, Ready;
  }

  /** The run reaches every number of lines that lies ahead. */
  lemma ReachLines(w: World, g: Life, p: nat, m: nat) returns (e: nat)
    requires Runs(g.fleet) && AllWellFormed(g.actions) && p <= |g.actions| && Wrote(w, g, p) <= m <= |AllLines(w, g)|
    ensures p <= e <= |g.actions| && Wrote(w, g, e) == m
  {
    Stretch(w, g, p, |g.actions|);
    var rest := g.actions[p..];
    assert g.actions[p..|g.actions|] == rest && g.actions[..|g.actions|] == g.actions;
    var q := PrefixWithLines(w.limits, LiveAt(w, g, p), rest, m - Wrote(w, g, p));
    e := p + q;
    assert rest[..q] == g.actions[p..e];
    Stretch(w, g, p, e);
    hide Runs, AllWellFormed, LiveAt, RunAll, Wrote, AllLines;
  }

  lemma WiderOwner(w: World, lines: seq<Line>, owner: map<Id, Id>, g: Life, base: map<Id, Ledger>, e: nat)
    requires Opening(w, lines, owner, g, base) && e <= |g.actions|
    ensures Runs(g.fleet) && AllWellFormed(g.actions)
    ensures Extends(OwnerAt(w, g, owner, e), ClaimAll(owner, AllLines(w, g)))
  {
    OpeningRan(w, lines, owner, g, base);
    AtTheStart(w, g, owner);
    AtTheEnd(w, g, owner);
    hide Opening, Runs, AllWellFormed, Ran, Seat, LiveAt, Wrote, AllLines, FreshLines, ClaimAll, Extends;
    var x := SeatRuns(w, g, owner, 0, e, base);
    var _ := SeatRuns(w, g, owner, e, |g.actions|, x);
    OwnerBetween(w, g, owner, e, |g.actions|);
    ClaimExtends(AllLines(w, g)[Wrote(w, g, e)..Wrote(w, g, |g.actions|)], OwnerAt(w, g, owner, e));
  }

  lemma AtTheEnd(w: World, g: Life, owner: map<Id, Id>)
    requires Runs(g.fleet) && AllWellFormed(g.actions)
    ensures Wrote(w, g, |g.actions|) == |AllLines(w, g)| && OwnerAt(w, g, owner, |g.actions|) == ClaimAll(owner, AllLines(w, g))
  {
    assert g.actions[..|g.actions|] == g.actions;
    assert AllLines(w, g)[..|AllLines(w, g)|] == AllLines(w, g);
    hide Runs, AllWellFormed, RunAll, ClaimAll;
  }

  lemma ConsistentWider(w: World, cs: seq<Checkpoint>, lines: seq<Line>, owner: map<Id, Id>, wider: map<Id, Id>)
    requires Consistent(w, cs, lines, owner) && Extends(owner, wider)
    ensures Consistent(w, cs, lines, wider)
  {
    hide Point, Ready, Follows, Extends, StartAt;
    forall i | 0 <= i <= |cs|
      ensures Good(w, StartAt(cs, i), lines, wider)
    {
      assert Good(w, StartAt(cs, i), lines, owner);
      ReadyWider(w.order, Point(w, StartAt(cs, i), lines).value, owner, wider);
    }
  }

  // ---------------------------------------------------------------- every generation

  /** The history that a power loss leaves. */
  function Kept(g: Life): (h: seq<Item>) {
    var n := Surviving(g.lost.segments, g.instant.history);
    if 0 <= n <= |g.instant.history| then g.instant.history[..n] else g.instant.history
  }

  lemma CutJoined(front: seq<Line>, back: seq<Line>, n: nat)
    requires |front| <= n <= |front + back|
    ensures (front + back)[0..n] == front + back[..n - |front|]
  {
  }

  lemma CutLines(rank: Digest -> Id, whole: seq<Item>, front: seq<Line>, back: seq<Line>, n: nat)
    requires LinesOf(rank, whole) == front + back && |front| <= n <= |whole|
    ensures n - |front| <= |back| && LinesOf(rank, whole[..n]) == front + back[..n - |front|]
  {
    hide LinesOf, LineOf;
    assert |LinesOf(rank, whole)| == |whole|;
    CutJoined(front, back, n);
    LinesSlice(rank, whole, 0, n);
    assert whole[0..n] == whole[..n];
  }

  lemma KeptIntact(g: Life)
    requires g.instant.Sound() && PowerLoss(g.instant.disk, g.lost)
    ensures g.instant.acked <= |Kept(g)| <= |g.instant.history| && Kept(g) == g.instant.history[..|Kept(g)|]
    ensures Intact(g.lost, Kept(g), g.instant.acked, g.instant.offered)
    ensures forall c :: c in g.lost.checkpoints ==> c.sequence <= |Kept(g)|
  {
    var i := g.instant;
    PowerLossKeepsIntact(i.disk, g.lost, i.history, i.acked, i.offered);
    CheckpointsKept(g.lost, Kept(g), i.acked, i.offered);
    hide Intact, PowerLoss, Surviving;
  }

  lemma KeptLines(w: World, front: seq<Line>, g: Life, owner: map<Id, Id>)
    requires Ran(w, g, owner) && g.instant.Sound() && |front| <= g.instant.acked && PowerLoss(g.instant.disk, g.lost)
    requires LinesOf(w.rank, g.instant.history) == front + AllLines(w, g)
    ensures |front| <= |Kept(g)| && |Kept(g)| - |front| <= |AllLines(w, g)|
    ensures LinesOf(w.rank, Kept(g)) == front + AllLines(w, g)[..|Kept(g)| - |front|]
  {
    KeptIntact(g);
    var kept, all, whole := Kept(g), AllLines(w, g), g.instant.history;
    CutLines(w.rank, whole, front, all, |kept|);
    hide Ran, LinesOf, AllLines, Intact, PowerLoss, Kept, Instant.Sound;
  }

  lemma CheckpointsKept(d: Disk, h: seq<Item>, acked: nat, offered: set<(nat, Image)>)
    requires Intact(d, h, acked, offered) && Journal.Durable(d.segments, h) == |h|
    ensures forall c :: c in d.checkpoints ==> c.sequence <= |h|
  {
    hide Laid, Chained;
  }

  /** A checkpoint that has no more than these lines before it was taken by then. */
  lemma LastTaken(w: World, lines: seq<Line>, owner: map<Id, Id>, g: Life, base: map<Id, Ledger>, k: nat, m: nat)
    requires Opening(w, lines, owner, g, base) && Runs(g.fleet) && AllWellFormed(g.actions)
    requires k <= |g.kept| == |g.points| && SequenceOf(StartAt(g.kept, k)) <= |lines| + m
    ensures Since(g, k) <= |g.actions| && Wrote(w, g, Since(g, k)) <= m
  {
    OpeningRan(w, lines, owner, g, base);
    hide Opening, Runs, AllWellFormed, Ran, LiveAt, Wrote, StartAt, Since;
    if k <= g.earlier {
      OpeningOlds(w, lines, owner, g, base, k);
      AtTheStart(w, g, owner);
    } else {
      OpeningNews(w, lines, owner, g, base, k);
    }
  }

  /** The checkpoints that still read were all taken by the time that the surviving lines had been written. */
  lemma TakenInTime(w: World, lines: seq<Line>, owner: map<Id, Id>, g: Life, base: map<Id, Ledger>, a: seq<Checkpoint>, f: seq<nat>, m: nat)
    returns (e: nat)
    requires Opening(w, lines, owner, g, base) && Picks(a, g.kept, f)
    requires Runs(g.fleet) && AllWellFormed(g.actions) && m <= |AllLines(w, g)|
    requires SequenceOf(StartAt(a, |a|)) <= |lines| + m
    ensures |g.points| == |g.kept| && e <= |g.actions| && Wrote(w, g, e) == m
    ensures forall i :: 0 <= i <= |a| ==> PickedAt(f, i) <= |g.kept| && Since(g, PickedAt(f, i)) <= e
  {
    OpeningRan(w, lines, owner, g, base);
    hide Opening, Runs, AllWellFormed, Ran, LiveAt, Wrote, AllLines, Since, StartAt, PickedAt, PicksTo;
    var k := PickedFrom(a, |a|, g.kept, f, |a|);
    LastTaken(w, lines, owner, g, base, k, m);
    e := ReachLines(w, g, Since(g, k), m);
    forall i | 0 <= i <= |a|
      ensures PickedAt(f, i) <= |g.kept| && Since(g, PickedAt(f, i)) <= e
    {
      var j := PickedFrom(a, |a|, g.kept, f, i);
      SinceGrows(w, lines, owner, g, base, j, k);
    }
  }

  lemma LivedParts(w: World, d: Disk, h: seq<Item>, owner: map<Id, Id>, g: Life) returns (f: seq<nat>)
    requires Lived(w, d, h, owner, g)
    ensures Picks(Readable(g.lost.checkpoints), g.kept, f)
    ensures Ran(w, g, owner) && Runs(g.fleet) && AllWellFormed(g.actions)
    ensures g.instant.Sound() && h <= g.instant.history && |h| <= g.instant.acked && PowerLoss(g.instant.disk, g.lost)
    ensures LinesOf(w.rank, g.instant.history) == LinesOf(w.rank, h) + AllLines(w, g)
  {
    hide Runs, AllWellFormed, MintsOnceAll, InOrder, Resumed, LinesOf, AllLines, Instant.Sound, Readable, PicksTo, Picks, Rebuilt, Recover;
    f := ReadableWorn(g.instant.disk.checkpoints, g.lost.checkpoints);
  }

  lemma CutFacts(w: World, d: Disk, h: seq<Item>, owner: map<Id, Id>, g: Life) returns (f: seq<nat>)
    requires Lived(w, d, h, owner, g)
    ensures Runs(g.fleet) && AllWellFormed(g.actions) && Picks(Readable(g.lost.checkpoints), g.kept, f)
    ensures |h| <= g.instant.acked <= |Kept(g)| && |Kept(g)| - |h| <= |AllLines(w, g)|
    ensures LinesOf(w.rank, Kept(g)) == LinesOf(w.rank, h) + AllLines(w, g)[..|Kept(g)| - |h|]
    ensures exists acked, offered :: Intact(g.lost, Kept(g), acked, offered)
    ensures SequenceOf(LastStart(g.lost)) <= |Kept(g)|
  {
    f := LivedParts(w, d, h, owner, g);
    KeptIntact(g);
    KeptLines(w, LinesOf(w.rank, h), g, owner);
    ReadableMembers(g.lost.checkpoints);
    hide Lived, Runs, AllWellFormed, Ran, AllLines, Instant.Sound, PowerLoss, Kept, LinesOf, Readable, Intact, Picks;
    var a := Readable(g.lost.checkpoints);
    assert a != [] ==> a[|a| - 1] in a;
  }

  /** What a process leaves, of which these lines survive. */
  lemma CutConsistent(w: World, lines: seq<Line>, owner: map<Id, Id>, g: Life, base: map<Id, Ledger>, a: seq<Checkpoint>, f: seq<nat>, m: nat)
    returns (e: nat)
    requires Opening(w, lines, owner, g, base) && Picks(a, g.kept, f)
    requires Runs(g.fleet) && AllWellFormed(g.actions) && m <= |AllLines(w, g)|
    requires SequenceOf(StartAt(a, |a|)) <= |lines| + m
    ensures e <= |g.actions| && Wrote(w, g, e) == m
    ensures Consistent(w, a, lines + AllLines(w, g)[..m], ClaimAll(owner, AllLines(w, g)))
    ensures var x := Point(w, StartAt(a, |a|), lines + AllLines(w, g)[..m]);
            x.Some? && AgreeAll(w.limits, LiveAt(w, g, e), x.value)
  {
    hide Runs, AllWellFormed, Opening, LiveAt, Wrote, AllLines, OwnerAt, Point, AgreeAll, ClaimAll, StartAt, PicksTo, PickedAt, Since, Extends, Consistent;
    e := TakenInTime(w, lines, owner, g, base, a, f, m);
    ConsistentEnd(w, lines, owner, g, base, a, f, e);
    WiderOwner(w, lines, owner, g, base, e);
    ConsistentWider(w, a, lines + AllLines(w, g)[..m], OwnerAt(w, g, owner, e), ClaimAll(owner, AllLines(w, g)));
    LastAgrees(w, lines, owner, g, base, a, f, e);
  }

  /** One process, cut off: the directory again holds a history from which everything that recovery can start
      from rebuilds the same; and what it rebuilds agrees with the accounts as they were after the commands that
      wrote what survives, everything acknowledged among it. */
  lemma CutOff(w: World, d: Disk, h: seq<Item>, owner: map<Id, Id>, g: Life) returns (e: nat)
    requires Stands(w, d, h, owner) && Lived(w, d, h, owner, g)
    ensures Runs(g.fleet) && AllWellFormed(g.actions) && e <= |g.actions| && g.instant.acked <= |h| + Wrote(w, g, e) == |Kept(g)|
    ensures Stands(w, g.lost, Kept(g), ClaimAll(owner, AllLines(w, g)))
    ensures var x := Point(w, LastStart(g.lost), LinesOf(w.rank, Kept(g)));
            x.Some? && AgreeAll(w.limits, LiveAt(w, g, e), x.value)
  {
    hide Lived, Runs, AllWellFormed, Opening, LiveAt, Wrote, AllLines, Kept, LinesOf, Readable, Point, AgreeAll, ClaimAll, StartAt, Intact, Picks, Consistent;
    var f := CutFacts(w, d, h, owner, g);
    var base := Opens(w, d, h, owner, g);
    e := CutConsistent(w, LinesOf(w.rank, h), owner, g, base, Readable(g.lost.checkpoints), f, |Kept(g)| - |h|);
  }

  lemma LastAgrees(w: World, lines: seq<Line>, owner: map<Id, Id>, g: Life, base: map<Id, Ledger>, a: seq<Checkpoint>, f: seq<nat>, e: nat)
    requires Opening(w, lines, owner, g, base) && Picks(a, g.kept, f) && |g.points| == |g.kept| && e <= |g.actions|
    requires forall i :: 0 <= i <= |a| ==> PickedAt(f, i) <= |g.kept| && Since(g, PickedAt(f, i)) <= e
    ensures Runs(g.fleet) && AllWellFormed(g.actions) && Wrote(w, g, e) <= |AllLines(w, g)|
    ensures var x := Point(w, StartAt(a, |a|), lines + AllLines(w, g)[..Wrote(w, g, e)]);
            x.Some? && AgreeAll(w.limits, LiveAt(w, g, e), x.value)
  {
    hide Opening, Runs, AllWellFormed, PicksTo, PickedAt, Since, AllLines, LiveAt, Wrote, AgreeAll, StartAt, Point, OwnerAt, Good;
    var k := PickedFrom(a, |a|, g.kept, f, |a|);
    StartEnds(w, lines, owner, g, base, k, e);
    GoodParts(w, StartAt(g.kept, k), lines + AllLines(w, g)[..Wrote(w, g, e)], OwnerAt(w, g, owner, e));
  }

  const NO_DISK := Disk(Manifest(0, Zero), [], [])

  function DiskAfter(lives: seq<Life>): Disk { if lives == [] then NO_DISK else lives[|lives| - 1].lost }

  function HistoryAfter(lives: seq<Life>): seq<Item> { if lives == [] then [] else Kept(lives[|lives| - 1]) }

  /** Who minted what, over all lives. */
  ghost function OwnersAfter(w: World, lives: seq<Life>): map<Id, Id>
    decreases |lives|
  {
    if lives == [] then map[]
    else
      var g := lives[|lives| - 1];
      var before := OwnersAfter(w, lives[..|lives| - 1]);
      if Runs(g.fleet) && AllWellFormed(g.actions) then ClaimAll(before, AllLines(w, g)) else before
  }

  /** Each process opens what the one before it left. */
  ghost predicate Lives(w: World, lives: seq<Life>)
    decreases |lives|
  {
    lives == [] ||
    (var before := lives[..|lives| - 1];
     Lives(w, before) && Lived(w, DiskAfter(before), HistoryAfter(before), OwnersAfter(w, before), lives[|lives| - 1]))
  }

  /** An installation without a journal: nothing has been minted yet. */
  ghost predicate Unused(w: World) {
    Covers(w.order, w.initial) && forall k :: k in w.initial ==> w.initial[k].starts == map[] && w.initial[k].attempts == map[] && w.initial[k].resolutions == map[]
  }

  lemma UnusedStands(w: World)
    requires Unused(w)
    ensures Stands(w, NO_DISK, [], map[])
  {
    assert Intact(NO_DISK, [], 0, {});
    assert Readable(NO_DISK.checkpoints) == [];
    assert Point(w, None, LinesOf(w.rank, [])) == Some(w.initial);
    assert Ready(w.order, w.initial, map[]);
  }

  /** However many processes there have been, and wherever each was cut off: if the journal recovers, what it
      rebuilds agrees, account by account, with what the last process held after a prefix of its commands, one
      that has written every record that was acknowledged. It does not matter which of the readable checkpoints
      it starts from, nor which process took it. */
  lemma {:induction false} EveryGenerationRecovers(w: World, lives: seq<Life>) returns (e: nat)
    requires Unused(w) && Lives(w, lives)
    ensures Stands(w, DiskAfter(lives), HistoryAfter(lives), OwnersAfter(w, lives))
    ensures lives != [] ==>
              var g, h := lives[|lives| - 1], HistoryAfter(lives[..|lives| - 1]);
              var r := Recover(g.lost, w.bound);
              && Runs(g.fleet) && AllWellFormed(g.actions) && e <= |g.actions| && g.instant.acked <= |h| + Wrote(w, g, e)
              && (r.Healthy? ==>
                    var rebuilt := Rebuilt(w.limits, w.order, w.initial, w.rank, r.checkpoint, r.records);
                    && rebuilt.Some? && AgreeAll(w.limits, LiveAt(w, g, e), rebuilt.value)
                    && r.lastSequence == |h| + Wrote(w, g, e))
    decreases |lives|
  {
    e := 0;
    if lives == [] {
      UnusedStands(w);
    } else {
      hide Lived, Stands, Unused, Runs, AllWellFormed, LiveAt, Wrote, AllLines, Kept, Recover, Rebuilt, AgreeAll, Point, ClaimAll;
      var before, g := lives[..|lives| - 1], lives[|lives| - 1];
      var _ := EveryGenerationRecovers(w, before);
      e := CutOff(w, DiskAfter(before), HistoryAfter(before), OwnersAfter(w, before), g);
      if Recover(g.lost, w.bound).Healthy? {
        RebuiltIsPoint(w, g.lost, Kept(g), OwnersAfter(w, lives));
      }
    }
  }
}
