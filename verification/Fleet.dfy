/** All provider accounts over one journal. A journal line names its account only for some record kinds;
    the others are routed at recovery to the account that knows the attempt. */
module Fleet {
  import opened Common
  import opened LedgerModel
  import opened LedgerReplay

  /** What is written: records about an attempt that already exists do not name its account. */
  datatype Payload = Payload(account: Option<Id>, record: Record)

  /** A payload read back, with the receipt that its position in the journal gives it. */
  datatype Line = Line(account: Option<Id>, entry: Entry)

  /** The account snapshots of a checkpoint, by account. */
  type Image = seq<(Id, Snapshot)>

  predicate NamesAttemptOnly(r: Record) { r.AttemptDispatched? || r.AttemptUncertain? || r.AttemptResolved? }

  function AttemptNamed(r: Record): Id
    requires NamesAttemptOnly(r)
  {
    match r
    case AttemptDispatched(id, _) => id
    case AttemptUncertain(id) => id
    case AttemptResolved(id, _, _) => id
  }

  function LineFor(account: Id, e: Entry): Line {
    Line(if NamesAttemptOnly(e.record) then None else Some(account), e)
  }

  // ---------------------------------------------------------------- recovery of all accounts

  /** The first account, in the order they are kept, that knows the attempt. */
  function FirstKnowing(order: seq<Id>, ledgers: map<Id, Ledger>, attempt: Id): Option<Id> {
    if order == [] then None
    else if order[0] in ledgers && Knows(ledgers[order[0]], attempt) then Some(order[0])
    else FirstKnowing(order[1..], ledgers, attempt)
  }

  function Route(order: seq<Id>, ledgers: map<Id, Ledger>, line: Line): Option<Id> {
    if line.account.Some? then line.account
    else if NamesAttemptOnly(line.entry.record) then FirstKnowing(order, ledgers, AttemptNamed(line.entry.record))
    else None
  }

  /** Replay one line; `None` where the source raises and enters recovery-required. */
  ghost function ApplyLine(order: seq<Id>, ledgers: map<Id, Ledger>, line: Line): Option<map<Id, Ledger>> {
    var k := Route(order, ledgers, line);
    if k.None? || k.value !in ledgers then None
    else
      var next := Apply(ledgers[k.value], line.entry);
      if next.None? then None else Some(ledgers[k.value := next.value])
  }

  ghost function ReplayLines(order: seq<Id>, ledgers: map<Id, Ledger>, lines: seq<Line>): Option<map<Id, Ledger>>
    decreases |lines|
  {
    if lines == [] then Some(ledgers)
    else
      var next := ApplyLine(order, ledgers, lines[0]);
      if next.None? then None else ReplayLines(order, next.value, lines[1..])
  }

  // ---------------------------------------------------------------- checkpoints

  ghost function TakeImage(ledgers: map<Id, Ledger>): Image { Encode(ledgers, l => TakeSnapshot(l)) }

  function RestoreImage(limits: Limits, image: Image): Option<map<Id, Ledger>>
    decreases |image|
  {
    if image == [] then Some(map[])
    else
      var first := Restore(limits, image[0].1);
      var rest := RestoreImage(limits, image[1..]);
      if first.None? || rest.None? then None else Some(rest.value[image[0].0 := first.value])
  }

  ghost predicate Restores(limits: Limits, ledgers: map<Id, Ledger>) {
    forall k :: k in ledgers ==> CircuitsValid(ledgers[k]) && |ledgers[k].resolutions| <= limits.ledger
  }

  lemma RestoreCons(limits: Limits, k: Id, s: Snapshot, later: Image, l: Ledger, ledgers: map<Id, Ledger>)
    requires Restore(limits, s) == Some(l) && RestoreImage(limits, later) == Some(ledgers)
    ensures RestoreImage(limits, [(k, s)] + later) == Some(ledgers[k := l])
  {
    assert ([(k, s)] + later)[1..] == later;
  }

  lemma TakeCons(ledgers: map<Id, Ledger>)
    requires ledgers != map[]
    ensures var k := First(ledgers, (_: Ledger) => 0);
            TakeImage(ledgers) == [(k, TakeSnapshot(ledgers[k]))] + TakeImage(Without(ledgers, k))
  {
  }

  lemma PutBack<V>(m: map<Id, V>, k: Id)
    requires k in m
    ensures Without(m, k)[k := m[k]] == m
  {
  }

  lemma RoundTripStep(limits: Limits, ledgers: map<Id, Ledger>, k: Id)
    requires Restores(limits, ledgers) && k in ledgers && k == First(ledgers, (_: Ledger) => 0)
    requires RestoreImage(limits, TakeImage(Without(ledgers, k))) == Some(Without(ledgers, k))
    ensures RestoreImage(limits, TakeImage(ledgers)) == Some(ledgers)
  {
    TakeCons(ledgers);
    SnapshotRoundTrip(limits, ledgers[k]);
    PutBack(ledgers, k);
    RestoreCons(limits, k, TakeSnapshot(ledgers[k]), TakeImage(Without(ledgers, k)), ledgers[k], Without(ledgers, k));
  }

  lemma EmptyRoundTrip(limits: Limits)
    ensures RestoreImage(limits, TakeImage(map[])) == Some(map[])
  {
  }

  lemma RestoresWithout(limits: Limits, ledgers: map<Id, Ledger>, k: Id)
    requires Restores(limits, ledgers) && k in ledgers
    ensures Restores(limits, Without(ledgers, k))
  {
  }

  /** A checkpoint of all accounts restores exactly the ledgers it was taken from. */
  lemma {:induction false} ImageRoundTrip(limits: Limits, ledgers: map<Id, Ledger>)
    requires Restores(limits, ledgers)
    ensures RestoreImage(limits, TakeImage(ledgers)) == Some(ledgers)
    decreases |ledgers|
  {
    if ledgers == map[] {
      EmptyRoundTrip(limits);
    } else {
      var k := First(ledgers, (_: Ledger) => 0);
      RestoresWithout(limits, ledgers, k);
      ImageRoundTrip(limits, Without(ledgers, k));
      RoundTripStep(limits, ledgers, k);
    }
  }

  // ---------------------------------------------------------------- live runs

  datatype Action = Action(account: Id, command: Command)

  ghost predicate Runs(fleet: map<Id, Runtime>) { forall k :: k in fleet ==> Sound(fleet[k].ledger) }

  /** One command on one account, and what it wrote. A command for an unknown account does nothing. */
  ghost function Act(limits: Limits, fleet: map<Id, Runtime>, a: Action): (map<Id, Runtime>, Option<Line>)
    requires Runs(fleet)
  {
    if a.account !in fleet then (fleet, None)
    else
      var (next, entry) := Step(limits, fleet[a.account], a.command);
      (fleet[a.account := next], if entry.Some? then Some(LineFor(a.account, entry.value)) else None)
  }

  lemma ActRuns(limits: Limits, fleet: map<Id, Runtime>, a: Action)
    requires Runs(fleet) && WellFormed(a.command)
    ensures Runs(Act(limits, fleet, a).0) && Act(limits, fleet, a).0.Keys == fleet.Keys
  {
    if a.account in fleet {
      SoundStep(limits, fleet[a.account], a.command);
    }
  }

  ghost predicate AllWellFormed(actions: seq<Action>) { forall a :: a in actions ==> WellFormed(a.command) }

  function Listed(line: Option<Line>): seq<Line> { if line.Some? then [line.value] else [] }

  ghost function RunAll(limits: Limits, fleet: map<Id, Runtime>, actions: seq<Action>): (map<Id, Runtime>, seq<Line>)
    requires Runs(fleet) && AllWellFormed(actions)
    decreases |actions|
  {
    if actions == [] then (fleet, [])
    else
      ActRuns(limits, fleet, actions[0]);
      var (next, line) := Act(limits, fleet, actions[0]);
      var (last, lines) := RunAll(limits, next, actions[1..]);
      (last, Listed(line) + lines)
  }

  // ---------------------------------------------------------------- agreement

  /** Every account's replayed ledger agrees with its live one. */
  ghost predicate AgreeAll(limits: Limits, fleet: map<Id, Runtime>, ledgers: map<Id, Ledger>) {
    fleet.Keys == ledgers.Keys && forall k :: k in fleet ==> Agree(limits, fleet[k].ledger, ledgers[k])
  }

  /** Every attempt the ledger has seen was minted by account `k`. */
  ghost predicate OwnedBy(l: Ledger, k: Id, owner: map<Id, Id>) {
    forall id :: id in l.starts || id in l.resolutions ==> id in owner && owner[id] == k
  }

  /** Which account minted each attempt. */
  ghost predicate Owned(ledgers: map<Id, Ledger>, owner: map<Id, Id>) {
    forall k :: k in ledgers ==> OwnedBy(ledgers[k], k, owner)
  }

  function Claim(owner: map<Id, Id>, line: Option<Line>): map<Id, Id> {
    if line.Some? && line.value.entry.record.AttemptReserved? && line.value.account.Some?
    then owner[line.value.entry.record.reservation.attempt := line.value.account.value]
    else owner
  }

  /** No attempt identifier is granted twice, on any account. */
  ghost predicate MintsOnceAll(limits: Limits, fleet: map<Id, Runtime>, actions: seq<Action>, owner: map<Id, Id>)
    requires Runs(fleet) && AllWellFormed(actions)
    decreases |actions|
  {
    actions == [] ||
    (ActRuns(limits, fleet, actions[0]);
     var (next, line) := Act(limits, fleet, actions[0]);
     MintsFresh(actions[0].command, owner.Keys) && MintsOnceAll(limits, next, actions[1..], Claim(owner, line)))
  }

  ghost predicate Covers(order: seq<Id>, ledgers: map<Id, Ledger>) { forall k :: k in ledgers ==> k in order }

  /** Because attempts are minted once, the account that knows an attempt is unique, and routing finds it. */
  lemma {:induction false} RouteFinds(order: seq<Id>, ledgers: map<Id, Ledger>, owner: map<Id, Id>, k: Id, attempt: Id)
    requires Owned(ledgers, owner) && k in ledgers && Knows(ledgers[k], attempt) && k in order
    requires forall j :: j in ledgers ==> ledgers[j].attempts.Keys <= ledgers[j].starts.Keys
    ensures FirstKnowing(order, ledgers, attempt) == Some(k)
    decreases |order|
  {
    if order[0] in ledgers && Knows(ledgers[order[0]], attempt) {
      assert OwnedBy(ledgers[k], k, owner) && OwnedBy(ledgers[order[0]], order[0], owner);
    } else {
      RouteFinds(order[1..], ledgers, owner, k, attempt);
    }
  }

  lemma LineRoutes(order: seq<Id>, ledgers: map<Id, Ledger>, owner: map<Id, Id>, k: Id, e: Entry)
    requires Owned(ledgers, owner) && k in ledgers && k in order && Apply(ledgers[k], e).Some?
    requires forall j :: j in ledgers ==> ledgers[j].attempts.Keys <= ledgers[j].starts.Keys
    ensures Route(order, ledgers, LineFor(k, e)) == Some(k)
  {
    if NamesAttemptOnly(e.record) {
      RouteFinds(order, ledgers, owner, k, AttemptNamed(e.record));
    }
  }

  lemma OwnedStep(ledgers: map<Id, Ledger>, owner: map<Id, Id>, k: Id, e: Entry)
    requires Owned(ledgers, owner) && k in ledgers && Apply(ledgers[k], e).Some?
    requires ledgers[k].attempts.Keys <= ledgers[k].starts.Keys
    requires Minted(Some(e)) !! owner.Keys
    ensures Owned(ledgers[k := Apply(ledgers[k], e).value], Claim(owner, Some(LineFor(k, e))))
  {
    var used := set id | id in owner && owner[id] == k;
    ApplyWithinUsed(ledgers[k], e, used);
  }

  /** One action and the replay of what it wrote keep every account in agreement. */
  lemma ActReplays(limits: Limits, order: seq<Id>, fleet: map<Id, Runtime>, a: Action, ledgers: map<Id, Ledger>, owner: map<Id, Id>)
    returns (applied: map<Id, Ledger>)
    requires Runs(fleet) && WellFormed(a.command) && AgreeAll(limits, fleet, ledgers) && Owned(ledgers, owner)
    requires Covers(order, ledgers) && MintsFresh(a.command, owner.Keys)
    ensures var (next, line) := Act(limits, fleet, a);
            && (if line.Some? then ApplyLine(order, ledgers, line.value) == Some(applied) else applied == ledgers)
            && AgreeAll(limits, next, applied) && Owned(applied, Claim(owner, line)) && Covers(order, applied)
  {
    applied := ledgers;
    if a.account in fleet {
      var k := a.account;
      var r, replayed := fleet[k], ledgers[k];
      StepReplays(limits, r, a.command, replayed, owner.Keys);
      var entry := Step(limits, r, a.command).1;
      if entry.Some? {
        AttemptsHaveStarts(limits, fleet, ledgers);
        LineRoutes(order, ledgers, owner, k, entry.value);
        MintedByReserve(limits, r, a.command);
        OwnedStep(ledgers, owner, k, entry.value);
        applied := ledgers[k := Apply(replayed, entry.value).value];
      }
    }
  }

  lemma AttemptsHaveStarts(limits: Limits, fleet: map<Id, Runtime>, ledgers: map<Id, Ledger>)
    requires Runs(fleet) && AgreeAll(limits, fleet, ledgers)
    ensures forall j :: j in ledgers ==> ledgers[j].attempts.Keys <= ledgers[j].starts.Keys
  {
  }

  /** Only a reservation mints an attempt, and it mints the one requested. */
  lemma MintedByReserve(limits: Limits, r: Runtime, c: Command)
    requires Runnable(r.ledger)
    ensures var entry := Step(limits, r, c).1;
            Minted(entry) != {} ==> c.Reserve? && Minted(entry) == {c.request.attempt}
  {
    if c.Reserve? {
      ReserveShape(r.account, limits, r.ledger, c.request, c.status, c.clock, c.append);
    }
  }

  lemma RunCons(limits: Limits, fleet: map<Id, Runtime>, a: Action, rest: seq<Action>)
    requires Runs(fleet) && WellFormed(a.command) && AllWellFormed(rest)
    ensures AllWellFormed([a] + rest) && Runs(Act(limits, fleet, a).0)
    ensures var (next, line) := Act(limits, fleet, a);
            RunAll(limits, fleet, [a] + rest) == (RunAll(limits, next, rest).0, Listed(line) + RunAll(limits, next, rest).1)
  {
    ActRuns(limits, fleet, a);
    assert ([a] + rest)[1..] == rest;
  }

  lemma ReplayListed(order: seq<Id>, ledgers: map<Id, Ledger>, line: Option<Line>, rest: seq<Line>, applied: map<Id, Ledger>)
    requires if line.Some? then ApplyLine(order, ledgers, line.value) == Some(applied) else applied == ledgers
    ensures ReplayLines(order, ledgers, Listed(line) + rest) == ReplayLines(order, applied, rest)
  {
    if line.Some? {
      assert ([line.value] + rest)[1..] == rest;
    } else {
      assert [] + rest == rest;
    }
  }

  /** Replaying the lines of a run, from ledgers that agree with where the run started, gives ledgers
      that agree with where it ended, on every account. */
  lemma {:induction false} RunAllReplays(limits: Limits, order: seq<Id>, fleet: map<Id, Runtime>, actions: seq<Action>,
                                         ledgers: map<Id, Ledger>, owner: map<Id, Id>)
    requires Runs(fleet) && AllWellFormed(actions) && AgreeAll(limits, fleet, ledgers) && Owned(ledgers, owner)
    requires Covers(order, ledgers) && MintsOnceAll(limits, fleet, actions, owner)
    ensures var (last, lines) := RunAll(limits, fleet, actions);
            && ReplayLines(order, ledgers, lines).Some?
            && AgreeAll(limits, last, ReplayLines(order, ledgers, lines).value)
    decreases |actions|
  {
    if actions != [] {
      var a := actions[0];
      ActRuns(limits, fleet, a);
      var next, line := Act(limits, fleet, a).0, Act(limits, fleet, a).1;
      var applied := ActReplays(limits, order, fleet, a, ledgers, owner);
      RunAllReplays(limits, order, next, actions[1..], applied, Claim(owner, line));
      assert actions == [a] + actions[1..];
      RunCons(limits, fleet, a, actions[1..]);
      ReplayListed(order, ledgers, line, RunAll(limits, next, actions[1..]).1, applied);
    }
  }

  /** The live ledgers, without their configuration. */
  ghost predicate LedgersOf(fleet: map<Id, Runtime>, ledgers: map<Id, Ledger>) {
    fleet.Keys == ledgers.Keys && forall k :: k in fleet ==> ledgers[k] == fleet[k].ledger
  }

  /** Recovery of all accounts refines the live fleet: restoring any checkpoint and replaying every line
      written since, routed by who knows the attempt, agrees with the live ledgers account by account. */
  lemma FleetRecoveryRefinesLive(limits: Limits, order: seq<Id>, fleet: map<Id, Runtime>, actions: seq<Action>,
                                 ledgers: map<Id, Ledger>, owner: map<Id, Id>)
    requires Runs(fleet) && AllWellFormed(actions) && LedgersOf(fleet, ledgers) && Restores(limits, ledgers)
    requires Owned(ledgers, owner) && Covers(order, ledgers) && MintsOnceAll(limits, fleet, actions, owner)
    ensures var (last, lines) := RunAll(limits, fleet, actions);
            var restored := RestoreImage(limits, TakeImage(ledgers));
            && restored.Some? && ReplayLines(order, restored.value, lines).Some?
            && AgreeAll(limits, last, ReplayLines(order, restored.value, lines).value)
  {
    ImageRoundTrip(limits, ledgers);
    RunAllReplays(limits, order, fleet, actions, ledgers, owner);
  }
}
