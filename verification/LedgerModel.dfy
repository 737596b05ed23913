/** Values of the provider-account reservation ledger, and what each live transition does to them.
    The class AccountRuntime updates the same fields in place and is proved against these functions. */
module LedgerModel {
  import opened Common

  // ---------------------------------------------------------------- circuits

  datatype CircuitState = Closed | Open | HalfOpen

  datatype CircuitCause = Capacity | TransientFailure | QuotaCause | Manual

  datatype Circuit = Circuit(state: CircuitState, cause: Option<CircuitCause>, epoch: nat,
                             openedAt: nat, retryAt: nat, backoff: nat,
                             evidence: Option<Id>, probe: Option<Id>)
  {
    /** The constraints under which a circuit value can be constructed at all. */
    predicate Valid() {
      var backed := cause.Some? && evidence.Some?;
      && backoff <= 64
      && (state.Closed? ==> !backed && openedAt == 0 && retryAt == 0 && backoff == 0 && probe.None?)
      && (state.Open? ==> backed && openedAt != 0 && retryAt != 0 && probe.None?)
      && (state.HalfOpen? ==> backed && openedAt != 0 && retryAt == 0 && probe.Some?)
    }

    /** The probe token that a send through this circuit would consume. */
    function Token(): Option<Id> {
      if state.HalfOpen? then probe else None
    }
  }

  const CLOSED_CIRCUIT := Circuit(Closed, None, 0, 0, 0, 0, None, None)

  /** What a restart makes of a half-open circuit. */
  function Reopened(c: Circuit, now: nat): Circuit {
    Circuit(Open, c.cause, c.epoch + 1, c.openedAt, now, Min(64, c.backoff + 1), c.evidence, None)
  }

  // ---------------------------------------------------------------- accounts and requests

  datatype Quota = Unknown | AttestedAbsent | Known(value: nat)
  {
    predicate Valid() { Known? ==> value > 0 }
  }

  datatype AccountState = Draft | Active | Disabled | Tombstoned

  datatype Account = Account(id: Id, state: AccountState, parallel: Quota, localCeiling: nat,
                             rpm: Quota, rpmWindowSeconds: nat, tpm: Quota, tpmWindowSeconds: nat,
                             monthly: Quota, quotaPerAttempt: nat, monthlyResetAt: Option<nat>)
  {
    predicate FullyAttested() {
      parallel.Known? && !rpm.Unknown? && !tpm.Unknown? && !monthly.Unknown?
    }

    function EnforcedMaxInFlight(): nat {
      if FullyAttested() then Min(parallel.value, localCeiling) else 1
    }

    function RpmWindow(): nat { rpmWindowSeconds * 1000 }

    function TpmWindow(): nat { tpmWindowSeconds * 1000 }

    predicate Valid() {
      && 1 <= localCeiling <= 128
      && 0 < rpmWindowSeconds <= 3600
      && 0 < tpmWindowSeconds <= 86_400
      && parallel.Valid() && rpm.Valid() && tpm.Valid() && monthly.Valid()
      && !parallel.AttestedAbsent?
      && (monthly.Known? <==> monthlyResetAt.Some?)
      && (!FullyAttested() ==> state.Draft?)
    }

    /** The configured reset instant if it is still ahead, and 0 otherwise. */
    function NextMonthlyReset(now: nat): nat {
      if !monthly.Known? then 0
      else if monthlyResetAt.Some? && monthlyResetAt.value > now then monthlyResetAt.value
      else 0
    }
  }

  datatype Limits = Limits(ledger: nat, retention: nat)

  /** Identity values that a reservation copies through unchanged. */
  datatype Binding = Binding(request: Id, leg: Id, generation: Id, installation: Id,
                             bundleGeneration: nat, bundleHash: Id, fence: nat, boot: Id, profile: Id)

  datatype Request = Request(attempt: Id, account: Id, binding: Binding, deadline: nat,
                             inputTokens: nat, outputTokens: nat, reasoningTokens: nat, quota: nat,
                             accountCircuit: Circuit, circuit: Circuit)
  {
    function Tokens(): nat { inputTokens + outputTokens + reasoningTokens }
  }

  datatype Outcome = Completed | ClientCancelled | DeadlineExceeded | UpstreamFailed | UpstreamUnknown

  datatype Resolution = Resolution(outcome: Outcome, release: bool, actualStarts: Option<nat>,
                                   actualTokens: Option<nat>, actualQuota: Option<nat>)

  datatype Probing = Available | CapacityExhausted | Inconclusive

  // ---------------------------------------------------------------- journal records

  datatype Receipt = Receipt(lsn: nat, digest: Id)

  datatype Reservation = Reservation(attempt: Id, binding: Binding, deadline: nat, startedAt: nat,
                                     tokens: nat, quota: nat, monthlyReset: nat,
                                     circuitEpoch: nat, accountEpoch: nat,
                                     circuitProbe: Option<Id>, accountProbe: Option<Id>)

  datatype Record =
    | AttemptReserved(reservation: Reservation)
    | AttemptDispatched(attempt: Id, at: nat)
    | AttemptUncertain(attempt: Id)
    | AttemptResolved(attempt: Id, resolution: Resolution, at: nat)
    | CircuitUpdated(generation: Option<Id>, value: Circuit)
    | ActiveCountRecorded(count: nat)
    | ProbeStarted(probe: Id)
    | ProbeFinished(probe: Id, probing: Probing)

  datatype Entry = Entry(receipt: Receipt, record: Record)

  // ---------------------------------------------------------------- the ledger

  datatype Start = Start(at: nat, tokens: nat, counted: bool)

  datatype AttemptState = Live | Uncertain

  datatype Attempt = Attempt(binding: Binding, deadline: nat, circuitEpoch: nat, accountEpoch: nat,
                             circuitProbe: Option<Id>, accountProbe: Option<Id>, monthlyReset: nat,
                             startedAt: nat, dispatchedAt: Option<nat>, receipt: Option<Receipt>,
                             tokens: nat, quota: nat, state: AttemptState)

  datatype Dispatch = Dispatch(attempt: Id, request: Id, leg: Id, generation: Id, circuitEpoch: nat,
                               accountEpoch: nat, circuitProbe: Option<Id>, accountProbe: Option<Id>, at: nat)

  /** The digest of a resolution is represented by the resolution it hashes. */
  datatype Resolved = Resolved(digest: Resolution, receipt: Receipt, at: nat, dispatch: Option<Dispatch>)

  datatype Ledger = Ledger(starts: map<Id, Start>, attempts: map<Id, Attempt>,
                           resolutions: map<Id, Resolved>, circuits: map<Id, Circuit>,
                           accountCircuit: Circuit, consumed: map<Id, Id>, monthlyUsed: nat,
                           monthlyReset: nat, highWater: nat, holds: nat, recoveryProbe: Option<Id>)
  {
    function CircuitOf(generation: Id): Circuit {
      if generation in circuits then circuits[generation] else CLOSED_CIRCUIT
    }

    function ActiveCount(): nat { |attempts| + holds }

    /** Attempts whose outcome is still open. */
    function Unresolved(): set<Id> { attempts.Keys - resolutions.Keys }

    predicate AnyLive() { exists id :: id in attempts && attempts[id].state.Live? }

    function UncertainCount(): nat { |UncertainOf(attempts)| + holds }
  }

  function NewLedger(a: Account, clock: nat): Ledger {
    Ledger(map[], map[], map[], map[], CLOSED_CIRCUIT, map[], 0, a.NextMonthlyReset(clock), clock, 0, None)
  }

  function DispatchOf(id: Id, a: Attempt): Option<Dispatch> {
    if a.dispatchedAt.None? then None
    else Some(Dispatch(id, a.binding.request, a.binding.leg, a.binding.generation, a.circuitEpoch,
                       a.accountEpoch, a.circuitProbe, a.accountProbe, a.dispatchedAt.value))
  }

  // ---------------------------------------------------------------- clock, pruning, windows, month

  const KEEP := 86_400_000

  function Now(l: Ledger, clock: nat): nat { Max(l.highWater, clock) }

  function Tick(l: Ledger, clock: nat): Ledger { l.(highWater := Now(l, clock)) }

  function PruneResolutions(l: Ledger, now: nat, retention: nat): Ledger {
    l.(resolutions := l.resolutions - set id | id in l.resolutions && l.resolutions[id].at <= now - retention && id !in l.attempts)
  }

  function PurgeWindows(l: Ledger, now: nat): Ledger {
    l.(starts := l.starts - set id | id in l.starts && l.starts[id].at <= now - KEEP && id !in l.attempts)
  }

  function RollMonthly(l: Ledger, now: nat): Ledger {
    if l.monthlyReset != 0 && now >= l.monthlyReset then l.(monthlyUsed := 0, monthlyReset := 0) else l
  }

  function RpmStarts(starts: map<Id, Start>, now: nat, window: nat): map<Id, Start> {
    starts - set id | id in starts && !(starts[id].counted && starts[id].at > now - window)
  }

  function TpmStarts(starts: map<Id, Start>, now: nat, window: nat): map<Id, Start> {
    starts - set id | id in starts && !(starts[id].at > now - window)
  }

  function StartInstant(s: Start): nat { s.at }

  function StartTokens(s: Start): nat { s.tokens }

  function AttemptInstant(a: Attempt): nat { a.startedAt }

  /** Walk the starts in order, releasing their tokens, until the request fits. `None` means that
      the walk ended without an answer. */
  function RetryScan(order: seq<Id>, starts: map<Id, Start>, total: int, requested: nat, limit: nat, window: nat)
    : Option<nat>
    requires forall id :: id in order ==> id in starts
  {
    if order == [] then None
    else
      var s := starts[order[0]];
      if total - s.tokens + requested <= limit then Some(s.at + window)
      else RetryScan(order[1..], starts, total - s.tokens, requested, limit, window)
  }

  lemma ScanCons(k: Id, later: seq<Id>, starts: map<Id, Start>, total: int, requested: nat, limit: nat, window: nat)
    requires k in starts && forall j :: j in later ==> j in starts
    ensures RetryScan([k] + later, starts, total, requested, limit, window) ==
            if total - starts[k].tokens + requested <= limit then Some(starts[k].at + window)
            else RetryScan(later, starts, total - starts[k].tokens, requested, limit, window)
  {
    assert ([k] + later)[1..] == later;
  }

  ghost function TpmRetryAt(starts: map<Id, Start>, requested: nat, limit: nat, window: nat): Option<nat> {
    RetryScan(Ordered(starts, StartInstant), starts, Total(starts, StartTokens), requested, limit, window)
  }

  // ---------------------------------------------------------------- reservation

  datatype JournalStatus = Healthy | AdmissionStop | RecoveryRequired | JournalClosed

  /** What the journal answers to one append. */
  datatype Append = Appended(receipt: Receipt) | CapacityStop | Failed

  datatype Denial =
    | AccountNotActive | AccountNotFound | AttemptDuplicate | CircuitChanged | CircuitUnavailable
    | DeadlinePassed | InvalidQuotaCharge | JournalCapacityStop | JournalUnavailable
    | MonthlyQuotaExhausted | MonthlyResetUnavailable | ParallelExhausted | NeedsRecovery
    | RpmExhausted | TpmExhausted

  datatype Verdict = Granted(entry: Entry) | Denied(reason: Denial, retryAt: Option<nat>)

  predicate TokenSpent(l: Ledger, c: Circuit) { c.Token().Some? && c.Token().value in l.consumed }

  /** Checks made before any window is consulted. */
  function Screen(a: Account, limits: Limits, l: Ledger, q: Request, now: nat): Option<Verdict> {
    var current := l.CircuitOf(q.binding.generation);
    if |l.resolutions| + |l.Unresolved()| >= limits.ledger then Some(Denied(JournalCapacityStop, None))
    else if q.quota < a.quotaPerAttempt then Some(Denied(InvalidQuotaCharge, None))
    else if q.deadline <= now then Some(Denied(DeadlinePassed, None))
    else if q.attempt in l.attempts || q.attempt in l.starts || q.attempt in l.resolutions then
      Some(Denied(AttemptDuplicate, None))
    else if l.accountCircuit != q.accountCircuit then Some(Denied(CircuitChanged, None))
    else if l.accountCircuit.state.Open? then Some(Denied(CircuitUnavailable, Some(l.accountCircuit.retryAt)))
    else if current != q.circuit then Some(Denied(CircuitChanged, None))
    else if current.state.Open? then Some(Denied(CircuitUnavailable, Some(current.retryAt)))
    else if TokenSpent(l, l.accountCircuit) || TokenSpent(l, current) then Some(Denied(CircuitUnavailable, None))
    else None
  }

  /** The rolling rate. A limit of zero cannot be configured, so a full window has a first start. */
  ghost function RateScreen(a: Account, starts: map<Id, Start>, now: nat): Option<Verdict> {
    var inside := RpmStarts(starts, now, a.RpmWindow());
    if !a.rpm.Known? || |inside| < a.rpm.value then None
    else Some(Denied(RpmExhausted, if inside == map[] then None else Some(inside[First(inside, StartInstant)].at + a.RpmWindow())))
  }

  /** The rolling token count. */
  ghost function TokenScreen(a: Account, starts: map<Id, Start>, tokens: nat, now: nat): Option<Verdict> {
    var inside := TpmStarts(starts, now, a.TpmWindow());
    if !a.tpm.Known? then None
    else if tokens > a.tpm.value then Some(Denied(TpmExhausted, None))
    else if Total(inside, StartTokens) + tokens > a.tpm.value then
      Some(Denied(TpmExhausted, TpmRetryAt(inside, tokens, a.tpm.value, a.TpmWindow())))
    else None
  }

  /** Checks of the four capacity dimensions. */
  ghost function CapacityScreen(a: Account, l: Ledger, q: Request, now: nat): Option<Verdict> {
    if a.monthly.Known? && q.quota > 0 && l.monthlyReset == 0 then Some(Denied(MonthlyResetUnavailable, None))
    else if l.ActiveCount() >= a.EnforcedMaxInFlight() then Some(Denied(ParallelExhausted, None))
    else if RateScreen(a, l.starts, now).Some? then RateScreen(a, l.starts, now)
    else if TokenScreen(a, l.starts, q.Tokens(), now).Some? then TokenScreen(a, l.starts, q.Tokens(), now)
    else if a.monthly.Known? && l.monthlyUsed + q.quota > a.monthly.value then
      Some(Denied(MonthlyQuotaExhausted, Some(l.monthlyReset)))
    else None
  }

  /** The durable form of a reservation. */
  function Durable(l: Ledger, q: Request, now: nat): Reservation {
    Reservation(q.attempt, q.binding, q.deadline, now, q.Tokens(), q.quota, l.monthlyReset,
                q.circuit.epoch, q.accountCircuit.epoch, q.circuit.probe, l.accountCircuit.Token())
  }

  function Consume(consumed: map<Id, Id>, token: Option<Id>, attempt: Id): map<Id, Id> {
    if token.Some? then consumed[token.value := attempt] else consumed
  }

  function Grant(l: Ledger, q: Request, now: nat): Ledger {
    l.(consumed := Consume(Consume(l.consumed, l.accountCircuit.Token(), q.attempt),
                           l.CircuitOf(q.binding.generation).Token(), q.attempt),
       starts := l.starts[q.attempt := Start(now, q.Tokens(), true)],
       attempts := l.attempts[q.attempt :=
         Attempt(q.binding, q.deadline, q.circuit.epoch, q.accountCircuit.epoch, q.circuit.probe,
                 l.accountCircuit.Token(), l.monthlyReset, now, None, None, q.Tokens(), q.quota, Live)],
       monthlyUsed := l.monthlyUsed + q.quota)
  }

  /** The ledger that the capacity checks see, once the clock has been read. */
  function Settled(l: Ledger, limits: Limits, clock: nat): Ledger {
    var now := Now(l, clock);
    RollMonthly(PurgeWindows(PruneResolutions(Tick(l, clock), now, limits.retention), now), now)
  }

  /** The capacity checks and the append, on a settled ledger. */
  ghost function Admit(a: Account, l: Ledger, q: Request, now: nat, append: Append): (Ledger, Verdict) {
    var late := CapacityScreen(a, l, q, now);
    if late.Some? then (l, late.value)
    else match append
      case CapacityStop => (l, Denied(JournalCapacityStop, None))
      case Failed => (l, Denied(JournalUnavailable, None))
      case Appended(receipt) => (Grant(l, q, now), Granted(Entry(receipt, AttemptReserved(Durable(l, q, now)))))
  }

  ghost function TryReserve(a: Account, limits: Limits, l: Ledger, q: Request, status: JournalStatus,
                            clock: nat, append: Append): (Ledger, Verdict)
  {
    if status.RecoveryRequired? then (l, Denied(NeedsRecovery, None))
    else if status.AdmissionStop? then (l, Denied(JournalCapacityStop, None))
    else if q.account != a.id then (l, Denied(AccountNotFound, None))
    else if l.recoveryProbe.Some? then (l, Denied(NeedsRecovery, None))
    else if !a.state.Active? then (l, Denied(AccountNotActive, None))
    else
      var now := Now(l, clock);
      var pruned := PruneResolutions(Tick(l, clock), now, limits.retention);
      var early := Screen(a, limits, pruned, q, now);
      if early.Some? then (pruned, early.value) else Admit(a, Settled(l, limits, clock), q, now, append)
  }

  // ---------------------------------------------------------------- the other transitions

  /** What a transition leaves behind: the ledger, and the record it appended if it did. `ok` is
      false where the source raises or answers false. */
  datatype Change = Change(ledger: Ledger, entry: Option<Entry>, ok: bool)

  function MarkDispatched(l: Ledger, id: Id, clock: nat, append: Append): Change {
    if id !in l.attempts || id in l.resolutions then Change(l, None, false)
    else if l.attempts[id].receipt.Some? then Change(l, None, true)
    else
      var now := Now(l, clock);
      var ticked := Tick(l, clock);
      if now >= l.attempts[id].deadline then Change(ticked, None, false)
      else if !append.Appended? then Change(ticked, None, false)
      else
        Change(ticked.(attempts := l.attempts[id := l.attempts[id].(dispatchedAt := Some(now), receipt := Some(append.receipt))]),
               Some(Entry(append.receipt, AttemptDispatched(id, now))), true)
  }

  function Settle(s: Start, resolution: Resolution): Start {
    Start(s.at, if resolution.actualTokens.Some? then resolution.actualTokens.value else s.tokens,
          s.counted && resolution.actualStarts != Some(0))
  }

  function ExceedsReservation(a: Attempt, resolution: Resolution): bool {
    || (resolution.actualTokens.Some? && resolution.actualTokens.value > a.tokens)
    || (resolution.actualQuota.Some? && resolution.actualQuota.value > a.quota)
  }

  function CloseAttempt(attempts: map<Id, Attempt>, id: Id, release: bool): map<Id, Attempt>
    requires id in attempts
  {
    if release then Without(attempts, id) else attempts[id := attempts[id].(state := Uncertain)]
  }

  function Finish(l: Ledger, id: Id, resolution: Resolution, clock: nat, append: Append): Change
    requires id in l.attempts ==> id in l.starts
  {
    if id in l.resolutions then Change(l, None, l.resolutions[id].digest == resolution)
    else if id !in l.attempts then Change(l, None, false)
    else if ExceedsReservation(l.attempts[id], resolution) then Change(l, None, false)
    else
      var now := Now(l, clock);
      var ticked := Tick(l, clock);
      if !append.Appended? then Change(ticked, None, false)
      else
        var attempt := l.attempts[id];
        var refund := resolution.actualQuota.Some? && attempt.monthlyReset == l.monthlyReset;
        Change(
          ticked.(starts := l.starts[id := Settle(l.starts[id], resolution)],
                  monthlyUsed := if refund then Max(0, l.monthlyUsed + resolution.actualQuota.value - attempt.quota)
                                 else l.monthlyUsed,
                  attempts := CloseAttempt(l.attempts, id, resolution.release),
                  resolutions := l.resolutions[id := Resolved(resolution, append.receipt, now, DispatchOf(id, attempt))]),
          Some(Entry(append.receipt, AttemptResolved(id, resolution, now))), true)
  }

  function Forget(consumed: map<Id, Id>, probe: Option<Id>): map<Id, Id> {
    if probe.Some? then consumed - {probe.value} else consumed
  }

  /** Compare and swap one circuit: a deployment generation's, or the account's own. An epoch may
      not go back, and replacing a circuit by itself appends nothing. */
  function SwapCircuit(l: Ledger, generation: Option<Id>, expected: Circuit, replacement: Circuit, append: Append): Change {
    var current := if generation.Some? then l.CircuitOf(generation.value) else l.accountCircuit;
    if current != expected then Change(l, None, false)
    else if replacement.epoch < expected.epoch then Change(l, None, false)
    else if replacement == expected then Change(l, None, true)
    else if !append.Appended? then Change(l, None, false)
    else
      var freed := l.(consumed := Forget(l.consumed, expected.probe));
      Change(if generation.Some? then freed.(circuits := l.circuits[generation.value := replacement])
             else freed.(accountCircuit := replacement),
             Some(Entry(append.receipt, CircuitUpdated(generation, replacement))), true)
  }

  function Restrict(attempts: map<Id, Attempt>, keep: seq<Id>): map<Id, Attempt> {
    attempts - set id | id in attempts && id !in keep
  }

  /** The oldest attempts, up to the authoritative count. */
  ghost function OldestAttempts(attempts: map<Id, Attempt>, count: nat): (kept: map<Id, Attempt>)
    ensures kept.Keys <= attempts.Keys && forall id :: id in kept ==> kept[id] == attempts[id]
  {
    Restrict(attempts, Ordered(attempts, AttemptInstant)[..Min(count, |attempts|)])
  }

  /** Keep the oldest attempts up to the authoritative count; count the rest of it as holds. */
  ghost function ApplyActiveCount(l: Ledger, count: nat): Ledger {
    l.(attempts := OldestAttempts(l.attempts, count), holds := Max(0, count - Min(count, |l.attempts|)))
  }

  ghost function SetActiveCount(l: Ledger, count: nat, append: Append): Change {
    if l.AnyLive() then Change(l, None, false)
    else if !append.Appended? then Change(l, None, false)
    else Change(ApplyActiveCount(l, count), Some(Entry(append.receipt, ActiveCountRecorded(count))), true)
  }

  function BeginProbe(l: Ledger, probe: Id, append: Append): Change {
    if l.recoveryProbe.Some? || l.UncertainCount() == 0 || l.AnyLive() then Change(l, None, false)
    else if !append.Appended? then Change(l, None, false)
    else Change(l.(recoveryProbe := Some(probe)), Some(Entry(append.receipt, ProbeStarted(probe))), true)
  }

  function UncertainOf(attempts: map<Id, Attempt>): map<Id, Attempt> {
    attempts - set id | id in attempts && !attempts[id].state.Uncertain?
  }

  ghost function WithoutOldestUncertain(attempts: map<Id, Attempt>): (left: map<Id, Attempt>)
    ensures left.Keys <= attempts.Keys && forall id :: id in left ==> left[id] == attempts[id]
  {
    var uncertain := UncertainOf(attempts);
    if uncertain == map[] then attempts else Without(attempts, First(uncertain, AttemptInstant))
  }

  /** An AVAILABLE probe gives back one slot: an external hold first, then the oldest uncertain attempt. */
  ghost function ApplyProbeFinished(l: Ledger, probing: Probing): Ledger {
    l.(attempts := if probing.Available? && l.holds == 0 then WithoutOldestUncertain(l.attempts) else l.attempts,
       holds := if probing.Available? && l.holds > 0 then l.holds - 1 else l.holds,
       recoveryProbe := None)
  }

  ghost function FinishProbe(l: Ledger, probe: Id, probing: Probing, append: Append): Change {
    if l.recoveryProbe != Some(probe) || l.AnyLive() then Change(l, None, false)
    else if !append.Appended? then Change(l, None, false)
    else Change(ApplyProbeFinished(l, probing), Some(Entry(append.receipt, ProbeFinished(probe, probing))), true)
  }

  /** A restart marks an attempt that was still live as uncertain. */
  function MarkUncertain(l: Ledger, id: Id, append: Append): Change {
    if id !in l.attempts || !l.attempts[id].state.Live? || !append.Appended? then Change(l, None, false)
    else Change(l.(attempts := l.attempts[id := l.attempts[id].(state := Uncertain)]),
                Some(Entry(append.receipt, AttemptUncertain(id))), true)
  }

  /** A publication replaces the account; a later reset instant extends the month in place. */
  function Publish(l: Ledger, a: Account, clock: nat): Ledger {
    var now := Now(l, clock);
    var rolled := RollMonthly(Tick(l, clock), now);
    var candidate := a.NextMonthlyReset(now);
    if rolled.monthlyReset == 0 || candidate > rolled.monthlyReset then rolled.(monthlyReset := candidate) else rolled
  }

  function ReadCapacity(l: Ledger, clock: nat): Ledger {
    var now := Now(l, clock);
    RollMonthly(PurgeWindows(Tick(l, clock), now), now)
  }

  // ---------------------------------------------------------------- runs

  datatype Command =
    | Reserve(request: Request, status: JournalStatus, clock: nat, append: Append)
    | Dispatching(attempt: Id, clock: nat, append: Append)
    | Finishing(attempt: Id, resolution: Resolution, clock: nat, append: Append)
    | Swapping(generation: Option<Id>, expected: Circuit, replacement: Circuit, append: Append)
    | Counting(count: nat, append: Append)
    | ProbeBegins(probe: Id, append: Append)
    | ProbeEnds(probe: Id, probing: Probing, append: Append)
    | Marking(attempt: Id, append: Append)
    | Publishing(account: Account, clock: nat)
    | Reading(clock: nat)

  /** A running account: its configuration and its ledger. */
  datatype Runtime = Runtime(account: Account, ledger: Ledger)

  ghost predicate Runnable(l: Ledger) { l.attempts.Keys <= l.starts.Keys }

  ghost function Step(limits: Limits, r: Runtime, c: Command): (Runtime, Option<Entry>)
    requires Runnable(r.ledger)
  {
    var l := r.ledger;
    match c
    case Reserve(q, status, clock, append) =>
      var (after, verdict) := TryReserve(r.account, limits, l, q, status, clock, append);
      (r.(ledger := after), if verdict.Granted? then Some(verdict.entry) else None)
    case Dispatching(id, clock, append) => Changed(r, MarkDispatched(l, id, clock, append))
    case Finishing(id, resolution, clock, append) => Changed(r, Finish(l, id, resolution, clock, append))
    case Swapping(generation, expected, replacement, append) =>
      Changed(r, SwapCircuit(l, generation, expected, replacement, append))
    case Counting(count, append) => Changed(r, SetActiveCount(l, count, append))
    case ProbeBegins(probe, append) => Changed(r, BeginProbe(l, probe, append))
    case ProbeEnds(probe, probing, append) => Changed(r, FinishProbe(l, probe, probing, append))
    case Marking(id, append) => Changed(r, MarkUncertain(l, id, append))
    case Publishing(account, clock) => (Runtime(account, Publish(l, account, clock)), None)
    case Reading(clock) => (r.(ledger := ReadCapacity(l, clock)), None)
  }

  function Changed(r: Runtime, change: Change): (Runtime, Option<Entry>) {
    (r.(ledger := change.ledger), change.entry)
  }
}
