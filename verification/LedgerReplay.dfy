/** Recovery: the snapshot of a ledger, the replay of journal records onto it, and the theorem that
    replaying what a live run appended rebuilds what the run left in memory. */
module LedgerReplay {
  import opened Common
  import opened LedgerModel

  // ---------------------------------------------------------------- replay

  /** The record kinds that name only an attempt belong to the account that knows the attempt. */
  predicate Knows(l: Ledger, attempt: Id) { attempt in l.attempts || attempt in l.resolutions }

  function ApplyReserved(l: Ledger, v: Reservation): Ledger {
    var month := if l.monthlyReset != v.monthlyReset then l.(monthlyReset := v.monthlyReset, monthlyUsed := 0) else l;
    month.(starts := l.starts[v.attempt := Start(v.startedAt, v.tokens, true)],
           attempts := l.attempts[v.attempt :=
             Attempt(v.binding, v.deadline, v.circuitEpoch, v.accountEpoch, v.circuitProbe, v.accountProbe,
                     v.monthlyReset, v.startedAt, None, None, v.tokens, v.quota, Live)],
           consumed := Consume(Consume(l.consumed, v.accountProbe, v.attempt), v.circuitProbe, v.attempt),
           monthlyUsed := month.monthlyUsed + v.quota)
  }

  function ApplyDispatched(l: Ledger, receipt: Receipt, id: Id, at: nat): Option<Ledger> {
    if id !in l.attempts then None
    else if l.attempts[id].receipt.Some? then
      if l.attempts[id].dispatchedAt != Some(at) || l.attempts[id].receipt != Some(receipt) then None else Some(l)
    else Some(l.(attempts := l.attempts[id := l.attempts[id].(dispatchedAt := Some(at), receipt := Some(receipt))]))
  }

  function ApplyResolved(l: Ledger, receipt: Receipt, id: Id, resolution: Resolution, at: nat): Option<Ledger> {
    if id in l.resolutions then if l.resolutions[id].digest != resolution then None else Some(l)
    else if id !in l.attempts || id !in l.starts then None
    else
      var attempt := l.attempts[id];
      if ExceedsReservation(attempt, resolution) then None
      else
        Some(l.(starts := l.starts[id := Settle(l.starts[id], resolution)],
                monthlyUsed := if resolution.actualQuota.Some?
                               then Max(0, l.monthlyUsed + resolution.actualQuota.value - attempt.quota)
                               else l.monthlyUsed,
                attempts := CloseAttempt(l.attempts, id, resolution.release),
                resolutions := l.resolutions[id := Resolved(resolution, receipt, at, DispatchOf(id, attempt))]))
  }

  function ApplyUncertain(l: Ledger, id: Id): Ledger {
    if id in l.attempts then l.(attempts := l.attempts[id := l.attempts[id].(state := Uncertain)]) else l
  }

  function ApplyCircuit(l: Ledger, generation: Option<Id>, value: Circuit): Option<Ledger> {
    if !value.Valid() then None
    else if generation.None? then
      Some(l.(consumed := Forget(l.consumed, l.accountCircuit.probe), accountCircuit := value))
    else
      var previous := if generation.value in l.circuits then l.circuits[generation.value].probe else None;
      Some(l.(consumed := Forget(l.consumed, previous), circuits := l.circuits[generation.value := value]))
  }

  /** Replay one record; `None` where the source raises and enters recovery-required. */
  ghost function Apply(l: Ledger, e: Entry): Option<Ledger> {
    match e.record
    case AttemptReserved(v) => Some(ApplyReserved(l, v))
    case AttemptDispatched(id, at) => if !Knows(l, id) then None else ApplyDispatched(l, e.receipt, id, at)
    case AttemptResolved(id, resolution, at) =>
      if !Knows(l, id) then None else ApplyResolved(l, e.receipt, id, resolution, at)
    case AttemptUncertain(id) => if !Knows(l, id) then None else Some(ApplyUncertain(l, id))
    case CircuitUpdated(generation, value) => ApplyCircuit(l, generation, value)
    case ActiveCountRecorded(count) => if l.AnyLive() then None else Some(ApplyActiveCount(l, count))
    case ProbeStarted(probe) => Some(l.(recoveryProbe := Some(probe)))
    case ProbeFinished(_, probing) => Some(ApplyProbeFinished(l, probing))
  }

  ghost function Replay(l: Ledger, log: seq<Entry>): Option<Ledger>
    decreases |log|
  {
    if log == [] then Some(l)
    else
      var next := Apply(l, log[0]);
      if next.None? then None else Replay(next.value, log[1..])
  }

  // ---------------------------------------------------------------- snapshots

  /** A snapshot writes every map as an object with sorted keys, and a receipt as two nullable fields. */
  datatype AttemptImage = AttemptImage(attempt: Attempt, dispatchLsn: Option<nat>, dispatchDigest: Option<Id>)

  datatype ResolvedImage = ResolvedImage(digest: Resolution, lsn: nat, recordDigest: Id, at: nat, dispatch: Option<Dispatch>)

  datatype StartImage = StartImage(at: nat, tokens: nat, counted: bool)

  datatype Snapshot = Snapshot(starts: seq<(Id, StartImage)>, attempts: seq<(Id, AttemptImage)>,
                               resolutions: seq<(Id, ResolvedImage)>, consumed: seq<(Id, Id)>, highWater: nat,
                               monthlyUsed: nat, monthlyReset: nat, holds: nat, recoveryProbe: Option<Id>,
                               accountCircuit: Circuit, circuits: seq<(Id, Circuit)>)

  function ImageOfStart(s: Start): StartImage { StartImage(s.at, s.tokens, s.counted) }

  function StartOf(i: StartImage): Start { Start(i.at, i.tokens, i.counted) }

  function ImageOfAttempt(a: Attempt): AttemptImage {
    AttemptImage(a.(receipt := None),
                 if a.receipt.None? then None else Some(a.receipt.value.lsn),
                 if a.receipt.None? then None else Some(a.receipt.value.digest))
  }

  function AttemptOf(i: AttemptImage): Attempt {
    i.attempt.(receipt := if i.dispatchLsn.Some? && i.dispatchDigest.Some?
                          then Some(Receipt(i.dispatchLsn.value, i.dispatchDigest.value)) else None)
  }

  function ImageOfResolved(r: Resolved): ResolvedImage {
    ResolvedImage(r.digest, r.receipt.lsn, r.receipt.digest, r.at, r.dispatch)
  }

  function ResolvedOf(i: ResolvedImage): Resolved {
    Resolved(i.digest, Receipt(i.lsn, i.recordDigest), i.at, i.dispatch)
  }

  function Same<T>(x: T): T { x }

  ghost function TakeSnapshot(l: Ledger): Snapshot {
    Snapshot(Encode(l.starts, ImageOfStart), Encode(l.attempts, ImageOfAttempt),
             Encode(l.resolutions, ImageOfResolved), Encode(l.consumed, Same), l.highWater,
             l.monthlyUsed, l.monthlyReset, l.holds, l.recoveryProbe, l.accountCircuit, Encode(l.circuits, Same))
  }

  predicate ReceiptWhole(i: AttemptImage) { i.dispatchLsn.Some? ==> i.dispatchDigest.Some? }

  predicate CircuitWhole(c: Circuit) { c.Valid() }

  /** A snapshot is refused when it holds too many resolutions, a receipt without a digest, or a
      circuit value that could not have been constructed. */
  predicate Restorable(limits: Limits, s: Snapshot) {
    && |s.resolutions| <= limits.ledger
    && (forall i :: 0 <= i < |s.attempts| ==> ReceiptWhole(s.attempts[i].1))
    && s.accountCircuit.Valid()
    && (forall i :: 0 <= i < |s.circuits| ==> CircuitWhole(s.circuits[i].1))
  }

  function Restore(limits: Limits, s: Snapshot): Option<Ledger> {
    if !Restorable(limits, s) then None
    else Some(Ledger(Decode(s.starts, StartOf), Decode(s.attempts, AttemptOf), Decode(s.resolutions, ResolvedOf),
                     Decode(s.circuits, Same), s.accountCircuit, Decode(s.consumed, Same), s.monthlyUsed,
                     s.monthlyReset, s.highWater, s.holds, s.recoveryProbe))
  }

  ghost predicate CircuitsValid(l: Ledger) {
    l.accountCircuit.Valid() && forall g :: g in l.circuits ==> l.circuits[g].Valid()
  }

  lemma SnapshotDecodes(l: Ledger)
    ensures var s := TakeSnapshot(l);
            && Decode(s.starts, StartOf) == l.starts && Decode(s.attempts, AttemptOf) == l.attempts
            && Decode(s.resolutions, ResolvedOf) == l.resolutions
            && Decode(s.circuits, Same) == l.circuits && Decode(s.consumed, Same) == l.consumed
  {
    DecodeEncode(l.starts, ImageOfStart, StartOf);
    DecodeEncode(l.attempts, ImageOfAttempt, AttemptOf);
    DecodeEncode(l.resolutions, ImageOfResolved, ResolvedOf);
    DecodeEncode(l.circuits, Same, Same);
    DecodeEncode(l.consumed, Same, Same);
  }

  lemma SnapshotRestorable(limits: Limits, l: Ledger)
    requires CircuitsValid(l)
    ensures Restorable(limits, TakeSnapshot(l)) <==> |l.resolutions| <= limits.ledger
  {
    EncodeAll(l.attempts, ImageOfAttempt, ReceiptWhole);
    EncodeAll(l.circuits, Same, CircuitWhole);
  }

  /** A snapshot restores exactly the ledger it was taken from, and it restores if and only if the
      resolution ledger is within its bound (circuit values are valid by construction). */
  lemma SnapshotRoundTrip(limits: Limits, l: Ledger)
    requires CircuitsValid(l)
    ensures Restore(limits, TakeSnapshot(l)) == if |l.resolutions| <= limits.ledger then Some(l) else None
  {
    SnapshotRestorable(limits, l);
    SnapshotDecodes(l);
  }

  // ---------------------------------------------------------------- what replay preserves

  /** What every reachable live ledger satisfies and recovery relies on. */
  ghost predicate Sound(l: Ledger) {
    && l.attempts.Keys <= l.starts.Keys
    && CircuitsValid(l)
  }

  /** The replayed ledger equals the live one, except that it still holds starts and resolutions
      that live pruning has dropped, and it does not rebuild the clock. The month is dealt with
      separately. */
  ghost predicate Agree(limits: Limits, live: Ledger, replayed: Ledger) {
    && replayed.attempts == live.attempts
    && replayed.circuits == live.circuits
    && replayed.accountCircuit == live.accountCircuit
    && replayed.consumed == live.consumed
    && replayed.holds == live.holds
    && replayed.recoveryProbe == live.recoveryProbe
    && (forall id :: id in live.starts ==> id in replayed.starts && replayed.starts[id] == live.starts[id])
    && (forall id :: id in replayed.starts && id !in live.starts ==>
          id !in live.attempts && replayed.starts[id].at <= live.highWater - KEEP)
    && (forall id :: id in live.resolutions ==> id in replayed.resolutions && replayed.resolutions[id] == live.resolutions[id])
    && (forall id :: id in replayed.resolutions && id !in live.resolutions ==>
          id !in live.attempts && replayed.resolutions[id].at <= live.highWater - limits.retention)
  }

  /** An attempt identifier is minted once: a reservation never reuses one that was ever granted. */
  ghost predicate MintsFresh(c: Command, used: set<Id>) {
    c.Reserve? ==> c.request.attempt !in used
  }

  /** Circuit values offered to the swap methods can be constructed. */
  ghost predicate WellFormed(c: Command) {
    && (c.Swapping? ==> c.replacement.Valid())
    && (c.Publishing? ==> c.account.Valid())
  }

  function Minted(e: Option<Entry>): set<Id> {
    if e.Some? && e.value.record.AttemptReserved? then {e.value.record.reservation.attempt} else {}
  }

  ghost predicate WithinUsed(l: Ledger, used: set<Id>) { l.starts.Keys + l.resolutions.Keys <= used }

  lemma PruningIsSound(limits: Limits, l: Ledger, clock: nat)
    requires Sound(l)
    ensures Sound(PruneResolutions(Tick(l, clock), Now(l, clock), limits.retention))
    ensures Sound(Settled(l, limits, clock)) && Sound(ReadCapacity(l, clock))
  {
    var purged := PurgeWindows(Tick(l, clock), Now(l, clock));
    assert forall id :: id in l.attempts ==> id in purged.starts;
  }

  lemma AdmitShape(a: Account, l: Ledger, q: Request, now: nat, append: Append)
    ensures var (after, verdict) := Admit(a, l, q, now, append);
            if verdict.Denied? then after == l
            else
              && append.Appended? && CapacityScreen(a, l, q, now).None?
              && verdict.entry == Entry(append.receipt, AttemptReserved(Durable(l, q, now)))
              && after == Grant(l, q, now)
  {
    var late := CapacityScreen(a, l, q, now);
    if late.Some? {
      assert late.value.Denied?;
    }
  }

  lemma ScreenDenies(a: Account, limits: Limits, l: Ledger, q: Request, now: nat)
    ensures Screen(a, limits, l, q, now).Some? ==> Screen(a, limits, l, q, now).value.Denied?
  {
  }

  /** A reservation leaves the ledger alone, or as pruning left it, or with the grant recorded. */
  lemma ReserveShape(a: Account, limits: Limits, l: Ledger, q: Request, status: JournalStatus, clock: nat, append: Append)
    ensures var (after, verdict) := TryReserve(a, limits, l, q, status, clock, append);
            var pruned := PruneResolutions(Tick(l, clock), Now(l, clock), limits.retention);
            var settled := Settled(l, limits, clock);
            if verdict.Denied? then after == l || after == pruned || after == settled
            else
              && append.Appended?
              && Screen(a, limits, pruned, q, Now(l, clock)).None?
              && CapacityScreen(a, settled, q, Now(l, clock)).None?
              && verdict.entry == Entry(append.receipt, AttemptReserved(Durable(settled, q, Now(l, clock))))
              && after == Grant(settled, q, Now(l, clock))
  {
    ScreenDenies(a, limits, PruneResolutions(Tick(l, clock), Now(l, clock), limits.retention), q, Now(l, clock));
    AdmitShape(a, Settled(l, limits, clock), q, Now(l, clock), append);
  }

  lemma ReserveIsSound(a: Account, limits: Limits, l: Ledger, q: Request, status: JournalStatus, clock: nat, append: Append)
    requires Sound(l)
    ensures Sound(TryReserve(a, limits, l, q, status, clock, append).0)
  {
    PruningIsSound(limits, l, clock);
    ReserveShape(a, limits, l, q, status, clock, append);
    GrantIsSound(Settled(l, limits, clock), q, Now(l, clock));
  }

  lemma GrantIsSound(l: Ledger, q: Request, now: nat)
    requires Sound(l)
    ensures Sound(Grant(l, q, now))
  {
  }

  lemma FinishIsSound(l: Ledger, id: Id, resolution: Resolution, clock: nat, append: Append)
    requires Sound(l)
    ensures Sound(Finish(l, id, resolution, clock, append).ledger)
  {
  }

  lemma SwapIsSound(l: Ledger, generation: Option<Id>, expected: Circuit, replacement: Circuit, append: Append)
    requires Sound(l) && replacement.Valid()
    ensures Sound(SwapCircuit(l, generation, expected, replacement, append).ledger)
  {
  }

  /** Every live step keeps every attempt's start entry and only constructible circuit values. */
  lemma SoundStep(limits: Limits, r: Runtime, c: Command)
    requires Sound(r.ledger) && WellFormed(c)
    ensures Sound(Step(limits, r, c).0.ledger)
  {
    match c
    case Reserve(q, status, clock, append) => ReserveIsSound(r.account, limits, r.ledger, q, status, clock, append);
    case Finishing(id, resolution, clock, append) => FinishIsSound(r.ledger, id, resolution, clock, append);
    case Swapping(g, expected, replacement, append) => SwapIsSound(r.ledger, g, expected, replacement, append);
    case Reading(clock) => PruningIsSound(limits, r.ledger, clock);
    case _ =>
  }

  lemma PruneKeepsAgreement(limits: Limits, l: Ledger, clock: nat, replayed: Ledger)
    requires Sound(l) && Agree(limits, l, replayed)
    ensures Agree(limits, PruneResolutions(Tick(l, clock), Now(l, clock), limits.retention), replayed)
    ensures Agree(limits, Tick(l, clock), replayed)
  {
  }

  lemma PurgeKeepsAgreement(limits: Limits, l: Ledger, replayed: Ledger)
    requires Sound(l) && Agree(limits, l, replayed)
    ensures Agree(limits, RollMonthly(PurgeWindows(l, l.highWater), l.highWater), replayed)
  {
  }

  lemma PruningKeepsAgreement(limits: Limits, l: Ledger, clock: nat, replayed: Ledger)
    requires Sound(l) && Agree(limits, l, replayed)
    ensures Agree(limits, Settled(l, limits, clock), replayed)
    ensures Agree(limits, PruneResolutions(Tick(l, clock), Now(l, clock), limits.retention), replayed)
    ensures Agree(limits, ReadCapacity(l, clock), replayed)
    ensures Sound(Settled(l, limits, clock))
  {
    PruningIsSound(limits, l, clock);
    PruneKeepsAgreement(limits, l, clock, replayed);
    PurgeKeepsAgreement(limits, Tick(l, clock), replayed);
    PurgeKeepsAgreement(limits, PruneResolutions(Tick(l, clock), Now(l, clock), limits.retention), replayed);
  }

  lemma GrantReplays(limits: Limits, l: Ledger, q: Request, now: nat, receipt: Receipt, replayed: Ledger)
    requires Sound(l) && Agree(limits, l, replayed)
    requires q.attempt !in replayed.starts && q.attempt !in replayed.resolutions
    requires l.accountCircuit == q.accountCircuit && l.CircuitOf(q.binding.generation) == q.circuit
    requires !q.circuit.state.Open? && !q.accountCircuit.state.Open?
    ensures Agree(limits, Grant(l, q, now), ApplyReserved(replayed, Durable(l, q, now)))
  {
    var v := Durable(l, q, now);
    assert q.circuit.Valid();
    assert q.circuit.probe == q.circuit.Token();
  }

  /** What a step appended replays without error and gives a ledger that agrees with what it left. */
  ghost predicate Tracks(limits: Limits, after: Ledger, entry: Option<Entry>, replayed: Ledger) {
    if entry.None? then Agree(limits, after, replayed)
    else
      var next := Apply(replayed, entry.value);
      next.Some? && Agree(limits, after, next.value)
  }

  lemma UngrantedAgrees(limits: Limits, l: Ledger, clock: nat, after: Ledger, replayed: Ledger)
    requires Sound(l) && Agree(limits, l, replayed)
    requires after == l || after == PruneResolutions(Tick(l, clock), Now(l, clock), limits.retention) || after == Settled(l, limits, clock)
    ensures Agree(limits, after, replayed)
  {
    PruningKeepsAgreement(limits, l, clock, replayed);
  }

  lemma GrantedAgrees(a: Account, limits: Limits, l: Ledger, q: Request, clock: nat, receipt: Receipt, replayed: Ledger)
    requires Sound(l) && Agree(limits, l, replayed)
    requires q.attempt !in replayed.starts && q.attempt !in replayed.resolutions
    requires Screen(a, limits, PruneResolutions(Tick(l, clock), Now(l, clock), limits.retention), q, Now(l, clock)).None?
    ensures var settled := Settled(l, limits, clock); var now := Now(l, clock);
            Tracks(limits, Grant(settled, q, now), Some(Entry(receipt, AttemptReserved(Durable(settled, q, now)))), replayed)
  {
    PruningKeepsAgreement(limits, l, clock, replayed);
    GrantReplays(limits, Settled(l, limits, clock), q, Now(l, clock), receipt, replayed);
  }

  lemma ReserveReplays(a: Account, limits: Limits, l: Ledger, q: Request, status: JournalStatus, clock: nat,
                       append: Append, replayed: Ledger)
    requires Sound(l) && Agree(limits, l, replayed)
    requires q.attempt !in replayed.starts && q.attempt !in replayed.resolutions
    ensures var (after, verdict) := TryReserve(a, limits, l, q, status, clock, append);
            Tracks(limits, after, if verdict.Granted? then Some(verdict.entry) else None, replayed)
  {
    ReserveShape(a, limits, l, q, status, clock, append);
    if TryReserve(a, limits, l, q, status, clock, append).1.Granted? {
      GrantedAgrees(a, limits, l, q, clock, append.receipt, replayed);
    } else {
      UngrantedAgrees(limits, l, clock, TryReserve(a, limits, l, q, status, clock, append).0, replayed);
    }
  }

  lemma DispatchReplays(limits: Limits, l: Ledger, id: Id, clock: nat, append: Append, replayed: Ledger)
    requires Sound(l) && Agree(limits, l, replayed)
    ensures var change := MarkDispatched(l, id, clock, append);
            Tracks(limits, change.ledger, change.entry, replayed)
  {
    PruneKeepsAgreement(limits, l, clock, replayed);
    hide Sound, PruneResolutions;
  }

  lemma FinishReplays(limits: Limits, l: Ledger, id: Id, resolution: Resolution, clock: nat, append: Append, replayed: Ledger)
    requires Sound(l) && Agree(limits, l, replayed)
    ensures var change := Finish(l, id, resolution, clock, append);
            Tracks(limits, change.ledger, change.entry, replayed)
  {
    hide CircuitsValid;
  }

  lemma SwapReplays(limits: Limits, l: Ledger, generation: Option<Id>, expected: Circuit, replacement: Circuit,
                    append: Append, replayed: Ledger)
    requires Sound(l) && Agree(limits, l, replayed) && replacement.Valid()
    ensures var change := SwapCircuit(l, generation, expected, replacement, append);
            Tracks(limits, change.ledger, change.entry, replayed)
  {
    hide Sound;
  }

  /** Giving back the same slots on both sides keeps agreement. */
  lemma FreedSlotsAgree(limits: Limits, l: Ledger, attempts: map<Id, Attempt>, holds: nat, probe: Option<Id>, replayed: Ledger)
    requires Agree(limits, l, replayed) && attempts.Keys <= l.attempts.Keys
    ensures Agree(limits, l.(attempts := attempts, holds := holds, recoveryProbe := probe),
                  replayed.(attempts := attempts, holds := holds, recoveryProbe := probe))
  {
  }

  lemma ActiveCountAgrees(limits: Limits, l: Ledger, count: nat, replayed: Ledger)
    requires Agree(limits, l, replayed)
    ensures Agree(limits, ApplyActiveCount(l, count), ApplyActiveCount(replayed, count))
  {
    var kept := OldestAttempts(l.attempts, count);
    var holds := Max(0, count - Min(count, |l.attempts|));
    FreedSlotsAgree(limits, l, kept, holds, l.recoveryProbe, replayed);
  }

  lemma ActiveCountReplays(limits: Limits, l: Ledger, count: nat, append: Append, replayed: Ledger)
    requires Agree(limits, l, replayed)
    ensures var change := SetActiveCount(l, count, append);
            Tracks(limits, change.ledger, change.entry, replayed)
  {
    ActiveCountAgrees(limits, l, count, replayed);
    hide ApplyActiveCount;
    if !l.AnyLive() && append.Appended? {
      assert !replayed.AnyLive();
      assert Apply(replayed, Entry(append.receipt, ActiveCountRecorded(count))) == Some(ApplyActiveCount(replayed, count));
    }
  }

  lemma BeginProbeReplays(limits: Limits, l: Ledger, probe: Id, append: Append, replayed: Ledger)
    requires Sound(l) && Agree(limits, l, replayed)
    ensures var change := BeginProbe(l, probe, append);
            Tracks(limits, change.ledger, change.entry, replayed)
  {
    FreedSlotsAgree(limits, l, l.attempts, l.holds, Some(probe), replayed);
  }

  lemma FinishProbeReplays(limits: Limits, l: Ledger, probe: Id, probing: Probing, append: Append, replayed: Ledger)
    requires Sound(l) && Agree(limits, l, replayed)
    ensures var change := FinishProbe(l, probe, probing, append);
            Tracks(limits, change.ledger, change.entry, replayed)
  {
    var after := ApplyProbeFinished(l, probing);
    assert ApplyProbeFinished(replayed, probing) == replayed.(attempts := after.attempts, holds := after.holds, recoveryProbe := None);
    FreedSlotsAgree(limits, l, after.attempts, after.holds, None, replayed);
  }

  lemma MarkReplays(limits: Limits, l: Ledger, id: Id, append: Append, replayed: Ledger)
    requires Sound(l) && Agree(limits, l, replayed)
    ensures var change := MarkUncertain(l, id, append);
            Tracks(limits, change.ledger, change.entry, replayed)
  {
  }

  lemma PublishReplays(limits: Limits, l: Ledger, a: Account, clock: nat, replayed: Ledger)
    requires Sound(l) && Agree(limits, l, replayed)
    ensures Agree(limits, Publish(l, a, clock), replayed)
  {
    PruneKeepsAgreement(limits, l, clock, replayed);
  }

  /** One live step and the replay of what it appended keep agreement. */
  lemma StepReplays(limits: Limits, r: Runtime, c: Command, replayed: Ledger, used: set<Id>)
    requires Sound(r.ledger) && WellFormed(c) && Agree(limits, r.ledger, replayed)
    requires MintsFresh(c, used) && WithinUsed(replayed, used)
    ensures Tracks(limits, Step(limits, r, c).0.ledger, Step(limits, r, c).1, replayed)
  {
    match c
    case Reserve(q, status, clock, append) =>
      ReserveReplays(r.account, limits, r.ledger, q, status, clock, append, replayed);
    case Dispatching(id, clock, append) => DispatchReplays(limits, r.ledger, id, clock, append, replayed);
    case Finishing(id, resolution, clock, append) =>
      FinishReplays(limits, r.ledger, id, resolution, clock, append, replayed);
    case Swapping(generation, expected, replacement, append) =>
      SwapReplays(limits, r.ledger, generation, expected, replacement, append, replayed);
    case Counting(count, append) => ActiveCountReplays(limits, r.ledger, count, append, replayed);
    case ProbeBegins(probe, append) => BeginProbeReplays(limits, r.ledger, probe, append, replayed);
    case ProbeEnds(probe, probing, append) => FinishProbeReplays(limits, r.ledger, probe, probing, append, replayed);
    case Marking(id, append) => MarkReplays(limits, r.ledger, id, append, replayed);
    case Reading(clock) => PruningKeepsAgreement(limits, r.ledger, clock, replayed);
    case Publishing(a, clock) => PublishReplays(limits, r.ledger, a, clock, replayed);
  }

  /** Replay adds to the starts and resolutions only what the record names. */
  lemma ApplyWithinUsed(l: Ledger, e: Entry, used: set<Id>)
    requires WithinUsed(l, used) && l.attempts.Keys <= l.starts.Keys && Apply(l, e).Some?
    ensures WithinUsed(Apply(l, e).value, used + Minted(Some(e)))
  {
  }

  // ---------------------------------------------------------------- whole runs

  /** Execute commands one after the other, collecting what they append. */
  ghost function Run(limits: Limits, r: Runtime, commands: seq<Command>): (Runtime, seq<Entry>)
    requires Sound(r.ledger) && forall c :: c in commands ==> WellFormed(c)
    decreases |commands|
  {
    if commands == [] then (r, [])
    else
      var (next, entry) := Step(limits, r, commands[0]);
      SoundStep(limits, r, commands[0]);
      var (last, log) := Run(limits, next, commands[1..]);
      (last, (if entry.Some? then [entry.value] else []) + log)
  }

  /** No granted reservation of the run reuses an attempt identifier. */
  ghost predicate MintsOnce(limits: Limits, r: Runtime, commands: seq<Command>, used: set<Id>)
    requires Sound(r.ledger) && forall c :: c in commands ==> WellFormed(c)
    decreases |commands|
  {
    commands == [] ||
    (var (next, entry) := Step(limits, r, commands[0]);
     SoundStep(limits, r, commands[0]);
     MintsFresh(commands[0], used) && MintsOnce(limits, next, commands[1..], used + Minted(entry)))
  }

  lemma {:induction false} RunReplays(limits: Limits, r: Runtime, commands: seq<Command>, replayed: Ledger, used: set<Id>)
    requires Sound(r.ledger) && forall c :: c in commands ==> WellFormed(c)
    requires Agree(limits, r.ledger, replayed) && WithinUsed(replayed, used)
    requires MintsOnce(limits, r, commands, used)
    ensures var (last, log) := Run(limits, r, commands);
            Replay(replayed, log).Some? && Agree(limits, last.ledger, Replay(replayed, log).value)
    decreases |commands|
  {
    if commands != [] {
      var next, entry, applied := StepTogether(limits, r, commands[0], replayed, used);
      RunReplays(limits, next, commands[1..], applied, used + Minted(entry));
      var rest := Run(limits, next, commands[1..]).1;
      var log := Run(limits, r, commands).1;
      if entry.Some? {
        assert log == [entry.value] + rest && log[1..] == rest;
      } else {
        assert log == [] + rest && log == rest;
      }
    }
  }

  /** Recovery refines the live ledger: from any snapshot a live ledger can take, restoring it and
      replaying everything appended since rebuilds the live ledger. */
  lemma RecoveryRefinesLive(limits: Limits, r: Runtime, commands: seq<Command>)
    requires Sound(r.ledger) && |r.ledger.resolutions| <= limits.ledger
    requires forall c :: c in commands ==> WellFormed(c)
    requires MintsOnce(limits, r, commands, r.ledger.starts.Keys + r.ledger.resolutions.Keys)
    ensures var (last, log) := Run(limits, r, commands);
            var restored := Restore(limits, TakeSnapshot(r.ledger));
            && restored.Some?
            && Replay(restored.value, log).Some?
            && Agree(limits, last.ledger, Replay(restored.value, log).value)
  {
    SnapshotRoundTrip(limits, r.ledger);
    RunReplays(limits, r, commands, r.ledger, r.ledger.starts.Keys + r.ledger.resolutions.Keys);
  }

  // ---------------------------------------------------------------- the month

  /** Equal months, or a month that the live side has already rolled past and the replayed side
      will roll past as soon as it reads the clock. */
  ghost predicate MonthsMeet(instant: nat, live: Ledger, replayed: Ledger) {
    && replayed.monthlyReset == instant
    && ((live.monthlyReset == instant && live.monthlyUsed == replayed.monthlyUsed)
        || (instant != 0 && live.monthlyReset == 0 && live.monthlyUsed == 0 && live.highWater >= instant))
  }

  /** Every attempt the ledger holds was charged against the month that ends at `instant`. */
  ghost predicate ChargedTo(instant: nat, l: Ledger) {
    forall id :: id in l.attempts ==> l.attempts[id].monthlyReset == instant
  }

  /** A command that keeps to the single reset instant. */
  ghost predicate KeepsInstant(instant: nat, c: Command, entry: Option<Entry>) {
    && (entry.Some? && entry.value.record.AttemptReserved? ==> entry.value.record.reservation.monthlyReset == instant)
    && (c.Publishing? && c.account.monthly.Known? ==> c.account.monthlyResetAt == Some(instant))
  }

  /** The months after a step, on both sides, still meet. */
  ghost predicate MonthTracks(instant: nat, after: Ledger, entry: Option<Entry>, replayed: Ledger) {
    && ChargedTo(instant, after)
    && (entry.None? ==> MonthsMeet(instant, after, replayed))
    && (entry.Some? && Apply(replayed, entry.value).Some? ==>
          MonthsMeet(instant, after, Apply(replayed, entry.value).value))
  }

  lemma FinishMonth(instant: nat, limits: Limits, l: Ledger, id: Id, resolution: Resolution, clock: nat, append: Append, replayed: Ledger)
    requires Sound(l) && Agree(limits, l, replayed) && MonthsMeet(instant, l, replayed) && ChargedTo(instant, l)
    ensures var change := Finish(l, id, resolution, clock, append);
            MonthTracks(instant, change.ledger, change.entry, replayed)
  {
  }

  function Written(v: Verdict): Option<Entry> { if v.Granted? then Some(v.entry) else None }

  lemma ReserveMonth(instant: nat, a: Account, limits: Limits, l: Ledger, q: Request, status: JournalStatus,
                     clock: nat, append: Append, replayed: Ledger)
    requires Sound(l) && MonthsMeet(instant, l, replayed) && ChargedTo(instant, l)
    requires KeepsInstant(instant, Reserve(q, status, clock, append), Written(TryReserve(a, limits, l, q, status, clock, append).1))
    ensures var (after, verdict) := TryReserve(a, limits, l, q, status, clock, append);
            MonthTracks(instant, after, Written(verdict), replayed)
  {
    ReserveShape(a, limits, l, q, status, clock, append);
  }

  lemma PublishMonth(instant: nat, l: Ledger, a: Account, clock: nat, replayed: Ledger)
    requires MonthsMeet(instant, l, replayed) && ChargedTo(instant, l)
    requires a.Valid() && (a.monthly.Known? ==> a.monthlyResetAt == Some(instant))
    ensures MonthsMeet(instant, Publish(l, a, clock), replayed) && ChargedTo(instant, Publish(l, a, clock))
  {
  }

  /** Only reservations and resolutions touch the month, live and replayed. */
  lemma OtherMonth(instant: nat, l: Ledger, change: Change, replayed: Ledger)
    requires MonthsMeet(instant, l, replayed) && ChargedTo(instant, l)
    requires change.ledger.monthlyUsed == l.monthlyUsed && change.ledger.monthlyReset == l.monthlyReset
    requires change.ledger.highWater >= l.highWater
    requires forall id :: id in change.ledger.attempts ==>
               id in l.attempts && change.ledger.attempts[id].monthlyReset == l.attempts[id].monthlyReset
    requires change.entry.Some? ==> !change.entry.value.record.AttemptReserved? && !change.entry.value.record.AttemptResolved?
    ensures MonthTracks(instant, change.ledger, change.entry, replayed)
  {
    hide Apply;
    if change.entry.Some? && Apply(replayed, change.entry.value).Some? {
      OtherRecordsKeepMonth(replayed, change.entry.value);
    }
  }

  lemma OtherRecordsKeepMonth(l: Ledger, e: Entry)
    requires !e.record.AttemptReserved? && !e.record.AttemptResolved? && Apply(l, e).Some?
    ensures Apply(l, e).value.monthlyUsed == l.monthlyUsed && Apply(l, e).value.monthlyReset == l.monthlyReset
  {
  }

  lemma SwapMonth(instant: nat, l: Ledger, g: Option<Id>, expected: Circuit, replacement: Circuit, append: Append, replayed: Ledger)
    requires MonthsMeet(instant, l, replayed) && ChargedTo(instant, l)
    ensures var change := SwapCircuit(l, g, expected, replacement, append);
            MonthTracks(instant, change.ledger, change.entry, replayed)
  {
    OtherMonth(instant, l, SwapCircuit(l, g, expected, replacement, append), replayed);
  }

  lemma DispatchMonth(instant: nat, l: Ledger, id: Id, clock: nat, append: Append, replayed: Ledger)
    requires MonthsMeet(instant, l, replayed) && ChargedTo(instant, l)
    ensures var change := MarkDispatched(l, id, clock, append);
            MonthTracks(instant, change.ledger, change.entry, replayed)
  {
    OtherMonth(instant, l, MarkDispatched(l, id, clock, append), replayed);
  }

  lemma CountMonth(instant: nat, l: Ledger, count: nat, append: Append, replayed: Ledger)
    requires MonthsMeet(instant, l, replayed) && ChargedTo(instant, l)
    ensures var change := SetActiveCount(l, count, append); MonthTracks(instant, change.ledger, change.entry, replayed)
  {
    OtherMonth(instant, l, SetActiveCount(l, count, append), replayed);
  }

  lemma ProbeMonth(instant: nat, l: Ledger, probe: Id, probing: Probing, append: Append, replayed: Ledger)
    requires MonthsMeet(instant, l, replayed) && ChargedTo(instant, l)
    ensures var change := FinishProbe(l, probe, probing, append); MonthTracks(instant, change.ledger, change.entry, replayed)
  {
    OtherMonth(instant, l, FinishProbe(l, probe, probing, append), replayed);
  }

  lemma MarkMonth(instant: nat, l: Ledger, probe: Id, id: Id, append: Append, replayed: Ledger)
    requires MonthsMeet(instant, l, replayed) && ChargedTo(instant, l)
    ensures var change := BeginProbe(l, probe, append); MonthTracks(instant, change.ledger, change.entry, replayed)
    ensures var change := MarkUncertain(l, id, append); MonthTracks(instant, change.ledger, change.entry, replayed)
  {
    OtherMonth(instant, l, BeginProbe(l, probe, append), replayed);
    OtherMonth(instant, l, MarkUncertain(l, id, append), replayed);
  }

  /** With a single reset instant, a step and the replay of what it appended keep the months together. */
  lemma StepMonth(instant: nat, limits: Limits, r: Runtime, c: Command, replayed: Ledger)
    requires Sound(r.ledger) && WellFormed(c) && Agree(limits, r.ledger, replayed)
    requires MonthsMeet(instant, r.ledger, replayed) && ChargedTo(instant, r.ledger)
    requires KeepsInstant(instant, c, Step(limits, r, c).1)
    ensures MonthTracks(instant, Step(limits, r, c).0.ledger, Step(limits, r, c).1, replayed)
  {
    match c
    case Reserve(q, status, clock, append) =>
      ReserveMonth(instant, r.account, limits, r.ledger, q, status, clock, append, replayed);
    case Finishing(id, resolution, clock, append) =>
      FinishMonth(instant, limits, r.ledger, id, resolution, clock, append, replayed);
    case Publishing(a, clock) => PublishMonth(instant, r.ledger, a, clock, replayed);
    case Reading(_) =>
    case Dispatching(id, clock, append) => DispatchMonth(instant, r.ledger, id, clock, append, replayed);
    case Swapping(g, expected, replacement, append) =>
      SwapMonth(instant, r.ledger, g, expected, replacement, append, replayed);
    case Counting(count, append) => CountMonth(instant, r.ledger, count, append, replayed);
    case ProbeBegins(probe, append) => MarkMonth(instant, r.ledger, probe, 0, append, replayed);
    case ProbeEnds(probe, probing, append) => ProbeMonth(instant, r.ledger, probe, probing, append, replayed);
    case Marking(id, append) => MarkMonth(instant, r.ledger, 0, id, append, replayed);
  }

  ghost predicate SingleInstant(instant: nat, limits: Limits, r: Runtime, commands: seq<Command>)
    requires Sound(r.ledger) && forall c :: c in commands ==> WellFormed(c)
    decreases |commands|
  {
    commands == [] ||
    (var (next, entry) := Step(limits, r, commands[0]);
     SoundStep(limits, r, commands[0]);
     KeepsInstant(instant, commands[0], entry) && SingleInstant(instant, limits, next, commands[1..]))
  }

  /** One step of a run, live and replayed together. */
  lemma StepTogether(limits: Limits, r: Runtime, c: Command, replayed: Ledger, used: set<Id>)
    returns (next: Runtime, entry: Option<Entry>, applied: Ledger)
    requires Sound(r.ledger) && WellFormed(c) && Agree(limits, r.ledger, replayed)
    requires MintsFresh(c, used) && WithinUsed(replayed, used)
    ensures (next, entry) == Step(limits, r, c)
    ensures Sound(next.ledger) && Agree(limits, next.ledger, applied) && WithinUsed(applied, used + Minted(entry))
    ensures if entry.Some? then Apply(replayed, entry.value) == Some(applied) else applied == replayed
    ensures forall instant :: MonthsMeet(instant, r.ledger, replayed) && ChargedTo(instant, r.ledger) && KeepsInstant(instant, c, entry)
              ==> MonthsMeet(instant, next.ledger, applied) && ChargedTo(instant, next.ledger)
  {
    next, entry := Step(limits, r, c).0, Step(limits, r, c).1;
    SoundStep(limits, r, c);
    StepReplays(limits, r, c, replayed, used);
    applied := replayed;
    if entry.Some? {
      applied := Apply(replayed, entry.value).value;
      ApplyWithinUsed(replayed, entry.value, used);
    }
    forall instant | MonthsMeet(instant, r.ledger, replayed) && ChargedTo(instant, r.ledger) && KeepsInstant(instant, c, entry)
      ensures MonthsMeet(instant, next.ledger, applied) && ChargedTo(instant, next.ledger)
    {
      StepMonth(instant, limits, r, c, replayed);
    }
  }

  lemma {:induction false} RunMonth(instant: nat, limits: Limits, r: Runtime, commands: seq<Command>, replayed: Ledger, used: set<Id>)
    requires Sound(r.ledger) && forall c :: c in commands ==> WellFormed(c)
    requires Agree(limits, r.ledger, replayed) && WithinUsed(replayed, used)
    requires MintsOnce(limits, r, commands, used) && SingleInstant(instant, limits, r, commands)
    requires MonthsMeet(instant, r.ledger, replayed) && ChargedTo(instant, r.ledger)
    ensures var (last, log) := Run(limits, r, commands);
            Replay(replayed, log).Some? && MonthsMeet(instant, last.ledger, Replay(replayed, log).value)
    decreases |commands|
  {
    if commands != [] {
      var next, entry, applied := StepTogether(limits, r, commands[0], replayed, used);
      RunMonth(instant, limits, next, commands[1..], applied, used + Minted(entry));
      var rest := Run(limits, next, commands[1..]).1;
      var log := Run(limits, r, commands).1;
      if entry.Some? {
        assert log == [entry.value] + rest && log[1..] == rest;
      } else {
        assert log == [] + rest && log == rest;
      }
    }
  }

  /** While every record is charged against one reset instant, recovery also rebuilds the month:
      at any time from now on, both sides read the same charge and the same reset. */
  lemma MonthRefinesLive(instant: nat, limits: Limits, r: Runtime, commands: seq<Command>, now: nat)
    requires Sound(r.ledger) && |r.ledger.resolutions| <= limits.ledger
    requires forall c :: c in commands ==> WellFormed(c)
    requires MintsOnce(limits, r, commands, r.ledger.starts.Keys + r.ledger.resolutions.Keys)
    requires r.ledger.monthlyReset == instant && ChargedTo(instant, r.ledger)
    requires SingleInstant(instant, limits, r, commands)
    requires now >= Run(limits, r, commands).0.ledger.highWater
    ensures var (last, log) := Run(limits, r, commands);
            var restored := Restore(limits, TakeSnapshot(r.ledger));
            && restored.Some? && Replay(restored.value, log).Some?
            && RollMonthly(Replay(restored.value, log).value, now).monthlyUsed == RollMonthly(last.ledger, now).monthlyUsed
            && RollMonthly(Replay(restored.value, log).value, now).monthlyReset == RollMonthly(last.ledger, now).monthlyReset
  {
    hide Run, Replay, Restore, TakeSnapshot, MintsOnce, SingleInstant;
    SnapshotRoundTrip(limits, r.ledger);
    RunMonth(instant, limits, r, commands, r.ledger, r.ledger.starts.Keys + r.ledger.resolutions.Keys);
  }

  /** A replayed resolution charges the month as the live one did if and only if the attempt belongs
      to the current month, nothing is refunded, or there was nothing left to refund from. */
  lemma ResolutionMonthExact(limits: Limits, l: Ledger, id: Id, resolution: Resolution, clock: nat, append: Append, replayed: Ledger)
    requires Sound(l) && Agree(limits, l, replayed) && replayed.monthlyUsed == l.monthlyUsed
    requires Finish(l, id, resolution, clock, append).entry.Some?
    ensures var change := Finish(l, id, resolution, clock, append);
            var next := Apply(replayed, change.entry.value);
            && next.Some?
            && (next.value.monthlyUsed == change.ledger.monthlyUsed <==>
                  || l.attempts[id].monthlyReset == l.monthlyReset
                  || resolution.actualQuota.None?
                  || resolution.actualQuota.value == l.attempts[id].quota
                  || l.monthlyUsed == 0)
  {
    FinishReplays(limits, l, id, resolution, clock, append, replayed);
  }

  /** From equal charges, a replayed reservation charges the month as the live one did if and only if both
      sides have the same reset instant, or nothing had been charged yet. */
  lemma ReservationMonthExact(l: Ledger, q: Request, now: nat, replayed: Ledger)
    requires replayed.monthlyUsed == l.monthlyUsed
    ensures var replay := ApplyReserved(replayed, Durable(l, q, now));
            && replay.monthlyReset == Grant(l, q, now).monthlyReset
            && (replay.monthlyUsed == Grant(l, q, now).monthlyUsed <==>
                  replayed.monthlyReset == l.monthlyReset || l.monthlyUsed == 0)
  {
    var reserved := Durable(l, q, now);
    assert reserved.monthlyReset == l.monthlyReset && reserved.quota == q.quota;
  }

  // ---------------------------------------------------------------- what recovery does not keep

  function PlainAccount(resetAt: nat): Account {
    Account(1, Active, Known(9), 9, AttestedAbsent, 60, AttestedAbsent, 60, Known(9), 1, Some(resetAt))
  }

  function PlainRequest(attempt: Id): Request {
    Request(attempt, 1, Binding(1, 1, 1, 1, 1, 1, 1, 1, 1), 1_000_000_000, 0, 0, 0, 1, CLOSED_CIRCUIT, CLOSED_CIRCUIT)
  }

  /** A ledger on which a plain request meets no token, rate or probe bookkeeping. */
  ghost predicate Plain(l: Ledger, limits: Limits, now: nat) {
    && l.recoveryProbe.None? && l.accountCircuit == CLOSED_CIRCUIT && l.circuits == map[]
    && |l.attempts| < limits.ledger && |l.attempts| <= 1 && l.holds == 0
    && l.monthlyUsed <= 1 && now < l.monthlyReset < 1_000_000
    && (forall id :: id in l.resolutions ==> l.resolutions[id].at <= now - limits.retention && id !in l.attempts)
  }

  lemma PlainScreen(resetAt: nat, limits: Limits, l: Ledger, attempt: Id, clock: nat)
    requires Plain(l, limits, Now(l, clock)) && attempt !in l.attempts && attempt !in l.starts
    ensures var pruned := Tick(l, clock).(resolutions := map[]);
            && PruneResolutions(Tick(l, clock), Now(l, clock), limits.retention) == pruned
            && Settled(l, limits, clock) == pruned
            && Screen(PlainAccount(resetAt), limits, pruned, PlainRequest(attempt), Now(l, clock)).None?
  {
    var now := Now(l, clock);
    var pruned := Tick(l, clock).(resolutions := map[]);
    PlainPrunes(limits, l, now, clock);
    PlainScreened(resetAt, limits, pruned, attempt, now);
    hide Plain, Screen, PruneResolutions, PurgeWindows;
  }

  lemma PlainPrunes(limits: Limits, l: Ledger, now: nat, clock: nat)
    requires Plain(l, limits, now) && now == Now(l, clock)
    ensures var pruned := Tick(l, clock).(resolutions := map[]);
            && PruneResolutions(Tick(l, clock), now, limits.retention) == pruned
            && PurgeWindows(pruned, now) == pruned && RollMonthly(pruned, now) == pruned
  {
    var pruned := PruneResolutions(Tick(l, clock), now, limits.retention);
    assert pruned.resolutions == map[];
    assert PurgeWindows(pruned, now) == pruned;
  }

  lemma PlainScreened(resetAt: nat, limits: Limits, pruned: Ledger, attempt: Id, now: nat)
    requires pruned.resolutions == map[] && |pruned.attempts| < limits.ledger && attempt !in pruned.attempts && attempt !in pruned.starts
    requires pruned.accountCircuit == CLOSED_CIRCUIT && pruned.circuits == map[] && now < 1_000_000
    ensures Screen(PlainAccount(resetAt), limits, pruned, PlainRequest(attempt), now).None?
  {
    assert pruned.Unresolved() == pruned.attempts.Keys;
    assert |pruned.attempts.Keys| == |pruned.attempts|;
  }

  lemma PlainGrant(resetAt: nat, limits: Limits, l: Ledger, attempt: Id, clock: nat, receipt: Receipt)
    requires Plain(l, limits, Now(l, clock)) && attempt !in l.attempts && attempt !in l.starts
    ensures TryReserve(PlainAccount(resetAt), limits, l, PlainRequest(attempt), Healthy, clock, Appended(receipt)) ==
            (var pruned := Tick(l, clock).(resolutions := map[]); var now := Now(l, clock);
             (Grant(pruned, PlainRequest(attempt), now),
              Granted(Entry(receipt, AttemptReserved(Durable(pruned, PlainRequest(attempt), now))))))
  {
    PlainScreen(resetAt, limits, l, attempt, clock);
    var pruned := Tick(l, clock).(resolutions := map[]);
    assert CapacityScreen(PlainAccount(resetAt), pruned, PlainRequest(attempt), Now(l, clock)).None?;
  }

  const PLAIN_LIMITS := Limits(10, 1000)

  /** Extending the month keeps the live charges, but replay sees a new reset instant and starts the
      month again: after one reservation on each side of an extension the live month is charged
      twice and the replayed month once. */
  lemma ExtensionRestartsReplayedMonth()
    ensures var empty := NewLedger(PlainAccount(5000), 1);
            var (l1, v1) := TryReserve(PlainAccount(5000), PLAIN_LIMITS, empty, PlainRequest(1), Healthy, 10, Appended(Receipt(1, 1)));
            var l2 := Publish(l1, PlainAccount(9000), 20);
            var (l3, v3) := TryReserve(PlainAccount(9000), PLAIN_LIMITS, l2, PlainRequest(2), Healthy, 30, Appended(Receipt(2, 2)));
            && v1.Granted? && v3.Granted? && l3.monthlyUsed == 2
            && Replay(empty, [v1.entry, v3.entry]).Some?
            && Replay(empty, [v1.entry, v3.entry]).value.monthlyUsed == 1
  {
    var empty := NewLedger(PlainAccount(5000), 1);
    PlainGrant(5000, PLAIN_LIMITS, empty, 1, 10, Receipt(1, 1));
    var l1 := Grant(Tick(empty, 10), PlainRequest(1), 10);
    assert l1.attempts.Keys == {1} && |l1.attempts.Keys| == |l1.attempts|;
    var l2 := Publish(l1, PlainAccount(9000), 20);
    assert l2 == Tick(l1, 20).(monthlyReset := 9000);
    PlainGrant(9000, PLAIN_LIMITS, l2, 2, 30, Receipt(2, 2));
    var first := Entry(Receipt(1, 1), AttemptReserved(Durable(Tick(empty, 10), PlainRequest(1), 10)));
    var second := Entry(Receipt(2, 2), AttemptReserved(Durable(Tick(l2, 30), PlainRequest(2), 30)));
    ReplayTwo(empty, first, second);
  }

  lemma ReplayTwo(l: Ledger, first: Entry, second: Entry)
    requires Apply(l, first).Some?
    ensures Replay(l, [first, second]) == Apply(Apply(l, first).value, second)
  {
    assert [first, second][1..] == [second] && [second][1..] == [];
    var once := Apply(l, first).value;
    assert Replay(once, [second]) == Apply(once, second);
  }

  // ---------------------------------------------------------------- replay does not prune

  /** The attempts that a log resolves. */
  function ResolvedIn(log: seq<Entry>): set<Id> {
    if log == [] then {} else (if log[0].record.AttemptResolved? then {log[0].record.attempt} else {}) + ResolvedIn(log[1..])
  }

  lemma ApplyResolves(l: Ledger, e: Entry)
    requires CircuitsValid(l) && Apply(l, e).Some?
    ensures CircuitsValid(Apply(l, e).value)
    ensures Apply(l, e).value.resolutions.Keys ==
            l.resolutions.Keys + if e.record.AttemptResolved? then {e.record.attempt} else {}
  {
    hide CircuitsValid, ApplyReserved, ApplyDispatched, ApplyResolved, ApplyUncertain, ApplyCircuit, ApplyActiveCount, ApplyProbeFinished;
    match e.record
    case AttemptReserved(v) => ReservedKeeps(l, v);
    case AttemptDispatched(id, at) => DispatchedKeeps(l, e.receipt, id, at);
    case AttemptResolved(id, resolution, at) => ResolvedKeeps(l, e.receipt, id, resolution, at);
    case AttemptUncertain(id) => UncertainKeeps(l, id);
    case CircuitUpdated(generation, value) => CircuitKeeps(l, generation, value);
    case ActiveCountRecorded(count) => CountKeeps(l, count);
    case ProbeStarted(probe) => SlotsKeep(l, l.(recoveryProbe := Some(probe)));
    case ProbeFinished(_, probing) => ProbeKeeps(l, probing);
  }

  lemma SlotsKeep(l: Ledger, after: Ledger)
    requires CircuitsValid(l) && after.circuits == l.circuits && after.accountCircuit == l.accountCircuit
    ensures CircuitsValid(after)
  {
  }

  lemma CountKeeps(l: Ledger, count: nat)
    requires CircuitsValid(l)
    ensures CircuitsValid(ApplyActiveCount(l, count)) && ApplyActiveCount(l, count).resolutions == l.resolutions
  {
    SlotsKeep(l, ApplyActiveCount(l, count));
  }

  lemma ProbeKeeps(l: Ledger, probing: Probing)
    requires CircuitsValid(l)
    ensures CircuitsValid(ApplyProbeFinished(l, probing)) && ApplyProbeFinished(l, probing).resolutions == l.resolutions
  {
    SlotsKeep(l, ApplyProbeFinished(l, probing));
  }

  lemma ReservedKeeps(l: Ledger, v: Reservation)
    requires CircuitsValid(l)
    ensures CircuitsValid(ApplyReserved(l, v)) && ApplyReserved(l, v).resolutions == l.resolutions
  {
  }

  lemma DispatchedKeeps(l: Ledger, receipt: Receipt, id: Id, at: nat)
    requires CircuitsValid(l) && ApplyDispatched(l, receipt, id, at).Some?
    ensures var after := ApplyDispatched(l, receipt, id, at).value; CircuitsValid(after) && after.resolutions == l.resolutions
  {
  }

  lemma ResolvedKeeps(l: Ledger, receipt: Receipt, id: Id, resolution: Resolution, at: nat)
    requires CircuitsValid(l) && ApplyResolved(l, receipt, id, resolution, at).Some?
    ensures var after := ApplyResolved(l, receipt, id, resolution, at).value;
            CircuitsValid(after) && after.resolutions.Keys == l.resolutions.Keys + {id}
  {
  }

  lemma UncertainKeeps(l: Ledger, id: Id)
    requires CircuitsValid(l)
    ensures CircuitsValid(ApplyUncertain(l, id)) && ApplyUncertain(l, id).resolutions == l.resolutions
  {
  }

  lemma CircuitKeeps(l: Ledger, generation: Option<Id>, value: Circuit)
    requires CircuitsValid(l) && ApplyCircuit(l, generation, value).Some?
    ensures var after := ApplyCircuit(l, generation, value).value; CircuitsValid(after) && after.resolutions == l.resolutions
  {
  }

  lemma {:induction false} ReplayResolves(l: Ledger, log: seq<Entry>)
    requires CircuitsValid(l) && Replay(l, log).Some?
    ensures CircuitsValid(Replay(l, log).value)
    ensures Replay(l, log).value.resolutions.Keys == l.resolutions.Keys + ResolvedIn(log)
    decreases |log|
  {
    hide Apply, CircuitsValid;
    if log != [] {
      ApplyResolves(l, log[0]);
      ReplayResolves(Apply(l, log[0]).value, log[1..]);
    }
  }

  /** The exact condition under which a replayed ledger can be checkpointed: the snapshot taken of it
      restores if and only if everything resolved before or in the log fits the bound together. Live
      pruning plays no part in it. */
  lemma ReplayedSnapshotRestoresIff(limits: Limits, l: Ledger, log: seq<Entry>)
    requires CircuitsValid(l) && Replay(l, log).Some?
    ensures Restore(limits, TakeSnapshot(Replay(l, log).value)).Some? <==> |l.resolutions.Keys + ResolvedIn(log)| <= limits.ledger
  {
    ReplayResolves(l, log);
    hide Replay, Restore, TakeSnapshot, ResolvedIn;
    var replayed := Replay(l, log).value;
    SnapshotRoundTrip(limits, replayed);
    assert |replayed.resolutions.Keys| == |replayed.resolutions|;
  }

  const PLAIN_RELEASE := Resolution(Completed, true, None, None, None)

  lemma PlainFinish(l: Ledger, id: Id, clock: nat, receipt: Receipt)
    requires id in l.attempts && id in l.starts && id !in l.resolutions
    ensures var change := Finish(l, id, PLAIN_RELEASE, clock, Appended(receipt));
            && change.ledger == Tick(l, clock).(starts := l.starts[id := Settle(l.starts[id], PLAIN_RELEASE)],
                                                attempts := Without(l.attempts, id), resolutions := change.ledger.resolutions)
            && change.ledger.resolutions.Keys == l.resolutions.Keys + {id}
            && change.ledger.resolutions[id].at == Now(l, clock)
            && change.entry == Some(Entry(receipt, AttemptResolved(id, PLAIN_RELEASE, Now(l, clock))))
  {
  }

  /** A plain attempt reserved on a ledger that holds none, and one finished on a ledger that holds it. */
  function PlainHeld(l: Ledger, attempt: Id, clock: nat): Ledger {
    Grant(Tick(l, clock).(resolutions := map[]), PlainRequest(attempt), clock)
  }

  lemma PlainReserves(limits: Limits, r: Runtime, attempt: Id, clock: nat, receipt: Receipt)
    requires r.account == PlainAccount(5000) && Sound(r.ledger) && Plain(r.ledger, limits, clock) && r.ledger.attempts == map[]
    requires attempt !in r.ledger.starts && r.ledger.highWater <= clock
    ensures var (after, entry) := Step(limits, r, Reserve(PlainRequest(attempt), Healthy, clock, Appended(receipt)));
            && after == r.(ledger := PlainHeld(r.ledger, attempt, clock))
            && entry.Some? && entry.value.record.AttemptReserved?
  {
    PlainGrant(5000, limits, r.ledger, attempt, clock, receipt);
    hide TryReserve, Plain, Sound;
  }

  lemma PlainHolds(l: Ledger, attempt: Id, clock: nat)
    requires l.attempts == map[] && l.highWater <= clock
    ensures var held := PlainHeld(l, attempt, clock);
            && held.attempts.Keys == {attempt} && held.starts.Keys == l.starts.Keys + {attempt} && held.resolutions == map[]
            && held == l.(attempts := held.attempts, starts := held.starts, resolutions := map[], consumed := held.consumed,
                          monthlyUsed := l.monthlyUsed + 1, highWater := clock)
  {
  }

  lemma PlainFinishes(limits: Limits, r: Runtime, attempt: Id, clock: nat, receipt: Receipt)
    requires Sound(r.ledger) && r.ledger.attempts.Keys == {attempt} && r.ledger.resolutions == map[] && r.ledger.highWater <= clock
    ensures var (after, entry) := Step(limits, r, Finishing(attempt, PLAIN_RELEASE, clock, Appended(receipt)));
            && after.account == r.account && after.ledger.attempts == map[]
            && after.ledger.resolutions.Keys == {attempt} && after.ledger.resolutions[attempt].at == clock
            && after.ledger.starts.Keys == r.ledger.starts.Keys
            && after.ledger == r.ledger.(attempts := map[], starts := after.ledger.starts, resolutions := after.ledger.resolutions, highWater := clock)
            && entry == Some(Entry(receipt, AttemptResolved(attempt, PLAIN_RELEASE, clock)))
  {
    PlainFinish(r.ledger, attempt, clock, receipt);
    hide Finish, CircuitsValid;
  }

  lemma RunUnfolds(limits: Limits, r: Runtime, c: Command, rest: seq<Command>, used: set<Id>)
    requires Sound(r.ledger) && WellFormed(c) && forall x :: x in rest ==> WellFormed(x)
    ensures Sound(Step(limits, r, c).0.ledger) && forall x :: x in [c] + rest ==> WellFormed(x)
    ensures var (next, entry) := Step(limits, r, c);
            && Run(limits, r, [c] + rest) ==
               (Run(limits, next, rest).0, (if entry.Some? then [entry.value] else []) + Run(limits, next, rest).1)
            && (MintsOnce(limits, r, [c] + rest, used) <==> MintsFresh(c, used) && MintsOnce(limits, next, rest, used + Minted(entry)))
  {
    hide Sound, Step, MintsFresh, Minted;
    SoundStep(limits, r, c);
    assert ([c] + rest)[0] == c && ([c] + rest)[1..] == rest;
  }

  /** Running the reservation and the resolution of one plain attempt, and then the rest. */
  lemma PlainRound(limits: Limits, r: Runtime, attempt: Id, clock: nat, later: nat, commands: seq<Command>, rest: seq<Command>, used: set<Id>)
    returns (after: Runtime)
    requires r.account == PlainAccount(5000) && Sound(r.ledger) && Plain(r.ledger, limits, clock) && r.ledger.attempts == map[]
    requires attempt !in used && r.ledger.starts.Keys <= used && r.ledger.highWater <= clock <= later
    requires |commands| == 2 && commands[0] == Reserve(PlainRequest(attempt), Healthy, clock, Appended(Receipt(attempt, attempt)))
    requires commands[1] == Finishing(attempt, PLAIN_RELEASE, later, Appended(Receipt(attempt, attempt)))
    requires forall x :: x in rest ==> WellFormed(x)
    ensures after.account == r.account && Sound(after.ledger) && after.ledger.attempts == map[]
    ensures after.ledger.resolutions.Keys == {attempt} && after.ledger.resolutions[attempt].at == later
    ensures after.ledger.starts.Keys == r.ledger.starts.Keys + {attempt}
    ensures after.ledger == r.ledger.(starts := after.ledger.starts, resolutions := after.ledger.resolutions, consumed := after.ledger.consumed,
                                      monthlyUsed := r.ledger.monthlyUsed + 1, highWater := later)
    ensures forall x :: x in commands + rest ==> WellFormed(x)
    ensures Run(limits, r, commands + rest).0 == Run(limits, after, rest).0
    ensures ResolvedIn(Run(limits, r, commands + rest).1) == {attempt} + ResolvedIn(Run(limits, after, rest).1)
    ensures MintsOnce(limits, after, rest, used + {attempt}) ==> MintsOnce(limits, r, commands + rest, used)
  {
    hide Plain, Sound, Run, MintsOnce, Step, WellFormed, PlainHeld;
    var receipt := Receipt(attempt, attempt);
    PlainReserves(limits, r, attempt, clock, receipt);
    PlainHolds(r.ledger, attempt, clock);
    PlainIsWellFormed(commands[0], commands[1]);
    var (middle, first) := Step(limits, r, commands[0]);
    RunUnfolds(limits, r, commands[0], [commands[1]] + rest, used);
    PlainFinishes(limits, middle, attempt, later, receipt);
    var (last, second) := Step(limits, middle, commands[1]);
    after := last;
    RunUnfolds(limits, middle, commands[1], rest, used + Minted(first));
    assert commands + rest == [commands[0]] + ([commands[1]] + rest);
    ReservedAttempt(limits, r, commands[0], attempt);
    ResolvedCons(first.value, [second.value] + Run(limits, after, rest).1);
    ResolvedCons(second.value, Run(limits, after, rest).1);
    assert used + Minted(first) + Minted(second) == used + {attempt};
  }

  lemma PlainIsWellFormed(c: Command, d: Command)
    requires c.Reserve? && d.Finishing?
    ensures WellFormed(c) && WellFormed(d) && (forall used :: MintsFresh(d, used))
  {
  }

  lemma ReservedAttempt(limits: Limits, r: Runtime, c: Command, attempt: Id)
    requires Sound(r.ledger) && c.Reserve? && c.request.attempt == attempt
    ensures Minted(Step(limits, r, c).1) <= {attempt}
    ensures Step(limits, r, c).1.Some? ==> Minted(Step(limits, r, c).1) == {attempt}
  {
    ReserveShape(r.account, limits, r.ledger, c.request, c.status, c.clock, c.append);
    hide TryReserve, Settled, Screen, CapacityScreen, PruneResolutions, Grant, Sound;
  }

  lemma ResolvedCons(e: Entry, log: seq<Entry>)
    ensures ResolvedIn([e] + log) == (if e.record.AttemptResolved? then {e.record.attempt} else {}) + ResolvedIn(log)
  {
    assert ([e] + log)[1..] == log;
  }

  /** A bound of one resolution, kept for a second. */
  const TIGHT_LIMITS := Limits(1, 1000)

  function PlainPair(attempt: Id, clock: nat, later: nat): seq<Command> {
    [Reserve(PlainRequest(attempt), Healthy, clock, Appended(Receipt(attempt, attempt))),
     Finishing(attempt, PLAIN_RELEASE, later, Appended(Receipt(attempt, attempt)))]
  }

  /** Reserve and finish one attempt, and, once its resolution may be pruned, another. */
  function OutgrowingRun(): seq<Command> { PlainPair(1, 10, 20) + PlainPair(2, 2000, 2010) }

  lemma PlainPairIs(attempt: Id, clock: nat, later: nat)
    ensures var pair := PlainPair(attempt, clock, later);
            && |pair| == 2 && pair[0] == Reserve(PlainRequest(attempt), Healthy, clock, Appended(Receipt(attempt, attempt)))
            && pair[1] == Finishing(attempt, PLAIN_RELEASE, later, Appended(Receipt(attempt, attempt)))
            && forall c :: c in pair ==> WellFormed(c)
  {
  }

  lemma OutgrowingRunIs(start: Runtime, limits: Limits)
    requires limits == TIGHT_LIMITS && start == Runtime(PlainAccount(5000), NewLedger(PlainAccount(5000), 1))
    ensures Sound(start.ledger) && start.ledger.resolutions == map[] && start.ledger.starts == map[]
    ensures forall c :: c in OutgrowingRun() ==> WellFormed(c)
    ensures var (last, log) := Run(limits, start, OutgrowingRun());
            last.ledger.resolutions.Keys == {2} && ResolvedIn(log) == {1, 2}
    ensures MintsOnce(limits, start, OutgrowingRun(), {})
  {
    PlainStart(start, limits);
    PlainPairIs(1, 10, 20);
    PlainPairIs(2, 2000, 2010);
    hide PlainPair;
    TwoPairs(start, limits, PlainPair(1, 10, 20), PlainPair(2, 2000, 2010));
    hide *;
  }

  lemma TwoPairs(start: Runtime, limits: Limits, first: seq<Command>, second: seq<Command>)
    requires limits == TIGHT_LIMITS && start == Runtime(PlainAccount(5000), NewLedger(PlainAccount(5000), 1))
    requires Sound(start.ledger) && Plain(start.ledger, limits, 10) && start.ledger.attempts == map[] && start.ledger.starts == map[]
    requires |first| == 2 && first[0] == Reserve(PlainRequest(1), Healthy, 10, Appended(Receipt(1, 1)))
    requires first[1] == Finishing(1, PLAIN_RELEASE, 20, Appended(Receipt(1, 1)))
    requires |second| == 2 && second[0] == Reserve(PlainRequest(2), Healthy, 2000, Appended(Receipt(2, 2)))
    requires second[1] == Finishing(2, PLAIN_RELEASE, 2010, Appended(Receipt(2, 2)))
    requires forall c :: c in second ==> WellFormed(c)
    ensures forall c :: c in first + second ==> WellFormed(c)
    ensures Run(limits, start, first + second).0.ledger.resolutions.Keys == {2}
    ensures ResolvedIn(Run(limits, start, first + second).1) == {1, 2}
    ensures MintsOnce(limits, start, first + second, {})
  {
    hide Run, MintsOnce, Plain, Sound, WellFormed, ResolvedIn, PlainRequest, PlainAccount, Account.NextMonthlyReset;
    var middle := PlainRound(limits, start, 1, 10, 20, first, second, {});
    PlainAgain(start, middle, limits);
    var last := PlainRound(limits, middle, 2, 2000, 2010, second, [], {1});
    assert second + [] == second;
    RunNothing(limits, last, {1} + {2});
    assert {} + {1} == {1};
  }

  lemma RunNothing(limits: Limits, r: Runtime, used: set<Id>)
    requires Sound(r.ledger)
    ensures Run(limits, r, []) == (r, []) && MintsOnce(limits, r, [], used) && ResolvedIn([]) == {}
  {
  }

  lemma PlainStart(start: Runtime, limits: Limits)
    requires limits == TIGHT_LIMITS && start == Runtime(PlainAccount(5000), NewLedger(PlainAccount(5000), 1))
    ensures Sound(start.ledger) && Plain(start.ledger, limits, 10) && start.ledger.attempts == map[]
    ensures start.ledger.resolutions == map[] && start.ledger.starts == map[]
  {
  }

  lemma PlainAgain(start: Runtime, middle: Runtime, limits: Limits)
    requires limits == TIGHT_LIMITS && start == Runtime(PlainAccount(5000), NewLedger(PlainAccount(5000), 1))
    requires middle.ledger.resolutions.Keys == {1} && middle.ledger.resolutions[1].at == 20
    requires middle.ledger == start.ledger.(starts := middle.ledger.starts, resolutions := middle.ledger.resolutions,
                                            consumed := middle.ledger.consumed, monthlyUsed := start.ledger.monthlyUsed + 1, highWater := 20)
    ensures Plain(middle.ledger, limits, 2000)
  {
  }

  /** Live pruning is not replayed, so a run can be replayed into a ledger that no checkpoint can hold:
      the live ledger of this run keeps one resolution and restores, the replayed one keeps both. */
  lemma ReplayCanOutgrowTheBound(start: Runtime, limits: Limits)
    requires limits == TIGHT_LIMITS && start == Runtime(PlainAccount(5000), NewLedger(PlainAccount(5000), 1))
    ensures Sound(start.ledger) && forall c :: c in OutgrowingRun() ==> WellFormed(c)
    ensures var (last, log) := Run(limits, start, OutgrowingRun());
            && Restore(limits, TakeSnapshot(last.ledger)) == Some(last.ledger)
            && Replay(start.ledger, log).Some?
            && Restore(limits, TakeSnapshot(Replay(start.ledger, log).value)) == None
  {
    hide Run, MintsOnce, Plain, ResolvedIn, Restore, TakeSnapshot, Replay, OutgrowingRun;
    OutgrowingRunIs(start, limits);
    assert start.ledger.starts.Keys + start.ledger.resolutions.Keys == {};
    RecoveryRefinesLive(limits, start, OutgrowingRun());
    SnapshotRoundTrip(limits, start.ledger);
    var (last, log) := Run(limits, start, OutgrowingRun());
    RunIsSound(limits, start, OutgrowingRun());
    SnapshotRoundTrip(limits, last.ledger);
    assert |last.ledger.resolutions.Keys| == |last.ledger.resolutions|;
    ReplayedSnapshotRestoresIff(limits, start.ledger, log);
    assert start.ledger.resolutions.Keys + ResolvedIn(log) == {1, 2};
  }

  lemma {:induction false} RunIsSound(limits: Limits, r: Runtime, commands: seq<Command>)
    requires Sound(r.ledger) && forall c :: c in commands ==> WellFormed(c)
    ensures Sound(Run(limits, r, commands).0.ledger)
    decreases |commands|
  {
    hide Step, WellFormed, CircuitsValid;
    if commands != [] {
      SoundStep(limits, r, commands[0]);
      RunIsSound(limits, Step(limits, r, commands[0]).0, commands[1..]);
    }
  }

  /** Replaying two logs one after the other is replaying their concatenation. */
  lemma {:induction false} ReplaySplit(l: Ledger, first: seq<Entry>, second: seq<Entry>)
    ensures Replay(l, first + second) ==
            if Replay(l, first).None? then None else Replay(Replay(l, first).value, second)
    decreases |first|
  {
    if first == [] {
      assert [] + second == second;
    } else {
      assert (first + second)[1..] == first[1..] + second;
      if Apply(l, first[0]).Some? {
        ReplaySplit(Apply(l, first[0]).value, first[1..], second);
      }
    }
  }

  lemma ReplayAppend(l: Ledger, log: seq<Entry>, e: Entry)
    requires Replay(l, log).Some?
    ensures Replay(l, log + [e]) == Apply(Replay(l, log).value, e)
  {
    ReplaySplit(l, log, [e]);
    var middle := Replay(l, log).value;
    if Apply(middle, e).Some? {
      assert Replay(Apply(middle, e).value, [e][1..]) == Apply(middle, e);
    }
  }

  // ---------------------------------------------------------------- restart

  lemma ReservedAside(l: Ledger, highWater: nat, v: Reservation)
    ensures ApplyReserved(l.(highWater := highWater), v) == ApplyReserved(l, v).(highWater := highWater)
  {
  }

  lemma DispatchedAside(l: Ledger, highWater: nat, receipt: Receipt, id: Id, at: nat)
    ensures ApplyDispatched(l.(highWater := highWater), receipt, id, at) ==
            var next := ApplyDispatched(l, receipt, id, at);
            if next.None? then None else Some(next.value.(highWater := highWater))
  {
  }

  lemma ResolvedAside(l: Ledger, highWater: nat, receipt: Receipt, id: Id, resolution: Resolution, at: nat)
    ensures ApplyResolved(l.(highWater := highWater), receipt, id, resolution, at) ==
            var next := ApplyResolved(l, receipt, id, resolution, at);
            if next.None? then None else Some(next.value.(highWater := highWater))
  {
  }

  lemma CircuitAside(l: Ledger, highWater: nat, generation: Option<Id>, value: Circuit)
    ensures ApplyCircuit(l.(highWater := highWater), generation, value) ==
            var next := ApplyCircuit(l, generation, value);
            if next.None? then None else Some(next.value.(highWater := highWater))
  {
  }

  lemma CountAside(l: Ledger, highWater: nat, count: nat)
    ensures l.(highWater := highWater).AnyLive() == l.AnyLive()
    ensures ApplyActiveCount(l.(highWater := highWater), count) == ApplyActiveCount(l, count).(highWater := highWater)
  {
  }

  lemma ProbeAside(l: Ledger, highWater: nat, probing: Probing)
    ensures ApplyProbeFinished(l.(highWater := highWater), probing) == ApplyProbeFinished(l, probing).(highWater := highWater)
  {
  }

  /** Replay does not look at the clock. */
  lemma ApplyAside(l: Ledger, highWater: nat, e: Entry)
    ensures Apply(l.(highWater := highWater), e) ==
            var next := Apply(l, e);
            if next.None? then None else Some(next.value.(highWater := highWater))
  {
    match e.record
    case AttemptReserved(v) => ReservedAside(l, highWater, v);
    case AttemptDispatched(id, at) => DispatchedAside(l, highWater, e.receipt, id, at);
    case AttemptResolved(id, resolution, at) => ResolvedAside(l, highWater, e.receipt, id, resolution, at);
    case AttemptUncertain(id) =>
    case CircuitUpdated(generation, value) => CircuitAside(l, highWater, generation, value);
    case ActiveCountRecorded(count) => CountAside(l, highWater, count);
    case ProbeStarted(probe) =>
    case ProbeFinished(_, probing) => ProbeAside(l, highWater, probing);
  }

  /** `log` takes `base` to `l`, up to the clock, which replay does not rebuild. */
  ghost predicate ReplaysTo(base: Ledger, log: seq<Entry>, l: Ledger) {
    Replay(base, log) == Some(l.(highWater := base.highWater))
  }

  lemma ReplaysOneMore(base: Ledger, log: seq<Entry>, l: Ledger, e: Entry, after: Ledger)
    requires ReplaysTo(base, log, l) && Apply(l, e) == Some(after.(highWater := l.highWater))
    ensures ReplaysTo(base, log + [e], after)
  {
    ReplayAppend(base, log, e);
    ApplyAside(l, base.highWater, e);
  }

  /** What a restart makes of one circuit. */
  function AfterRestart(c: Circuit, now: nat): Circuit { if c.state.HalfOpen? then Reopened(c, now) else c }

  /** A restart marks every attempt uncertain, gives up the recovery probe and reopens every half-open
      circuit. It gives back no slot and forgets no charge. */
  ghost predicate Restarted(before: Ledger, after: Ledger, now: nat) {
    && after.attempts.Keys == before.attempts.Keys
    && (forall id :: id in before.attempts ==> after.attempts[id] == before.attempts[id].(state := Uncertain))
    && after.circuits.Keys == before.circuits.Keys
    && (forall g :: g in before.circuits ==> after.circuits[g] == AfterRestart(before.circuits[g], now))
    && after.accountCircuit == AfterRestart(before.accountCircuit, now)
    && after.recoveryProbe == None
    && after.holds == before.holds
    && after.starts == before.starts && after.resolutions == before.resolutions
    && after.monthlyUsed == before.monthlyUsed && after.monthlyReset == before.monthlyReset
    && (forall t :: t in after.consumed <==> t in before.consumed && !LentBy(before.accountCircuit, t) && !LentOutside(before, {}, t))
    && (forall t :: t in after.consumed ==> after.consumed[t] == before.consumed[t])
    && after.highWater == if before.accountCircuit.state.HalfOpen? || HalfOpenOutside(before, {}) then now else before.highWater
  }

  predicate LentBy(c: Circuit, token: Id) { c.state.HalfOpen? && c.probe == Some(token) }

  /** A half-open circuit outside `todo` holds the token. */
  predicate LentOutside(l: Ledger, todo: set<Id>, token: Id) {
    exists g :: g in l.circuits && g !in todo && LentBy(l.circuits[g], token)
  }

  predicate HalfOpenOutside(l: Ledger, todo: set<Id>) {
    exists g :: g in l.circuits && g !in todo && l.circuits[g].state.HalfOpen?
  }

  /** The circuits outside `todo` have been reopened where they were half open. */
  ghost predicate PartlyReopened(base: Ledger, l: Ledger, todo: set<Id>, now: nat) {
    && l == base.(highWater := l.highWater, circuits := l.circuits, consumed := l.consumed)
    && l.highWater == (if HalfOpenOutside(base, todo) then now else base.highWater)
    && FreedOutside(base, l, todo) && ReopenedOutside(base, l, todo, now) && CircuitsValid(l)
  }

  ghost predicate FreedOutside(base: Ledger, l: Ledger, todo: set<Id>) {
    && (forall t :: t in l.consumed <==> t in base.consumed && !LentOutside(base, todo, t))
    && (forall t :: t in l.consumed ==> l.consumed[t] == base.consumed[t])
  }

  ghost predicate ReopenedOutside(base: Ledger, l: Ledger, todo: set<Id>, now: nat) {
    && l.circuits.Keys == base.circuits.Keys && todo <= l.circuits.Keys
    && (forall g :: g in l.circuits ==>
          l.circuits[g] == if g in todo then base.circuits[g] else AfterRestart(base.circuits[g], now))
  }

  /** The ledger after a half-open circuit has been reopened at `now`. */
  function Reopen(l: Ledger, generation: Option<Id>, now: nat): Ledger {
    var c := if generation.None? then l.accountCircuit else l.CircuitOf(generation.value);
    if !c.state.HalfOpen? then l
    else
      var freed := l.(highWater := now, consumed := Forget(l.consumed, c.probe));
      if generation.None? then freed.(accountCircuit := Reopened(c, now))
      else freed.(circuits := l.circuits[generation.value := Reopened(c, now)])
  }

  lemma ReopenReplays(l: Ledger, generation: Option<Id>, now: nat, receipt: Receipt)
    requires CircuitsValid(l) && 0 < now
    ensures CircuitsValid(Reopen(l, generation, now))
    ensures var c := if generation.None? then l.accountCircuit else l.CircuitOf(generation.value);
            c.state.HalfOpen? ==>
              && c != Reopened(c, now) && Reopened(c, now).Valid()
              && Apply(l, Entry(receipt, CircuitUpdated(generation, Reopened(c, now))))
                 == Some(Reopen(l, generation, now).(highWater := l.highWater))
  {
  }

  lemma PartlyReopenedStep(base: Ledger, l: Ledger, todo: set<Id>, g: Id, now: nat)
    requires PartlyReopened(base, l, todo, now) && g in todo && 0 < now
    ensures PartlyReopened(base, Reopen(l, Some(g), now), todo - {g}, now)
  {
    hide CircuitsValid, Reopen, LentOutside, HalfOpenOutside, FreedOutside, AfterRestart;
    ReopenReplays(l, Some(g), now, Receipt(0, 0));
    OneMoreOutside(base, todo, g);
    GenerationFreed(l, g, now);
    FreedStep(base, l, todo, g, now);
  }

  lemma FreedStep(base: Ledger, l: Ledger, todo: set<Id>, g: Id, now: nat)
    requires FreedOutside(base, l, todo) && g in todo && g in base.circuits && g in l.circuits && l.circuits[g] == base.circuits[g]
    ensures FreedOutside(base, Reopen(l, Some(g), now), todo - {g})
  {
    OneMoreOutside(base, todo, g);
    GenerationFreed(l, g, now);
    hide Reopen, LentOutside, HalfOpenOutside, LentBy, AfterRestart;
  }

  /** Reopening a deployment's circuit frees its token. */
  lemma GenerationFreed(l: Ledger, g: Id, now: nat)
    requires g in l.circuits
    ensures var after := Reopen(l, Some(g), now);
            && (forall t :: t in after.consumed <==> t in l.consumed && !LentBy(l.circuits[g], t))
            && (forall t :: t in after.consumed ==> after.consumed[t] == l.consumed[t])
            && after.highWater == (if l.circuits[g].state.HalfOpen? then now else l.highWater)
            && after.circuits.Keys == l.circuits.Keys
            && (forall k :: k in l.circuits ==> after.circuits[k] == if k == g then AfterRestart(l.circuits[g], now) else l.circuits[k])
            && after == l.(highWater := after.highWater, consumed := after.consumed, circuits := after.circuits)
  {
  }

  /** One circuit more outside. */
  lemma OneMoreOutside(l: Ledger, todo: set<Id>, g: Id)
    requires g in todo && g in l.circuits
    ensures forall t :: LentOutside(l, todo - {g}, t) <==> LentOutside(l, todo, t) || LentBy(l.circuits[g], t)
    ensures HalfOpenOutside(l, todo - {g}) <==> HalfOpenOutside(l, todo) || l.circuits[g].state.HalfOpen?
  {
  }

  lemma SameOutside(a: Ledger, b: Ledger, todo: set<Id>)
    requires a.circuits == b.circuits
    ensures forall t :: LentOutside(a, todo, t) <==> LentOutside(b, todo, t)
    ensures HalfOpenOutside(a, todo) <==> HalfOpenOutside(b, todo)
  {
  }

  lemma AllUncertain(attempts: map<Id, Attempt>)
    requires forall id :: id in attempts ==> attempts[id].state.Uncertain?
    ensures UncertainOf(attempts) == attempts
  {
  }

  /** After a restart every slot is still held, no attempt counts as live and no circuit is half open;
      and restarting once more changes nothing. */
  lemma RestartIsConservative(before: Ledger, after: Ledger, again: Ledger, now: nat, later: nat)
    requires Restarted(before, after, now) && Restarted(after, again, later)
    ensures after.ActiveCount() == before.ActiveCount() == after.UncertainCount()
    ensures !after.AnyLive() && !after.accountCircuit.state.HalfOpen?
    ensures forall g :: g in after.circuits ==> !after.circuits[g].state.HalfOpen?
    ensures again.attempts == after.attempts && again.circuits == after.circuits && again.accountCircuit == after.accountCircuit
  {
    assert |after.attempts.Keys| == |after.attempts| && |before.attempts.Keys| == |before.attempts|;
    AllUncertain(after.attempts);
    RestartAgain(after, again, later);
  }

  lemma RestartAgain(after: Ledger, again: Ledger, later: nat)
    requires Restarted(after, again, later)
    requires forall id :: id in after.attempts ==> after.attempts[id].state.Uncertain?
    requires forall g :: g in after.circuits ==> !after.circuits[g].state.HalfOpen?
    ensures again.attempts == after.attempts && again.circuits == after.circuits
  {
  }
}
