/** What the other commands of the ledger answer and leave behind, said over the ledger's fields. Like
    LedgerRules it calls no transition in its definitions. */
module LedgerEffects {
  import opened Common
  import opened LedgerModel
  import opened LedgerReplay
  import opened LedgerLimits
  import opened LedgerRules

  /** The attempt holds a slot and its outcome is not known yet. */
  predicate IsOpen(l: Ledger, id: Id) { id in l.attempts && id !in l.resolutions }

  predicate SomethingLive(l: Ledger) { exists id :: id in l.attempts && l.attempts[id].state == Live }

  predicate SomethingUncertain(l: Ledger) { l.holds > 0 || exists id :: id in l.attempts && l.attempts[id].state == Uncertain }

  /** The ledger with a later clock and nothing else. */
  predicate OnlyClock(l: Ledger, now: nat, after: Ledger) { after == l.(highWater := now) }

  /** Everything but attempts is as it was, up to the clock. */
  predicate OnlyAttempts(l: Ledger, after: Ledger) {
    && CircuitsKept(l, after) && after.starts == l.starts && after.resolutions == l.resolutions
    && after.consumed == l.consumed && after.monthlyUsed == l.monthlyUsed && after.monthlyReset == l.monthlyReset
  }

  /** The other attempts are as they were. */
  predicate OthersKept<V(==)>(before: map<Id, V>, id: Id, after: map<Id, V>) {
    && (forall k :: k in before && k != id ==> k in after && after[k] == before[k])
    && (forall k :: k in after && k != id ==> k in before)
  }

  // ---------------------------------------------------------------- dispatch

  /** Stamped with the instant and the receipt, and otherwise the same attempt. */
  predicate Stamped(a: Attempt, now: nat, receipt: Receipt, b: Attempt) {
    && b.dispatchedAt == Some(now) && b.receipt == Some(receipt)
    && b.(dispatchedAt := a.dispatchedAt, receipt := a.receipt) == a
  }

  /** An open attempt is stamped once, strictly before its deadline, and only with a durable record; a
      stamped one says so again. Anything else is refused, and changes the clock at most. */
  lemma DispatchStamps(l: Ledger, id: Id, clock: nat, append: Append)
    ensures var change := MarkDispatched(l, id, clock, append); var now := Instant(l, clock);
            var unsent := IsOpen(l, id) && l.attempts[id].receipt == None;
            var stamps := unsent && now < l.attempts[id].deadline && append.Appended?;
            && (change.ok <==> stamps || (IsOpen(l, id) && l.attempts[id].receipt != None))
            && (stamps ==>
                && change.entry == Some(Entry(append.receipt, AttemptDispatched(id, now)))
                && OnlyAttempts(l, change.ledger) && change.ledger.highWater == now
                && OthersKept(l.attempts, id, change.ledger.attempts) && id in change.ledger.attempts
                && Stamped(l.attempts[id], now, append.receipt, change.ledger.attempts[id]))
            && (!stamps ==>
                && change.entry == None
                && (if unsent then OnlyClock(l, now, change.ledger) else change.ledger == l))
  {
  }

  // ---------------------------------------------------------------- resolution

  predicate WithinReservation(a: Attempt, resolution: Resolution) {
    && (match resolution.actualTokens case Some(n) => n <= a.tokens case None => true)
    && (match resolution.actualQuota case Some(n) => n <= a.quota case None => true)
  }

  /** The start keeps its instant, takes the actual tokens, and stops counting if nothing was started. */
  predicate StartSettled(before: Start, resolution: Resolution, after: Start) {
    && after.at == before.at
    && (match resolution.actualTokens case Some(n) => after.tokens == n case None => after.tokens == before.tokens)
    && (after.counted <==> before.counted && !(resolution.actualStarts == Some(0)))
  }

  /** The month gives back what was not used, if it is still the month of the reservation. */
  predicate MonthSettled(l: Ledger, a: Attempt, resolution: Resolution, used: nat) {
    match resolution.actualQuota
    case Some(n) =>
      if a.monthlyReset != l.monthlyReset then used == l.monthlyUsed
      else if l.monthlyUsed + n < a.quota then used == 0
      else used + a.quota == l.monthlyUsed + n
    case None => used == l.monthlyUsed
  }

  /** A released attempt gives its slot back; an unreleased one keeps it as uncertain. */
  predicate SlotSettled(l: Ledger, id: Id, resolution: Resolution, after: map<Id, Attempt>)
    requires id in l.attempts
  {
    && OthersKept(l.attempts, id, after)
    && (if resolution.release then id !in after
        else id in after && after[id].state == Uncertain && after[id].(state := l.attempts[id].state) == l.attempts[id])
  }

  /** What a resolution remembers of the attempt: where it was sent, if it was. */
  predicate DispatchRemembered(id: Id, a: Attempt, dispatch: Option<Dispatch>) {
    match a.dispatchedAt
    case None => dispatch == None
    case Some(at) =>
      && dispatch.Some? && dispatch.value.attempt == id && dispatch.value.at == at
      && dispatch.value.request == a.binding.request && dispatch.value.leg == a.binding.leg
      && dispatch.value.generation == a.binding.generation
      && dispatch.value.circuitEpoch == a.circuitEpoch && dispatch.value.accountEpoch == a.accountEpoch
      && dispatch.value.circuitProbe == a.circuitProbe && dispatch.value.accountProbe == a.accountProbe
  }

  predicate ResolutionWritten(l: Ledger, id: Id, resolution: Resolution, receipt: Receipt, now: nat, after: map<Id, Resolved>)
    requires id in l.attempts
  {
    && OthersKept(l.resolutions, id, after) && id in after
    && after[id].digest == resolution && after[id].receipt == receipt && after[id].at == now
    && DispatchRemembered(id, l.attempts[id], after[id].dispatch)
  }

  /** The whole ledger after an attempt has been resolved. */
  predicate Resolving(l: Ledger, id: Id, resolution: Resolution, receipt: Receipt, now: nat, after: Ledger)
    requires id in l.attempts && id in l.starts
  {
    && CircuitsKept(l, after) && after.consumed == l.consumed && after.highWater == now
    && after.monthlyReset == l.monthlyReset
    && OthersKept(l.starts, id, after.starts) && id in after.starts && StartSettled(l.starts[id], resolution, after.starts[id])
    && MonthSettled(l, l.attempts[id], resolution, after.monthlyUsed)
    && SlotSettled(l, id, resolution, after.attempts)
    && ResolutionWritten(l, id, resolution, receipt, now, after.resolutions)
  }

  /** An open attempt is resolved exactly if nothing more was used than reserved and the record is
      durable. One that has been resolved repeats its answer to the same resolution and refuses any other. */
  lemma FinishSettles(l: Ledger, id: Id, resolution: Resolution, clock: nat, append: Append)
    requires Runnable(l)
    ensures var change := Finish(l, id, resolution, clock, append); var now := Instant(l, clock);
            var settles := IsOpen(l, id) && WithinReservation(l.attempts[id], resolution) && append.Appended?;
            && (change.ok <==> settles || (id in l.resolutions && l.resolutions[id].digest == resolution))
            && (settles ==>
                && change.entry == Some(Entry(append.receipt, AttemptResolved(id, resolution, now)))
                && id in l.starts && Resolving(l, id, resolution, append.receipt, now, change.ledger))
            && (!settles ==>
                && change.entry == None
                && (if IsOpen(l, id) && WithinReservation(l.attempts[id], resolution) then OnlyClock(l, now, change.ledger)
                    else change.ledger == l))
  {
    hide DispatchOf;
    if IsOpen(l, id) {
      ReservationBounds(l.attempts[id], resolution);
      DispatchIs(id, l.attempts[id]);
    }
  }

  lemma ReservationBounds(a: Attempt, resolution: Resolution)
    ensures WithinReservation(a, resolution) <==> !ExceedsReservation(a, resolution)
  {
  }

  lemma DispatchIs(id: Id, a: Attempt)
    ensures DispatchRemembered(id, a, DispatchOf(id, a))
  {
  }

  // ---------------------------------------------------------------- circuits

  /** A circuit is replaced exactly if it is the one expected, its epoch does not go back and the record
      is durable; the probe of the one replaced may then be used again. Replacing it by itself succeeds
      and does nothing. */
  lemma SwapReplaces(l: Ledger, generation: Option<Id>, expected: Circuit, replacement: Circuit, append: Append)
    ensures var change := SwapCircuit(l, generation, expected, replacement, append);
            var current := match generation case Some(g) => CurrentCircuit(l, g) case None => l.accountCircuit;
            var matches := current == expected && expected.epoch <= replacement.epoch;
            var swaps := matches && replacement != expected && append.Appended?;
            && (change.ok <==> swaps || (matches && replacement == expected))
            && (!swaps ==> change.ledger == l && change.entry == None)
            && (swaps ==>
                && change.entry == Some(Entry(append.receipt, CircuitUpdated(generation, replacement)))
                && (match generation
                    case Some(g) => change.ledger.circuits == l.circuits[g := replacement] && change.ledger.accountCircuit == l.accountCircuit
                    case None => change.ledger.accountCircuit == replacement && change.ledger.circuits == l.circuits)
                && (forall token :: token in change.ledger.consumed <==> token in l.consumed && expected.probe != Some(token))
                && (forall token :: token in change.ledger.consumed ==> change.ledger.consumed[token] == l.consumed[token])
                && change.ledger.(circuits := l.circuits, accountCircuit := l.accountCircuit, consumed := l.consumed) == l)
  {
  }

  // ---------------------------------------------------------------- authoritative counts and probes

  /** `a` started before `b`, or at the same instant with the smaller identifier. */
  predicate StartedBefore(attempts: map<Id, Attempt>, a: Id, b: Id)
    requires a in attempts && b in attempts
  {
    attempts[a].startedAt < attempts[b].startedAt || (attempts[a].startedAt == attempts[b].startedAt && a < b)
  }

  /** Some of the attempts, each older than each of the others. */
  ghost predicate Oldest(attempts: map<Id, Attempt>, kept: map<Id, Attempt>) {
    && (forall id :: id in kept ==> id in attempts && kept[id] == attempts[id])
    && (forall a, b :: a in kept && b in attempts && b !in kept ==> a in attempts && StartedBefore(attempts, a, b))
  }

  lemma PrefixHolds(s: seq<Id>, n: nat)
    requires n <= |s|
    ensures forall j :: 0 <= j < n ==> s[j] in s[..n]
  {
    forall j | 0 <= j < n ensures s[j] in s[..n] { assert s[..n][j] == s[j]; }
  }

  lemma OldestAreOldest(attempts: map<Id, Attempt>, count: nat)
    ensures Oldest(attempts, OldestAttempts(attempts, count))
    ensures |OldestAttempts(attempts, count)| == if count < |attempts| then count else |attempts|
  {
    OldestCount(attempts, count);
    var s := Ordered(attempts, AttemptInstant);
    var n := Min(count, |attempts|);
    var kept := OldestAttempts(attempts, count);
    forall a, b | a in kept && b in attempts && b !in kept
      ensures StartedBefore(attempts, a, b)
    {
      assert a in s[..n] && b in s && b !in s[..n];
      var i :| 0 <= i < n && s[i] == a;
      var j :| 0 <= j < |s| && s[j] == b;
      PrefixHolds(s, n);
      OrderedSorted(attempts, AttemptInstant, i, j);
    }
  }

  /** An authoritative count is taken exactly while nothing is live. The oldest attempts stay, as many as
      there are slots, and slots without an attempt are held. */
  lemma CountKeepsOldest(l: Ledger, count: nat, append: Append)
    ensures var change := SetActiveCount(l, count, append); var after := change.ledger;
            && (change.ok <==> !SomethingLive(l) && append.Appended?)
            && (!change.ok ==> after == l && change.entry == None)
            && (change.ok ==>
                && change.entry == Some(Entry(append.receipt, ActiveCountRecorded(count)))
                && Oldest(l.attempts, after.attempts)
                && |after.attempts| == (if count < |l.attempts| then count else |l.attempts|)
                && |after.attempts| + after.holds == count
                && after.(attempts := l.attempts, holds := l.holds) == l)
  {
    hide OldestAttempts, Oldest;
    OldestAreOldest(l.attempts, count);
  }

  /** A recovery probe starts exactly while none is running, nothing is live and something is uncertain. */
  lemma ProbeStarts(l: Ledger, probe: Id, append: Append)
    ensures var change := BeginProbe(l, probe, append);
            && (change.ok <==> l.recoveryProbe == None && !SomethingLive(l) && SomethingUncertain(l) && append.Appended?)
            && (change.ok ==> change.entry == Some(Entry(append.receipt, ProbeStarted(probe)))
                              && change.ledger == l.(recoveryProbe := Some(probe)))
            && (!change.ok ==> change.ledger == l && change.entry == None)
  {
    UncertaintyIs(l);
  }

  lemma UncertaintyIs(l: Ledger)
    ensures l.UncertainCount() > 0 <==> SomethingUncertain(l)
  {
    var u := UncertainOf(l.attempts);
    assert u == map[] <==> |u| == 0;
    if id :| id in l.attempts && l.attempts[id].state == Uncertain {
      assert id in u;
    }
    if u != map[] {
      var id :| id in u;
      assert l.attempts[id].state == Uncertain;
    }
  }

  /** The oldest uncertain attempt is gone, if there is one, and nothing else. */
  ghost predicate OldestUncertainGone(before: map<Id, Attempt>, after: map<Id, Attempt>) {
    if forall id :: id in before ==> before[id].state == Live then after == before
    else
      exists id ::
        && id in before && before[id].state == Uncertain
        && (forall j :: j in before && before[j].state == Uncertain && j != id ==> StartedBefore(before, id, j))
        && id !in after && OthersKept(before, id, after)
  }

  lemma WithoutOldestIs(attempts: map<Id, Attempt>)
    ensures OldestUncertainGone(attempts, WithoutOldestUncertain(attempts))
  {
    var u := UncertainOf(attempts);
    if id :| id in attempts && attempts[id].state != Live {
      assert id in u;
      var first := First(u, AttemptInstant);
      var after := WithoutOldestUncertain(attempts);
      assert first in attempts && attempts[first].state == Uncertain;
      forall j | j in attempts && attempts[j].state == Uncertain && j != first
        ensures StartedBefore(attempts, first, j)
      {
        assert j in u && u[j] == attempts[j];
      }
      assert first !in after && OthersKept(attempts, first, after);
    } else {
      assert u == map[];
    }
  }

  /** Exactly the running probe ends, while nothing is live. If it found the provider available, one slot
      comes back: a held one if there is one, and otherwise that of the oldest uncertain attempt. */
  lemma ProbeEnding(l: Ledger, probe: Id, probing: Probing, append: Append)
    ensures var change := FinishProbe(l, probe, probing, append); var after := change.ledger;
            && (change.ok <==> l.recoveryProbe == Some(probe) && !SomethingLive(l) && append.Appended?)
            && (!change.ok ==> after == l && change.entry == None)
            && (change.ok ==>
                && change.entry == Some(Entry(append.receipt, ProbeFinished(probe, probing)))
                && after.recoveryProbe == None
                && (if probing != Available then after.holds == l.holds && after.attempts == l.attempts
                    else if l.holds > 0 then after.holds + 1 == l.holds && after.attempts == l.attempts
                    else after.holds == 0 && OldestUncertainGone(l.attempts, after.attempts))
                && after.(attempts := l.attempts, holds := l.holds, recoveryProbe := l.recoveryProbe) == l)
  {
    hide WithoutOldestUncertain, OldestUncertainGone;
    WithoutOldestIs(l.attempts);
  }

  /** A restart marks exactly live attempts. */
  lemma MarkingMarks(l: Ledger, id: Id, append: Append)
    ensures var change := MarkUncertain(l, id, append);
            && (change.ok <==> id in l.attempts && l.attempts[id].state == Live && append.Appended?)
            && (!change.ok ==> change.ledger == l && change.entry == None)
            && (change.ok ==>
                && change.entry == Some(Entry(append.receipt, AttemptUncertain(id)))
                && OnlyAttempts(l, change.ledger) && change.ledger.highWater == l.highWater
                && OthersKept(l.attempts, id, change.ledger.attempts) && id in change.ledger.attempts
                && change.ledger.attempts[id].state == Uncertain
                && change.ledger.attempts[id].(state := Live) == l.attempts[id])
  {
  }

  /** A restart opens a half-open circuit again, under the next epoch and with one step more of backoff
      (at most 64), to be probed at once; every other circuit stays. */
  predicate ReopenedAt(c: Circuit, now: nat, r: Circuit) {
    if c.state != HalfOpen then r == c
    else
      && r.state == Open && r.epoch == c.epoch + 1 && r.retryAt == now && r.probe == None
      && r.cause == c.cause && r.openedAt == c.openedAt && r.evidence == c.evidence
      && (if c.backoff < 64 then r.backoff == c.backoff + 1 else r.backoff == 64)
  }

  lemma RestartReopens(before: Ledger, after: Ledger, now: nat)
    requires Restarted(before, after, now)
    ensures ReopenedAt(before.accountCircuit, now, after.accountCircuit)
    ensures after.circuits.Keys == before.circuits.Keys
    ensures forall g :: g in before.circuits ==> ReopenedAt(before.circuits[g], now, after.circuits[g])
    ensures after.attempts.Keys == before.attempts.Keys && !SomethingLive(after)
    ensures forall id :: id in before.attempts ==> after.attempts[id].(state := before.attempts[id].state) == before.attempts[id]
  {
  }

  // ---------------------------------------------------------------- accounts and readings

  /** The configured reset instant, if the month is limited and the instant is still ahead. */
  predicate ResetAhead(a: Account, now: nat, reset: nat) {
    if a.monthly.Known? && a.monthlyResetAt.Some? && now < a.monthlyResetAt.value then reset == a.monthlyResetAt.value
    else reset == 0
  }

  lemma NewLedgerIsEmpty(a: Account, clock: nat)
    ensures var l := NewLedger(a, clock);
            && l.starts == map[] && l.attempts == map[] && l.resolutions == map[] && l.circuits == map[] && l.consumed == map[]
            && l.accountCircuit == CurrentCircuit(l, 0) && l.monthlyUsed == 0 && l.highWater == clock && l.holds == 0
            && l.recoveryProbe == None && ResetAhead(a, clock, l.monthlyReset)
  {
  }

  /** A publication ends a month that is over and never brings a reset nearer. */
  lemma PublicationExtends(l: Ledger, a: Account, clock: nat, ahead: nat)
    requires ResetAhead(a, Instant(l, clock), ahead)
    ensures var after := Publish(l, a, clock); var now := Instant(l, clock);
            && after.highWater == now && after.monthlyUsed == UsedNow(l, now)
            && after.monthlyReset == (if ResetNow(l, now) < ahead then ahead else ResetNow(l, now))
            && after.(highWater := l.highWater, monthlyUsed := l.monthlyUsed, monthlyReset := l.monthlyReset) == l
  {
  }

  /** Reading the capacity forgets old starts and a month that is over. */
  lemma ReadingPurges(l: Ledger, clock: nat)
    ensures var after := ReadCapacity(l, clock); var now := Instant(l, clock);
            && StartsKept(l, now, after.starts) && after.highWater == now
            && after.monthlyUsed == UsedNow(l, now) && after.monthlyReset == ResetNow(l, now)
            && after.(starts := l.starts, highWater := l.highWater, monthlyUsed := l.monthlyUsed, monthlyReset := l.monthlyReset) == l
  {
  }

  /** The figures that a reading reports. */
  lemma FiguresAre(a: Account, l: Ledger, now: nat)
    ensures |RpmStarts(l.starts, now, a.RpmWindow())| == |CountedStarts(l, a.rpmWindowSeconds, now)|
    ensures Total(TpmStarts(l.starts, now, a.TpmWindow()), StartTokens) == TokensOfLast(l, a.tpmWindowSeconds, now)
    ensures l.UncertainCount() == |set id | id in l.attempts && l.attempts[id].state == Uncertain| + l.holds
  {
    var inside := RpmStarts(l.starts, now, a.RpmWindow());
    assert inside.Keys == CountedStarts(l, a.rpmWindowSeconds, now) && |inside.Keys| == |inside|;
    WindowSum(a, l, now);
    var u := UncertainOf(l.attempts);
    assert u.Keys == (set id | id in l.attempts && l.attempts[id].state == Uncertain) && |u.Keys| == |u|;
  }

  // ---------------------------------------------------------------- commands

  /** A run takes each command to what it names, and records what that appended. */
  lemma StepTakes(limits: Limits, r: Runtime, c: Command)
    requires Runnable(r.ledger)
    ensures var (after, entry) := Step(limits, r, c); var l := r.ledger;
            && after.account == (if c.Publishing? then c.account else r.account)
            && (c.Reserve? ==>
                  var (left, verdict) := TryReserve(r.account, limits, l, c.request, c.status, c.clock, c.append);
                  after.ledger == left && entry == (if verdict.Granted? then Some(verdict.entry) else None))
            && (c.Dispatching? ==> var x := MarkDispatched(l, c.attempt, c.clock, c.append); after.ledger == x.ledger && entry == x.entry)
            && (c.Finishing? ==> var x := Finish(l, c.attempt, c.resolution, c.clock, c.append); after.ledger == x.ledger && entry == x.entry)
            && (c.Swapping? ==> var x := SwapCircuit(l, c.generation, c.expected, c.replacement, c.append); after.ledger == x.ledger && entry == x.entry)
            && (c.Counting? ==> var x := SetActiveCount(l, c.count, c.append); after.ledger == x.ledger && entry == x.entry)
            && (c.ProbeBegins? ==> var x := BeginProbe(l, c.probe, c.append); after.ledger == x.ledger && entry == x.entry)
            && (c.ProbeEnds? ==> var x := FinishProbe(l, c.probe, c.probing, c.append); after.ledger == x.ledger && entry == x.entry)
            && (c.Marking? ==> var x := MarkUncertain(l, c.attempt, c.append); after.ledger == x.ledger && entry == x.entry)
            && (c.Publishing? ==> after.ledger == Publish(l, c.account, c.clock) && entry == None)
            && (c.Reading? ==> after.ledger == ReadCapacity(l, c.clock) && entry == None)
  {
    hide TryReserve, MarkDispatched, Finish, SwapCircuit, SetActiveCount, BeginProbe, FinishProbe, MarkUncertain, Publish, ReadCapacity;
  }
}
