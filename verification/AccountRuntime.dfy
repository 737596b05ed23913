/** The mutable counters of one provider account. Every method updates the fields in place and is
    proved to do to the ledger what LedgerModel says, record replay included. */
module Accounts {
  import opened Common
  import opened LedgerModel
  import opened LedgerReplay
  import opened LedgerRules
  import opened LedgerEffects

  /** Walk the starts in order until enough tokens have left the window. */
  method WalkStarts(order: seq<Id>, starts: map<Id, Start>, total: nat, requested: nat, limit: nat, window: nat)
    returns (retry: Option<nat>)
    requires forall id :: id in order ==> id in starts
    ensures retry == RetryScan(order, starts, total, requested, limit, window)
  {
    var left: int := total;
    var i := 0;
    assert order[0..] == order;
    while i < |order|
      invariant 0 <= i <= |order|
      invariant RetryScan(order, starts, total, requested, limit, window) == RetryScan(order[i..], starts, left, requested, limit, window)
    {
      var start := starts[order[i]];
      assert order[i..] == [order[i]] + order[i + 1..];
      ScanCons(order[i], order[i + 1..], starts, left, requested, limit, window);
      left := left - start.tokens;
      if left + requested <= limit {
        return Some(start.at + window);
      }
      i := i + 1;
    }
    return None;
  }

  class AccountRuntime {
    const limits: Limits
    var account: Account
    var starts: map<Id, Start>
    var attempts: map<Id, Attempt>
    var resolutions: map<Id, Resolved>
    var circuits: map<Id, Circuit>
    var accountCircuit: Circuit
    var consumed: map<Id, Id>
    var monthlyUsed: nat
    var monthlyReset: nat
    var highWater: nat
    var holds: nat
    var recoveryProbe: Option<Id>

    /** The ledger that the fields hold. */
    ghost function State(): Ledger
      reads this
    {
      Ledger(starts, attempts, resolutions, circuits, accountCircuit, consumed, monthlyUsed, monthlyReset,
             highWater, holds, recoveryProbe)
    }

    constructor (account: Account, limits: Limits, clock: nat)
      ensures this.account == account && this.limits == limits
      ensures State() == NewLedger(account, clock)
    {
      this.account := account;
      this.limits := limits;
      starts, attempts, resolutions, circuits, consumed := map[], map[], map[], map[], map[];
      accountCircuit := CLOSED_CIRCUIT;
      monthlyUsed := 0;
      highWater := clock;
      monthlyReset := account.NextMonthlyReset(clock);
      holds := 0;
      recoveryProbe := None;
    }

    method NowMs(clock: nat) returns (now: nat)
      modifies this`highWater
      ensures State() == Tick(old(State()), clock) && now == highWater
    {
      if clock > highWater {
        highWater := clock;
      }
      now := highWater;
    }

    method Prune(now: nat)
      modifies this`resolutions
      ensures State() == PruneResolutions(old(State()), now, limits.retention)
    {
      var cutoff := now - limits.retention;
      var expired := set id | id in resolutions && resolutions[id].at <= cutoff && id !in attempts;
      resolutions := resolutions - expired;
    }

    method Purge(now: nat)
      modifies this`starts
      ensures State() == PurgeWindows(old(State()), now)
    {
      var expired := set id | id in starts && starts[id].at <= now - KEEP && id !in attempts;
      starts := starts - expired;
    }

    method Roll(now: nat)
      modifies this`monthlyUsed, this`monthlyReset
      ensures State() == RollMonthly(old(State()), now)
    {
      if monthlyReset != 0 && now >= monthlyReset {
        monthlyUsed := 0;
        monthlyReset := 0;
      }
    }

    /** When a request denied for tokens should come back. */
    method RetryAt(inside: map<Id, Start>, requested: nat, limit: nat, window: nat) returns (retry: Option<nat>)
      ensures retry == TpmRetryAt(inside, requested, limit, window)
    {
      var order := Sort(inside, StartInstant);
      var total := Sum(inside, StartTokens);
      retry := WalkStarts(order, inside, total, requested, limit, window);
    }

    /** The checks that need no window. */
    method ScreenRequest(q: Request, now: nat) returns (early: Option<Verdict>)
      ensures early == Screen(account, limits, State(), q, now)
    {
      var current := if q.binding.generation in circuits then circuits[q.binding.generation] else CLOSED_CIRCUIT;
      var unresolved := |attempts.Keys - resolutions.Keys|;
      if |resolutions| + unresolved >= limits.ledger {
        return Some(Denied(JournalCapacityStop, None));
      }
      if q.quota < account.quotaPerAttempt {
        return Some(Denied(InvalidQuotaCharge, None));
      }
      if q.deadline <= now {
        return Some(Denied(DeadlinePassed, None));
      }
      if q.attempt in attempts || q.attempt in starts || q.attempt in resolutions {
        return Some(Denied(AttemptDuplicate, None));
      }
      if accountCircuit != q.accountCircuit {
        return Some(Denied(CircuitChanged, None));
      }
      if accountCircuit.state.Open? {
        return Some(Denied(CircuitUnavailable, Some(accountCircuit.retryAt)));
      }
      if current != q.circuit {
        return Some(Denied(CircuitChanged, None));
      }
      if current.state.Open? {
        return Some(Denied(CircuitUnavailable, Some(current.retryAt)));
      }
      if (accountCircuit.Token().Some? && accountCircuit.Token().value in consumed)
         || (current.Token().Some? && current.Token().value in consumed) {
        return Some(Denied(CircuitUnavailable, None));
      }
      return None;
    }

    /** The rate dimension of the capacity checks. */
    method ScreenRate(now: nat) returns (late: Option<Verdict>)
      ensures late == RateScreen(account, starts, now)
    {
      if !account.rpm.Known? {
        return None;
      }
      var inside := RpmStarts(starts, now, account.RpmWindow());
      if |inside| < account.rpm.value {
        return None;
      }
      if inside == map[] {
        return Some(Denied(RpmExhausted, None));
      }
      var first := FindFirst(inside, StartInstant);
      return Some(Denied(RpmExhausted, Some(inside[first].at + account.RpmWindow())));
    }

    /** The token dimension of the capacity checks. */
    method ScreenTokens(tokens: nat, now: nat) returns (late: Option<Verdict>)
      ensures late == TokenScreen(account, starts, tokens, now)
    {
      if !account.tpm.Known? {
        return None;
      }
      if tokens > account.tpm.value {
        return Some(Denied(TpmExhausted, None));
      }
      var inside := TpmStarts(starts, now, account.TpmWindow());
      var total := Sum(inside, StartTokens);
      if total + tokens > account.tpm.value {
        var retry := RetryAt(inside, tokens, account.tpm.value, account.TpmWindow());
        return Some(Denied(TpmExhausted, retry));
      }
      return None;
    }

    /** The checks of the four capacity dimensions. */
    method ScreenCapacity(q: Request, now: nat) returns (late: Option<Verdict>)
      ensures late == CapacityScreen(account, State(), q, now)
    {
      if account.monthly.Known? && q.quota > 0 && monthlyReset == 0 {
        return Some(Denied(MonthlyResetUnavailable, None));
      }
      if |attempts| + holds >= account.EnforcedMaxInFlight() {
        return Some(Denied(ParallelExhausted, None));
      }
      late := ScreenRate(now);
      if late.Some? {
        return;
      }
      late := ScreenTokens(q.Tokens(), now);
      if late.Some? {
        return;
      }
      if account.monthly.Known? && monthlyUsed + q.quota > account.monthly.value {
        return Some(Denied(MonthlyQuotaExhausted, Some(monthlyReset)));
      }
      return None;
    }

    /** Record a grant whose reservation is durable. */
    method RecordGrant(q: Request, now: nat)
      modifies this`consumed, this`starts, this`attempts, this`monthlyUsed
      ensures State() == Grant(old(State()), q, now)
    {
      var current := if q.binding.generation in circuits then circuits[q.binding.generation] else CLOSED_CIRCUIT;
      if accountCircuit.Token().Some? {
        consumed := consumed[accountCircuit.Token().value := q.attempt];
      }
      if current.Token().Some? {
        consumed := consumed[current.Token().value := q.attempt];
      }
      starts := starts[q.attempt := Start(now, q.Tokens(), true)];
      attempts := attempts[q.attempt :=
        Attempt(q.binding, q.deadline, q.circuit.epoch, q.accountCircuit.epoch, q.circuit.probe,
                accountCircuit.Token(), monthlyReset, now, None, None, q.Tokens(), q.quota, Live)];
      monthlyUsed := monthlyUsed + q.quota;
    }

    method Reserve(q: Request, status: JournalStatus, clock: nat, append: Append) returns (verdict: Verdict)
      modifies this
      ensures account == old(account)
      ensures (State(), verdict) == TryReserve(account, limits, old(State()), q, status, clock, append)
      ensures account.Valid() ==>
                AnswersByRules(account, limits, old(State()), q, status, Instant(old(State()), clock), append, verdict)
      ensures verdict.Granted? ==> Granting(limits, old(State()), q, Instant(old(State()), clock), State())
    {
      hide AnswersByRules, Granting, Instant, Screen, CapacityScreen;
      ReservationIsRight(account, limits, State(), q, status, clock, append);
      if status.RecoveryRequired? {
        return Denied(NeedsRecovery, None);
      }
      if status.AdmissionStop? {
        return Denied(JournalCapacityStop, None);
      }
      if q.account != account.id {
        return Denied(AccountNotFound, None);
      }
      if recoveryProbe.Some? {
        return Denied(NeedsRecovery, None);
      }
      if !account.state.Active? {
        return Denied(AccountNotActive, None);
      }
      var now := NowMs(clock);
      Prune(now);
      var early := ScreenRequest(q, now);
      if early.Some? {
        return early.value;
      }
      Purge(now);
      Roll(now);
      var late := ScreenCapacity(q, now);
      if late.Some? {
        return late.value;
      }
      match append
      case CapacityStop => verdict := Denied(JournalCapacityStop, None);
      case Failed => verdict := Denied(JournalUnavailable, None);
      case Appended(receipt) =>
        verdict := Granted(Entry(receipt, AttemptReserved(
          Reservation(q.attempt, q.binding, q.deadline, now, q.Tokens(), q.quota, monthlyReset, q.circuit.epoch,
                      q.accountCircuit.epoch, q.circuit.probe, accountCircuit.Token()))));
        RecordGrant(q, now);
    }

    method Dispatched(id: Id, clock: nat, append: Append) returns (entry: Option<Entry>, ok: bool)
      modifies this
      ensures account == old(account)
      ensures Change(State(), entry, ok) == MarkDispatched(old(State()), id, clock, append)
    {
      if id !in attempts || id in resolutions {
        return None, false;
      }
      if attempts[id].receipt.Some? {
        return None, true;
      }
      var now := NowMs(clock);
      if now >= attempts[id].deadline || !append.Appended? {
        return None, false;
      }
      attempts := attempts[id := attempts[id].(dispatchedAt := Some(now), receipt := Some(append.receipt))];
      return Some(Entry(append.receipt, AttemptDispatched(id, now))), true;
    }

    method FinishAttempt(id: Id, resolution: Resolution, clock: nat, append: Append) returns (entry: Option<Entry>, ok: bool)
      requires attempts.Keys <= starts.Keys
      modifies this
      ensures account == old(account)
      ensures Change(State(), entry, ok) == Finish(old(State()), id, resolution, clock, append)
    {
      if id in resolutions {
        return None, resolutions[id].digest == resolution;
      }
      if id !in attempts {
        return None, false;
      }
      var attempt := attempts[id];
      if resolution.actualTokens.Some? && resolution.actualTokens.value > attempt.tokens {
        return None, false;
      }
      if resolution.actualQuota.Some? && resolution.actualQuota.value > attempt.quota {
        return None, false;
      }
      var now := NowMs(clock);
      if !append.Appended? {
        return None, false;
      }
      SettleStart(id, resolution);
      if resolution.actualQuota.Some? && attempt.monthlyReset == monthlyReset {
        monthlyUsed := Max(0, monthlyUsed + resolution.actualQuota.value - attempt.quota);
      }
      CloseOrHold(id, resolution.release);
      resolutions := resolutions[id := Resolved(resolution, append.receipt, now, DispatchOf(id, attempt))];
      return Some(Entry(append.receipt, AttemptResolved(id, resolution, now))), true;
    }

    /** Correct the start entry by what was actually used. */
    method SettleStart(id: Id, resolution: Resolution)
      requires id in starts
      modifies this`starts
      ensures starts == old(starts)[id := Settle(old(starts)[id], resolution)]
    {
      var start := starts[id];
      if resolution.actualStarts == Some(0) {
        start := start.(counted := false);
      }
      if resolution.actualTokens.Some? {
        start := start.(tokens := resolution.actualTokens.value);
      }
      starts := starts[id := start];
    }

    /** A resolution that does not release the capacity keeps the slot as uncertain. */
    method CloseOrHold(id: Id, release: bool)
      requires id in attempts
      modifies this`attempts
      ensures attempts == CloseAttempt(old(attempts), id, release)
    {
      if release {
        attempts := attempts - {id};
      } else {
        attempts := attempts[id := attempts[id].(state := Uncertain)];
      }
    }

    method Swap(generation: Option<Id>, expected: Circuit, replacement: Circuit, append: Append)
      returns (entry: Option<Entry>, ok: bool)
      modifies this
      ensures account == old(account)
      ensures Change(State(), entry, ok) == SwapCircuit(old(State()), generation, expected, replacement, append)
    {
      var current := if generation.None? then accountCircuit
                     else if generation.value in circuits then circuits[generation.value] else CLOSED_CIRCUIT;
      if current != expected || replacement.epoch < expected.epoch {
        return None, false;
      }
      if replacement == expected {
        return None, true;
      }
      if !append.Appended? {
        return None, false;
      }
      if expected.probe.Some? {
        consumed := consumed - {expected.probe.value};
      }
      if generation.Some? {
        circuits := circuits[generation.value := replacement];
      } else {
        accountCircuit := replacement;
      }
      return Some(Entry(append.receipt, CircuitUpdated(generation, replacement))), true;
    }

    method HasLive() returns (live: bool)
      ensures live == State().AnyLive()
    {
      live := exists id :: id in attempts && attempts[id].state.Live?;
    }

    method KeepOldest(count: nat)
      modifies this`attempts, this`holds
      ensures State() == ApplyActiveCount(old(State()), count)
    {
      var ordered := Sort(attempts, AttemptInstant);
      var keep := Min(count, |ordered|);
      var dropped := set id | id in attempts && id !in ordered[..keep];
      attempts := attempts - dropped;
      holds := Max(0, count - keep);
    }

    method SetAuthoritativeCount(count: nat, append: Append) returns (entry: Option<Entry>, ok: bool)
      modifies this
      ensures account == old(account)
      ensures Change(State(), entry, ok) == SetActiveCount(old(State()), count, append)
    {
      var live := HasLive();
      if live || !append.Appended? {
        return None, false;
      }
      KeepOldest(count);
      return Some(Entry(append.receipt, ActiveCountRecorded(count))), true;
    }

    method BeginRecoveryProbe(probe: Id, append: Append) returns (entry: Option<Entry>, ok: bool)
      modifies this
      ensures account == old(account)
      ensures Change(State(), entry, ok) == BeginProbe(old(State()), probe, append)
    {
      var live := HasLive();
      if recoveryProbe.Some? || |UncertainOf(attempts)| + holds == 0 || live || !append.Appended? {
        return None, false;
      }
      recoveryProbe := Some(probe);
      return Some(Entry(append.receipt, ProbeStarted(probe))), true;
    }

    method EndProbe(probing: Probing)
      modifies this`attempts, this`holds, this`recoveryProbe
      ensures State() == ApplyProbeFinished(old(State()), probing)
    {
      if probing.Available? {
        if holds > 0 {
          holds := holds - 1;
        } else {
          var uncertain := UncertainOf(attempts);
          if uncertain != map[] {
            var oldest := FindFirst(uncertain, AttemptInstant);
            attempts := attempts - {oldest};
          }
        }
      }
      recoveryProbe := None;
    }

    method FinishRecoveryProbe(probe: Id, probing: Probing, append: Append) returns (entry: Option<Entry>, ok: bool)
      modifies this
      ensures account == old(account)
      ensures Change(State(), entry, ok) == FinishProbe(old(State()), probe, probing, append)
    {
      var live := HasLive();
      if recoveryProbe != Some(probe) || live || !append.Appended? {
        return None, false;
      }
      EndProbe(probing);
      return Some(Entry(append.receipt, ProbeFinished(probe, probing))), true;
    }

    method UpdateAccount(account: Account, clock: nat)
      modifies this
      ensures this.account == account
      ensures State() == Publish(old(State()), account, clock)
    {
      var now := NowMs(clock);
      Roll(now);
      this.account := account;
      var candidate := account.NextMonthlyReset(now);
      if monthlyReset == 0 || candidate > monthlyReset {
        monthlyReset := candidate;
      }
    }

    /** Read the capacity figures. */
    method Capacity(clock: nat) returns (active: nat, uncertain: nat, rpmStarts: nat, tpmTokens: nat)
      modifies this
      ensures account == old(account)
      ensures State() == ReadCapacity(old(State()), clock)
      ensures active == State().ActiveCount() && uncertain == State().UncertainCount()
      ensures rpmStarts == |RpmStarts(starts, highWater, account.RpmWindow())|
      ensures tpmTokens == Total(TpmStarts(starts, highWater, account.TpmWindow()), StartTokens)
    {
      var now := NowMs(clock);
      Purge(now);
      Roll(now);
      active := |attempts| + holds;
      uncertain := |UncertainOf(attempts)| + holds;
      rpmStarts := |RpmStarts(starts, now, account.RpmWindow())|;
      tpmTokens := Sum(TpmStarts(starts, now, account.TpmWindow()), StartTokens);
    }

    // -------------------------------------------------------------- replay

    method ReplayReserved(v: Reservation)
      modifies this
      ensures account == old(account)
      ensures State() == ApplyReserved(old(State()), v)
    {
      if monthlyReset != v.monthlyReset {
        monthlyReset := v.monthlyReset;
        monthlyUsed := 0;
      }
      starts := starts[v.attempt := Start(v.startedAt, v.tokens, true)];
      attempts := attempts[v.attempt :=
        Attempt(v.binding, v.deadline, v.circuitEpoch, v.accountEpoch, v.circuitProbe, v.accountProbe,
                v.monthlyReset, v.startedAt, None, None, v.tokens, v.quota, Live)];
      if v.accountProbe.Some? {
        consumed := consumed[v.accountProbe.value := v.attempt];
      }
      if v.circuitProbe.Some? {
        consumed := consumed[v.circuitProbe.value := v.attempt];
      }
      monthlyUsed := monthlyUsed + v.quota;
    }

    method ReplayResolved(receipt: Receipt, id: Id, resolution: Resolution, at: nat) returns (ok: bool)
      modifies this
      ensures account == old(account)
      ensures var applied := ApplyResolved(old(State()), receipt, id, resolution, at);
              ok == applied.Some? && State() == if ok then applied.value else old(State())
    {
      if id in resolutions {
        return resolutions[id].digest == resolution;
      }
      if id !in attempts || id !in starts {
        return false;
      }
      var attempt := attempts[id];
      if ExceedsReservation(attempt, resolution) {
        return false;
      }
      SettleStart(id, resolution);
      if resolution.actualQuota.Some? {
        monthlyUsed := Max(0, monthlyUsed + resolution.actualQuota.value - attempt.quota);
      }
      CloseOrHold(id, resolution.release);
      resolutions := resolutions[id := Resolved(resolution, receipt, at, DispatchOf(id, attempt))];
      return true;
    }

    method ReplayCircuit(generation: Option<Id>, value: Circuit) returns (ok: bool)
      modifies this
      ensures account == old(account)
      ensures var applied := ApplyCircuit(old(State()), generation, value);
              ok == applied.Some? && State() == if ok then applied.value else old(State())
    {
      if !value.Valid() {
        return false;
      }
      if generation.None? {
        if accountCircuit.probe.Some? {
          consumed := consumed - {accountCircuit.probe.value};
        }
        accountCircuit := value;
      } else {
        if generation.value in circuits && circuits[generation.value].probe.Some? {
          consumed := consumed - {circuits[generation.value].probe.value};
        }
        circuits := circuits[generation.value := value];
      }
      return true;
    }

    method ReplayDispatched(receipt: Receipt, id: Id, at: nat) returns (ok: bool)
      modifies this
      ensures account == old(account)
      ensures var applied := ApplyDispatched(old(State()), receipt, id, at);
              ok == applied.Some? && State() == if ok then applied.value else old(State())
    {
      if id !in attempts {
        return false;
      }
      if attempts[id].receipt.Some? {
        return attempts[id].dispatchedAt == Some(at) && attempts[id].receipt == Some(receipt);
      }
      attempts := attempts[id := attempts[id].(dispatchedAt := Some(at), receipt := Some(receipt))];
      return true;
    }

    /** Apply one durable record; false where the source raises and recovery is required. */
    method ApplyRecord(e: Entry) returns (ok: bool)
      modifies this
      ensures account == old(account)
      ensures var applied := Apply(old(State()), e);
              ok == applied.Some? && State() == if ok then applied.value else old(State())
    {
      match e.record
      case AttemptReserved(v) =>
        ReplayReserved(v);
        ok := true;
      case AttemptDispatched(id, at) =>
        ok := id in attempts || id in resolutions;
        if ok {
          ok := ReplayDispatched(e.receipt, id, at);
        }
      case AttemptResolved(id, resolution, at) =>
        ok := id in attempts || id in resolutions;
        if ok {
          ok := ReplayResolved(e.receipt, id, resolution, at);
        }
      case AttemptUncertain(id) =>
        ok := id in attempts || id in resolutions;
        if id in attempts {
          attempts := attempts[id := attempts[id].(state := Uncertain)];
        }
      case CircuitUpdated(generation, value) =>
        ok := ReplayCircuit(generation, value);
      case ActiveCountRecorded(count) =>
        var live := HasLive();
        ok := !live;
        if ok {
          KeepOldest(count);
        }
      case ProbeStarted(probe) =>
        recoveryProbe := Some(probe);
        ok := true;
      case ProbeFinished(_, probing) =>
        EndProbe(probing);
        ok := true;
    }

    /** Replay the durable tail; false as soon as one record is refused. */
    method ReplayAll(log: seq<Entry>) returns (ok: bool)
      modifies this
      ensures account == old(account)
      ensures ok == Replay(old(State()), log).Some?
      ensures ok ==> State() == Replay(old(State()), log).value
    {
      var i := 0;
      while i < |log|
        invariant 0 <= i <= |log| && account == old(account)
        invariant Replay(old(State()), log) == Replay(State(), log[i..])
      {
        assert log[i..][1..] == log[i + 1..];
        ok := ApplyRecord(log[i]);
        if !ok {
          return;
        }
        i := i + 1;
      }
      ok := true;
    }

    // -------------------------------------------------------------- restart

    /** Mark every attempt that was live as uncertain, appending one record each. */
    method MarkLiveUncertain(firstLsn: nat) returns (log: seq<Entry>)
      modifies this`attempts
      ensures attempts.Keys == old(attempts).Keys
      ensures forall id :: id in attempts ==> attempts[id] == old(attempts)[id].(state := Uncertain)
      ensures ReplaysTo(old(State()), log, State())
    {
      ghost var base := State();
      ReplaysFromStart(base, [], base);
      hide Apply, ReplaysTo, MarkedExcept;
      log := [];
      var todo := attempts.Keys;
      NothingMarked(attempts);
      while todo != {}
        invariant todo <= attempts.Keys && MarkedExcept(old(attempts), attempts, todo)
        invariant ReplaysTo(base, log, base.(attempts := attempts))
        decreases |todo|
      {
        var id :| id in todo;
        MarkedOne(old(attempts), attempts, todo, id);
        if attempts[id].state.Live? {
          var entry := Entry(Receipt(firstLsn + |log|, firstLsn + |log|), AttemptUncertain(id));
          UncertainReplaysAfter(base, log, base.(attempts := attempts), id, entry.receipt);
          attempts := attempts[id := attempts[id].(state := Uncertain)];
          log := log + [entry];
        }
        todo := todo - {id};
      }
      AllMarked(old(attempts), attempts);
    }

    /** Give up a recovery probe that was in flight. */
    method DropProbe(receipt: Receipt) returns (log: seq<Entry>)
      modifies this`attempts, this`holds, this`recoveryProbe
      ensures State() == old(State()).(recoveryProbe := None)
      ensures |log| <= 1
      ensures if log == [] then State() == old(State()) else Apply(old(State()), log[0]) == Some(State())
    {
      log := [];
      if recoveryProbe.Some? {
        log := [Entry(receipt, ProbeFinished(recoveryProbe.value, Inconclusive))];
        EndProbe(Inconclusive);
      }
    }

    /** Reopen one circuit through the compare-and-swap, if it is half open. */
    method ReopenCircuit(generation: Option<Id>, clock: nat, receipt: Receipt) returns (log: seq<Entry>)
      requires 0 < clock && CircuitsValid(State())
      modifies this
      ensures account == old(account)
      ensures State() == Reopen(old(State()), generation, Now(old(State()), clock)) && CircuitsValid(State())
      ensures |log| <= 1
      ensures if log == [] then State() == old(State())
              else Apply(old(State()), log[0]) == Some(State().(highWater := old(highWater)))
    {
      var c := if generation.None? then accountCircuit
               else if generation.value in circuits then circuits[generation.value] else CLOSED_CIRCUIT;
      ReopenReplays(State(), generation, Now(State(), clock), receipt);
      log := [];
      if c.state.HalfOpen? {
        var now := NowMs(clock);
        var entry, ok := Swap(generation, c, Reopened(c, now), Appended(receipt));
        log := [entry.value];
      }
    }

    /** Reopen every half-open deployment circuit. */
    method ReopenGenerations(clock: nat, firstLsn: nat) returns (log: seq<Entry>)
      requires 0 < clock && CircuitsValid(State())
      modifies this
      ensures account == old(account)
      ensures PartlyReopened(old(State()), State(), {}, Now(old(State()), clock))
      ensures ReplaysTo(old(State()), log, State())
    {
      ghost var base := State();
      log := [];
      var todo := circuits.Keys;
      while todo != {}
        invariant account == old(account)
        invariant PartlyReopened(base, State(), todo, Now(base, clock))
        invariant ReplaysTo(base, log, State())
        decreases |todo|
      {
        var g :| g in todo;
        ghost var before := State();
        PartlyReopenedStep(base, before, todo, g, Now(base, clock));
        var reopened := ReopenCircuit(Some(g), clock, Receipt(firstLsn + |log|, firstLsn + |log|));
        if reopened != [] {
          ReplaysOneMore(base, log, before, reopened[0], State());
          log := log + [reopened[0]];
        }
        todo := todo - {g};
      }
    }

    /** Mark the live attempts uncertain and give up the recovery probe. */
    method MarkAttempts(firstLsn: nat) returns (log: seq<Entry>)
      modifies this`attempts, this`holds, this`recoveryProbe
      ensures Marked(old(State()), State())
      ensures ReplaysTo(old(State()), log, State())
    {
      ghost var base := State();
      log := MarkLiveUncertain(firstLsn);
      ghost var before := State();
      var more := DropProbe(Receipt(firstLsn + |log|, firstLsn + |log|));
      if more != [] {
        ReplaysOneMore(base, log, before, more[0], State());
        log := log + [more[0]];
      }
    }

    /** Reopen the account's own circuit and then every deployment circuit. */
    method ReopenAll(clock: nat, firstLsn: nat) returns (log: seq<Entry>)
      requires 0 < clock && CircuitsValid(State())
      modifies this
      ensures account == old(account)
      ensures var now := Now(old(State()), clock);
              PartlyReopened(Reopen(old(State()), None, now), State(), {}, now)
      ensures ReplaysTo(old(State()), log, State())
    {
      ghost var base := State();
      log := ReopenCircuit(None, clock, Receipt(firstLsn, firstLsn));
      ghost var middle := State();
      ReplaysFromStart(base, log, middle);
      var more := ReopenGenerations(clock, firstLsn + |log|);
      ReplaysTogether(base, log, middle, more, State());
      log := log + more;
    }

    /** Bring a replayed account back: nothing live, no probe in flight, no circuit half open. Replaying
        what this appends onto the ledger it started from gives the ledger it ends with. */
    method MarkRecovered(clock: nat, firstLsn: nat) returns (log: seq<Entry>)
      requires 0 < clock && CircuitsValid(State())
      modifies this
      ensures account == old(account)
      ensures Restarted(old(State()), State(), Now(old(State()), clock))
      ensures ReplaysTo(old(State()), log, State())
    {
      ghost var base := State();
      log := MarkAttempts(firstLsn);
      ghost var marked := State();
      var more := ReopenAll(clock, firstLsn + |log|);
      RestartParts(base, marked, State(), Now(base, clock));
      ReplaysTogether(base, log, marked, more, State());
      log := log + more;
    }
  }

  /** Every attempt is uncertain and no recovery probe is in flight; nothing else changed. */
  ghost predicate Marked(before: Ledger, after: Ledger) {
    && after == before.(attempts := after.attempts, recoveryProbe := None)
    && after.attempts.Keys == before.attempts.Keys
    && forall id :: id in before.attempts ==> after.attempts[id] == before.attempts[id].(state := Uncertain)
  }

  lemma RestartParts(base: Ledger, marked: Ledger, last: Ledger, now: nat)
    requires Marked(base, marked) && PartlyReopened(Reopen(marked, None, now), last, {}, now)
    ensures Restarted(base, last, now)
  {
    hide CircuitsValid, LentOutside, HalfOpenOutside;
    var middle := Reopen(marked, None, now);
    assert middle.circuits == base.circuits && middle.attempts == marked.attempts;
    SameOutside(middle, base, {});
    AccountFreed(marked, now);
    hide Reopen;
  }

  /** Reopening the account's circuit frees its token. */
  lemma AccountFreed(l: Ledger, now: nat)
    ensures var after := Reopen(l, None, now);
            && (forall t :: t in after.consumed <==> t in l.consumed && !LentBy(l.accountCircuit, t))
            && (forall t :: t in after.consumed ==> after.consumed[t] == l.consumed[t])
            && after.highWater == (if l.accountCircuit.state.HalfOpen? then now else l.highWater)
            && after == l.(highWater := after.highWater, consumed := after.consumed, accountCircuit := AfterRestart(l.accountCircuit, now))
  {
  }

  lemma UncertainReplays(l: Ledger, id: Id, receipt: Receipt)
    requires id in l.attempts
    ensures Apply(l, Entry(receipt, AttemptUncertain(id))) ==
            Some(l.(attempts := l.attempts[id := l.attempts[id].(state := Uncertain)]))
  {
  }

  /** Every attempt outside `todo` has been marked uncertain, and nothing else about any of them changed. */
  ghost predicate MarkedExcept(before: map<Id, Attempt>, after: map<Id, Attempt>, todo: set<Id>) {
    && after.Keys == before.Keys
    && forall id :: id in after ==> after[id] == if id in todo then before[id] else before[id].(state := Uncertain)
  }

  lemma NothingMarked(attempts: map<Id, Attempt>)
    ensures MarkedExcept(attempts, attempts, attempts.Keys)
  {
  }

  lemma MarkedOne(before: map<Id, Attempt>, after: map<Id, Attempt>, todo: set<Id>, id: Id)
    requires MarkedExcept(before, after, todo) && id in todo && id in after
    ensures MarkedExcept(before, after[id := after[id].(state := Uncertain)], todo - {id})
    ensures !after[id].state.Live? ==> MarkedExcept(before, after, todo - {id})
  {
  }

  lemma AllMarked(before: map<Id, Attempt>, after: map<Id, Attempt>)
    requires MarkedExcept(before, after, {})
    ensures after.Keys == before.Keys && forall id :: id in after ==> after[id] == before[id].(state := Uncertain)
  {
  }

  lemma UncertainReplaysAfter(base: Ledger, log: seq<Entry>, l: Ledger, id: Id, receipt: Receipt)
    requires ReplaysTo(base, log, l) && id in l.attempts
    ensures ReplaysTo(base, log + [Entry(receipt, AttemptUncertain(id))],
                      l.(attempts := l.attempts[id := l.attempts[id].(state := Uncertain)]))
  {
    hide Apply, ReplaysTo;
    UncertainReplays(l, id, receipt);
    var after := l.(attempts := l.attempts[id := l.attempts[id].(state := Uncertain)]);
    assert after.(highWater := l.highWater) == after;
    ReplaysOneMore(base, log, l, Entry(receipt, AttemptUncertain(id)), after);
  }

  lemma ReplaysFromStart(base: Ledger, log: seq<Entry>, after: Ledger)
    requires |log| <= 1
    requires if log == [] then after == base else Apply(base, log[0]) == Some(after.(highWater := base.highWater))
    ensures ReplaysTo(base, log, after)
  {
    if log != [] {
      assert log[1..] == [];
    }
  }

  lemma ReplaysTogether(base: Ledger, first: seq<Entry>, middle: Ledger, second: seq<Entry>, last: Ledger)
    requires ReplaysTo(base, first, middle) && ReplaysTo(middle, second, last)
    ensures ReplaysTo(base, first + second, last)
  {
    ReplaySplit(base, first, second);
    ReplayAside(middle, base.highWater, second);
  }

  lemma {:induction false} ReplayAside(l: Ledger, highWater: nat, log: seq<Entry>)
    ensures Replay(l.(highWater := highWater), log) ==
            if Replay(l, log).None? then None else Some(Replay(l, log).value.(highWater := highWater))
    decreases |log|
  {
    if log != [] {
      ApplyAside(l, highWater, log[0]);
      if Apply(l, log[0]).Some? {
        ReplayAside(Apply(l, log[0]).value, highWater, log[1..]);
      }
    }
  }
}
