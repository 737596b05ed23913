/** What each kind of durable record does to a ledger when it is replayed, and which records cannot be
    replayed, said over the ledger's fields. No definition here calls the replay of LedgerReplay. */
module ReplayRules {
  import opened Common
  import opened LedgerModel
  import opened LedgerReplay
  import opened LedgerRules
  import opened LedgerEffects

  /** The record names this token. */
  predicate Names(v: Reservation, token: Id) { v.accountProbe == Some(token) || v.circuitProbe == Some(token) }

  /** The attempt that a reservation record describes, live and not yet sent. */
  predicate Described(v: Reservation, a: Attempt) {
    && a.binding == v.binding && a.deadline == v.deadline && a.startedAt == v.startedAt
    && a.tokens == v.tokens && a.quota == v.quota && a.monthlyReset == v.monthlyReset
    && a.circuitEpoch == v.circuitEpoch && a.accountEpoch == v.accountEpoch
    && a.circuitProbe == v.circuitProbe && a.accountProbe == v.accountProbe
    && a.dispatchedAt == None && a.receipt == None && a.state == Live
  }

  /** A replayed reservation is there as it was granted; another reset instant begins a month anew. */
  predicate Reserved(l: Ledger, v: Reservation, after: Ledger) {
    && CircuitsKept(l, after) && after.highWater == l.highWater && after.resolutions == l.resolutions
    && OthersKept(l.attempts, v.attempt, after.attempts) && v.attempt in after.attempts && Described(v, after.attempts[v.attempt])
    && OthersKept(l.starts, v.attempt, after.starts)
    && v.attempt in after.starts && after.starts[v.attempt] == Start(v.startedAt, v.tokens, true)
    && after.monthlyReset == v.monthlyReset
    && after.monthlyUsed == v.quota + (if l.monthlyReset == v.monthlyReset then l.monthlyUsed else 0)
  }

  ghost predicate TokensOf(l: Ledger, v: Reservation, after: map<Id, Id>) {
    && (forall token :: token in after <==> token in l.consumed || Names(v, token))
    && (forall token :: token in after ==> after[token] == if Names(v, token) then v.attempt else l.consumed[token])
  }

  /** The month takes a resolution's refund in whatever period it is, and stops at zero. */
  predicate Refunded(used: nat, a: Attempt, resolution: Resolution, after: nat) {
    match resolution.actualQuota
    case Some(n) => if used + n < a.quota then after == 0 else after + a.quota == used + n
    case None => after == used
  }

  /** A replayed resolution settles start, month, slot and ledger as the live one did, the month apart. */
  predicate Settling(l: Ledger, receipt: Receipt, id: Id, resolution: Resolution, at: nat, after: Ledger)
    requires id in l.attempts && id in l.starts
  {
    && CircuitsKept(l, after) && after.consumed == l.consumed && after.highWater == l.highWater
    && after.monthlyReset == l.monthlyReset && Refunded(l.monthlyUsed, l.attempts[id], resolution, after.monthlyUsed)
    && OthersKept(l.starts, id, after.starts) && id in after.starts && StartSettled(l.starts[id], resolution, after.starts[id])
    && SlotSettled(l, id, resolution, after.attempts)
    && ResolutionWritten(l, id, resolution, receipt, at, after.resolutions)
  }

  lemma ReservedReplays(l: Ledger, v: Reservation, receipt: Receipt)
    ensures var r := Apply(l, Entry(receipt, AttemptReserved(v)));
            r.Some? && Reserved(l, v, r.value) && TokensOf(l, v, r.value.consumed)
  {
  }

  /** A dispatch needs its attempt. It stamps it, or repeats what stamped it. */
  lemma DispatchedReplays(l: Ledger, receipt: Receipt, id: Id, at: nat)
    ensures var r := Apply(l, Entry(receipt, AttemptDispatched(id, at)));
            && (r.Some? <==> id in l.attempts && (l.attempts[id].receipt == None
                                                  || (l.attempts[id].dispatchedAt == Some(at) && l.attempts[id].receipt == Some(receipt))))
            && (r.Some? && l.attempts[id].receipt != None ==> r.value == l)
            && (r.Some? && l.attempts[id].receipt == None ==>
                && OnlyAttempts(l, r.value) && r.value.highWater == l.highWater
                && OthersKept(l.attempts, id, r.value.attempts) && id in r.value.attempts
                && Stamped(l.attempts[id], at, receipt, r.value.attempts[id]))
  {
  }

  /** A resolution needs its attempt, its start, and no more than was reserved; a second one needs to be the
      first again. */
  lemma ResolvedReplays(l: Ledger, receipt: Receipt, id: Id, resolution: Resolution, at: nat)
    ensures var r := Apply(l, Entry(receipt, AttemptResolved(id, resolution, at)));
            var repeats := id in l.resolutions && l.resolutions[id].digest == resolution;
            var settles := IsOpen(l, id) && id in l.starts && WithinReservation(l.attempts[id], resolution);
            && (r.Some? <==> repeats || settles)
            && (repeats ==> r.Some? && r.value == l)
            && (settles ==> r.Some? && Settling(l, receipt, id, resolution, at, r.value))
  {
    hide DispatchOf;
    if IsOpen(l, id) {
      ReservationBounds(l.attempts[id], resolution);
      DispatchIs(id, l.attempts[id]);
    }
  }

  /** A mark needs a known attempt, and is empty if the attempt has been settled. */
  lemma UncertainReplaysAs(l: Ledger, receipt: Receipt, id: Id)
    ensures var r := Apply(l, Entry(receipt, AttemptUncertain(id)));
            && (r.Some? <==> id in l.attempts || id in l.resolutions)
            && (id in l.attempts ==>
                && OnlyAttempts(l, r.value) && r.value.highWater == l.highWater
                && OthersKept(l.attempts, id, r.value.attempts) && id in r.value.attempts
                && r.value.attempts[id].state == Uncertain
                && r.value.attempts[id].(state := l.attempts[id].state) == l.attempts[id])
            && (r.Some? && id !in l.attempts ==> r.value == l)
  {
  }

  /** Which circuit values there can be: a closed one is blank, an open one waits for its retry, and a half-open
      one has lent its probe. */
  lemma CircuitIs(c: Circuit)
    ensures c.Valid() <==>
              if c.state == Closed
              then (c.cause == None || c.evidence == None) && c.openedAt == 0 && c.retryAt == 0 && c.backoff == 0 && c.probe == None
              else
                && c.cause != None && c.evidence != None && c.openedAt > 0 && c.backoff <= 64
                && (c.state == Open ==> c.retryAt > 0 && c.probe == None)
                && (c.state == HalfOpen ==> c.retryAt == 0 && c.probe != None)
  {
  }

  /** A circuit record needs a value that can be constructed. It takes the place of the value there was, and
      frees that one's token. */
  lemma CircuitReplays(l: Ledger, receipt: Receipt, generation: Option<Id>, value: Circuit)
    ensures var r := Apply(l, Entry(receipt, CircuitUpdated(generation, value)));
            var before := match generation case Some(g) => CurrentCircuit(l, g) case None => l.accountCircuit;
            && (r.Some? <==> value.Valid())
            && (r.Some? ==>
                && (match generation
                    case Some(g) => r.value.circuits == l.circuits[g := value] && r.value.accountCircuit == l.accountCircuit
                    case None => r.value.accountCircuit == value && r.value.circuits == l.circuits)
                && (forall token :: token in r.value.consumed <==> token in l.consumed && before.probe != Some(token))
                && (forall token :: token in r.value.consumed ==> r.value.consumed[token] == l.consumed[token])
                && r.value.(circuits := l.circuits, accountCircuit := l.accountCircuit, consumed := l.consumed) == l)
  {
  }

  /** A count needs that nothing is live; then it keeps the oldest and holds the rest. */
  lemma CountReplays(l: Ledger, receipt: Receipt, count: nat)
    ensures var r := Apply(l, Entry(receipt, ActiveCountRecorded(count)));
            && (r.Some? <==> !SomethingLive(l))
            && (r.Some? ==>
                && Oldest(l.attempts, r.value.attempts)
                && |r.value.attempts| == (if count < |l.attempts| then count else |l.attempts|)
                && |r.value.attempts| + r.value.holds == count
                && r.value.(attempts := l.attempts, holds := l.holds) == l)
  {
    hide OldestAttempts, Oldest;
    OldestAreOldest(l.attempts, count);
  }

  /** Probe records are always taken. An available one gives one slot back. */
  lemma ProbesReplay(l: Ledger, receipt: Receipt, probe: Id, probing: Probing)
    ensures Apply(l, Entry(receipt, ProbeStarted(probe))) == Some(l.(recoveryProbe := Some(probe)))
    ensures var r := Apply(l, Entry(receipt, ProbeFinished(probe, probing)));
            && r.Some? && r.value.recoveryProbe == None
            && (if probing != Available then r.value.holds == l.holds && r.value.attempts == l.attempts
                else if l.holds > 0 then r.value.holds + 1 == l.holds && r.value.attempts == l.attempts
                else r.value.holds == 0 && OldestUncertainGone(l.attempts, r.value.attempts))
            && r.value.(attempts := l.attempts, holds := l.holds, recoveryProbe := l.recoveryProbe) == l
  {
    hide WithoutOldestUncertain, OldestUncertainGone;
    WithoutOldestIs(l.attempts);
  }

  /** The ledgers on the way through a log: each record replays onto the one before. */
  ghost predicate Passes(ledgers: seq<Ledger>, log: seq<Entry>) {
    |ledgers| == |log| + 1 && forall i :: 0 <= i < |log| ==> Apply(ledgers[i], log[i]) == Some(ledgers[i + 1])
  }

  /** A log replays exactly if every record of it does, one after the other. */
  lemma {:induction false} ReplayPasses(l: Ledger, log: seq<Entry>, after: Ledger)
    ensures Replay(l, log) == Some(after) <==> exists ledgers :: Passes(ledgers, log) && ledgers[0] == l && ledgers[|log|] == after
    decreases |log|
  {
    hide Apply;
    if log == [] {
      assert Replay(l, log) == Some(l);
      assert Passes([l], log);
      return;
    }
    var next := Apply(l, log[0]);
    if next.Some? {
      ReplayPasses(next.value, log[1..], after);
      if Replay(l, log) == Some(after) {
        var rest :| Passes(rest, log[1..]) && rest[0] == next.value && rest[|log[1..]|] == after;
        var ledgers := [l] + rest;
        forall i | 0 <= i < |log| ensures Apply(ledgers[i], log[i]) == Some(ledgers[i + 1]) {
          if i > 0 {
            assert Apply(rest[i - 1], log[1..][i - 1]) == Some(rest[i]);
          }
        }
        assert Passes(ledgers, log) && ledgers[0] == l && ledgers[|log|] == after;
      }
    }
    if ledgers :| Passes(ledgers, log) && ledgers[0] == l && ledgers[|log|] == after {
      assert Apply(ledgers[0], log[0]) == Some(ledgers[1]);
      var rest := ledgers[1..];
      forall i | 0 <= i < |log[1..]| ensures Apply(rest[i], log[1..][i]) == Some(rest[i + 1]) {
        assert Apply(ledgers[i + 1], log[i + 1]) == Some(ledgers[i + 2]);
      }
      assert Passes(rest, log[1..]) && rest[0] == next.value && rest[|log[1..]|] == after;
    }
  }
}
