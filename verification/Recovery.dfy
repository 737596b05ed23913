/** The ledgers over the journal: after any power loss at any moment, opening the journal, restoring the
    checkpoint it offers and replaying the records after it gives ledgers that agree, account by account,
    with the live fleet after some prefix of what it did, and that prefix contains everything whose
    append had returned. */
module Recovery {
  import opened Common
  import opened LedgerModel
  import opened LedgerReplay
  import opened Fleet
  import opened Journal
  import opened JournalWriter

  /** A journal record as the ledgers read it; `rank` is any numbering of digests. */
  function LineOf(rank: Digest -> Id, item: Item): Line {
    Line(item.payload.account, Entry(Receipt(item.sequence, rank(item.digest)), item.payload.record))
  }

  function LinesOf(rank: Digest -> Id, h: seq<Item>): (lines: seq<Line>)
    ensures |lines| == |h| && forall i :: 0 <= i < |h| ==> lines[i] == LineOf(rank, h[i])
  {
    if h == [] then [] else LinesOf(rank, h[..|h| - 1]) + [LineOf(rank, h[|h| - 1])]
  }

  lemma LinesSlice(rank: Digest -> Id, h: seq<Item>, from: nat, to: nat)
    requires from <= to <= |h|
    ensures LinesOf(rank, h[from..to]) == LinesOf(rank, h)[from..to]
  {
    hide LinesOf, LineOf;
    forall i | 0 <= i < to - from
      ensures LinesOf(rank, h[from..to])[i] == LinesOf(rank, h)[from + i]
    {
      assert h[from..to][i] == h[from + i];
    }
  }

  // ---------------------------------------------------------------- cutting a run in two

  /** A run is its first part followed by the rest from where that part ended. */
  lemma {:induction false} RunSplit(limits: Limits, fleet: map<Id, Runtime>, first: seq<Action>, second: seq<Action>)
    requires Runs(fleet) && AllWellFormed(first) && AllWellFormed(second)
    ensures AllWellFormed(first + second)
    ensures var middle := RunAll(limits, fleet, first).0;
            && Runs(middle) && middle.Keys == fleet.Keys
            && RunAll(limits, fleet, first + second) ==
               (RunAll(limits, middle, second).0, RunAll(limits, fleet, first).1 + RunAll(limits, middle, second).1)
    decreases |first|
  {
    if first == [] {
      assert [] + second == second;
      var lines := RunAll(limits, fleet, second).1;
      assert [] + lines == lines;
    } else {
      var a := first[0];
      ActRuns(limits, fleet, a);
      var next, line := Act(limits, fleet, a).0, Act(limits, fleet, a).1;
      RunSplit(limits, next, first[1..], second);
      assert first == [a] + first[1..] && first + second == [a] + (first[1..] + second);
      RunCons(limits, fleet, a, first[1..]);
      RunCons(limits, fleet, a, first[1..] + second);
      Regroup(Listed(line), RunAll(limits, next, first[1..]).1, RunAll(limits, RunAll(limits, next, first[1..]).0, second).1);
    }
  }

  lemma Regroup(a: seq<Line>, b: seq<Line>, c: seq<Line>)
    ensures a + (b + c) == (a + b) + c
  {
  }

  /** After the first part of a run, the attempts minted so far are still owned, and the rest goes on
      minting fresh ones. */
  lemma {:induction false} Advance(limits: Limits, order: seq<Id>, fleet: map<Id, Runtime>, first: seq<Action>, second: seq<Action>,
                                   ledgers: map<Id, Ledger>, owner: map<Id, Id>)
    returns (applied: map<Id, Ledger>, later: map<Id, Id>)
    requires Runs(fleet) && AllWellFormed(first + second) && AgreeAll(limits, fleet, ledgers) && Owned(ledgers, owner)
    requires Covers(order, ledgers) && MintsOnceAll(limits, fleet, first + second, owner)
    ensures AllWellFormed(first) && AllWellFormed(second)
    ensures var middle := RunAll(limits, fleet, first).0;
            && Runs(middle) && AgreeAll(limits, middle, applied) && Owned(applied, later)
            && MintsOnceAll(limits, middle, second, later)
    ensures MintsOnceAll(limits, fleet, first, owner)
    decreases |first|
  {
    assert forall a :: a in first || a in second ==> a in first + second;
    if first == [] {
      assert [] + second == second;
      applied, later := ledgers, owner;
    } else {
      assert (first + second)[0] == first[0] && (first + second)[1..] == first[1..] + second;
      ActRuns(limits, fleet, first[0]);
      var next, line := Act(limits, fleet, first[0]).0, Act(limits, fleet, first[0]).1;
      var once := ActReplays(limits, order, fleet, first[0], ledgers, owner);
      applied, later := Advance(limits, order, next, first[1..], second, once, Claim(owner, line));
    }
  }

  /** Every number of lines up to the total is reached by some prefix of the run. */
  lemma {:induction false} PrefixWithLines(limits: Limits, fleet: map<Id, Runtime>, actions: seq<Action>, n: nat) returns (q: nat)
    requires Runs(fleet) && AllWellFormed(actions) && n <= |RunAll(limits, fleet, actions).1|
    ensures q <= |actions| && AllWellFormed(actions[..q]) && |RunAll(limits, fleet, actions[..q]).1| == n
    decreases |actions|
  {
    if n == 0 {
      q := 0;
    } else {
      var a := actions[0];
      ActRuns(limits, fleet, a);
      var next, line := Act(limits, fleet, a).0, Act(limits, fleet, a).1;
      var m := PrefixWithLines(limits, next, actions[1..], n - |Listed(line)|);
      q := m + 1;
      assert actions[..q][0] == a && actions[..q][1..] == actions[1..][..m];
    }
  }

  // ---------------------------------------------------------------- the whole system

  /** A checkpoint was taken of the live ledgers when exactly `sequence` records had been written. */
  ghost predicate TakenDuring(limits: Limits, fleet: map<Id, Runtime>, actions: seq<Action>, sequence: nat, image: Image, p: nat, ledgers: map<Id, Ledger>)
    requires Runs(fleet) && AllWellFormed(actions)
  {
    && p <= |actions| && AllWellFormed(actions[..p])
    && |RunAll(limits, fleet, actions[..p]).1| == sequence
    && LedgersOf(RunAll(limits, fleet, actions[..p]).0, ledgers)
    && Restores(limits, ledgers) && image == TakeImage(ledgers)
  }

  ghost predicate Honest(limits: Limits, fleet: map<Id, Runtime>, actions: seq<Action>, offered: set<(nat, Image)>)
    requires Runs(fleet) && AllWellFormed(actions)
  {
    forall c :: c in offered ==> exists p, ledgers :: TakenDuring(limits, fleet, actions, c.0, c.1, p, ledgers)
  }

  /** What the process rebuilds from a recovery: the checkpoint's ledgers, or the initial ones, with the
      records replayed onto them. */
  ghost function Rebuilt(limits: Limits, order: seq<Id>, initial: map<Id, Ledger>, rank: Digest -> Id,
                         checkpoint: Option<Checkpoint>, records: seq<Item>): Option<map<Id, Ledger>>
  {
    var start := if checkpoint.Some? then RestoreImage(limits, checkpoint.value.snapshot) else Some(initial);
    if start.None? then None else ReplayLines(order, start.value, LinesOf(rank, records))
  }

  /** The live ledgers agree with themselves. */
  lemma LiveAgrees(limits: Limits, fleet: map<Id, Runtime>, ledgers: map<Id, Ledger>)
    requires LedgersOf(fleet, ledgers)
    ensures AgreeAll(limits, fleet, ledgers)
  {
    forall k | k in fleet
      ensures Agree(limits, fleet[k].ledger, ledgers[k])
    {
      AgreeSelf(limits, ledgers[k]);
    }
  }

  lemma AgreeSelf(limits: Limits, l: Ledger)
    ensures Agree(limits, l, l)
  {
  }

  lemma LiveOwned(limits: Limits, fleet: map<Id, Runtime>, ledgers: map<Id, Ledger>, applied: map<Id, Ledger>, owner: map<Id, Id>)
    requires LedgersOf(fleet, ledgers) && AgreeAll(limits, fleet, applied) && Owned(applied, owner)
    ensures Owned(ledgers, owner)
  {
    forall k | k in ledgers
      ensures OwnedBy(ledgers[k], k, owner)
    {
      assert Agree(limits, ledgers[k], applied[k]) && OwnedBy(applied[k], k, owner);
    }
  }

  /** Replaying from a point of the run, for as many lines as a recovery returned. */
  lemma ReplayFrom(limits: Limits, order: seq<Id>, fleet: map<Id, Runtime>, initial: map<Id, Ledger>, owner: map<Id, Id>,
                   actions: seq<Action>, p: nat, ledgers: map<Id, Ledger>, n: nat) returns (q: nat)
    requires Runs(fleet) && AllWellFormed(actions) && LedgersOf(fleet, initial) && Owned(initial, owner)
    requires Covers(order, initial) && MintsOnceAll(limits, fleet, actions, owner)
    requires p <= |actions| && AllWellFormed(actions[..p]) && LedgersOf(RunAll(limits, fleet, actions[..p]).0, ledgers)
    requires |RunAll(limits, fleet, actions[..p]).1| <= n <= |RunAll(limits, fleet, actions).1|
    ensures q <= |actions| && AllWellFormed(actions[..q]) && |RunAll(limits, fleet, actions[..q]).1| == n
    ensures var lines := RunAll(limits, fleet, actions).1;
            var replay := ReplayLines(order, ledgers, lines[|RunAll(limits, fleet, actions[..p]).1|..n]);
            replay.Some? && AgreeAll(limits, RunAll(limits, fleet, actions[..q]).0, replay.value)
  {
    hide RunAll, AgreeAll, LedgersOf, Owned, Covers, MintsOnceAll, Runs, ReplayLines, AllWellFormed;
    var first, second := actions[..p], actions[p..];
    assert first + second == actions;
    AllSplit(first, second);
    RunSplit(limits, fleet, first, second);
    var middle := RunAll(limits, fleet, first).0;
    var m := PrefixWithLines(limits, middle, second, n - |RunAll(limits, fleet, first).1|);
    q := p + m;
    AllSplit(second[..m], second[m..]);
    assert actions[..q] == first + second[..m] && second[..m] + second[m..] == second;
    LinesBetween(limits, fleet, first, second[..m], second[m..]);
    AgreeFromHere(limits, order, fleet, initial, owner, first, second[..m], second[m..], ledgers);
  }

  lemma AllSplit(a: seq<Action>, b: seq<Action>)
    ensures AllWellFormed(a + b) <==> AllWellFormed(a) && AllWellFormed(b)
  {
    forall c | c in a || c in b
      ensures c in a + b
    {
    }
  }

  /** The lines that the middle of a run writes, and where it ends. */
  lemma LinesBetween(limits: Limits, fleet: map<Id, Runtime>, first: seq<Action>, part: seq<Action>, rest: seq<Action>)
    requires Runs(fleet) && AllWellFormed(first) && AllWellFormed(part) && AllWellFormed(rest)
    ensures AllWellFormed(first + part) && AllWellFormed(first + (part + rest)) && Runs(RunAll(limits, fleet, first).0)
    ensures var middle := RunAll(limits, fleet, first).0;
            var s := |RunAll(limits, fleet, first).1|;
            var lines := RunAll(limits, middle, part).1;
            && RunAll(limits, fleet, first + part).0 == RunAll(limits, middle, part).0
            && |RunAll(limits, fleet, first + part).1| == s + |lines|
            && s + |lines| <= |RunAll(limits, fleet, first + (part + rest)).1|
            && RunAll(limits, fleet, first + (part + rest)).1[s..s + |lines|] == lines
  {
    RunSplit(limits, fleet, first, part);
    var middle := RunAll(limits, fleet, first).0;
    RunSplit(limits, middle, part, rest);
    RunSplit(limits, fleet, first, part + rest);
    Between(RunAll(limits, fleet, first).1, RunAll(limits, middle, part).1,
            RunAll(limits, RunAll(limits, middle, part).0, rest).1);
  }

  lemma Between(a: seq<Line>, b: seq<Line>, c: seq<Line>)
    ensures (a + (b + c))[|a|..|a| + |b|] == b
  {
  }

  lemma AgreeFromHere(limits: Limits, order: seq<Id>, fleet: map<Id, Runtime>, initial: map<Id, Ledger>, owner: map<Id, Id>,
                      first: seq<Action>, part: seq<Action>, rest: seq<Action>, ledgers: map<Id, Ledger>)
    requires Runs(fleet) && AllWellFormed(first + (part + rest)) && LedgersOf(fleet, initial) && Owned(initial, owner)
    requires Covers(order, initial) && MintsOnceAll(limits, fleet, first + (part + rest), owner)
    requires AllWellFormed(first) && LedgersOf(RunAll(limits, fleet, first).0, ledgers)
    ensures AllWellFormed(part) && Runs(RunAll(limits, fleet, first).0)
    ensures var (last, lines) := RunAll(limits, RunAll(limits, fleet, first).0, part);
            ReplayLines(order, ledgers, lines).Some? && AgreeAll(limits, last, ReplayLines(order, ledgers, lines).value)
  {
    var applied, later := Advance(limits, order, fleet, first, part + rest, initial, owner);
    var middle := RunAll(limits, fleet, first).0;
    RunSplit(limits, fleet, first, []);
    LiveOwned(limits, middle, ledgers, applied, later);
    LiveAgrees(limits, middle, ledgers);
    var _, _ := Advance(limits, order, middle, part, rest, ledgers, later);
    RunAllReplays(limits, order, middle, part, ledgers, later);
  }

  /** What a checkpoint, or the absence of one, stands for: the live ledgers after some prefix of the run. */
  lemma StartingPoint(limits: Limits, fleet: map<Id, Runtime>, initial: map<Id, Ledger>, actions: seq<Action>,
                      offered: set<(nat, Image)>, checkpoint: Option<Checkpoint>, from: nat) returns (p: nat, ledgers: map<Id, Ledger>)
    requires Runs(fleet) && AllWellFormed(actions) && LedgersOf(fleet, initial) && Honest(limits, fleet, actions, offered)
    requires checkpoint.Some? ==> (from, checkpoint.value.snapshot) in offered
    requires checkpoint.None? ==> from == 0
    ensures p <= |actions| && AllWellFormed(actions[..p]) && |RunAll(limits, fleet, actions[..p]).1| == from
    ensures LedgersOf(RunAll(limits, fleet, actions[..p]).0, ledgers)
    ensures (if checkpoint.Some? then RestoreImage(limits, checkpoint.value.snapshot) else Some(initial)) == Some(ledgers)
  {
    if checkpoint.Some? {
      var c := (from, checkpoint.value.snapshot);
      assert c in offered;
      p, ledgers :| TakenDuring(limits, fleet, actions, c.0, c.1, p, ledgers);
      ImageRoundTrip(limits, ledgers);
    } else {
      assert actions[..0] == [];
      p, ledgers := 0, initial;
    }
  }

  /** A piece of the written history from a checkpoint on rebuilds the live ledgers. */
  lemma PieceIsLive(limits: Limits, order: seq<Id>, fleet: map<Id, Runtime>, initial: map<Id, Ledger>, owner: map<Id, Id>,
                    actions: seq<Action>, rank: Digest -> Id, h: seq<Item>, offered: set<(nat, Image)>,
                    checkpoint: Option<Checkpoint>, from: nat, n: nat) returns (q: nat)
    requires Runs(fleet) && AllWellFormed(actions) && LedgersOf(fleet, initial) && Owned(initial, owner)
    requires Covers(order, initial) && MintsOnceAll(limits, fleet, actions, owner)
    requires LinesOf(rank, h) == RunAll(limits, fleet, actions).1
    requires Honest(limits, fleet, actions, offered)
    requires checkpoint.Some? ==> (from, checkpoint.value.snapshot) in offered
    requires checkpoint.None? ==> from == 0
    requires from <= n <= |h|
    ensures q <= |actions| && AllWellFormed(actions[..q]) && |RunAll(limits, fleet, actions[..q]).1| == n
    ensures var rebuilt := Rebuilt(limits, order, initial, rank, checkpoint, h[from..n]);
            rebuilt.Some? && AgreeAll(limits, RunAll(limits, fleet, actions[..q]).0, rebuilt.value)
  {
    LinesSlice(rank, h, from, n);
    var p, ledgers := StartingPoint(limits, fleet, initial, actions, offered, checkpoint, from);
    q := ReplayFrom(limits, order, fleet, initial, owner, actions, p, ledgers, n);
  }

  /** Crash safety of the whole system. At any moment of the journal's run, let a power loss happen: if
      the journal recovers, the ledgers rebuilt from it agree with the live fleet after a prefix of its
      actions in which every acknowledged record has been written. */
  lemma CrashRecoveryIsLive(limits: Limits, order: seq<Id>, fleet: map<Id, Runtime>, initial: map<Id, Ledger>, owner: map<Id, Id>,
                            actions: seq<Action>, rank: Digest -> Id, i: Instant, lost: Disk, bound: nat, r: Recovery) returns (q: nat)
    requires Runs(fleet) && AllWellFormed(actions) && LedgersOf(fleet, initial) && Owned(initial, owner)
    requires Covers(order, initial) && MintsOnceAll(limits, fleet, actions, owner)
    requires i.Sound() && PowerLoss(i.disk, lost)
    requires LinesOf(rank, i.history) == RunAll(limits, fleet, actions).1
    requires Honest(limits, fleet, actions, i.offered)
    requires r == Recover(lost, bound) && r.Healthy?
    ensures q <= |actions| && AllWellFormed(actions[..q]) && |RunAll(limits, fleet, actions[..q]).1| >= i.acked
    ensures var rebuilt := Rebuilt(limits, order, initial, rank, r.checkpoint, r.records);
            rebuilt.Some? && AgreeAll(limits, RunAll(limits, fleet, actions[..q]).0, rebuilt.value)
  {
    var from, n := RecoveredPiece(i, lost, bound, r);
    q := PieceIsLive(limits, order, fleet, initial, owner, actions, rank, i.history, i.offered, r.checkpoint, from, n);
  }

  lemma RecoveredPiece(i: Instant, lost: Disk, bound: nat, r: Recovery) returns (from: nat, n: nat)
    requires i.Sound() && PowerLoss(i.disk, lost) && r == Recover(lost, bound) && r.Healthy?
    ensures i.acked <= n <= |i.history| && from <= n && r.records == i.history[from..n]
    ensures r.checkpoint.Some? ==> (from, r.checkpoint.value.snapshot) in i.offered
    ensures r.checkpoint.None? ==> from == 0
  {
    EveryInstantRecovers(i, lost, bound);
    from := OriginOf(Readable(lost.checkpoints)).sequence;
    n :| i.acked <= n <= |i.history| && from <= n && r.records == i.history[from..n];
  }
}
