/** The rules of the ledger, said over accounts, ledgers and requests themselves: cardinalities, sums,
    memberships and instants. No definition here calls a check or a transition of LedgerModel; the
    lemmas prove that the checks and transitions mean this. */
module LedgerRules {
  import opened Common
  import opened LedgerModel
  import opened LedgerReplay
  import opened LedgerLimits

  // ---------------------------------------------------------------- vocabulary

  /** The later of the clock and everything seen before. */
  function Instant(l: Ledger, clock: nat): nat { if clock > l.highWater then clock else l.highWater }

  function CurrentCircuit(l: Ledger, generation: Id): Circuit {
    if generation in l.circuits then l.circuits[generation] else Circuit(Closed, None, 0, 0, 0, 0, None, None)
  }

  /** A half-open circuit lends its probe to one send. */
  predicate Lends(c: Circuit, token: Id) { c.state == HalfOpen && c.probe == Some(token) }

  /** Sending through these circuits uses up `token`. */
  predicate UsesUp(l: Ledger, q: Request, token: Id) {
    Lends(l.accountCircuit, token) || Lends(CurrentCircuit(l, q.binding.generation), token)
  }

  function SizeOf(q: Request): nat { q.inputTokens + q.outputTokens + q.reasoningTokens }

  predicate MonthOver(l: Ledger, now: nat) { 0 < l.monthlyReset <= now }

  function UsedNow(l: Ledger, now: nat): nat { if MonthOver(l, now) then 0 else l.monthlyUsed }

  function ResetNow(l: Ledger, now: nat): nat { if MonthOver(l, now) then 0 else l.monthlyReset }

  /** A resolution is remembered for the retention, and while its attempt holds a slot. */
  predicate Remembered(l: Ledger, id: Id, retention: nat, now: nat) {
    id in l.resolutions && (id in l.attempts || l.resolutions[id].at + retention > now)
  }

  function RememberedOf(l: Ledger, retention: nat, now: nat): set<Id> {
    set id | id in l.resolutions && Remembered(l, id, retention, now)
  }

  /** The counted starts of the last `seconds`. */
  function CountedStarts(l: Ledger, seconds: nat, now: nat): set<Id> {
    set id | id in l.starts && l.starts[id].counted && l.starts[id].at + seconds * 1000 > now
  }

  /** The starts of the last `seconds`, counted or not. */
  function RecentStarts(l: Ledger, seconds: nat, now: nat): set<Id> {
    set id | id in l.starts && l.starts[id].at + seconds * 1000 > now
  }

  ghost function OneOf(ids: set<Id>): (id: Id)
    requires ids != {}
    ensures id in ids
  {
    var id :| id in ids;
    id
  }

  /** What these starts hold together. */
  ghost function SumOfTokens(starts: map<Id, Start>, ids: set<Id>): nat
    requires ids <= starts.Keys
    decreases |ids|
  {
    if ids == {} then 0 else starts[OneOf(ids)].tokens + SumOfTokens(starts, ids - {OneOf(ids)})
  }

  ghost function TokensOfLast(l: Ledger, seconds: nat, now: nat): nat {
    SumOfTokens(l.starts, RecentStarts(l, seconds, now))
  }

  // ---------------------------------------------------------------- the rules of a reservation, in order

  datatype Rule =
    | JournalRecovered | JournalRoom | RightAccount | NoProbeRunning | AccountActive
    | LedgerRoom | EnoughQuota | BeforeDeadline | NewAttempt
    | AccountCircuitKnown | AccountCircuitPasses | CircuitKnown | CircuitPasses | ProbesUnspent
    | MonthDated | SlotFree | RateRoom | SizeFits | TokenRoom | MonthRoom

  function Place(rule: Rule): nat {
    match rule
    case JournalRecovered => 0
    case JournalRoom => 1
    case RightAccount => 2
    case NoProbeRunning => 3
    case AccountActive => 4
    case LedgerRoom => 5
    case EnoughQuota => 6
    case BeforeDeadline => 7
    case NewAttempt => 8
    case AccountCircuitKnown => 9
    case AccountCircuitPasses => 10
    case CircuitKnown => 11
    case CircuitPasses => 12
    case ProbesUnspent => 13
    case MonthDated => 14
    case SlotFree => 15
    case RateRoom => 16
    case SizeFits => 17
    case TokenRoom => 18
    case MonthRoom => 19
  }

  /** Below the operator's ceiling and the provider's attested parallel limit; one at a time while any
      of the four dimensions is not attested. */
  predicate HasFreeSlot(a: Account, l: Ledger) {
    var active := |l.attempts| + l.holds;
    if a.parallel.Known? && a.rpm != Unknown && a.tpm != Unknown && a.monthly != Unknown
    then active < a.parallel.value && active < a.localCeiling
    else active == 0
  }

  ghost predicate Meets(rule: Rule, a: Account, limits: Limits, l: Ledger, q: Request, status: JournalStatus, now: nat) {
    match rule
    case JournalRecovered => status != RecoveryRequired
    case JournalRoom => status != AdmissionStop
    case RightAccount => q.account == a.id
    case NoProbeRunning => l.recoveryProbe == None
    case AccountActive => a.state == Active
    case LedgerRoom => |l.attempts.Keys + RememberedOf(l, limits.retention, now)| < limits.ledger
    case EnoughQuota => a.quotaPerAttempt <= q.quota
    case BeforeDeadline => now < q.deadline
    case NewAttempt => q.attempt !in l.attempts && q.attempt !in l.starts && !Remembered(l, q.attempt, limits.retention, now)
    case AccountCircuitKnown => q.accountCircuit == l.accountCircuit
    case AccountCircuitPasses => l.accountCircuit.state != Open
    case CircuitKnown => q.circuit == CurrentCircuit(l, q.binding.generation)
    case CircuitPasses => CurrentCircuit(l, q.binding.generation).state != Open
    case ProbesUnspent => forall token :: token in l.consumed ==> !UsesUp(l, q, token)
    case MonthDated => a.monthly.Known? && q.quota > 0 ==> ResetNow(l, now) > 0
    case SlotFree => HasFreeSlot(a, l)
    case RateRoom => a.rpm.Known? ==> |CountedStarts(l, a.rpmWindowSeconds, now)| < a.rpm.value
    case SizeFits => a.tpm.Known? ==> SizeOf(q) <= a.tpm.value
    case TokenRoom => a.tpm.Known? ==> TokensOfLast(l, a.tpmWindowSeconds, now) + SizeOf(q) <= a.tpm.value
    case MonthRoom => a.monthly.Known? ==> UsedNow(l, now) + q.quota <= a.monthly.value
  }

  function Reason(rule: Rule): Denial {
    match rule
    case JournalRecovered => NeedsRecovery
    case JournalRoom => JournalCapacityStop
    case RightAccount => AccountNotFound
    case NoProbeRunning => NeedsRecovery
    case AccountActive => AccountNotActive
    case LedgerRoom => JournalCapacityStop
    case EnoughQuota => InvalidQuotaCharge
    case BeforeDeadline => DeadlinePassed
    case NewAttempt => AttemptDuplicate
    case AccountCircuitKnown => CircuitChanged
    case AccountCircuitPasses => CircuitUnavailable
    case CircuitKnown => CircuitChanged
    case CircuitPasses => CircuitUnavailable
    case ProbesUnspent => CircuitUnavailable
    case MonthDated => MonthlyResetUnavailable
    case SlotFree => ParallelExhausted
    case RateRoom => RpmExhausted
    case SizeFits => TpmExhausted
    case TokenRoom => TpmExhausted
    case MonthRoom => MonthlyQuotaExhausted
  }

  /** The instant at which the earliest of these starts leaves the window. */
  predicate FirstLeaves(l: Ledger, ids: set<Id>, seconds: nat, at: nat) {
    && (exists id :: id in ids && id in l.starts && l.starts[id].at + seconds * 1000 == at)
    && forall id :: id in ids && id in l.starts ==> at <= l.starts[id].at + seconds * 1000
  }

  /** When a refused request is told to come back. */
  ghost predicate ComesBack(rule: Rule, a: Account, l: Ledger, q: Request, now: nat, retryAt: Option<nat>) {
    match rule
    case AccountCircuitPasses => retryAt == Some(l.accountCircuit.retryAt)
    case CircuitPasses => retryAt == Some(CurrentCircuit(l, q.binding.generation).retryAt)
    case RateRoom =>
      var counted := CountedStarts(l, a.rpmWindowSeconds, now);
      if counted == {} then retryAt == None
      else retryAt.Some? && FirstLeaves(l, counted, a.rpmWindowSeconds, retryAt.value)
    case TokenRoom =>
      && a.tpm.Known? && retryAt.Some? && retryAt.value > now
      && TokensOfLast(l, a.tpmWindowSeconds, retryAt.value) + SizeOf(q) <= a.tpm.value
      && forall t: nat :: now <= t < retryAt.value ==> TokensOfLast(l, a.tpmWindowSeconds, t) + SizeOf(q) > a.tpm.value
    case MonthRoom => retryAt == Some(ResetNow(l, now))
    case _ => retryAt == None
  }

  /** `rule` is the first one that the request breaks. */
  ghost predicate FirstBroken(rule: Rule, a: Account, limits: Limits, l: Ledger, q: Request, status: JournalStatus, now: nat) {
    && !Meets(rule, a, limits, l, q, status, now)
    && forall r: Rule :: Place(r) < Place(rule) ==> Meets(r, a, limits, l, q, status, now)
  }

  ghost predicate MeetsAll(a: Account, limits: Limits, l: Ledger, q: Request, status: JournalStatus, now: nat) {
    forall r: Rule :: Meets(r, a, limits, l, q, status, now)
  }

  /** The answer that the rules give: a grant if all are met and the journal took the reservation, and
      otherwise the reason and the retry instant of the first one broken. */
  ghost predicate AnswersByRules(a: Account, limits: Limits, l: Ledger, q: Request, status: JournalStatus, now: nat,
                                 append: Append, verdict: Verdict)
  {
    if MeetsAll(a, limits, l, q, status, now) then
      match append
      case Appended(receipt) => verdict.Granted? && verdict.entry.receipt == receipt
      case CapacityStop => verdict == Denied(JournalCapacityStop, None)
      case Failed => verdict == Denied(JournalUnavailable, None)
    else Refuses(a, limits, l, q, status, now, verdict)
  }

  ghost predicate Refuses(a: Account, limits: Limits, l: Ledger, q: Request, status: JournalStatus, now: nat, verdict: Verdict) {
    exists rule ::
      && FirstBroken(rule, a, limits, l, q, status, now)
      && verdict.Denied? && verdict.reason == Reason(rule) && ComesBack(rule, a, l, q, now, verdict.retryAt)
  }

  ghost predicate MeetsUpTo(n: nat, a: Account, limits: Limits, l: Ledger, q: Request, status: JournalStatus, now: nat) {
    forall r: Rule :: Place(r) < n ==> Meets(r, a, limits, l, q, status, now)
  }

  lemma OneMoreRule(rule: Rule, a: Account, limits: Limits, l: Ledger, q: Request, status: JournalStatus, now: nat)
    requires MeetsUpTo(Place(rule), a, limits, l, q, status, now) && Meets(rule, a, limits, l, q, status, now)
    ensures MeetsUpTo(Place(rule) + 1, a, limits, l, q, status, now)
  {
    hide Meets;
    assert forall r: Rule :: Place(r) == Place(rule) ==> r == rule;
  }

  lemma BrokenHere(rule: Rule, a: Account, limits: Limits, l: Ledger, q: Request, status: JournalStatus, now: nat, verdict: Verdict)
    requires MeetsUpTo(Place(rule), a, limits, l, q, status, now) && !Meets(rule, a, limits, l, q, status, now)
    requires verdict.Denied? && verdict.reason == Reason(rule) && ComesBack(rule, a, l, q, now, verdict.retryAt)
    ensures Refuses(a, limits, l, q, status, now, verdict) && !MeetsAll(a, limits, l, q, status, now)
    ensures forall n: nat :: Place(rule) < n ==> !MeetsUpTo(n, a, limits, l, q, status, now)
  {
    hide Meets, ComesBack, Reason;
    assert FirstBroken(rule, a, limits, l, q, status, now);
  }

  // ---------------------------------------------------------------- the checks look at these quantities

  lemma {:induction false} SumIsTotal(starts: map<Id, Start>, part: map<Id, Start>)
    requires forall id :: id in part ==> id in starts && part[id] == starts[id]
    ensures SumOfTokens(starts, part.Keys) == Total(part, StartTokens)
    decreases |part|
  {
    if part.Keys == {} {
      assert part == map[];
    } else {
      var id := OneOf(part.Keys);
      TotalSplit(part, StartTokens, id);
      SumIsTotal(starts, Without(part, id));
    }
  }

  lemma PrunedSize(limits: Limits, l: Ledger, clock: nat)
    ensures var pruned := PruneResolutions(Tick(l, clock), Now(l, clock), limits.retention);
            |pruned.resolutions| + |pruned.Unresolved()| == |l.attempts.Keys + RememberedOf(l, limits.retention, Now(l, clock))|
  {
    var pruned := PruneResolutions(Tick(l, clock), Now(l, clock), limits.retention);
    UnionSize(pruned);
    assert pruned.resolutions.Keys == RememberedOf(l, limits.retention, Now(l, clock));
  }

  lemma WindowSum(a: Account, l: Ledger, now: nat)
    ensures Total(TpmStarts(l.starts, now, a.TpmWindow()), StartTokens) == TokensOfLast(l, a.tpmWindowSeconds, now)
  {
    var part := TpmStarts(l.starts, now, a.TpmWindow());
    SumIsTotal(l.starts, part);
    assert part.Keys == RecentStarts(l, a.tpmWindowSeconds, now);
  }

  /** The windows that the checks look at, of a ledger whose old starts have been purged. */
  lemma SettledWindows(a: Account, limits: Limits, l: Ledger, clock: nat)
    requires a.rpmWindowSeconds <= 86_400 && a.tpmWindowSeconds <= 86_400
    ensures var s := Settled(l, limits, clock); var now := Now(l, clock);
            && RpmStarts(s.starts, now, a.RpmWindow()) == RpmStarts(l.starts, now, a.RpmWindow())
            && TpmStarts(s.starts, now, a.TpmWindow()) == TpmStarts(l.starts, now, a.TpmWindow())
            && s.attempts == l.attempts && s.holds == l.holds
            && s.monthlyReset == ResetNow(l, now) && s.monthlyUsed == UsedNow(l, now)
  {
    PurgeKeepsWindows(PruneResolutions(Tick(l, clock), Now(l, clock), limits.retention), Now(l, clock), Now(l, clock), a.RpmWindow());
    PurgeKeepsWindows(PruneResolutions(Tick(l, clock), Now(l, clock), limits.retention), Now(l, clock), Now(l, clock), a.TpmWindow());
  }

  lemma RateAnswers(a: Account, l: Ledger, starts: map<Id, Start>, now: nat)
    requires RpmStarts(starts, now, a.RpmWindow()) == RpmStarts(l.starts, now, a.RpmWindow())
    ensures var screen := RateScreen(a, starts, now); var counted := CountedStarts(l, a.rpmWindowSeconds, now);
            if a.rpm.Known? ==> |counted| < a.rpm.value then screen.None?
            else
              && screen.Some? && screen.value.Denied? && screen.value.reason == RpmExhausted
              && (if counted == {} then screen.value.retryAt == None
                  else screen.value.retryAt.Some? && FirstLeaves(l, counted, a.rpmWindowSeconds, screen.value.retryAt.value))
  {
    var inside := RpmStarts(starts, now, a.RpmWindow());
    assert inside.Keys == CountedStarts(l, a.rpmWindowSeconds, now);
    assert |inside.Keys| == |inside|;
    if inside != map[] {
      var first := First(inside, StartInstant);
      assert first in CountedStarts(l, a.rpmWindowSeconds, now);
    }
  }

  lemma TokenAnswers(a: Account, l: Ledger, starts: map<Id, Start>, q: Request, now: nat)
    requires TpmStarts(starts, now, a.TpmWindow()) == TpmStarts(l.starts, now, a.TpmWindow())
    ensures var screen := TokenScreen(a, starts, q.Tokens(), now);
            if a.tpm.Known? && SizeOf(q) > a.tpm.value then screen == Some(Denied(TpmExhausted, None))
            else if a.tpm.Known? && TokensOfLast(l, a.tpmWindowSeconds, now) + SizeOf(q) > a.tpm.value then
              && screen.Some? && screen.value.Denied? && screen.value.reason == TpmExhausted
              && ComesBack(TokenRoom, a, l, q, now, screen.value.retryAt)
            else screen.None?
  {
    hide TpmStarts, TpmRetryAt, TokensOfLast, TokensAt, ComesBack;
    WindowSum(a, l, now);
    if a.tpm.Known? && SizeOf(q) <= a.tpm.value && TokensOfLast(l, a.tpmWindowSeconds, now) + SizeOf(q) > a.tpm.value {
      TokensComeBack(a, l, q, now);
    }
  }

  lemma TokensComeBack(a: Account, l: Ledger, q: Request, now: nat)
    requires a.tpm.Known? && SizeOf(q) <= a.tpm.value && TokensOfLast(l, a.tpmWindowSeconds, now) + SizeOf(q) > a.tpm.value
    ensures ComesBack(TokenRoom, a, l, q, now, TpmRetryAt(TpmStarts(l.starts, now, a.TpmWindow()), q.Tokens(), a.tpm.value, a.TpmWindow()))
  {
    hide TpmStarts, TpmRetryAt, TokensOfLast, TokensAt;
    TokensAre(a, l, now);
    TokenRetryIsExact(l, now, q.Tokens(), a.tpm.value, a.TpmWindow());
    forall t: nat ensures TokensAt(l.starts, t, a.TpmWindow()) == TokensOfLast(l, a.tpmWindowSeconds, t)
    {
      TokensAre(a, l, t);
    }
  }

  lemma TokensAre(a: Account, l: Ledger, t: nat)
    ensures TokensAt(l.starts, t, a.TpmWindow()) == TokensOfLast(l, a.tpmWindowSeconds, t)
  {
    WindowSum(a, l, t);
  }

  lemma ProbesAre(l: Ledger, q: Request)
    ensures TokenSpent(l, l.accountCircuit) || TokenSpent(l, l.CircuitOf(q.binding.generation)) <==>
            exists token :: token in l.consumed && UsesUp(l, q, token)
  {
    if TokenSpent(l, l.accountCircuit) {
      assert UsesUp(l, q, l.accountCircuit.probe.value);
    }
    if TokenSpent(l, l.CircuitOf(q.binding.generation)) {
      assert UsesUp(l, q, l.CircuitOf(q.binding.generation).probe.value);
    }
  }

  // ---------------------------------------------------------------- the answer to a reservation

  /** The checks before the clock is read. */
  lemma FrontAnswers(a: Account, limits: Limits, l: Ledger, q: Request, status: JournalStatus, clock: nat, append: Append)
    requires !MeetsUpTo(5, a, limits, l, q, status, Now(l, clock))
    ensures var (after, verdict) := TryReserve(a, limits, l, q, status, clock, append);
            after == l && Refuses(a, limits, l, q, status, Now(l, clock), verdict) && !MeetsAll(a, limits, l, q, status, Now(l, clock))
  {
    hide Screen, Admit, PruneResolutions, Settled;
    var now := Now(l, clock);
    var verdict := TryReserve(a, limits, l, q, status, clock, append).1;
    assert MeetsUpTo(0, a, limits, l, q, status, now);
    if !Meets(JournalRecovered, a, limits, l, q, status, now) {
      BrokenHere(JournalRecovered, a, limits, l, q, status, now, verdict);
      return;
    }
    OneMoreRule(JournalRecovered, a, limits, l, q, status, now);
    if !Meets(JournalRoom, a, limits, l, q, status, now) {
      BrokenHere(JournalRoom, a, limits, l, q, status, now, verdict);
      return;
    }
    OneMoreRule(JournalRoom, a, limits, l, q, status, now);
    if !Meets(RightAccount, a, limits, l, q, status, now) {
      BrokenHere(RightAccount, a, limits, l, q, status, now, verdict);
      return;
    }
    OneMoreRule(RightAccount, a, limits, l, q, status, now);
    if !Meets(NoProbeRunning, a, limits, l, q, status, now) {
      BrokenHere(NoProbeRunning, a, limits, l, q, status, now, verdict);
      return;
    }
    OneMoreRule(NoProbeRunning, a, limits, l, q, status, now);
    if Meets(AccountActive, a, limits, l, q, status, now) {
      OneMoreRule(AccountActive, a, limits, l, q, status, now);
    } else {
      BrokenHere(AccountActive, a, limits, l, q, status, now, verdict);
    }
  }

  lemma FrontPasses(a: Account, limits: Limits, l: Ledger, q: Request, status: JournalStatus, clock: nat, append: Append)
    requires MeetsUpTo(5, a, limits, l, q, status, Now(l, clock))
    ensures var pruned := PruneResolutions(Tick(l, clock), Now(l, clock), limits.retention);
            var early := Screen(a, limits, pruned, q, Now(l, clock));
            TryReserve(a, limits, l, q, status, clock, append) ==
            if early.Some? then (pruned, early.value) else Admit(a, Settled(l, limits, clock), q, Now(l, clock), append)
  {
    hide Screen, Admit, PruneResolutions, Settled;
    var now := Now(l, clock);
    assert Place(JournalRecovered) < 5 && Meets(JournalRecovered, a, limits, l, q, status, now);
    assert Place(JournalRoom) < 5 && Meets(JournalRoom, a, limits, l, q, status, now);
    assert Place(RightAccount) < 5 && Meets(RightAccount, a, limits, l, q, status, now);
    assert Place(NoProbeRunning) < 5 && Meets(NoProbeRunning, a, limits, l, q, status, now);
    assert Place(AccountActive) < 5 && Meets(AccountActive, a, limits, l, q, status, now);
  }

  /** The screen's conditions, on a ledger `p`, are the rules about `l`. */
  ghost predicate ScreensLike(a: Account, limits: Limits, l: Ledger, q: Request, status: JournalStatus, now: nat, p: Ledger) {
    && (Meets(LedgerRoom, a, limits, l, q, status, now) <==> |p.resolutions| + |p.Unresolved()| < limits.ledger)
    && (Meets(NewAttempt, a, limits, l, q, status, now) <==> q.attempt !in p.attempts && q.attempt !in p.starts && q.attempt !in p.resolutions)
    && (Meets(ProbesUnspent, a, limits, l, q, status, now) <==>
        !TokenSpent(p, p.accountCircuit) && !TokenSpent(p, p.CircuitOf(q.binding.generation)))
    && p.accountCircuit == l.accountCircuit
    && p.CircuitOf(q.binding.generation) == CurrentCircuit(l, q.binding.generation)
  }

  lemma PrunedScreensLike(a: Account, limits: Limits, l: Ledger, q: Request, status: JournalStatus, clock: nat)
    ensures ScreensLike(a, limits, l, q, status, Now(l, clock), PruneResolutions(Tick(l, clock), Now(l, clock), limits.retention))
  {
    hide Meets, PruneResolutions, Tick, TokenSpent;
    ScreenMeans(a, limits, l, q, status, clock);
  }

  lemma ScreenMeans(a: Account, limits: Limits, l: Ledger, q: Request, status: JournalStatus, clock: nat)
    ensures var pruned := PruneResolutions(Tick(l, clock), Now(l, clock), limits.retention); var now := Now(l, clock);
            && (Meets(LedgerRoom, a, limits, l, q, status, now) <==> |pruned.resolutions| + |pruned.Unresolved()| < limits.ledger)
            && (Meets(NewAttempt, a, limits, l, q, status, now) <==>
                q.attempt !in pruned.attempts && q.attempt !in pruned.starts && q.attempt !in pruned.resolutions)
            && (Meets(ProbesUnspent, a, limits, l, q, status, now) <==>
                !TokenSpent(pruned, pruned.accountCircuit) && !TokenSpent(pruned, pruned.CircuitOf(q.binding.generation)))
            && pruned.accountCircuit == l.accountCircuit
            && pruned.CircuitOf(q.binding.generation) == CurrentCircuit(l, q.binding.generation)
  {
    PrunedSize(limits, l, clock);
    ProbesAre(l, q);
  }

  lemma ScreenFirstHalf(a: Account, limits: Limits, l: Ledger, q: Request, status: JournalStatus, now: nat, p: Ledger)
    requires ScreensLike(a, limits, l, q, status, now, p) && MeetsUpTo(5, a, limits, l, q, status, now)
    ensures var early := Screen(a, limits, p, q, now);
            if early.Some? && !MeetsUpTo(9, a, limits, l, q, status, now)
            then Refuses(a, limits, l, q, status, now, early.value) && !MeetsUpTo(14, a, limits, l, q, status, now) && !MeetsAll(a, limits, l, q, status, now)
            else MeetsUpTo(9, a, limits, l, q, status, now)
  {
    hide Meets, ComesBack, Screen, ScreensLike, MeetsUpTo, MeetsAll, Refuses;
    var early := Screen(a, limits, p, q, now);
    ScreenOfLedger(a, limits, l, q, status, now, p);
    PlainRefusals(a, l, q, now);
    if !Meets(LedgerRoom, a, limits, l, q, status, now) {
      BrokenHere(LedgerRoom, a, limits, l, q, status, now, early.value);
      return;
    }
    OneMoreRule(LedgerRoom, a, limits, l, q, status, now);
    if !Meets(EnoughQuota, a, limits, l, q, status, now) {
      BrokenHere(EnoughQuota, a, limits, l, q, status, now, early.value);
      return;
    }
    OneMoreRule(EnoughQuota, a, limits, l, q, status, now);
    if !Meets(BeforeDeadline, a, limits, l, q, status, now) {
      BrokenHere(BeforeDeadline, a, limits, l, q, status, now, early.value);
      return;
    }
    OneMoreRule(BeforeDeadline, a, limits, l, q, status, now);
    if Meets(NewAttempt, a, limits, l, q, status, now) {
      OneMoreRule(NewAttempt, a, limits, l, q, status, now);
    } else {
      BrokenHere(NewAttempt, a, limits, l, q, status, now, early.value);
    }
  }

  lemma PlainRefusals(a: Account, l: Ledger, q: Request, now: nat)
    ensures ComesBack(LedgerRoom, a, l, q, now, None) && ComesBack(EnoughQuota, a, l, q, now, None)
    ensures ComesBack(BeforeDeadline, a, l, q, now, None) && ComesBack(NewAttempt, a, l, q, now, None)
  {
  }

  /** The screen's first four conditions. */
  lemma ScreenOfLedger(a: Account, limits: Limits, l: Ledger, q: Request, status: JournalStatus, now: nat, p: Ledger)
    requires ScreensLike(a, limits, l, q, status, now, p)
    ensures var early := Screen(a, limits, p, q, now);
            if !Meets(LedgerRoom, a, limits, l, q, status, now) then early == Some(Denied(JournalCapacityStop, None))
            else if !Meets(EnoughQuota, a, limits, l, q, status, now) then early == Some(Denied(InvalidQuotaCharge, None))
            else if !Meets(BeforeDeadline, a, limits, l, q, status, now) then early == Some(Denied(DeadlinePassed, None))
            else !Meets(NewAttempt, a, limits, l, q, status, now) ==> early == Some(Denied(AttemptDuplicate, None))
  {
    hide TokenSpent, Remembered, RememberedOf, UsesUp, CurrentCircuit;
  }

  lemma ScreenSecondHalf(a: Account, limits: Limits, l: Ledger, q: Request, status: JournalStatus, now: nat, p: Ledger)
    requires ScreensLike(a, limits, l, q, status, now, p) && MeetsUpTo(9, a, limits, l, q, status, now)
    ensures var early := Screen(a, limits, p, q, now);
            && (early.None? <==> MeetsUpTo(14, a, limits, l, q, status, now))
            && (early.Some? ==> Refuses(a, limits, l, q, status, now, early.value) && !MeetsAll(a, limits, l, q, status, now))
  {
    hide Meets, ComesBack, Screen, ScreensLike, MeetsUpTo, MeetsAll, Refuses;
    var early := Screen(a, limits, p, q, now);
    ScreenOfCircuits(a, limits, l, q, status, now, p);
    CircuitsComeBack(a, l, q, now);
    if !Meets(AccountCircuitKnown, a, limits, l, q, status, now) {
      BrokenHere(AccountCircuitKnown, a, limits, l, q, status, now, early.value);
      return;
    }
    OneMoreRule(AccountCircuitKnown, a, limits, l, q, status, now);
    if !Meets(AccountCircuitPasses, a, limits, l, q, status, now) {
      BrokenHere(AccountCircuitPasses, a, limits, l, q, status, now, early.value);
      return;
    }
    OneMoreRule(AccountCircuitPasses, a, limits, l, q, status, now);
    if !Meets(CircuitKnown, a, limits, l, q, status, now) {
      BrokenHere(CircuitKnown, a, limits, l, q, status, now, early.value);
      return;
    }
    OneMoreRule(CircuitKnown, a, limits, l, q, status, now);
    if !Meets(CircuitPasses, a, limits, l, q, status, now) {
      BrokenHere(CircuitPasses, a, limits, l, q, status, now, early.value);
      return;
    }
    OneMoreRule(CircuitPasses, a, limits, l, q, status, now);
    if Meets(ProbesUnspent, a, limits, l, q, status, now) {
      OneMoreRule(ProbesUnspent, a, limits, l, q, status, now);
    } else {
      BrokenHere(ProbesUnspent, a, limits, l, q, status, now, early.value);
    }
  }

  lemma CircuitsComeBack(a: Account, l: Ledger, q: Request, now: nat)
    ensures ComesBack(AccountCircuitKnown, a, l, q, now, None) && ComesBack(CircuitKnown, a, l, q, now, None)
    ensures ComesBack(ProbesUnspent, a, l, q, now, None)
    ensures ComesBack(AccountCircuitPasses, a, l, q, now, Some(l.accountCircuit.retryAt))
    ensures ComesBack(CircuitPasses, a, l, q, now, Some(CurrentCircuit(l, q.binding.generation).retryAt))
  {
  }

  /** Past its first four conditions the screen looks at the circuits alone. */
  lemma ScreenOfCircuits(a: Account, limits: Limits, l: Ledger, q: Request, status: JournalStatus, now: nat, p: Ledger)
    requires ScreensLike(a, limits, l, q, status, now, p) && MeetsUpTo(9, a, limits, l, q, status, now)
    ensures Screen(a, limits, p, q, now) ==
            if !Meets(AccountCircuitKnown, a, limits, l, q, status, now) then Some(Denied(CircuitChanged, None))
            else if !Meets(AccountCircuitPasses, a, limits, l, q, status, now) then Some(Denied(CircuitUnavailable, Some(l.accountCircuit.retryAt)))
            else if !Meets(CircuitKnown, a, limits, l, q, status, now) then Some(Denied(CircuitChanged, None))
            else if !Meets(CircuitPasses, a, limits, l, q, status, now) then
              Some(Denied(CircuitUnavailable, Some(CurrentCircuit(l, q.binding.generation).retryAt)))
            else if !Meets(ProbesUnspent, a, limits, l, q, status, now) then Some(Denied(CircuitUnavailable, None))
            else None
  {
    hide MeetsUpTo, TokenSpent, Remembered, RememberedOf, UsesUp, CurrentCircuit;
    FirstHalfMet(a, limits, l, q, status, now);
  }

  lemma FirstHalfMet(a: Account, limits: Limits, l: Ledger, q: Request, status: JournalStatus, now: nat)
    requires MeetsUpTo(9, a, limits, l, q, status, now)
    ensures Meets(LedgerRoom, a, limits, l, q, status, now) && Meets(EnoughQuota, a, limits, l, q, status, now)
    ensures Meets(BeforeDeadline, a, limits, l, q, status, now) && Meets(NewAttempt, a, limits, l, q, status, now)
  {
    hide Meets;
    assert Place(LedgerRoom) < 9 && Place(EnoughQuota) < 9 && Place(BeforeDeadline) < 9 && Place(NewAttempt) < 9;
  }

  lemma ScreenAnswers(a: Account, limits: Limits, l: Ledger, q: Request, status: JournalStatus, clock: nat)
    requires MeetsUpTo(5, a, limits, l, q, status, Now(l, clock))
    ensures var pruned := PruneResolutions(Tick(l, clock), Now(l, clock), limits.retention); var now := Now(l, clock);
            var early := Screen(a, limits, pruned, q, now);
            && (early.None? <==> MeetsUpTo(14, a, limits, l, q, status, now))
            && (early.Some? ==> Refuses(a, limits, l, q, status, now, early.value) && !MeetsAll(a, limits, l, q, status, now))
  {
    hide *;
    var pruned := PruneResolutions(Tick(l, clock), Now(l, clock), limits.retention);
    PrunedScreensLike(a, limits, l, q, status, clock);
    ScreenFirstHalf(a, limits, l, q, status, Now(l, clock), pruned);
    if MeetsUpTo(9, a, limits, l, q, status, Now(l, clock)) {
      ScreenSecondHalf(a, limits, l, q, status, Now(l, clock), pruned);
    }
  }

  /** The capacity checks' conditions, on the settled ledger, are the rules about it. */
  lemma CapacityMeans(a: Account, limits: Limits, l: Ledger, q: Request, status: JournalStatus, clock: nat)
    requires a.rpmWindowSeconds <= 86_400 && a.tpmWindowSeconds <= 86_400
    ensures var s := Settled(l, limits, clock); var now := Now(l, clock);
            && (Meets(MonthDated, a, limits, l, q, status, now) <==> !(a.monthly.Known? && q.quota > 0 && s.monthlyReset == 0))
            && (Meets(SlotFree, a, limits, l, q, status, now) <==> s.ActiveCount() < a.EnforcedMaxInFlight())
            && (Meets(MonthRoom, a, limits, l, q, status, now) <==> !(a.monthly.Known? && s.monthlyUsed + q.quota > a.monthly.value))
            && s.monthlyReset == ResetNow(l, now)
  {
    hide Settled;
    SettledWindows(a, limits, l, clock);
  }

  lemma RateMeans(a: Account, limits: Limits, l: Ledger, q: Request, status: JournalStatus, clock: nat)
    requires a.rpmWindowSeconds <= 86_400 && a.tpmWindowSeconds <= 86_400
    ensures var now := Now(l, clock); var rate := RateScreen(a, Settled(l, limits, clock).starts, now);
            if Meets(RateRoom, a, limits, l, q, status, now) then rate.None?
            else rate.Some? && rate.value.Denied? && rate.value.reason == Reason(RateRoom)
                 && ComesBack(RateRoom, a, l, q, now, rate.value.retryAt)
  {
    hide RateScreen, Settled, CountedStarts, FirstLeaves;
    SettledWindows(a, limits, l, clock);
    RateAnswers(a, l, Settled(l, limits, clock).starts, Now(l, clock));
  }

  lemma TokensMean(a: Account, limits: Limits, l: Ledger, q: Request, status: JournalStatus, clock: nat)
    requires a.rpmWindowSeconds <= 86_400 && a.tpmWindowSeconds <= 86_400
    ensures var now := Now(l, clock); var tokens := TokenScreen(a, Settled(l, limits, clock).starts, q.Tokens(), now);
            if !Meets(SizeFits, a, limits, l, q, status, now) then tokens == Some(Denied(Reason(SizeFits), None))
            else if !Meets(TokenRoom, a, limits, l, q, status, now) then
              && tokens.Some? && tokens.value.Denied? && tokens.value.reason == Reason(TokenRoom)
              && ComesBack(TokenRoom, a, l, q, now, tokens.value.retryAt)
            else tokens.None?
  {
    hide TokenScreen, Settled, TokensOfLast;
    SettledWindows(a, limits, l, clock);
    TokenAnswers(a, l, Settled(l, limits, clock).starts, q, Now(l, clock));
  }

  lemma CapacityAnswers(a: Account, limits: Limits, l: Ledger, q: Request, status: JournalStatus, clock: nat)
    requires a.rpmWindowSeconds <= 86_400 && a.tpmWindowSeconds <= 86_400
    requires MeetsUpTo(14, a, limits, l, q, status, Now(l, clock))
    ensures var now := Now(l, clock);
            var late := CapacityScreen(a, Settled(l, limits, clock), q, now);
            if late.Some? then Refuses(a, limits, l, q, status, now, late.value) && !MeetsAll(a, limits, l, q, status, now)
            else MeetsUpTo(20, a, limits, l, q, status, now)
  {
    hide Settled, RateScreen, TokenScreen, MeetsUpTo, MeetsAll, Refuses, HasFreeSlot, TokensOfLast, CountedStarts, FirstLeaves;
    var now := Now(l, clock);
    var late := CapacityScreen(a, Settled(l, limits, clock), q, now);
    CapacityMeans(a, limits, l, q, status, clock);
    RateMeans(a, limits, l, q, status, clock);
    TokensMean(a, limits, l, q, status, clock);
    if !Meets(MonthDated, a, limits, l, q, status, now) {
      BrokenHere(MonthDated, a, limits, l, q, status, now, late.value);
      return;
    }
    OneMoreRule(MonthDated, a, limits, l, q, status, now);
    if !Meets(SlotFree, a, limits, l, q, status, now) {
      BrokenHere(SlotFree, a, limits, l, q, status, now, late.value);
      return;
    }
    OneMoreRule(SlotFree, a, limits, l, q, status, now);
    if !Meets(RateRoom, a, limits, l, q, status, now) {
      BrokenHere(RateRoom, a, limits, l, q, status, now, late.value);
      return;
    }
    OneMoreRule(RateRoom, a, limits, l, q, status, now);
    if !Meets(SizeFits, a, limits, l, q, status, now) {
      BrokenHere(SizeFits, a, limits, l, q, status, now, late.value);
      return;
    }
    OneMoreRule(SizeFits, a, limits, l, q, status, now);
    if !Meets(TokenRoom, a, limits, l, q, status, now) {
      BrokenHere(TokenRoom, a, limits, l, q, status, now, late.value);
      return;
    }
    OneMoreRule(TokenRoom, a, limits, l, q, status, now);
    if Meets(MonthRoom, a, limits, l, q, status, now) {
      OneMoreRule(MonthRoom, a, limits, l, q, status, now);
    } else {
      BrokenHere(MonthRoom, a, limits, l, q, status, now, late.value);
    }
  }

  lemma AllMet(a: Account, limits: Limits, l: Ledger, q: Request, status: JournalStatus, now: nat)
    ensures MeetsUpTo(20, a, limits, l, q, status, now) <==> MeetsAll(a, limits, l, q, status, now)
  {
    hide Meets;
    assert forall r: Rule :: Place(r) < 20;
  }

  /** A reservation is answered by the rules: granted exactly if all of them are met and the journal took
      it, and otherwise refused for the first rule broken, with that rule's retry instant. */
  lemma ReservationFollowsRules(a: Account, limits: Limits, l: Ledger, q: Request, status: JournalStatus, clock: nat, append: Append)
    requires a.rpmWindowSeconds <= 86_400 && a.tpmWindowSeconds <= 86_400
    ensures AnswersByRules(a, limits, l, q, status, Instant(l, clock), append, TryReserve(a, limits, l, q, status, clock, append).1)
  {
    hide TryReserve, Screen, CapacityScreen, PruneResolutions, Settled, MeetsUpTo, MeetsAll, Refuses;
    var now := Now(l, clock);
    AllMet(a, limits, l, q, status, now);
    if !MeetsUpTo(5, a, limits, l, q, status, now) {
      FrontAnswers(a, limits, l, q, status, clock, append);
      return;
    }
    FrontPasses(a, limits, l, q, status, clock, append);
    ScreenAnswers(a, limits, l, q, status, clock);
    if MeetsUpTo(14, a, limits, l, q, status, now) {
      CapacityAnswers(a, limits, l, q, status, clock);
    }
  }

  // ---------------------------------------------------------------- what a reservation leaves

  /** What the probe tokens are after a grant: those used up are taken by the attempt. */
  ghost predicate TokensTaken(l: Ledger, q: Request, after: map<Id, Id>) {
    && (forall token :: token in l.consumed && !UsesUp(l, q, token) ==> token in after && after[token] == l.consumed[token])
    && (forall token :: token in after ==> token in l.consumed || UsesUp(l, q, token))
    && (forall token :: UsesUp(l, q, token) ==> token in after && after[token] == q.attempt)
  }

  /** Starts of the last day stay, and so do those of attempts that hold a slot. */
  predicate StartsKept(l: Ledger, now: nat, after: map<Id, Start>) {
    && (forall id :: id in after ==> id in l.starts && after[id] == l.starts[id])
    && (forall id :: id in l.starts ==> (id in after <==> id in l.attempts || l.starts[id].at + 86_400_000 > now))
  }

  predicate ResolutionsKept(l: Ledger, retention: nat, now: nat, after: map<Id, Resolved>) {
    && (forall id :: id in after ==> id in l.resolutions && after[id] == l.resolutions[id])
    && (forall id :: id in l.resolutions ==> (id in after <==> Remembered(l, id, retention, now)))
  }

  /** The token that the account's own circuit lends. */
  function LentByAccount(l: Ledger): Option<Id> {
    if l.accountCircuit.state == HalfOpen then l.accountCircuit.probe else None
  }

  /** A granted attempt carries what was asked for, live and not yet dispatched. */
  predicate CarriesRequest(l: Ledger, q: Request, now: nat, attempt: Attempt) {
    && attempt.binding == q.binding && attempt.deadline == q.deadline
    && attempt.circuitEpoch == q.circuit.epoch && attempt.accountEpoch == q.accountCircuit.epoch
    && attempt.circuitProbe == q.circuit.probe && attempt.accountProbe == LentByAccount(l)
    && attempt.monthlyReset == ResetNow(l, now) && attempt.startedAt == now
    && attempt.dispatchedAt == None && attempt.receipt == None
    && attempt.tokens == SizeOf(q) && attempt.quota == q.quota && attempt.state == Live
  }

  predicate WritesReservation(l: Ledger, q: Request, now: nat, v: Reservation) {
    && v.attempt == q.attempt && v.binding == q.binding && v.deadline == q.deadline && v.startedAt == now
    && v.tokens == SizeOf(q) && v.quota == q.quota && v.monthlyReset == ResetNow(l, now)
    && v.circuitEpoch == q.circuit.epoch && v.accountEpoch == q.accountCircuit.epoch
    && v.circuitProbe == q.circuit.probe && v.accountProbe == LentByAccount(l)
  }

  /** Circuits, holds and the recovery probe are no business of these commands. */
  predicate CircuitsKept(l: Ledger, after: Ledger) {
    && after.circuits == l.circuits && after.accountCircuit == l.accountCircuit
    && after.holds == l.holds && after.recoveryProbe == l.recoveryProbe
  }

  /** The whole ledger after a grant. */
  ghost predicate Granting(limits: Limits, l: Ledger, q: Request, now: nat, after: Ledger) {
    && CircuitsKept(l, after) && after.highWater == now
    && q.attempt in after.attempts && CarriesRequest(l, q, now, after.attempts[q.attempt])
    && q.attempt !in l.attempts && after.attempts == l.attempts[q.attempt := after.attempts[q.attempt]]
    && q.attempt in after.starts && after.starts[q.attempt] == Start(now, SizeOf(q), true)
    && q.attempt !in l.starts && StartsKept(l, now, after.starts - {q.attempt})
    && ResolutionsKept(l, limits.retention, now, after.resolutions)
    && TokensTaken(l, q, after.consumed)
    && after.monthlyReset == ResetNow(l, now) && after.monthlyUsed == UsedNow(l, now) + q.quota
  }

  /** A refusal charges nothing. Before the clock is read it leaves the ledger as it was; from then on
      it forgets old resolutions, and once the capacity is looked at old starts and a month that is over. */
  ghost predicate Refusing(a: Account, limits: Limits, l: Ledger, q: Request, status: JournalStatus, now: nat, after: Ledger) {
    if !MeetsUpTo(5, a, limits, l, q, status, now) then after == l
    else
      && CircuitsKept(l, after) && after.attempts == l.attempts && after.consumed == l.consumed
      && after.highWater == now && ResolutionsKept(l, limits.retention, now, after.resolutions)
      && (if MeetsUpTo(14, a, limits, l, q, status, now)
          then StartsKept(l, now, after.starts) && after.monthlyUsed == UsedNow(l, now) && after.monthlyReset == ResetNow(l, now)
          else after.starts == l.starts && after.monthlyUsed == l.monthlyUsed && after.monthlyReset == l.monthlyReset)
  }

  lemma SettlingKeeps(limits: Limits, l: Ledger, clock: nat)
    ensures var s := Settled(l, limits, clock); var now := Instant(l, clock);
            && CircuitsKept(l, s) && s.attempts == l.attempts && s.consumed == l.consumed && s.highWater == now
            && StartsKept(l, now, s.starts) && ResolutionsKept(l, limits.retention, now, s.resolutions)
            && s.monthlyUsed == UsedNow(l, now) && s.monthlyReset == ResetNow(l, now)
  {
  }

  lemma PruningKeeps(limits: Limits, l: Ledger, clock: nat)
    ensures var p := PruneResolutions(Tick(l, clock), Now(l, clock), limits.retention); var now := Instant(l, clock);
            && CircuitsKept(l, p) && p.attempts == l.attempts && p.consumed == l.consumed && p.highWater == now
            && ResolutionsKept(l, limits.retention, now, p.resolutions)
            && p.starts == l.starts && p.monthlyUsed == l.monthlyUsed && p.monthlyReset == l.monthlyReset
  {
  }

  lemma RefusalLeaves(a: Account, limits: Limits, l: Ledger, q: Request, status: JournalStatus, clock: nat, append: Append)
    requires TryReserve(a, limits, l, q, status, clock, append).1.Denied?
    ensures Refusing(a, limits, l, q, status, Instant(l, clock), TryReserve(a, limits, l, q, status, clock, append).0)
  {
    hide TryReserve, Screen, Admit, Settled, PruneResolutions, MeetsUpTo, StartsKept, ResolutionsKept, UsedNow, ResetNow;
    if !MeetsUpTo(5, a, limits, l, q, status, Now(l, clock)) {
      FrontAnswers(a, limits, l, q, status, clock, append);
      return;
    }
    FrontPasses(a, limits, l, q, status, clock, append);
    ScreenAnswers(a, limits, l, q, status, clock);
    PruningKeeps(limits, l, clock);
    SettlingKeeps(limits, l, clock);
    AdmitShape(a, Settled(l, limits, clock), q, Now(l, clock), append);
  }

  lemma GrantWrites(l: Ledger, s: Ledger, q: Request, now: nat, limits: Limits)
    requires CircuitsKept(l, s) && s.attempts == l.attempts && s.consumed == l.consumed && s.highWater == now
    requires StartsKept(l, now, s.starts) && ResolutionsKept(l, limits.retention, now, s.resolutions)
    requires s.monthlyUsed == UsedNow(l, now) && s.monthlyReset == ResetNow(l, now)
    requires q.attempt !in l.attempts && q.attempt !in l.starts
    ensures Granting(limits, l, q, now, Grant(s, q, now)) && WritesReservation(l, q, now, Durable(s, q, now))
  {
    hide MonthOver, Remembered;
    var after := Grant(s, q, now);
    assert after.starts - {q.attempt} == s.starts;
    GrantTakes(l, s, q, now);
  }

  lemma GrantTakes(l: Ledger, s: Ledger, q: Request, now: nat)
    requires CircuitsKept(l, s) && s.consumed == l.consumed
    ensures TokensTaken(l, q, Grant(s, q, now).consumed)
  {
  }

  /** After a grant the ledger holds exactly one attempt more, with what was asked for charged; after a
      refusal it holds what it held. */
  lemma ReservationLeaves(a: Account, limits: Limits, l: Ledger, q: Request, status: JournalStatus, clock: nat, append: Append)
    ensures var (after, verdict) := TryReserve(a, limits, l, q, status, clock, append); var now := Instant(l, clock);
            if verdict.Granted? then
              && Granting(limits, l, q, now, after)
              && verdict.entry.record.AttemptReserved? && WritesReservation(l, q, now, verdict.entry.record.reservation)
            else Refusing(a, limits, l, q, status, now, after)
  {
    hide TryReserve, CapacityScreen, Settled, PruneResolutions, Grant, Durable, Granting, StartsKept, ResolutionsKept,
         UsedNow, ResetNow, WritesReservation, Refusing;
    ReserveShape(a, limits, l, q, status, clock, append);
    SettlingKeeps(limits, l, clock);
    var (after, verdict) := TryReserve(a, limits, l, q, status, clock, append);
    if verdict.Denied? {
      RefusalLeaves(a, limits, l, q, status, clock, append);
    } else {
      PassedAsNew(a, limits, l, q, clock);
      GrantWrites(l, Settled(l, limits, clock), q, Instant(l, clock), limits);
    }
  }

  lemma PassedAsNew(a: Account, limits: Limits, l: Ledger, q: Request, clock: nat)
    requires Screen(a, limits, PruneResolutions(Tick(l, clock), Now(l, clock), limits.retention), q, Now(l, clock)).None?
    ensures q.attempt !in l.attempts && q.attempt !in l.starts
  {
  }

  /** A request that meets the rules before it is refused for its slot exactly if none is free. */
  lemma ParallelExhaustedIff(a: Account, limits: Limits, l: Ledger, q: Request, status: JournalStatus, clock: nat, append: Append)
    requires a.Valid() && MeetsUpTo(Place(SlotFree), a, limits, l, q, status, Instant(l, clock))
    ensures var verdict := TryReserve(a, limits, l, q, status, clock, append).1;
            verdict.Denied? && verdict.reason == ParallelExhausted <==> !HasFreeSlot(a, l)
  {
    hide TryReserve, Meets, Refuses, MeetsUpTo, HasFreeSlot, MeetsAll;
    var now := Instant(l, clock);
    var verdict := TryReserve(a, limits, l, q, status, clock, append).1;
    ReservationFollowsRules(a, limits, l, q, status, clock, append);
    if MeetsAll(a, limits, l, q, status, now) {
      SlotOfAll(a, limits, l, q, status, now);
    } else {
      RefusedForSlot(a, limits, l, q, status, now, verdict);
    }
  }

  lemma SlotOfAll(a: Account, limits: Limits, l: Ledger, q: Request, status: JournalStatus, now: nat)
    requires MeetsAll(a, limits, l, q, status, now)
    ensures HasFreeSlot(a, l)
  {
    assert Meets(SlotFree, a, limits, l, q, status, now);
  }

  lemma RefusedForSlot(a: Account, limits: Limits, l: Ledger, q: Request, status: JournalStatus, now: nat, verdict: Verdict)
    requires MeetsUpTo(15, a, limits, l, q, status, now) && Refuses(a, limits, l, q, status, now, verdict)
    ensures verdict.Denied? && (verdict.reason == ParallelExhausted <==> !HasFreeSlot(a, l))
  {
    var rule :| FirstBroken(rule, a, limits, l, q, status, now) && verdict.Denied? && verdict.reason == Reason(rule);
    BrokenFrom(15, rule, a, limits, l, q, status, now);
    hide Meets, MeetsUpTo, FirstBroken;
    if HasFreeSlot(a, l) {
      assert rule != SlotFree;
    } else {
      assert rule == SlotFree;
    }
  }

  lemma BrokenFrom(n: nat, rule: Rule, a: Account, limits: Limits, l: Ledger, q: Request, status: JournalStatus, now: nat)
    requires MeetsUpTo(n, a, limits, l, q, status, now) && FirstBroken(rule, a, limits, l, q, status, now)
    ensures Place(rule) >= n
    ensures Meets(SlotFree, a, limits, l, q, status, now) <==> HasFreeSlot(a, l)
    ensures !Meets(rule, a, limits, l, q, status, now)
    ensures Place(SlotFree) < Place(rule) ==> Meets(SlotFree, a, limits, l, q, status, now)
  {
    hide HasFreeSlot;
  }

  lemma ReservationIsRight(a: Account, limits: Limits, l: Ledger, q: Request, status: JournalStatus, clock: nat, append: Append)
    ensures var (after, verdict) := TryReserve(a, limits, l, q, status, clock, append); var now := Instant(l, clock);
            && (a.Valid() ==> AnswersByRules(a, limits, l, q, status, now, append, verdict))
            && (verdict.Granted? ==> Granting(limits, l, q, now, after))
  {
    hide TryReserve, AnswersByRules, Granting, Refusing, WritesReservation;
    ReservationLeaves(a, limits, l, q, status, clock, append);
    if a.Valid() {
      ReservationFollowsRules(a, limits, l, q, status, clock, append);
    }
  }
}
