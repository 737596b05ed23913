/** What a live account never does, in any run: exceed a rolling window, overcharge the month, lose a
    slot, or outgrow its own ledger. */
module LedgerLimits {
  import opened Common
  import opened LedgerModel
  import opened LedgerReplay

  // ---------------------------------------------------------------- the instant at which tokens fit again

  /** The starts inside the window `(t - window, t]`, for starts that are not in the future of `t`. */
  ghost function TokensAt(starts: map<Id, Start>, t: nat, window: nat): nat {
    Total(TpmStarts(starts, t, window), StartTokens)
  }

  /** Everything in the window when the first start leaves it is among the other starts. */
  lemma AfterFirstLeaves(all: map<Id, Start>, rest: map<Id, Start>, k: Id, window: nat)
    requires IsFirst(rest, StartInstant, k)
    requires forall k :: k in rest ==> k in all && rest[k] == all[k]
    requires forall j, k :: j in all && j !in rest && k in rest ==> all[j].at <= rest[k].at
    ensures TokensAt(all, rest[k].at + window, window) <= Total(Without(rest, k), StartTokens)
  {
    var left := TpmStarts(all, rest[k].at + window, window);
    assert forall j :: j in left ==> j in Without(rest, k) && left[j] == rest[j];
    TotalMonotone(left, Without(rest, k), StartTokens);
  }

  /** Before the first start leaves the window, nothing has left it. */
  lemma BeforeFirstLeaves(all: map<Id, Start>, rest: map<Id, Start>, k: Id, window: nat, t: nat)
    requires IsFirst(rest, StartInstant, k)
    requires forall k :: k in rest ==> k in all && rest[k] == all[k]
    requires t < rest[k].at + window
    ensures Total(rest, StartTokens) <= TokensAt(all, t, window)
  {
    var left := TpmStarts(all, t, window);
    assert forall j :: j in rest ==> j in left && left[j] == rest[j];
    TotalMonotone(rest, left, StartTokens);
  }

  /** `rest` is what is left of `all` after removing starts that are no later than any of it. */
  ghost predicate Latest(all: map<Id, Start>, rest: map<Id, Start>) {
    && (forall k :: k in rest ==> k in all && rest[k] == all[k])
    && (forall j, k :: j in all && j !in rest && k in rest ==> all[j].at <= rest[k].at)
  }

  /** `answer` is the first instant at which `requested` more tokens fit. */
  ghost predicate FitsFirstAt(all: map<Id, Start>, answer: nat, requested: nat, limit: nat, window: nat) {
    && TokensAt(all, answer, window) + requested <= limit
    && forall t: nat :: t < answer ==> TokensAt(all, t, window) + requested > limit
  }

  lemma FirstDropIsExact(all: map<Id, Start>, rest: map<Id, Start>, k: Id, requested: nat, limit: nat, window: nat)
    requires IsFirst(rest, StartInstant, k)
    requires Latest(all, rest)
    requires Total(rest, StartTokens) + requested > limit
    requires Total(Without(rest, k), StartTokens) + requested <= limit
    ensures FitsFirstAt(all, rest[k].at + window, requested, limit, window)
  {
    AfterFirstLeaves(all, rest, k, window);
    forall t: nat | t < rest[k].at + window
      ensures TokensAt(all, t, window) + requested > limit
    {
      BeforeFirstLeaves(all, rest, k, window, t);
    }
  }

  lemma SomethingStarted(starts: map<Id, Start>)
    requires Total(starts, StartTokens) > 0
    ensures starts != map[]
  {
  }

  lemma FirstLeavesLater(all: map<Id, Start>, rest: map<Id, Start>, k: Id)
    requires Latest(all, rest)
    requires rest != map[] && k == First(rest, StartInstant)
    ensures k in rest && forall j :: j in rest ==> rest[k].at <= rest[j].at
    ensures var smaller := Without(rest, k);
            Latest(all, smaller) && |smaller| < |rest|
  {
    assert IsFirst(rest, StartInstant, k);
  }

  lemma {:induction false} ScanIsExact(all: map<Id, Start>, rest: map<Id, Start>, requested: nat, limit: nat, window: nat)
    requires Latest(all, rest)
    requires Total(rest, StartTokens) + requested > limit >= requested
    ensures var answer := TpmRetryAt(rest, requested, limit, window);
            answer.Some? && FitsFirstAt(all, answer.value, requested, limit, window)
    decreases |rest|
  {
    hide *;
    SomethingStarted(rest);
    var k := First(rest, StartInstant);
    FirstLeavesLater(all, rest, k);
    var smaller := Without(rest, k);
    ScanStep(rest, requested, limit, window);
    if Total(smaller, StartTokens) + requested <= limit {
      FirstDropIsExact(all, rest, k, requested, limit, window);
    } else {
      ScanIsExact(all, smaller, requested, limit, window);
    }
  }

  lemma ScanStep(rest: map<Id, Start>, requested: nat, limit: nat, window: nat)
    requires rest != map[]
    ensures var k := First(rest, StartInstant);
            var smaller := Without(rest, k);
            TpmRetryAt(rest, requested, limit, window) ==
            if Total(smaller, StartTokens) + requested <= limit then Some(rest[k].at + window)
            else TpmRetryAt(smaller, requested, limit, window)
  {
    var k := First(rest, StartInstant);
    var smaller := Without(rest, k);
    TotalSplit(rest, StartTokens, k);
    OrderedStep(rest, StartInstant, []);
    var later := Ordered(smaller, StartInstant);
    assert Ordered(rest, StartInstant) == [k] + later;
    ScanCons(k, later, rest, Total(rest, StartTokens), requested, limit, window);
    ScanOfSubmap(later, smaller, rest, Total(smaller, StartTokens), requested, limit, window);
  }

  /** The scan only looks at the starts it is ordered over. */
  lemma {:induction false} ScanOfSubmap(order: seq<Id>, a: map<Id, Start>, b: map<Id, Start>, total: int, requested: nat, limit: nat, window: nat)
    requires forall k :: k in order ==> k in a && k in b && a[k] == b[k]
    ensures RetryScan(order, a, total, requested, limit, window) == RetryScan(order, b, total, requested, limit, window)
    decreases |order|
  {
    if order != [] {
      assert forall k :: k in order[1..] ==> k in order;
      ScanOfSubmap(order[1..], a, b, total - a[order[0]].tokens, requested, limit, window);
    }
  }

  /** Looking at the window of a window: later it is the later window, earlier it is unchanged. */
  lemma TokensInside(starts: map<Id, Start>, now: nat, t: nat, window: nat)
    ensures TokensAt(TpmStarts(starts, now, window), t, window) == TokensAt(starts, Max(now, t), window)
  {
    assert TpmStarts(TpmStarts(starts, now, window), t, window) == TpmStarts(starts, Max(now, t), window);
  }

  /** A request denied for tokens is told exactly when it fits: at the returned instant, which is
      still ahead, and at no earlier one. In particular the scan always has an answer. */
  lemma TokenRetryIsExact(l: Ledger, now: nat, requested: nat, limit: nat, window: nat)
    requires TokensAt(l.starts, now, window) + requested > limit >= requested
    ensures var retry := TpmRetryAt(TpmStarts(l.starts, now, window), requested, limit, window);
            && retry.Some? && retry.value > now
            && TokensAt(l.starts, retry.value, window) + requested <= limit
            && forall t: nat :: now <= t < retry.value ==> TokensAt(l.starts, t, window) + requested > limit
  {
    hide TpmRetryAt, FitsFirstAt, TpmStarts, Total;
    var inside := TpmStarts(l.starts, now, window);
    ScanIsExact(inside, inside, requested, limit, window);
    var retry := TpmRetryAt(inside, requested, limit, window).value;
    forall t: nat
      ensures TokensAt(inside, t, window) == TokensAt(l.starts, Max(now, t), window)
    {
      TokensInside(l.starts, now, t, window);
    }
    FitsOutside(l.starts, inside, now, retry, requested, limit, window);
  }

  lemma FitsOutside(starts: map<Id, Start>, inside: map<Id, Start>, now: nat, retry: nat, requested: nat, limit: nat, window: nat)
    requires forall t: nat :: TokensAt(inside, t, window) == TokensAt(starts, Max(now, t), window)
    requires FitsFirstAt(inside, retry, requested, limit, window)
    requires TokensAt(starts, now, window) + requested > limit
    ensures retry > now && TokensAt(starts, retry, window) + requested <= limit
    ensures forall t: nat :: now <= t < retry ==> TokensAt(starts, t, window) + requested > limit
  {
    hide TokensAt;
    assert TokensAt(inside, retry, window) == TokensAt(starts, Max(now, retry), window);
    forall t: nat | now <= t < retry
      ensures TokensAt(starts, t, window) + requested > limit
    {
      assert TokensAt(inside, t, window) == TokensAt(starts, Max(now, t), window);
    }
  }

  /** A request denied for its rate is told the first instant at which a start leaves the window:
      nothing leaves before it, and at that instant the request fits if and only if fewer than the
      limit of the starts are later than the first one. */
  lemma RateRetryIsExact(l: Ledger, now: nat, limit: nat, window: nat)
    requires |RpmStarts(l.starts, now, window)| >= limit > 0
    ensures var inside := RpmStarts(l.starts, now, window);
            && inside != map[]
            && (var retry := inside[First(inside, StartInstant)].at + window;
                && retry > now
                && (forall t: nat :: now <= t < retry ==> RpmStarts(l.starts, t, window) == inside)
                && RpmStarts(l.starts, retry, window).Keys
                   == set id | id in inside && inside[id].at > inside[First(inside, StartInstant)].at)
  {
    var inside := RpmStarts(l.starts, now, window);
    assert inside != map[];
    var first := inside[First(inside, StartInstant)].at;
    forall t: nat | now <= t < first + window
      ensures RpmStarts(l.starts, t, window) == inside
    {
      assert forall id :: id in inside ==> inside[id].at >= first;
      assert RpmStarts(l.starts, t, window).Keys == inside.Keys;
    }
  }

  /** Purging starts never changes a later answer about a window that is no longer than a day. */
  lemma PurgeKeepsWindows(l: Ledger, purgedAt: nat, now: nat, window: nat)
    requires purgedAt <= now && window <= KEEP
    ensures RpmStarts(PurgeWindows(l, purgedAt).starts, now, window) == RpmStarts(l.starts, now, window)
    ensures TpmStarts(PurgeWindows(l, purgedAt).starts, now, window) == TpmStarts(l.starts, now, window)
  {
    assert RpmStarts(PurgeWindows(l, purgedAt).starts, now, window).Keys == RpmStarts(l.starts, now, window).Keys;
    assert TpmStarts(PurgeWindows(l, purgedAt).starts, now, window).Keys == TpmStarts(l.starts, now, window).Keys;
  }

  // ---------------------------------------------------------------- the audited history

  /** Every start that the journal records, never purged, with the refunds that it records. */
  function Audited(history: map<Id, Start>, entry: Option<Entry>): map<Id, Start> {
    if entry.None? then history
    else match entry.value.record
      case AttemptReserved(v) => history[v.attempt := Start(v.startedAt, v.tokens, true)]
      case AttemptResolved(id, resolution, _) => if id in history then history[id := Settle(history[id], resolution)] else history
      case _ => history
  }

  /** The starts of the window `(t - window, t]`. */
  function Within(history: map<Id, Start>, t: int, window: nat): map<Id, Start> {
    history - set id | id in history && !(t - window < history[id].at <= t)
  }

  function Counted(history: map<Id, Start>): map<Id, Start> {
    history - set id | id in history && !history[id].counted
  }

  ghost predicate RateCapped(history: map<Id, Start>, window: nat, limit: nat) {
    forall t: int :: |Within(Counted(history), t, window)| <= limit
  }

  ghost predicate TokensCapped(history: map<Id, Start>, window: nat, limit: nat) {
    forall t: int :: Total(Within(history, t, window), StartTokens) <= limit
  }

  /** The ledger's starts are the history without what purging dropped. */
  ghost predicate Mirrors(l: Ledger, history: map<Id, Start>) {
    && l.attempts.Keys <= l.starts.Keys
    && (forall id :: id in l.starts ==> id in history && history[id] == l.starts[id])
    && (forall id :: id in history ==> history[id].at <= l.highWater)
    && (forall id :: id in history && id !in l.starts ==> id !in l.attempts && history[id].at <= l.highWater - KEEP)
    && (forall id :: id in l.attempts && id !in l.resolutions ==> l.starts[id].tokens == l.attempts[id].tokens)
  }

  lemma SmallerMap<V>(a: map<Id, V>, b: map<Id, V>)
    requires a.Keys <= b.Keys
    ensures |a| <= |b|
  {
    SmallerSet(a.Keys, b.Keys);
    assert |a.Keys| == |a| && |b.Keys| == |b|;
  }

  lemma {:induction false} SmallerSet<T>(a: set<T>, b: set<T>)
    requires a <= b
    ensures |a| <= |b|
    decreases |a|
  {
    if a != {} {
      var x :| x in a;
      SmallerSet(a - {x}, b - {x});
    }
  }

  /** Before the grant a window of the history is untouched; from it on, the window holds at most
      what the check looked at and the new start. */
  lemma WindowAfterGrant(l: Ledger, history: map<Id, Start>, id: Id, start: Start, window: nat, t: int)
    requires Mirrors(l, history) && window <= KEEP && start.at == l.highWater && id !in history
    ensures var inside := TpmStarts(l.starts, l.highWater, window)[id := start];
            var after := Within(history[id := start], t, window);
            if t < start.at then after == Within(history, t, window)
            else forall k :: k in after ==> k in inside && after[k] == inside[k]
  {
  }

  /** A grant that passed the rate check keeps every window of the history under the rate limit. */
  lemma GrantKeepsRate(l: Ledger, history: map<Id, Start>, id: Id, start: Start, window: nat, limit: nat)
    requires Mirrors(l, history) && RateCapped(history, window, limit) && window <= KEEP
    requires start.at == l.highWater && id !in history
    requires |RpmStarts(l.starts, l.highWater, window)| < limit
    ensures RateCapped(history[id := start], window, limit)
  {
    var after := history[id := start];
    forall t: int ensures |Within(Counted(after), t, window)| <= limit
    {
      RateAfterGrant(l, history, id, start, window, t);
    }
  }

  lemma RateAfterGrant(l: Ledger, history: map<Id, Start>, id: Id, start: Start, window: nat, t: int)
    requires Mirrors(l, history) && window <= KEEP && start.at == l.highWater && id !in history
    ensures |Within(Counted(history[id := start]), t, window)| <=
            if t < start.at then |Within(Counted(history), t, window)| else |RpmStarts(l.starts, l.highWater, window)| + 1
  {
    var after := Within(Counted(history[id := start]), t, window);
    if t < start.at {
      assert after.Keys <= Within(Counted(history), t, window).Keys;
      SmallerMap(after, Within(Counted(history), t, window));
    } else {
      CountedWithin(l, history, id, start, window, t);
      var inside := RpmStarts(l.starts, l.highWater, window);
      SmallerMap(after, inside[id := start]);
      OneMore(inside, id, start);
      hide Mirrors, RpmStarts, Counted, Within;
    }
  }

  lemma OneMore(m: map<Id, Start>, id: Id, start: Start)
    ensures |m[id := start]| <= |m| + 1
  {
    assert m[id := start].Keys == m.Keys + {id};
    assert |m[id := start].Keys| == |m[id := start]| && |m.Keys| == |m|;
  }

  lemma CountedWithin(l: Ledger, history: map<Id, Start>, id: Id, start: Start, window: nat, t: int)
    requires Mirrors(l, history) && window <= KEEP && start.at == l.highWater <= t && id !in history
    ensures Within(Counted(history[id := start]), t, window).Keys <= RpmStarts(l.starts, l.highWater, window)[id := start].Keys
  {
  }

  /** A grant that passed the token check keeps every window of the history under the token limit. */
  lemma GrantKeepsTokens(l: Ledger, history: map<Id, Start>, id: Id, start: Start, window: nat, limit: nat)
    requires Mirrors(l, history) && TokensCapped(history, window, limit) && window <= KEEP
    requires start.at == l.highWater && id !in history
    requires TokensAt(l.starts, l.highWater, window) + start.tokens <= limit
    ensures TokensCapped(history[id := start], window, limit)
  {
    var inside := TpmStarts(l.starts, l.highWater, window);
    assert id !in inside;
    TotalInsert(inside, StartTokens, id, start);
    var after := history[id := start];
    forall t: int ensures Total(Within(after, t, window), StartTokens) <= limit
    {
      WindowAfterGrant(l, history, id, start, window, t);
      if t >= start.at {
        TotalMonotone(Within(history[id := start], t, window), inside[id := start], StartTokens);
      }
    }
  }

  lemma RefundedRate(history: map<Id, Start>, id: Id, settled: Start, window: nat, t: int)
    requires id in history && settled.at == history[id].at && (settled.counted ==> history[id].counted)
    ensures |Within(Counted(history[id := settled]), t, window)| <= |Within(Counted(history), t, window)|
  {
    SmallerMap(Within(Counted(history[id := settled]), t, window), Within(Counted(history), t, window));
  }

  lemma RefundedTokens(history: map<Id, Start>, id: Id, settled: Start, window: nat, t: int)
    requires id in history && settled.at == history[id].at && settled.tokens <= history[id].tokens
    ensures Total(Within(history[id := settled], t, window), StartTokens) <= Total(Within(history, t, window), StartTokens)
  {
    TotalMonotone(Within(history[id := settled], t, window), Within(history, t, window), StartTokens);
  }

  /** A refund only lowers what any window holds. */
  lemma RefundKeepsCaps(history: map<Id, Start>, id: Id, settled: Start, window: nat, limit: nat)
    requires id in history && settled.at == history[id].at
    requires settled.tokens <= history[id].tokens && (settled.counted ==> history[id].counted)
    ensures RateCapped(history, window, limit) ==> RateCapped(history[id := settled], window, limit)
    ensures TokensCapped(history, window, limit) ==> TokensCapped(history[id := settled], window, limit)
  {
    var after := history[id := settled];
    if RateCapped(history, window, limit) {
      forall t: int ensures |Within(Counted(after), t, window)| <= limit
      {
        RefundedRate(history, id, settled, window, t);
      }
    }
    if TokensCapped(history, window, limit) {
      forall t: int ensures Total(Within(after, t, window), StartTokens) <= limit
      {
        RefundedTokens(history, id, settled, window, t);
      }
    }
  }

  // ---------------------------------------------------------------- the books of the month

  /** The charges granted since the month was last rolled, each at its latest known value, and the
      instant of that roll. */
  datatype Books = Books(charges: map<Id, nat>, rolledAt: nat)

  function Charge(n: nat): nat { n }

  ghost predicate RollsOver(before: Ledger, after: Ledger) {
    before.monthlyReset != 0 && after.highWater >= before.monthlyReset && after.monthlyReset != before.monthlyReset
  }

  function Booked(charges: map<Id, nat>, entry: Option<Entry>): map<Id, nat> {
    if entry.None? then charges
    else match entry.value.record
      case AttemptReserved(v) => charges[v.attempt := v.quota]
      case AttemptResolved(id, resolution, _) =>
        if id in charges && resolution.actualQuota.Some? then charges[id := resolution.actualQuota.value] else charges
      case _ => charges
  }

  ghost function BooksAfter(b: Books, before: Ledger, after: Ledger, entry: Option<Entry>): Books {
    if RollsOver(before, after) then Books(Booked(map[], entry), after.highWater) else Books(Booked(b.charges, entry), b.rolledAt)
  }

  /** Every open attempt is on the books at what it reserved, or belongs to a month that is over. */
  ghost predicate AttemptsBooked(l: Ledger, b: Books) {
    && (forall id :: id in l.Unresolved() ==>
          if id in b.charges then b.charges[id] == l.attempts[id].quota
          else l.attempts[id].quota == 0 || l.attempts[id].monthlyReset <= b.rolledAt)
    && (forall id :: id in l.attempts ==>
          && (l.attempts[id].quota > 0 ==> l.attempts[id].monthlyReset != 0)
          && (l.attempts[id].monthlyReset <= l.monthlyReset || l.attempts[id].monthlyReset <= b.rolledAt))
  }

  /** The month is charged at least what was granted since the last roll, and never over the limit. */
  ghost predicate MonthBalanced(limit: nat, l: Ledger, b: Books) {
    && Total(b.charges, Charge) <= l.monthlyUsed <= limit
    && (l.monthlyReset == 0 || l.monthlyReset > b.rolledAt)
    && b.rolledAt <= l.highWater
    && AttemptsBooked(l, b)
  }

  /** A refund is never larger than what is charged: the clamp at zero has nothing to clamp. */
  lemma ClampNeverFires(limit: nat, l: Ledger, b: Books, id: Id, resolution: Resolution)
    requires MonthBalanced(limit, l, b)
    requires id in l.attempts && id !in l.resolutions && !ExceedsReservation(l.attempts[id], resolution)
    requires resolution.actualQuota.Some? && l.attempts[id].monthlyReset == l.monthlyReset
    ensures l.monthlyUsed + resolution.actualQuota.value - l.attempts[id].quota >= 0
  {
    if id in b.charges {
      TotalSplit(b.charges, Charge, id);
    }
  }

  lemma FinishBooked(l: Ledger, b: Books, id: Id, resolution: Resolution, clock: nat, append: Append)
    requires AttemptsBooked(l, b) && Runnable(l)
    ensures var change := Finish(l, id, resolution, clock, append);
            AttemptsBooked(change.ledger, Books(Booked(b.charges, change.entry), b.rolledAt))
  {
  }

  /** A resolution takes as much off the books as off the month, or takes nothing off the month. */
  lemma FinishCharges(limit: nat, l: Ledger, b: Books, id: Id, resolution: Resolution, clock: nat, append: Append)
    requires MonthBalanced(limit, l, b) && Runnable(l)
    ensures var change := Finish(l, id, resolution, clock, append);
            Total(Booked(b.charges, change.entry), Charge) <= change.ledger.monthlyUsed <= l.monthlyUsed
  {
    hide Total;
    if id in l.Unresolved() && !ExceedsReservation(l.attempts[id], resolution) && resolution.actualQuota.Some? {
      if id in b.charges {
        TotalReplace(b.charges, Charge, id, resolution.actualQuota.value);
      }
      if l.attempts[id].monthlyReset == l.monthlyReset {
        ClampNeverFires(limit, l, b, id, resolution);
      }
    }
  }

  lemma FinishBalances(limit: nat, l: Ledger, b: Books, id: Id, resolution: Resolution, clock: nat, append: Append)
    requires MonthBalanced(limit, l, b) && Runnable(l)
    ensures var change := Finish(l, id, resolution, clock, append);
            MonthBalanced(limit, change.ledger, BooksAfter(b, l, change.ledger, change.entry))
  {
    FinishBooked(l, b, id, resolution, clock, append);
    FinishCharges(limit, l, b, id, resolution, clock, append);
  }

  lemma RollBalances(limit: nat, l: Ledger, b: Books, now: nat)
    requires MonthBalanced(limit, l, b) && now == l.highWater
    ensures MonthBalanced(limit, RollMonthly(l, now), BooksAfter(b, l, RollMonthly(l, now), None))
  {
  }

  lemma TickBalances(limit: nat, limits: Limits, l: Ledger, b: Books, clock: nat)
    requires MonthBalanced(limit, l, b)
    ensures MonthBalanced(limit, PruneResolutions(Tick(l, clock), Now(l, clock), limits.retention), b)
    ensures MonthBalanced(limit, PurgeWindows(PruneResolutions(Tick(l, clock), Now(l, clock), limits.retention), Now(l, clock)), b)
    ensures MonthBalanced(limit, PurgeWindows(Tick(l, clock), Now(l, clock)), b)
    ensures MonthBalanced(limit, Tick(l, clock), b)
  {
  }

  lemma GrantBooked(l: Ledger, b: Books, q: Request, now: nat)
    requires AttemptsBooked(l, b) && q.attempt !in b.charges && (q.quota > 0 ==> l.monthlyReset != 0)
    ensures AttemptsBooked(Grant(l, q, now), Books(b.charges[q.attempt := q.quota], b.rolledAt))
  {
  }

  lemma GrantBalances(limit: nat, l: Ledger, b: Books, q: Request, now: nat)
    requires MonthBalanced(limit, l, b) && q.attempt !in b.charges
    requires l.monthlyUsed + q.quota <= limit && (q.quota > 0 ==> l.monthlyReset != 0)
    ensures MonthBalanced(limit, Grant(l, q, now), Books(b.charges[q.attempt := q.quota], b.rolledAt))
  {
    GrantBooked(l, b, q, now);
    TotalInsert(b.charges, Charge, q.attempt, q.quota);
  }

  lemma ExtendBalances(limit: nat, l: Ledger, b: Books, candidate: nat)
    requires MonthBalanced(limit, l, b)
    requires candidate >= l.monthlyReset && (candidate == 0 || candidate > l.highWater)
    ensures MonthBalanced(limit, l.(monthlyReset := candidate), b)
  {
  }

  lemma PublishBalances(limit: nat, l: Ledger, b: Books, a: Account, clock: nat)
    requires MonthBalanced(limit, l, b)
    ensures MonthBalanced(limit, Publish(l, a, clock), BooksAfter(b, l, Publish(l, a, clock), None))
  {
    var now := Now(l, clock);
    TickBalances(limit, Limits(0, 0), l, b, clock);
    RollBalances(limit, Tick(l, clock), b, now);
    var rolled := RollMonthly(Tick(l, clock), now);
    var books := BooksAfter(b, Tick(l, clock), rolled, None);
    assert BooksAfter(b, l, Publish(l, a, clock), None) == books;
    if rolled.monthlyReset == 0 || a.NextMonthlyReset(now) > rolled.monthlyReset {
      ExtendBalances(limit, rolled, books, a.NextMonthlyReset(now));
    }
  }

  // ---------------------------------------------------------------- slots

  /** Attempts and resolutions together stay within the ledger bound. */
  ghost predicate LedgerBounded(limits: Limits, l: Ledger) {
    |l.attempts.Keys + l.resolutions.Keys| <= limits.ledger
  }

  lemma UnionSize(l: Ledger)
    ensures |l.resolutions| + |l.Unresolved()| == |l.attempts.Keys + l.resolutions.Keys|
  {
    assert l.attempts.Keys + l.resolutions.Keys == l.resolutions.Keys + l.Unresolved();
    assert l.resolutions.Keys !! l.Unresolved();
    assert |l.resolutions.Keys + l.Unresolved()| == |l.resolutions.Keys| + |l.Unresolved()|;
    assert |l.resolutions.Keys| == |l.resolutions|;
  }

  lemma PrunedKeys(limits: Limits, l: Ledger, clock: nat)
    ensures var pruned := PruneResolutions(Tick(l, clock), Now(l, clock), limits.retention);
            pruned.attempts == l.attempts && pruned.resolutions.Keys <= l.resolutions.Keys
    ensures var pruned := PruneResolutions(Tick(l, clock), Now(l, clock), limits.retention);
            Settled(l, limits, clock).attempts == l.attempts && Settled(l, limits, clock).resolutions == pruned.resolutions
  {
  }

  lemma PrunedBounded(limits: Limits, l: Ledger, clock: nat)
    requires LedgerBounded(limits, l)
    ensures LedgerBounded(limits, PruneResolutions(Tick(l, clock), Now(l, clock), limits.retention))
    ensures LedgerBounded(limits, Settled(l, limits, clock))
  {
    PrunedKeys(limits, l, clock);
    SmallerSet(l.attempts.Keys + PruneResolutions(Tick(l, clock), Now(l, clock), limits.retention).resolutions.Keys,
               l.attempts.Keys + l.resolutions.Keys);
  }

  lemma GrantBounded(limits: Limits, l: Ledger, q: Request, now: nat)
    requires |l.resolutions| + |l.Unresolved()| < limits.ledger
    ensures LedgerBounded(limits, Grant(l, q, now))
  {
    UnionSize(l);
    var after := Grant(l, q, now);
    assert after.attempts.Keys + after.resolutions.Keys == l.attempts.Keys + l.resolutions.Keys + {q.attempt};
  }

  lemma ReserveBounded(a: Account, limits: Limits, l: Ledger, q: Request, status: JournalStatus, clock: nat, append: Append)
    requires LedgerBounded(limits, l)
    ensures LedgerBounded(limits, TryReserve(a, limits, l, q, status, clock, append).0)
  {
    ReserveShape(a, limits, l, q, status, clock, append);
    PrunedBounded(limits, l, clock);
    if TryReserve(a, limits, l, q, status, clock, append).1.Granted? {
      GrantBounded(limits, Settled(l, limits, clock), q, Now(l, clock));
    }
  }

  /** A grant adds exactly one slot. What is then in use is at most the operator's ceiling and at most what
      the provider attested, and is the one slot alone while any of the four dimensions is not attested. */
  lemma GrantWithinParallel(a: Account, limits: Limits, l: Ledger, q: Request, status: JournalStatus, clock: nat, append: Append)
    requires TryReserve(a, limits, l, q, status, clock, append).1.Granted?
    ensures var after := TryReserve(a, limits, l, q, status, clock, append).0;
            && |after.attempts| + after.holds == |l.attempts| + l.holds + 1
            && (1 <= a.localCeiling ==> |after.attempts| + after.holds <= a.localCeiling)
            && (if a.parallel.Known? && a.rpm != Unknown && a.tpm != Unknown && a.monthly != Unknown
                then |after.attempts| + after.holds <= a.parallel.value else |after.attempts| + after.holds == 1)
  {
    ReserveShape(a, limits, l, q, status, clock, append);
    hide TryReserve;
    GrantCounts(a, limits, l, q, clock);
  }

  lemma GrantCounts(a: Account, limits: Limits, l: Ledger, q: Request, clock: nat)
    requires Screen(a, limits, PruneResolutions(Tick(l, clock), Now(l, clock), limits.retention), q, Now(l, clock)).None?
    requires CapacityScreen(a, Settled(l, limits, clock), q, Now(l, clock)).None?
    ensures Grant(Settled(l, limits, clock), q, Now(l, clock)).ActiveCount() == l.ActiveCount() + 1 <= a.EnforcedMaxInFlight()
  {
    hide RateScreen, TokenScreen, TokenSpent;
    var settled := Settled(l, limits, clock);
    assert settled.attempts == l.attempts && q.attempt !in settled.attempts;
    OneMoreAttempt(settled.attempts, q.attempt, Grant(settled, q, Now(l, clock)).attempts);
  }

  lemma OneMoreAttempt(before: map<Id, Attempt>, id: Id, after: map<Id, Attempt>)
    requires id !in before && id in after && after == before[id := after[id]]
    ensures |after| == |before| + 1
  {
    assert after.Keys == before.Keys + {id};
    assert |after.Keys| == |after| && |before.Keys| == |before|;
  }

  /** The only ways to give a slot back, and how many. */
  ghost predicate GivesBack(c: Command) {
    || (c.Finishing? && c.resolution.release)
    || (c.ProbeEnds? && c.probing.Available?)
    || c.Counting?
  }

  lemma {:induction false} OldestCount(attempts: map<Id, Attempt>, count: nat)
    ensures |OldestAttempts(attempts, count)| == Min(count, |attempts|)
  {
    var order := Ordered(attempts, AttemptInstant);
    OrderedDistinct(attempts, AttemptInstant);
    var keep := order[..Min(count, |attempts|)];
    var kept := OldestAttempts(attempts, count);
    assert forall id :: id in kept.Keys <==> id in keep;
    DistinctSize(keep, kept.Keys);
    assert |kept.Keys| == |kept|;
  }

  lemma {:induction false} OrderedDistinct<V(!new)>(m: map<Id, V>, f: V -> nat)
    ensures forall i, j :: 0 <= i < j < |Ordered(m, f)| ==> Ordered(m, f)[i] != Ordered(m, f)[j]
    decreases |m|
  {
    if m != map[] {
      var k := First(m, f);
      var later := Ordered(Without(m, k), f);
      OrderedDistinct(Without(m, k), f);
      assert Ordered(m, f) == [k] + later;
      assert forall i :: 0 <= i < |later| ==> later[i] in later;
    }
  }

  lemma {:induction false} DistinctSize(s: seq<Id>, t: set<Id>)
    requires forall i, j :: 0 <= i < j < |s| ==> s[i] != s[j]
    requires forall x :: x in t <==> x in s
    ensures |t| == |s|
    decreases |s|
  {
    if s == [] {
      assert t == {};
    } else {
      var last := s[|s| - 1];
      var front := s[..|s| - 1];
      assert forall x :: x in s <==> x in front || x == last;
      DistinctSize(front, t - {last});
    }
  }

  lemma FinishSlots(l: Ledger, id: Id, resolution: Resolution, clock: nat, append: Append)
    requires Runnable(l)
    ensures var change := Finish(l, id, resolution, clock, append);
            change.ledger.ActiveCount() == l.ActiveCount() - (if change.entry.Some? && resolution.release then 1 else 0)
  {
  }

  lemma ProbeSlots(l: Ledger, probe: Id, probing: Probing, append: Append)
    ensures var change := FinishProbe(l, probe, probing, append);
            l.ActiveCount() - (if change.entry.Some? && probing.Available? then 1 else 0) <= change.ledger.ActiveCount() <= l.ActiveCount()
  {
  }

  lemma ReserveSlots(a: Account, limits: Limits, l: Ledger, q: Request, status: JournalStatus, clock: nat, append: Append)
    ensures TryReserve(a, limits, l, q, status, clock, append).0.ActiveCount() >= l.ActiveCount()
  {
    ReserveShape(a, limits, l, q, status, clock, append);
  }

  lemma OtherSlots(l: Ledger, c: Command)
    ensures c.Dispatching? ==> MarkDispatched(l, c.attempt, c.clock, c.append).ledger.ActiveCount() == l.ActiveCount()
    ensures c.Marking? ==> MarkUncertain(l, c.attempt, c.append).ledger.ActiveCount() == l.ActiveCount()
    ensures c.Publishing? ==> Publish(l, c.account, c.clock).ActiveCount() == l.ActiveCount()
    ensures c.Reading? ==> ReadCapacity(l, c.clock).ActiveCount() == l.ActiveCount()
  {
  }

  lemma CircuitSlots(l: Ledger, c: Command)
    ensures c.Swapping? ==> SwapCircuit(l, c.generation, c.expected, c.replacement, c.append).ledger.ActiveCount() == l.ActiveCount()
    ensures c.ProbeBegins? ==> BeginProbe(l, c.probe, c.append).ledger.ActiveCount() == l.ActiveCount()
  {
  }

  /** No step but a releasing resolution, an available probe or an authoritative count takes an attempt
      or a hold away; the first two take at most one, and the count leaves exactly what it says. */
  lemma SlotsReturnOnlyOnEvidence(limits: Limits, r: Runtime, c: Command)
    requires Runnable(r.ledger)
    ensures var (after, entry) := Step(limits, r, c);
            && (after.ledger.ActiveCount() < r.ledger.ActiveCount() ==> GivesBack(c) && entry.Some?)
            && (!c.Counting? ==> after.ledger.ActiveCount() >= r.ledger.ActiveCount() - 1)
            && (c.Counting? && entry.Some? ==> after.ledger.ActiveCount() == c.count)
  {
    hide TryReserve, Finish, FinishProbe, SwapCircuit, BeginProbe, MarkDispatched, MarkUncertain, Publish, ReadCapacity;
    match c
    case Reserve(q, status, clock, append) => ReserveSlots(r.account, limits, r.ledger, q, status, clock, append);
    case Finishing(id, resolution, clock, append) => FinishSlots(r.ledger, id, resolution, clock, append);
    case ProbeEnds(probe, probing, append) => ProbeSlots(r.ledger, probe, probing, append);
    case Counting(count, _) => OldestCount(r.ledger.attempts, count);
    case _ =>
      OtherSlots(r.ledger, c);
      CircuitSlots(r.ledger, c);
  }

  // ---------------------------------------------------------------- every run

  /** A run as an auditor sees it: the runtime, every start it ever recorded, and the month's books. */
  datatype Audit = Audit(runtime: Runtime, history: map<Id, Start>, books: Books)

  ghost function AuditStep(limits: Limits, s: Audit, c: Command): Audit
    requires Runnable(s.runtime.ledger)
  {
    var (after, entry) := Step(limits, s.runtime, c);
    Audit(after, Audited(s.history, entry), BooksAfter(s.books, s.runtime.ledger, after.ledger, entry))
  }

  /** The limits that a publication may not change while the caps are claimed. */
  predicate SamePolicy(p: Account, a: Account) {
    && p.rpm == a.rpm && p.rpmWindowSeconds == a.rpmWindowSeconds
    && p.tpm == a.tpm && p.tpmWindowSeconds == a.tpmWindowSeconds && p.monthly == a.monthly
  }

  ghost predicate CapsHold(p: Account, history: map<Id, Start>) {
    && (p.rpm.Known? ==> RateCapped(history, p.RpmWindow(), p.rpm.value))
    && (p.tpm.Known? ==> TokensCapped(history, p.TpmWindow(), p.tpm.value))
  }

  /** Everything that holds after every step of a run under policy `p`. */
  ghost predicate Lawful(p: Account, limits: Limits, s: Audit) {
    var l := s.runtime.ledger;
    && p.Valid() && SamePolicy(p, s.runtime.account)
    && Sound(l) && Mirrors(l, s.history) && LedgerBounded(limits, l)
    && s.books.charges.Keys <= s.history.Keys
    && CapsHold(p, s.history)
    && (p.monthly.Known? ==> MonthBalanced(p.monthly.value, l, s.books))
  }

  /** What the environment promises of one command. */
  ghost predicate Admissible(p: Account, s: Audit, c: Command) {
    && WellFormed(c)
    && (c.Publishing? ==> SamePolicy(p, c.account))
    && (c.Reserve? ==> c.request.attempt !in s.history)
  }

  // Mirrors, one transition at a time.

  lemma SettledMirrors(limits: Limits, l: Ledger, history: map<Id, Start>, clock: nat)
    requires Mirrors(l, history)
    ensures Mirrors(PruneResolutions(Tick(l, clock), Now(l, clock), limits.retention), history)
    ensures Mirrors(Settled(l, limits, clock), history)
    ensures Mirrors(ReadCapacity(l, clock), history)
    ensures Mirrors(Tick(l, clock), history)
  {
    var ticked := Tick(l, clock);
    assert Mirrors(ticked, history);
    var pruned := PruneResolutions(ticked, Now(l, clock), limits.retention);
    assert Mirrors(pruned, history);
    PurgedMirrors(pruned, history);
    PurgedMirrors(ticked, history);
  }

  lemma PurgedMirrors(l: Ledger, history: map<Id, Start>)
    requires Mirrors(l, history)
    ensures Mirrors(RollMonthly(PurgeWindows(l, l.highWater), l.highWater), history)
  {
  }

  lemma GrantMirrors(l: Ledger, history: map<Id, Start>, q: Request)
    requires Mirrors(l, history) && q.attempt !in history
    ensures Mirrors(Grant(l, q, l.highWater), history[q.attempt := Start(l.highWater, q.Tokens(), true)])
  {
  }

  lemma FinishMirrors(l: Ledger, history: map<Id, Start>, id: Id, resolution: Resolution, clock: nat, append: Append)
    requires Mirrors(l, history)
    ensures var change := Finish(l, id, resolution, clock, append);
            Mirrors(change.ledger, Audited(history, change.entry))
  {
  }

  lemma FewerAttemptsMirror(l: Ledger, history: map<Id, Start>, after: Ledger)
    requires Mirrors(l, history)
    requires after.starts == l.starts && after.resolutions == l.resolutions && after.highWater >= l.highWater
    requires forall id :: id in after.attempts ==> id in l.attempts && after.attempts[id].tokens == l.attempts[id].tokens
    ensures Mirrors(after, history)
  {
  }

  // One step keeps the caps.

  lemma GrantKeepsCaps(p: Account, a: Account, l: Ledger, history: map<Id, Start>, q: Request)
    requires p.Valid() && SamePolicy(p, a) && Mirrors(l, history) && CapsHold(p, history)
    requires q.attempt !in history && CapacityScreen(a, l, q, l.highWater).None?
    ensures CapsHold(p, history[q.attempt := Start(l.highWater, q.Tokens(), true)])
  {
    var start := Start(l.highWater, q.Tokens(), true);
    if p.rpm.Known? {
      GrantKeepsRate(l, history, q.attempt, start, p.RpmWindow(), p.rpm.value);
    }
    if p.tpm.Known? {
      GrantKeepsTokens(l, history, q.attempt, start, p.TpmWindow(), p.tpm.value);
    }
  }

  lemma ReserveCaps(p: Account, a: Account, limits: Limits, l: Ledger, history: map<Id, Start>, q: Request,
                    status: JournalStatus, clock: nat, append: Append)
    requires p.Valid() && SamePolicy(p, a) && Mirrors(l, history) && CapsHold(p, history) && q.attempt !in history
    ensures var (after, verdict) := TryReserve(a, limits, l, q, status, clock, append);
            Mirrors(after, Audited(history, Written(verdict))) && CapsHold(p, Audited(history, Written(verdict)))
  {
    ReserveShape(a, limits, l, q, status, clock, append);
    SettledMirrors(limits, l, history, clock);
    if TryReserve(a, limits, l, q, status, clock, append).1.Granted? {
      GrantMirrors(Settled(l, limits, clock), history, q);
      GrantKeepsCaps(p, a, Settled(l, limits, clock), history, q);
    }
  }

  lemma FinishCaps(p: Account, l: Ledger, history: map<Id, Start>, id: Id, resolution: Resolution, clock: nat, append: Append)
    requires Mirrors(l, history) && CapsHold(p, history)
    ensures var change := Finish(l, id, resolution, clock, append);
            Mirrors(change.ledger, Audited(history, change.entry)) && CapsHold(p, Audited(history, change.entry))
  {
    FinishMirrors(l, history, id, resolution, clock, append);
    if Finish(l, id, resolution, clock, append).entry.Some? {
      FinishKeepsCaps(p, l, history, id, resolution);
    }
  }

  lemma FinishKeepsCaps(p: Account, l: Ledger, history: map<Id, Start>, id: Id, resolution: Resolution)
    requires Mirrors(l, history) && CapsHold(p, history)
    requires id in l.Unresolved() && !ExceedsReservation(l.attempts[id], resolution)
    ensures id in history && CapsHold(p, history[id := Settle(history[id], resolution)])
  {
    var settled := Settle(history[id], resolution);
    if p.rpm.Known? {
      RefundKeepsCaps(history, id, settled, p.RpmWindow(), p.rpm.value);
    }
    if p.tpm.Known? {
      RefundKeepsCaps(history, id, settled, p.TpmWindow(), p.tpm.value);
    }
  }

  /** A change that adds no attempt and leaves starts, resolutions and the month alone. */
  ghost predicate SlotsOnly(l: Ledger, change: Change) {
    var after := change.ledger;
    && after.starts == l.starts && after.resolutions == l.resolutions && after.highWater >= l.highWater
    && after.monthlyUsed == l.monthlyUsed && after.monthlyReset == l.monthlyReset
    && (forall id :: id in after.attempts ==> id in l.attempts && SameCharge(after.attempts[id], l.attempts[id]))
    && (change.entry.Some? ==> !change.entry.value.record.AttemptReserved? && !change.entry.value.record.AttemptResolved?)
  }

  predicate SameCharge(a: Attempt, b: Attempt) {
    a.tokens == b.tokens && a.quota == b.quota && a.monthlyReset == b.monthlyReset
  }

  /** The change that a slot command makes. */
  ghost function SlotChange(l: Ledger, c: Command): Change
    requires !c.Reserve? && !c.Finishing? && !c.Publishing? && !c.Reading?
  {
    match c
    case Dispatching(id, clock, append) => MarkDispatched(l, id, clock, append)
    case Swapping(g, expected, replacement, append) => SwapCircuit(l, g, expected, replacement, append)
    case Counting(count, append) => SetActiveCount(l, count, append)
    case ProbeBegins(probe, append) => BeginProbe(l, probe, append)
    case ProbeEnds(probe, probing, append) => FinishProbe(l, probe, probing, append)
    case Marking(id, append) => MarkUncertain(l, id, append)
  }

  lemma SwapIsSlotsOnly(l: Ledger, g: Option<Id>, expected: Circuit, replacement: Circuit, append: Append)
    ensures SlotsOnly(l, SwapCircuit(l, g, expected, replacement, append))
  {
  }

  lemma DispatchIsSlotsOnly(l: Ledger, id: Id, clock: nat, append: Append)
    ensures SlotsOnly(l, MarkDispatched(l, id, clock, append))
  {
  }

  lemma MarkIsSlotsOnly(l: Ledger, id: Id, append: Append)
    ensures SlotsOnly(l, MarkUncertain(l, id, append))
  {
  }

  lemma FewerIsSlotsOnly(l: Ledger, attempts: map<Id, Attempt>, holds: nat, probe: Option<Id>, entry: Option<Entry>, ok: bool)
    requires forall id :: id in attempts ==> id in l.attempts && attempts[id] == l.attempts[id]
    requires entry.Some? ==> !entry.value.record.AttemptReserved? && !entry.value.record.AttemptResolved?
    ensures SlotsOnly(l, Change(l.(attempts := attempts, holds := holds, recoveryProbe := probe), entry, ok))
  {
  }

  lemma CountIsSlotsOnly(l: Ledger, count: nat, append: Append)
    ensures SlotsOnly(l, SetActiveCount(l, count, append))
  {
    var change := SetActiveCount(l, count, append);
    FewerIsSlotsOnly(l, change.ledger.attempts, change.ledger.holds, l.recoveryProbe, change.entry, change.ok);
  }

  lemma BeginIsSlotsOnly(l: Ledger, probe: Id, append: Append)
    ensures SlotsOnly(l, BeginProbe(l, probe, append))
  {
  }

  lemma ProbeIsSlotsOnly(l: Ledger, probe: Id, probing: Probing, append: Append)
    ensures SlotsOnly(l, FinishProbe(l, probe, probing, append))
  {
    var change := FinishProbe(l, probe, probing, append);
    FewerIsSlotsOnly(l, change.ledger.attempts, change.ledger.holds, change.ledger.recoveryProbe, change.entry, change.ok);
  }

  lemma SlotChangeIsSlotsOnly(l: Ledger, c: Command)
    requires !c.Reserve? && !c.Finishing? && !c.Publishing? && !c.Reading?
    ensures SlotsOnly(l, SlotChange(l, c))
  {
    match c
    case Dispatching(id, clock, append) => DispatchIsSlotsOnly(l, id, clock, append);
    case Swapping(g, expected, replacement, append) => SwapIsSlotsOnly(l, g, expected, replacement, append);
    case Counting(count, append) => CountIsSlotsOnly(l, count, append);
    case ProbeBegins(probe, append) => BeginIsSlotsOnly(l, probe, append);
    case ProbeEnds(probe, probing, append) => ProbeIsSlotsOnly(l, probe, probing, append);
    case Marking(id, append) => MarkIsSlotsOnly(l, id, append);
  }

  lemma StepIsSlotChange(limits: Limits, r: Runtime, c: Command)
    requires Runnable(r.ledger)
    requires !c.Reserve? && !c.Finishing? && !c.Publishing? && !c.Reading?
    ensures Step(limits, r, c) == Changed(r, SlotChange(r.ledger, c))
  {
  }

  lemma QuietMirrors(limits: Limits, l: Ledger, history: map<Id, Start>, a: Account, clock: nat)
    requires Mirrors(l, history)
    ensures Mirrors(Publish(l, a, clock), history) && Mirrors(ReadCapacity(l, clock), history)
  {
    hide Mirrors, ReadCapacity;
    SettledMirrors(limits, l, history, clock);
    FewerAttemptsMirror(l, history, Publish(l, a, clock));
  }

  lemma CapsStep(p: Account, limits: Limits, s: Audit, c: Command)
    requires p.Valid() && SamePolicy(p, s.runtime.account) && Admissible(p, s, c)
    requires Mirrors(s.runtime.ledger, s.history) && CapsHold(p, s.history)
    ensures var next := AuditStep(limits, s, c);
            Mirrors(next.runtime.ledger, next.history) && CapsHold(p, next.history)
  {
    var l := s.runtime.ledger;
    match c
    case Reserve(q, status, clock, append) =>
      ReserveCaps(p, s.runtime.account, limits, l, s.history, q, status, clock, append);
    case Finishing(id, resolution, clock, append) => FinishCaps(p, l, s.history, id, resolution, clock, append);
    case Publishing(a, clock) => QuietMirrors(limits, l, s.history, a, clock);
    case Reading(clock) => QuietMirrors(limits, l, s.history, s.runtime.account, clock);
    case _ =>
      SlotChangeIsSlotsOnly(l, c);
      StepIsSlotChange(limits, s.runtime, c);
      FewerAttemptsMirror(l, s.history, SlotChange(l, c).ledger);
  }

  // One step keeps the month balanced.

  lemma SettlingBalances(limit: nat, limits: Limits, l: Ledger, b: Books, clock: nat)
    requires MonthBalanced(limit, l, b)
    ensures MonthBalanced(limit, Settled(l, limits, clock), BooksAfter(b, l, Settled(l, limits, clock), None))
    ensures MonthBalanced(limit, ReadCapacity(l, clock), BooksAfter(b, l, ReadCapacity(l, clock), None))
  {
    TickBalances(limit, limits, l, b, clock);
    RollBalances(limit, PurgeWindows(PruneResolutions(Tick(l, clock), Now(l, clock), limits.retention), Now(l, clock)), b, Now(l, clock));
    RollBalances(limit, PurgeWindows(Tick(l, clock), Now(l, clock)), b, Now(l, clock));
  }

  lemma ReserveBalances(limit: nat, a: Account, limits: Limits, l: Ledger, b: Books, q: Request, status: JournalStatus,
                        clock: nat, append: Append)
    requires MonthBalanced(limit, l, b) && a.monthly == Known(limit) && q.attempt !in b.charges
    ensures var (after, verdict) := TryReserve(a, limits, l, q, status, clock, append);
            MonthBalanced(limit, after, BooksAfter(b, l, after, Written(verdict)))
  {
    ReserveShape(a, limits, l, q, status, clock, append);
    if TryReserve(a, limits, l, q, status, clock, append).1.Granted? {
      GrantedBalances(limit, a, limits, l, b, q, clock, append.receipt);
    } else {
      UngrantedBalances(limit, limits, l, b, clock, TryReserve(a, limits, l, q, status, clock, append).0);
    }
  }

  lemma GrantedBalances(limit: nat, a: Account, limits: Limits, l: Ledger, b: Books, q: Request, clock: nat, receipt: Receipt)
    requires MonthBalanced(limit, l, b) && a.monthly == Known(limit) && q.attempt !in b.charges
    requires CapacityScreen(a, Settled(l, limits, clock), q, Now(l, clock)).None?
    ensures var settled := Settled(l, limits, clock); var now := Now(l, clock);
            var entry := Entry(receipt, AttemptReserved(Durable(settled, q, now)));
            MonthBalanced(limit, Grant(settled, q, now), BooksAfter(b, l, Grant(settled, q, now), Some(entry)))
  {
    var settled := Settled(l, limits, clock);
    SettlingBalances(limit, limits, l, b, clock);
    MonthRoom(limit, a, settled, q, Now(l, clock));
    GrantOnBooks(b, l, settled, q, Now(l, clock), receipt);
    GrantBalances(limit, settled, BooksAfter(b, l, settled, None), q, Now(l, clock));
  }

  /** A grant goes on the books that settling left. */
  lemma GrantOnBooks(b: Books, l: Ledger, settled: Ledger, q: Request, now: nat, receipt: Receipt)
    ensures var books := BooksAfter(b, l, settled, None);
            BooksAfter(b, l, Grant(settled, q, now), Some(Entry(receipt, AttemptReserved(Durable(settled, q, now)))))
            == Books(books.charges[q.attempt := q.quota], books.rolledAt)
  {
  }

  /** What the capacity checks established about the month. */
  lemma MonthRoom(limit: nat, a: Account, l: Ledger, q: Request, now: nat)
    requires CapacityScreen(a, l, q, now).None? && a.monthly == Known(limit)
    ensures l.monthlyUsed + q.quota <= limit && (q.quota > 0 ==> l.monthlyReset != 0)
  {
  }

  lemma UngrantedBalances(limit: nat, limits: Limits, l: Ledger, b: Books, clock: nat, after: Ledger)
    requires MonthBalanced(limit, l, b)
    requires after == l || after == PruneResolutions(Tick(l, clock), Now(l, clock), limits.retention) || after == Settled(l, limits, clock)
    ensures MonthBalanced(limit, after, BooksAfter(b, l, after, None))
  {
    SettlingBalances(limit, limits, l, b, clock);
    TickBalances(limit, limits, l, b, clock);
  }

  lemma MonthStep(p: Account, limits: Limits, s: Audit, c: Command)
    requires SamePolicy(p, s.runtime.account) && Admissible(p, s, c) && p.monthly.Known? && Runnable(s.runtime.ledger)
    requires MonthBalanced(p.monthly.value, s.runtime.ledger, s.books) && s.books.charges.Keys <= s.history.Keys
    ensures var next := AuditStep(limits, s, c);
            MonthBalanced(p.monthly.value, next.runtime.ledger, next.books)
  {
    var l, limit := s.runtime.ledger, p.monthly.value;
    match c
    case Reserve(q, status, clock, append) =>
      ReserveBalances(limit, s.runtime.account, limits, l, s.books, q, status, clock, append);
    case Finishing(id, resolution, clock, append) => FinishBalances(limit, l, s.books, id, resolution, clock, append);
    case Publishing(a, clock) => PublishBalances(limit, l, s.books, a, clock);
    case Reading(clock) => SettlingBalances(limit, limits, l, s.books, clock);
    case _ =>
      SlotChangeIsSlotsOnly(l, c);
      StepIsSlotChange(limits, s.runtime, c);
      SlotsBalance(limit, l, s.books, SlotChange(l, c));
  }

  lemma SlotsBalance(limit: nat, l: Ledger, b: Books, change: Change)
    requires MonthBalanced(limit, l, b) && SlotsOnly(l, change)
    ensures MonthBalanced(limit, change.ledger, BooksAfter(b, l, change.ledger, change.entry))
  {
  }

  // One step keeps the ledger bounded.

  lemma FinishBounded(limits: Limits, l: Ledger, id: Id, resolution: Resolution, clock: nat, append: Append)
    requires Runnable(l) && LedgerBounded(limits, l)
    ensures LedgerBounded(limits, Finish(l, id, resolution, clock, append).ledger)
  {
    var after := Finish(l, id, resolution, clock, append).ledger;
    assert after.attempts.Keys <= l.attempts.Keys && after.resolutions.Keys <= l.resolutions.Keys + l.attempts.Keys;
    SmallerSet(after.attempts.Keys + after.resolutions.Keys, l.attempts.Keys + l.resolutions.Keys);
  }

  lemma SlotsBounded(limits: Limits, l: Ledger, change: Change)
    requires LedgerBounded(limits, l) && SlotsOnly(l, change)
    ensures LedgerBounded(limits, change.ledger)
  {
    SmallerSet(change.ledger.attempts.Keys + change.ledger.resolutions.Keys, l.attempts.Keys + l.resolutions.Keys);
  }

  lemma QuietBounded(limits: Limits, l: Ledger, a: Account, clock: nat)
    requires LedgerBounded(limits, l)
    ensures LedgerBounded(limits, Publish(l, a, clock)) && LedgerBounded(limits, ReadCapacity(l, clock))
  {
  }

  lemma BoundStep(limits: Limits, r: Runtime, c: Command)
    requires Runnable(r.ledger) && LedgerBounded(limits, r.ledger)
    ensures LedgerBounded(limits, Step(limits, r, c).0.ledger)
  {
    hide LedgerBounded, TryReserve, Finish, SlotChange, Publish, ReadCapacity;
    match c
    case Reserve(q, status, clock, append) => ReserveBounded(r.account, limits, r.ledger, q, status, clock, append);
    case Finishing(id, resolution, clock, append) => FinishBounded(limits, r.ledger, id, resolution, clock, append);
    case Publishing(a, clock) => QuietBounded(limits, r.ledger, a, clock);
    case Reading(clock) => QuietBounded(limits, r.ledger, r.account, clock);
    case _ =>
      SlotChangeIsSlotsOnly(r.ledger, c);
      StepIsSlotChange(limits, r, c);
      SlotsBounded(limits, r.ledger, SlotChange(r.ledger, c));
  }

  lemma StepAccount(limits: Limits, r: Runtime, c: Command)
    requires Runnable(r.ledger)
    ensures Step(limits, r, c).0.account == if c.Publishing? then c.account else r.account
  {
  }

  lemma BookedKeys(charges: map<Id, nat>, history: map<Id, Start>, entry: Option<Entry>)
    requires charges.Keys <= history.Keys
    ensures Booked(charges, entry).Keys <= Audited(history, entry).Keys
    ensures Booked(map[], entry).Keys <= Audited(history, entry).Keys
  {
  }

  /** Every step keeps the law. */
  lemma LawfulStep(p: Account, limits: Limits, s: Audit, c: Command)
    requires Lawful(p, limits, s) && Admissible(p, s, c)
    ensures Lawful(p, limits, AuditStep(limits, s, c))
  {
    SoundStep(limits, s.runtime, c);
    CapsStep(p, limits, s, c);
    if p.monthly.Known? {
      MonthStep(p, limits, s, c);
    }
    BoundStep(limits, s.runtime, c);
    StepAccount(limits, s.runtime, c);
    BookedKeys(s.books.charges, s.history, Step(limits, s.runtime, c).1);
  }

  ghost function AuditRun(limits: Limits, s: Audit, commands: seq<Command>): Audit
    requires Sound(s.runtime.ledger) && forall c :: c in commands ==> WellFormed(c)
    decreases |commands|
  {
    if commands == [] then s
    else
      SoundStep(limits, s.runtime, commands[0]);
      AuditRun(limits, AuditStep(limits, s, commands[0]), commands[1..])
  }

  ghost predicate AdmissibleRun(p: Account, limits: Limits, s: Audit, commands: seq<Command>)
    requires Sound(s.runtime.ledger)
    decreases |commands|
  {
    commands == [] ||
    (&& Admissible(p, s, commands[0])
     && (SoundStep(limits, s.runtime, commands[0]);
         AdmissibleRun(p, limits, AuditStep(limits, s, commands[0]), commands[1..])))
  }

  lemma {:induction false} LawfulRun(p: Account, limits: Limits, s: Audit, commands: seq<Command>)
    requires Lawful(p, limits, s) && forall c :: c in commands ==> WellFormed(c)
    requires AdmissibleRun(p, limits, s, commands)
    ensures Lawful(p, limits, AuditRun(limits, s, commands))
    decreases |commands|
  {
    if commands != [] {
      LawfulStep(p, limits, s, commands[0]);
      LawfulRun(p, limits, AuditStep(limits, s, commands[0]), commands[1..]);
    }
  }

  /** Every live run of a fresh account under unchanged limits: no rolling window ever holds more
      counted starts or more tokens than its limit, the month is charged at least what was granted
      and at most its limit, attempts and resolutions stay within the ledger bound, and the ledger's
      own snapshot restores. */
  lemma EveryRunIsLawful(p: Account, limits: Limits, clock: nat, commands: seq<Command>)
    requires p.Valid() && forall c :: c in commands ==> WellFormed(c)
    requires AdmissibleRun(p, limits, Audit(Runtime(p, NewLedger(p, clock)), map[], Books(map[], 0)), commands)
    ensures var last := AuditRun(limits, Audit(Runtime(p, NewLedger(p, clock)), map[], Books(map[], 0)), commands);
            && Lawful(p, limits, last)
            && Restore(limits, TakeSnapshot(last.runtime.ledger)) == Some(last.runtime.ledger)
  {
    var first := Audit(Runtime(p, NewLedger(p, clock)), map[], Books(map[], 0));
    EmptyIsLawful(p, limits, clock);
    LawfulRun(p, limits, first, commands);
    var last := AuditRun(limits, first, commands).runtime.ledger;
    SnapshotRoundTrip(limits, last);
    SmallerSet(last.resolutions.Keys, last.attempts.Keys + last.resolutions.Keys);
    assert |last.resolutions.Keys| == |last.resolutions|;
  }

  lemma EmptyIsLawful(p: Account, limits: Limits, clock: nat)
    requires p.Valid()
    ensures Lawful(p, limits, Audit(Runtime(p, NewLedger(p, clock)), map[], Books(map[], 0)))
  {
    var l := NewLedger(p, clock);
    assert l.attempts.Keys + l.resolutions.Keys == {};
    assert forall t: int, window: nat :: Within(map[], t, window) == map[];
    assert Counted(map[]) == map[];
  }
}
