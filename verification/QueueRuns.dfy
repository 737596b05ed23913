/** What the queue promises over whole runs of enqueues, cancellations, contractions and grants. */
module QueueRuns {
  import opened Common
  import opened Authorization
  import opened Queue

  /** What every reachable queue satisfies. */
  ghost predicate Fair(q: State, bound: nat) { Entries(q) && Deficits(q.fairness, bound) }

  /** The tier and the class that a grant serves, and whether it serves the top tier while a lower one
      has an eligible request. */
  datatype Served = Served(tier: nat, scarcity: Scarcity, both: bool, higher: bool)

  ghost function ServedAmong(q: State, items: map<Id, Queued>, bound: nat): Served
    requires items != map[]
  {
    var tier := ChosenTier(items, q.fairness.streak, bound);
    var tierItems := InTier(items, tier);
    Served(tier, ServedClass(q.fairness, tier, tierItems),
           InClass(tierItems, Scarce) != map[] && InClass(tierItems, Flexible) != map[], HigherGrant(items, tier))
  }

  ghost function ServedBy(q: State, eligible: set<Id>, bound: nat): Option<Served> {
    var items := Available(q.queued, eligible);
    if items == map[] then None else Some(ServedAmong(q, items, bound))
  }

  /** Why the aging counter cannot pass its bound. */
  lemma HigherWithinBound(items: map<Id, Queued>, streak: nat, bound: nat)
    requires items != map[] && HigherGrant(items, ChosenTier(items, streak, bound))
    ensures streak < bound
  {
    LowerIsLower(items);
  }

  lemma LowerIsLower(items: map<Id, Queued>)
    requires items != map[] && Lower(items, TopTier(items)) != map[]
    ensures TierOf(Oldest(Lower(items, TopTier(items)))) > TopTier(items)
  {
  }

  lemma ProposeInFair(q: State, tier: nat, tierItems: map<Id, Queued>, streak: nat, bound: nat)
    requires tierItems != map[] && Deficits(q.fairness, bound) && streak <= bound
    requires forall id :: id in tierItems ==> 1 <= WeightOf(tierItems[id]) <= 64
    ensures Deficits(ProposeIn(q, tier, tierItems, streak).fairness, bound)
    ensures var f := ProposeIn(q, tier, tierItems, streak).fairness;
            f.streak == streak && ShareMoves(q.fairness, f, tier, ServedClass(q.fairness, tier, tierItems))
  {
    var scarcity := ServedClass(q.fairness, tier, tierItems);
    ClassNonempty(tierItems, Get(q.fairness.classCursors, tier, Scarce));
    var classItems := InClass(tierItems, scarcity);
    OrderNonempty(classItems);
    var key := ChosenKey(classItems, q.fairness.keyCursors, (tier, scarcity));
    KeyNonempty(classItems, key);
    var keyItems := OfKey(classItems, key);
    var weight := WeightOf(keyItems[First(keyItems, WeightOf)]);
    ChargedDeficits(q.fairness, tier, scarcity, KeyOrder(classItems), key, weight, streak, bound);
  }

  /** Only the served tier's class deficit and cursor move, and they move as one grant of `scarcity` does. */
  ghost predicate ShareMoves(before: Fairness, after: Fairness, tier: nat, scarcity: Scarcity) {
    var left := Spend(Get(before.classDeficits, (tier, scarcity), 0), scarcity.Quantum());
    && after.classDeficits == before.classDeficits[(tier, scarcity) := left]
    && after.classCursors == before.classCursors[tier := if left == 0 then scarcity.Other() else scarcity]
  }

  /** What a grant does: it removes the request it serves, charges its class, and counts for aging. */
  ghost predicate Effect(q: State, after: State, served: Option<Served>, bound: nat) {
    && Deficits(after.fairness, bound)
    && (served.None? ==> after == q)
    && (served.Some? ==>
          && (exists id :: id in q.queued && after.queued == Without(q.queued, id))
          && after.next == q.next && after.version == q.version + 1
          && after.fairness.streak == (if served.value.higher then q.fairness.streak + 1 else 0)
          && ShareMoves(q.fairness, after.fairness, served.value.tier, served.value.scarcity))
  }

  /** The fairness state that a proposal carries. */
  lemma ProposalFairness(q: State, eligible: set<Id>, bound: nat)
    requires Fair(q, bound) && Available(q.queued, eligible) != map[]
    ensures Propose(q, eligible, bound).Some? && ServedBy(q, eligible, bound).Some?
    ensures var s := Propose(q, eligible, bound).value;
            var served := ServedBy(q, eligible, bound).value;
            && s.version == q.version && Deficits(s.fairness, bound)
            && s.fairness.streak == (if served.higher then q.fairness.streak + 1 else 0)
            && ShareMoves(q.fairness, s.fairness, served.tier, served.scarcity)
  {
    AmongFairness(q, Available(q.queued, eligible), bound);
  }

  lemma AmongFairness(q: State, items: map<Id, Queued>, bound: nat)
    requires items != map[] && Deficits(q.fairness, bound) && forall id :: id in items ==> 1 <= WeightOf(items[id]) <= 64
    ensures var s := ProposeAmong(q, items, bound);
            var served := ServedAmong(q, items, bound);
            && s.version == q.version && Deficits(s.fairness, bound)
            && s.fairness.streak == (if served.higher then q.fairness.streak + 1 else 0)
            && ShareMoves(q.fairness, s.fairness, served.tier, served.scarcity)
  {
    hide ChosenTier, HigherGrant, InTier, ShareMoves, Deficits, ProposeIn, ServedClass, InClass, WeightOf;
    var tier := ChosenTier(items, q.fairness.streak, bound);
    TierNonempty(items, q.fairness.streak, bound);
    InTierIsPart(items, tier);
    if HigherGrant(items, tier) {
      HigherWithinBound(items, q.fairness.streak, bound);
    }
    ChosenFairness(q, items, tier, InTier(items, tier), HigherGrant(items, tier), bound);
  }

  lemma InTierIsPart(items: map<Id, Queued>, tier: nat)
    ensures forall id :: id in InTier(items, tier) ==> id in items && InTier(items, tier)[id] == items[id]
  {
  }

  lemma ChosenFairness(q: State, items: map<Id, Queued>, tier: nat, tierItems: map<Id, Queued>, higher: bool, bound: nat)
    requires tierItems != map[] && Deficits(q.fairness, bound) && (higher ==> q.fairness.streak < bound)
    requires forall id :: id in tierItems ==> 1 <= WeightOf(tierItems[id]) <= 64
    ensures var s := ProposeIn(q, tier, tierItems, if higher then q.fairness.streak + 1 else 0);
            && s.version == q.version && Deficits(s.fairness, bound)
            && s.fairness.streak == (if higher then q.fairness.streak + 1 else 0)
            && ShareMoves(q.fairness, s.fairness, tier, ServedClass(q.fairness, tier, tierItems))
  {
    ProposeInFair(q, tier, tierItems, if higher then q.fairness.streak + 1 else 0, bound);
  }

  lemma CommitTakes(q: State, s: Selection)
    requires s.version == q.version && s.entry.request in q.queued && q.queued[s.entry.request].entry == s.entry
    ensures Commit(q, s) == Some(q.(queued := Without(q.queued, s.entry.request), version := q.version + 1, fairness := s.fairness))
  {
  }

  lemma GrantEffect(q: State, eligible: set<Id>, bound: nat)
    requires Fair(q, bound)
    ensures Effect(q, Grant(q, eligible, bound), ServedBy(q, eligible, bound), bound)
  {
    if Available(q.queued, eligible) != map[] {
      ProposalFairness(q, eligible, bound);
      ProposalServes(q, eligible, bound);
      CommitTakes(q, Propose(q, eligible, bound).value);
    }
  }

  lemma GrantFair(q: State, eligible: set<Id>, bound: nat)
    requires Fair(q, bound)
    ensures Fair(Grant(q, eligible, bound), bound)
  {
    GrantEffect(q, eligible, bound);
    FairAfterEffect(q, Grant(q, eligible, bound), ServedBy(q, eligible, bound), bound);
  }

  lemma FairAfterEffect(q: State, after: State, served: Option<Served>, bound: nat)
    requires Fair(q, bound) && Effect(q, after, served, bound)
    ensures Fair(after, bound)
  {
  }

  lemma ContractFair(q: State, id: Id, tier: Option<nat>, weight: Option<nat>, legs: Option<seq<Leg>>, bound: nat)
    requires Fair(q, bound)
    ensures Fair(Either(Contract(q, id, tier, weight, legs), q), bound)
  {
    var after := Contract(q, id, tier, weight, legs);
    if after.Some? {
      forall t
        ensures Get(after.value.fairness.classDeficits, (t, Flexible), 0) == 0
        ensures Get(after.value.fairness.classDeficits, (t, Scarce), 0) == Get(q.fairness.classDeficits, (t, Scarce), 0)
      {
        assert Get(q.fairness.classDeficits, (t, Flexible), 0) == 0;
      }
    }
  }

  /** In every run the flexible deficit is 0, the scarce one is 0 or 1 and 0 while the cursor is on
      flexible, key deficits stay within 0 and 63, and the aging count stays within its bound. */
  lemma FairAfter(q: State, e: Event, bound: nat)
    requires Fair(q, bound) && WellEntered(e)
    ensures Fair(After(q, e, bound), bound)
  {
    match e
    case Enqueuing(entry) =>
    case Cancelling(id) =>
    case Contracting(id, tier, weight, legs) => ContractFair(q, id, tier, weight, legs, bound);
    case Granting(eligible) => GrantFair(q, eligible, bound);
  }

  lemma {:induction false} FairRun(q: State, events: seq<Event>, bound: nat)
    requires Fair(q, bound) && forall e :: e in events ==> WellEntered(e)
    ensures Fair(AfterAll(q, events, bound), bound)
    decreases |events|
  {
    if events != [] {
      FairAfter(q, events[0], bound);
      FairRun(After(q, events[0], bound), events[1..], bound);
    }
  }

  lemma EmptyIsFair(bound: nat)
    ensures Fair(EMPTY_QUEUE, bound)
  {
  }

  /** Whatever is done to a new queue keeps it fair. */
  lemma QueueIsFair(events: seq<Event>, bound: nat)
    requires forall e :: e in events ==> WellEntered(e)
    ensures Fair(AfterAll(EMPTY_QUEUE, events, bound), bound)
  {
    EmptyIsFair(bound);
    FairRun(EMPTY_QUEUE, events, bound);
  }

  // ---------------------------------------------------------------- class share

  /** How far a tier is through its cycle of two scarce grants and one flexible. */
  function Phase(f: Fairness, tier: nat): int {
    if Get(f.classCursors, tier, Scarce) == Flexible then 2 else Get(f.classDeficits, (tier, Scarce), 0)
  }

  /** How a run shares one tier: scarce grants minus twice the flexible ones. */
  ghost function Share(q: State, events: seq<Event>, tier: nat, bound: nat): int
    decreases |events|
  {
    if events == [] then 0
    else ShareOf(q, events[0], tier, bound) + Share(After(q, events[0], bound), events[1..], tier, bound)
  }

  ghost function ShareOf(q: State, e: Event, tier: nat, bound: nat): int {
    if !e.Granting? then 0
    else
      var served := ServedBy(q, e.eligible, bound);
      if served.None? || served.value.tier != tier then 0 else if served.value.scarcity.Scarce? then 1 else -2
  }

  /** Both classes of the tier had an eligible request whenever the tier was served. */
  ghost predicate BothWaiting(q: State, events: seq<Event>, tier: nat, bound: nat)
    decreases |events|
  {
    events == [] ||
    ((events[0].Granting? ==>
        var served := ServedBy(q, events[0].eligible, bound);
        served.Some? && served.value.tier == tier ==> served.value.both)
     && BothWaiting(After(q, events[0], bound), events[1..], tier, bound))
  }

  /** When both classes wait, the cursor decides. */
  lemma CursorDecides(q: State, eligible: set<Id>, bound: nat)
    ensures var served := ServedBy(q, eligible, bound);
            served.Some? && served.value.both ==> served.value.scarcity == Get(q.fairness.classCursors, served.value.tier, Scarce)
  {
  }

  lemma PhaseMoves(before: Fairness, after: Fairness, tier: nat, served: Served, bound: nat)
    requires Deficits(before, bound) && ShareMoves(before, after, served.tier, served.scarcity)
    requires served.scarcity == Get(before.classCursors, served.tier, Scarce) || served.tier != tier
    ensures Phase(after, tier) == Phase(before, tier) + (if served.tier != tier then 0 else if served.scarcity.Scarce? then 1 else -2)
  {
    assert Get(before.classDeficits, (tier, Flexible), 0) == 0;
    assert Get(before.classDeficits, (tier, Scarce), 0) in {0, 1};
  }

  lemma PhaseStep(q: State, e: Event, tier: nat, bound: nat)
    requires Fair(q, bound)
    requires e.Granting? ==> var served := ServedBy(q, e.eligible, bound); served.Some? && served.value.tier == tier ==> served.value.both
    ensures Phase(After(q, e, bound).fairness, tier) == Phase(q.fairness, tier) + ShareOf(q, e, tier, bound)
  {
    match e
    case Granting(eligible) =>
      GrantEffect(q, eligible, bound);
      CursorDecides(q, eligible, bound);
      var served := ServedBy(q, eligible, bound);
      if served.Some? {
        PhaseMoves(q.fairness, Grant(q, eligible, bound).fairness, tier, served.value, bound);
      }
    case _ =>
  }

  /** Two to one: over any stretch of a run in which both classes of a tier wait whenever it is served,
      the scarce grants and twice the flexible ones never differ by more than two. */
  lemma ClassShare(q: State, events: seq<Event>, tier: nat, bound: nat)
    requires Fair(q, bound) && (forall e :: e in events ==> WellEntered(e)) && BothWaiting(q, events, tier, bound)
    ensures -2 <= Share(q, events, tier, bound) <= 2
  {
    SharePhases(q, events, tier, bound);
    FairRun(q, events, bound);
    assert Deficits(AfterAll(q, events, bound).fairness, bound);
    assert Get(q.fairness.classDeficits, (tier, Scarce), 0) in {0, 1};
    assert Get(AfterAll(q, events, bound).fairness.classDeficits, (tier, Scarce), 0) in {0, 1};
  }

  lemma {:induction false} SharePhases(q: State, events: seq<Event>, tier: nat, bound: nat)
    requires Fair(q, bound) && (forall e :: e in events ==> WellEntered(e)) && BothWaiting(q, events, tier, bound)
    ensures Share(q, events, tier, bound) == Phase(AfterAll(q, events, bound).fairness, tier) - Phase(q.fairness, tier)
    decreases |events|
  {
    if events != [] {
      PhaseStep(q, events[0], tier, bound);
      FairAfter(q, events[0], bound);
      SharePhases(After(q, events[0], bound), events[1..], tier, bound);
    }
  }

  // ---------------------------------------------------------------- aging

  /** How many grants a run makes. */
  ghost function Grants(q: State, events: seq<Event>, bound: nat): nat
    decreases |events|
  {
    if events == [] then 0
    else (if events[0].Granting? && ServedBy(q, events[0].eligible, bound).Some? then 1 else 0)
         + Grants(After(q, events[0], bound), events[1..], bound)
  }

  /** Every grant of the run takes the top tier although a lower one has an eligible request. */
  ghost predicate OnlyHigher(q: State, events: seq<Event>, bound: nat)
    decreases |events|
  {
    events == [] ||
    ((events[0].Granting? ==>
        var served := ServedBy(q, events[0].eligible, bound);
        served.Some? ==> served.value.higher)
     && OnlyHigher(After(q, events[0], bound), events[1..], bound))
  }

  /** The aging bound: however enqueues, cancellations and contractions are interleaved, no more than
      `bound` grants in a row pass over an eligible lower tier. */
  lemma {:induction false} AgingBound(q: State, events: seq<Event>, bound: nat)
    requires Fair(q, bound) && (forall e :: e in events ==> WellEntered(e)) && OnlyHigher(q, events, bound)
    ensures q.fairness.streak + Grants(q, events, bound) == AfterAll(q, events, bound).fairness.streak <= bound
    decreases |events|
  {
    if events != [] {
      FairAfter(q, events[0], bound);
      StreakStep(q, events[0], bound);
      AgingBound(After(q, events[0], bound), events[1..], bound);
    } else {
      assert Deficits(q.fairness, bound);
    }
  }

  lemma StreakStep(q: State, e: Event, bound: nat)
    requires Fair(q, bound)
    requires e.Granting? ==> var served := ServedBy(q, e.eligible, bound); served.Some? ==> served.value.higher
    ensures After(q, e, bound).fairness.streak
            == q.fairness.streak + (if e.Granting? && ServedBy(q, e.eligible, bound).Some? then 1 else 0)
  {
    if e.Granting? {
      GrantEffect(q, e.eligible, bound);
    }
  }

  lemma AgedTier(items: map<Id, Queued>, streak: nat, bound: nat)
    requires items != map[] && Lower(items, TopTier(items)) != map[] && streak >= bound
    ensures ChosenTier(items, streak, bound) == TierOf(Oldest(Lower(items, TopTier(items)))) > TopTier(items)
    ensures !HigherGrant(items, ChosenTier(items, streak, bound))
  {
    LowerIsLower(items);
  }

  lemma OldestLower(items: map<Id, Queued>, id: Id)
    requires items != map[] && id in items && TierOf(items[id]) > TopTier(items)
    ensures Lower(items, TopTier(items)) != map[]
    ensures Oldest(Lower(items, TopTier(items))).sequence <= items[id].sequence
  {
    var lower := Lower(items, TopTier(items));
    assert id in lower;
    assert IsFirst(lower, SequenceOf, First(lower, SequenceOf));
  }

  /** And once the bound is reached, a grant with an eligible lower tier serves the tier of the oldest
      eligible lower entry; the count then starts again. */
  lemma AgingForces(q: State, eligible: set<Id>, bound: nat)
    requires Fair(q, bound) && q.fairness.streak == bound
    requires var items := Available(q.queued, eligible); items != map[] && Lower(items, TopTier(items)) != map[]
    ensures var items := Available(q.queued, eligible);
            var oldest := Oldest(Lower(items, TopTier(items)));
            && ServedBy(q, eligible, bound).Some? && ServedBy(q, eligible, bound).value.tier == TierOf(oldest) > TopTier(items)
            && Grant(q, eligible, bound).fairness.streak == 0
            && forall id :: id in items && TierOf(items[id]) > TopTier(items) ==> oldest.sequence <= items[id].sequence
  {
    var items := Available(q.queued, eligible);
    AgedTier(items, q.fairness.streak, bound);
    GrantEffect(q, eligible, bound);
    forall id | id in items && TierOf(items[id]) > TopTier(items)
      ensures Oldest(Lower(items, TopTier(items))).sequence <= items[id].sequence
    {
      OldestLower(items, id);
    }
  }

  // ---------------------------------------------------------------- stale selections

  /** The version counts the changes, so a selection commits only into the very state it was made from. */
  lemma {:induction false} VersionGuards(q: State, events: seq<Event>, bound: nat)
    requires Fair(q, bound) && forall e :: e in events ==> WellEntered(e)
    ensures AfterAll(q, events, bound).version >= q.version
    ensures AfterAll(q, events, bound).version == q.version ==> AfterAll(q, events, bound) == q
    decreases |events|
  {
    if events != [] {
      var e := events[0];
      FairAfter(q, e, bound);
      VersionStep(q, e, bound);
      VersionGuards(After(q, e, bound), events[1..], bound);
    }
  }

  lemma VersionStep(q: State, e: Event, bound: nat)
    requires Fair(q, bound)
    ensures After(q, e, bound) == q || After(q, e, bound).version == q.version + 1
  {
    if e.Granting? {
      GrantEffect(q, e.eligible, bound);
    }
  }

  /** A selection proposed before a run commits after it if and only if the run changed nothing. */
  lemma CommitIffUnchanged(q: State, eligible: set<Id>, events: seq<Event>, bound: nat)
    requires Fair(q, bound) && (forall e :: e in events ==> WellEntered(e)) && Propose(q, eligible, bound).Some?
    ensures Commit(AfterAll(q, events, bound), Propose(q, eligible, bound).value).Some? <==> AfterAll(q, events, bound) == q
  {
    VersionGuards(q, events, bound);
    ProposalServes(q, eligible, bound);
  }

  // ---------------------------------------------------------------- the same for every queue there can be

  /** Whatever was done to a new queue before: over the next stretch the classes of a tier share two to one
      where both wait, at most `bound` grants in a row pass over a lower tier, and a selection commits if and
      only if nothing has changed. */
  lemma EveryQueueShares(before: seq<Event>, events: seq<Event>, tier: nat, eligible: set<Id>, bound: nat)
    requires (forall e :: e in before ==> WellEntered(e)) && forall e :: e in events ==> WellEntered(e)
    ensures var q := AfterAll(EMPTY_QUEUE, before, bound);
            && (BothWaiting(q, events, tier, bound) ==> -2 <= Share(q, events, tier, bound) <= 2)
            && (OnlyHigher(q, events, bound) ==> Grants(q, events, bound) <= bound)
            && (Propose(q, eligible, bound).Some? ==>
                  (Commit(AfterAll(q, events, bound), Propose(q, eligible, bound).value).Some? <==> AfterAll(q, events, bound) == q))
  {
    QueueIsFair(before, bound);
    var q := AfterAll(EMPTY_QUEUE, before, bound);
    hide Fair, WellEntered, BothWaiting, OnlyHigher, Share, Grants, Commit, Propose;
    if BothWaiting(q, events, tier, bound) {
      ClassShare(q, events, tier, bound);
    }
    if OnlyHigher(q, events, bound) {
      AgingBound(q, events, bound);
    }
    if Propose(q, eligible, bound).Some? {
      CommitIffUnchanged(q, eligible, events, bound);
    }
  }
}
