/** Which request the queue proposes, and how keys take turns, said over the requests that wait and the
    lists of deficits and cursors. No definition here calls a selection of Queue; the lemmas prove that
    the selections do this. */
module QueueTurns {
  import opened Common
  import opened Authorization
  import opened Queue
  import opened QueueRuns

  // ---------------------------------------------------------------- who waits

  predicate Waits(q: State, eligible: set<Id>, id: Id) { id in q.queued && id in eligible }

  /** An eligible request of this class of this tier. */
  predicate WaitsIn(q: State, eligible: set<Id>, tier: nat, scarcity: Scarcity, id: Id) {
    Waits(q, eligible, id) && q.queued[id].entry.quality.tier == tier && q.queued[id].entry.scarcity == scarcity
  }

  predicate WaitsFor(q: State, eligible: set<Id>, tier: nat, scarcity: Scarcity, key: Id, id: Id) {
    WaitsIn(q, eligible, tier, scarcity, id) && q.queued[id].entry.key == key
  }

  ghost predicate AnyoneWaits(q: State, eligible: set<Id>, tier: nat, scarcity: Scarcity) {
    exists id :: WaitsIn(q, eligible, tier, scarcity, id)
  }

  ghost predicate KeyWaits(q: State, eligible: set<Id>, tier: nat, scarcity: Scarcity, key: Id) {
    exists id :: WaitsFor(q, eligible, tier, scarcity, key, id)
  }

  ghost predicate IsTop(q: State, eligible: set<Id>, tier: nat) {
    && (exists id :: Waits(q, eligible, id) && q.queued[id].entry.quality.tier == tier)
    && (forall id :: Waits(q, eligible, id) ==> tier <= q.queued[id].entry.quality.tier)
  }

  predicate WaitsBelow(q: State, eligible: set<Id>, top: nat, id: Id) {
    Waits(q, eligible, id) && top < q.queued[id].entry.quality.tier
  }

  ghost predicate OldestBelow(q: State, eligible: set<Id>, top: nat, id: Id) {
    WaitsBelow(q, eligible, top, id) && forall j :: WaitsBelow(q, eligible, top, j) ==> q.queued[id].sequence <= q.queued[j].sequence
  }

  /** `n` is the oldest sequence of the key's requests of that class. */
  ghost predicate OldestIs(q: State, eligible: set<Id>, tier: nat, scarcity: Scarcity, key: Id, n: nat) {
    && (exists id :: WaitsFor(q, eligible, tier, scarcity, key, id) && q.queued[id].sequence == n)
    && (forall id :: WaitsFor(q, eligible, tier, scarcity, key, id) ==> n <= q.queued[id].sequence)
  }

  /** `w` is the least weight of the key's requests of that class. */
  ghost predicate WeightIs(q: State, eligible: set<Id>, tier: nat, scarcity: Scarcity, key: Id, w: nat) {
    && (exists id :: WaitsFor(q, eligible, tier, scarcity, key, id) && q.queued[id].entry.quality.weight == w)
    && (forall id :: WaitsFor(q, eligible, tier, scarcity, key, id) ==> w <= q.queued[id].entry.quality.weight)
  }

  // ---------------------------------------------------------------- who is served

  /** The top tier, unless it has passed over a lower one `bound` times in a row: then the tier of the
      oldest request below the top. */
  ghost predicate TierServed(q: State, eligible: set<Id>, bound: nat, top: nat, tier: nat) {
    && IsTop(q, eligible, top)
    && (if q.fairness.streak >= bound && exists id :: WaitsBelow(q, eligible, top, id)
        then exists id :: OldestBelow(q, eligible, top, id) && tier == q.queued[id].entry.quality.tier
        else tier == top)
  }

  /** The class at the tier's cursor if it has a request, and the other one otherwise. */
  ghost predicate ClassServed(q: State, eligible: set<Id>, tier: nat, scarcity: Scarcity) {
    var cursor := if tier in q.fairness.classCursors then q.fairness.classCursors[tier] else Scarce;
    if AnyoneWaits(q, eligible, tier, cursor) then scarcity == cursor else scarcity != cursor
  }

  /** The key at the class's cursor if it has a request, and otherwise the key of the oldest request. */
  ghost predicate KeyServed(q: State, eligible: set<Id>, tier: nat, scarcity: Scarcity, key: Id) {
    var cursors := q.fairness.keyCursors;
    if (tier, scarcity) in cursors && KeyWaits(q, eligible, tier, scarcity, cursors[(tier, scarcity)])
    then key == cursors[(tier, scarcity)]
    else
      exists id :: WaitsFor(q, eligible, tier, scarcity, key, id)
                   && forall j :: WaitsIn(q, eligible, tier, scarcity, j) ==> q.queued[id].sequence <= q.queued[j].sequence
  }

  /** Some key's oldest sequence comes after `n`. */
  ghost predicate SomeLater(q: State, eligible: set<Id>, tier: nat, scarcity: Scarcity, n: nat) {
    exists key: Id, m: nat :: OldestIs(q, eligible, tier, scarcity, key, m) && n < m
  }

  /** In the order of oldest sequences `next` comes after `key`, and the first one after the last. */
  ghost predicate Follows(q: State, eligible: set<Id>, tier: nat, scarcity: Scarcity, key: Id, next: Id) {
    exists n: nat, m: nat ::
      && OldestIs(q, eligible, tier, scarcity, key, n) && OldestIs(q, eligible, tier, scarcity, next, m)
      && (if SomeLater(q, eligible, tier, scarcity, n)
          then n < m && forall other: Id, x: nat :: OldestIs(q, eligible, tier, scarcity, other, x) && n < x ==> m <= x
          else forall other: Id, x: nat :: OldestIs(q, eligible, tier, scarcity, other, x) ==> m <= x)
  }

  // ---------------------------------------------------------------- what a grant uses up

  /** How many grants a deficit is good for: one quantum if it is used up, and at most eight. */
  function Allowance(deficit: int, quantum: nat): int {
    if deficit <= 0 then deficit + quantum else if deficit > 8 * quantum then 8 * quantum else deficit
  }

  function DeficitOf<K>(deficits: map<K, int>, k: K): int { if k in deficits then deficits[k] else 0 }

  /** The fairness state after serving `key`: one grant less for its class and for the key, the cursors
      moving on where nothing is left, and nothing else. */
  ghost predicate UsesUp(q: State, eligible: set<Id>, tier: nat, scarcity: Scarcity, key: Id, f: Fairness) {
    var before := q.fairness;
    var classLeft := Allowance(DeficitOf(before.classDeficits, (tier, scarcity)), if scarcity == Scarce then 2 else 1) - 1;
    && f.classDeficits == before.classDeficits[(tier, scarcity) := classLeft]
    && tier in f.classCursors && f.classCursors == before.classCursors[tier := f.classCursors[tier]]
    && (f.classCursors[tier] == scarcity <==> classLeft != 0)
    && KeyUsesUp(q, eligible, tier, scarcity, key, f)
  }

  ghost predicate KeyUsesUp(q: State, eligible: set<Id>, tier: nat, scarcity: Scarcity, key: Id, f: Fairness) {
    exists w: nat :: KeyPays(q, eligible, tier, scarcity, key, f, w)
  }

  ghost predicate KeyPays(q: State, eligible: set<Id>, tier: nat, scarcity: Scarcity, key: Id, f: Fairness, w: nat) {
    var before := q.fairness;
    var left := Allowance(DeficitOf(before.keyDeficits, (tier, scarcity, key)), w) - 1;
    && WeightIs(q, eligible, tier, scarcity, key, w)
    && f.keyDeficits == before.keyDeficits[(tier, scarcity, key) := left]
    && (tier, scarcity) in f.keyCursors
    && f.keyCursors == before.keyCursors[(tier, scarcity) := f.keyCursors[(tier, scarcity)]]
    && (if left == 0 then Follows(q, eligible, tier, scarcity, key, f.keyCursors[(tier, scarcity)])
        else f.keyCursors[(tier, scarcity)] == key)
  }

  /** The aging count goes up exactly when the top tier is served while a lower one waits. */
  ghost predicate Ages(q: State, eligible: set<Id>, top: nat, tier: nat, streak: nat) {
    if tier == top && exists id :: WaitsBelow(q, eligible, top, id) then streak == q.fairness.streak + 1 else streak == 0
  }

  /** Everything a selection says, from the requests that wait and the fairness state. */
  ghost predicate Selects(q: State, eligible: set<Id>, bound: nat, s: Selection) {
    var e := s.entry;
    var tier, scarcity, key := e.quality.tier, e.scarcity, e.key;
    && s.version == q.version
    && (exists top :: TierServed(q, eligible, bound, top, tier) && Ages(q, eligible, top, tier, s.fairness.streak))
    && ClassServed(q, eligible, tier, scarcity)
    && KeyServed(q, eligible, tier, scarcity, key)
    && WaitsFor(q, eligible, tier, scarcity, key, e.request) && q.queued[e.request].entry == e
    && OldestIs(q, eligible, tier, scarcity, key, q.queued[e.request].sequence)
    && UsesUp(q, eligible, tier, scarcity, key, s.fairness)
  }

  // ---------------------------------------------------------------- the selection's steps mean this

  lemma AvailableWaits(q: State, eligible: set<Id>)
    ensures var items := Available(q.queued, eligible);
            forall id :: (id in items <==> Waits(q, eligible, id)) && (id in items ==> items[id] == q.queued[id])
  {
  }

  lemma TopIs(q: State, eligible: set<Id>)
    requires Available(q.queued, eligible) != map[]
    ensures IsTop(q, eligible, TopTier(Available(q.queued, eligible)))
    ensures forall id :: id in Lower(Available(q.queued, eligible), TopTier(Available(q.queued, eligible)))
                         <==> WaitsBelow(q, eligible, TopTier(Available(q.queued, eligible)), id)
  {
    AvailableWaits(q, eligible);
    var items := Available(q.queued, eligible);
    var first := First(items, TierOf);
    assert Waits(q, eligible, first);
  }

  lemma TierIs(q: State, eligible: set<Id>, bound: nat)
    requires Available(q.queued, eligible) != map[]
    ensures var items := Available(q.queued, eligible);
            var tier := ChosenTier(items, q.fairness.streak, bound);
            && TierServed(q, eligible, bound, TopTier(items), tier)
            && Ages(q, eligible, TopTier(items), tier, if HigherGrant(items, tier) then q.fairness.streak + 1 else 0)
  {
    hide TopTier;
    AvailableWaits(q, eligible);
    TopIs(q, eligible);
    var items := Available(q.queued, eligible);
    var top := TopTier(items);
    var lower := Lower(items, top);
    if lower != map[] {
      var oldest := First(lower, SequenceOf);
      OldestLower(q, eligible, items, top, oldest);
      assert WaitsBelow(q, eligible, top, oldest);
    } else {
      assert forall id :: !WaitsBelow(q, eligible, top, id);
    }
  }

  lemma OldestLower(q: State, eligible: set<Id>, items: map<Id, Queued>, top: nat, oldest: Id)
    requires forall id :: (id in items <==> Waits(q, eligible, id)) && (id in items ==> items[id] == q.queued[id])
    requires Lower(items, top) != map[] && oldest == First(Lower(items, top), SequenceOf)
    ensures OldestBelow(q, eligible, top, oldest) && TierOf(Oldest(Lower(items, top))) == q.queued[oldest].entry.quality.tier
  {
    var lower := Lower(items, top);
    forall j | WaitsBelow(q, eligible, top, j)
      ensures q.queued[oldest].sequence <= q.queued[j].sequence
    {
      assert j in lower;
    }
  }

  /** `items` are the requests that wait in one class of one tier. */
  ghost predicate AreOf(q: State, eligible: set<Id>, tier: nat, scarcity: Scarcity, items: map<Id, Queued>) {
    forall id :: (id in items <==> WaitsIn(q, eligible, tier, scarcity, id)) && (id in items ==> items[id] == q.queued[id])
  }

  lemma ClassIs(q: State, eligible: set<Id>, tier: nat, scarcity: Scarcity)
    ensures AreOf(q, eligible, tier, scarcity, InClass(InTier(Available(q.queued, eligible), tier), scarcity))
  {
  }

  lemma NoneIfEmpty(q: State, eligible: set<Id>, tier: nat, scarcity: Scarcity, items: map<Id, Queued>)
    requires AreOf(q, eligible, tier, scarcity, items)
    ensures AnyoneWaits(q, eligible, tier, scarcity) <==> items != map[]
  {
    if items != map[] {
      var id :| id in items;
      assert WaitsIn(q, eligible, tier, scarcity, id);
    }
  }

  lemma ClassServedIs(q: State, eligible: set<Id>, tier: nat)
    ensures ClassServed(q, eligible, tier, ServedClass(q.fairness, tier, InTier(Available(q.queued, eligible), tier)))
  {
    hide InClass, InTier, Available, AreOf, AnyoneWaits;
    var cursor := Get(q.fairness.classCursors, tier, Scarce);
    ClassIs(q, eligible, tier, cursor);
    NoneIfEmpty(q, eligible, tier, cursor, InClass(InTier(Available(q.queued, eligible), tier), cursor));
  }

  /** The first sequences by key are the oldest ones. */
  lemma FirstsAre(q: State, eligible: set<Id>, tier: nat, scarcity: Scarcity, items: map<Id, Queued>, key: Id)
    requires AreOf(q, eligible, tier, scarcity, items)
    ensures key in FirstSequences(items) <==> KeyWaits(q, eligible, tier, scarcity, key)
    ensures key in FirstSequences(items) ==> OldestIs(q, eligible, tier, scarcity, key, FirstSequences(items)[key])
  {
    hide FirstSequences;
    FirstSequencesAre(items, key);
    var ofKey := OfKey(items, key);
    if ofKey != map[] {
      var first := First(ofKey, SequenceOf);
      assert WaitsFor(q, eligible, tier, scarcity, key, first);
      forall id | WaitsFor(q, eligible, tier, scarcity, key, id)
        ensures q.queued[first].sequence <= q.queued[id].sequence
      {
        assert id in ofKey;
      }
    } else {
      forall id ensures !WaitsFor(q, eligible, tier, scarcity, key, id) {
        assert id !in ofKey;
      }
    }
  }

  lemma OldestIsOne(q: State, eligible: set<Id>, tier: nat, scarcity: Scarcity, key: Id, n: nat, m: nat)
    requires OldestIs(q, eligible, tier, scarcity, key, n) && OldestIs(q, eligible, tier, scarcity, key, m)
    ensures n == m
  {
  }

  /** `firsts` lists the oldest sequence of every key that waits. */
  ghost predicate Firsts(q: State, eligible: set<Id>, tier: nat, scarcity: Scarcity, firsts: map<Id, nat>) {
    && (forall key: Id, n: nat :: OldestIs(q, eligible, tier, scarcity, key, n) <==> key in firsts && firsts[key] == n)
    && (forall key: Id :: key in firsts <==> KeyWaits(q, eligible, tier, scarcity, key))
  }

  lemma FirstsList(q: State, eligible: set<Id>, tier: nat, scarcity: Scarcity, items: map<Id, Queued>)
    requires AreOf(q, eligible, tier, scarcity, items)
    ensures Firsts(q, eligible, tier, scarcity, FirstSequences(items))
  {
    hide FirstSequences, AreOf;
    forall key: Id
      ensures key in FirstSequences(items) <==> KeyWaits(q, eligible, tier, scarcity, key)
      ensures key in FirstSequences(items) ==> OldestIs(q, eligible, tier, scarcity, key, FirstSequences(items)[key])
    {
      FirstsAre(q, eligible, tier, scarcity, items, key);
    }
    forall key: Id, n: nat | OldestIs(q, eligible, tier, scarcity, key, n)
      ensures key in FirstSequences(items) && FirstSequences(items)[key] == n
    {
      assert KeyWaits(q, eligible, tier, scarcity, key);
      OldestIsOne(q, eligible, tier, scarcity, key, n, FirstSequences(items)[key]);
    }
  }

  /** Distinct keys have distinct oldest sequences. */
  lemma FirstsDiffer(q: State, eligible: set<Id>, tier: nat, scarcity: Scarcity, a: Id, b: Id, n: nat)
    requires Entries(q) && OldestIs(q, eligible, tier, scarcity, a, n) && OldestIs(q, eligible, tier, scarcity, b, n)
    ensures a == b
  {
  }

  lemma FollowsAhead(q: State, eligible: set<Id>, tier: nat, scarcity: Scarcity, firsts: map<Id, nat>, key: Id, next: Id)
    requires Firsts(q, eligible, tier, scarcity, firsts) && key in firsts && next in firsts && firsts[key] < firsts[next]
    requires forall other :: other in firsts && firsts[key] < firsts[other] ==> firsts[next] <= firsts[other]
    ensures Follows(q, eligible, tier, scarcity, key, next)
  {
    hide OldestIs, KeyWaits;
    assert OldestIs(q, eligible, tier, scarcity, key, firsts[key]);
    assert OldestIs(q, eligible, tier, scarcity, next, firsts[next]);
    assert SomeLater(q, eligible, tier, scarcity, firsts[key]);
  }

  lemma FollowsBehind(q: State, eligible: set<Id>, tier: nat, scarcity: Scarcity, firsts: map<Id, nat>, key: Id, next: Id)
    requires Firsts(q, eligible, tier, scarcity, firsts) && key in firsts && next in firsts
    requires forall other :: other in firsts ==> firsts[next] <= firsts[other] <= firsts[key]
    ensures Follows(q, eligible, tier, scarcity, key, next)
  {
    hide OldestIs, KeyWaits;
    assert OldestIs(q, eligible, tier, scarcity, key, firsts[key]);
    assert OldestIs(q, eligible, tier, scarcity, next, firsts[next]);
    assert !SomeLater(q, eligible, tier, scarcity, firsts[key]);
  }

  /** In the sorted list of keys the next one, and the first after the last, follows. */
  lemma NextFollows(q: State, eligible: set<Id>, tier: nat, scarcity: Scarcity, firsts: map<Id, nat>, i: nat)
    requires Entries(q) && Firsts(q, eligible, tier, scarcity, firsts) && i < |firsts|
    ensures var keys := Ordered(firsts, Same);
            Follows(q, eligible, tier, scarcity, keys[i], if i + 1 < |keys| then keys[i + 1] else keys[0])
  {
    hide Firsts, Ordered, Entries, Follows;
    var keys := Ordered(firsts, Same);
    if i + 1 < |keys| {
      assert keys[i] in firsts && keys[i + 1] in firsts;
      KeysAhead(firsts, i);
      SortedApart(q, eligible, tier, scarcity, firsts, i, i + 1);
      FollowsAhead(q, eligible, tier, scarcity, firsts, keys[i], keys[i + 1]);
    } else {
      assert keys[i] in firsts && keys[0] in firsts;
      KeysBehind(firsts, i);
      FollowsBehind(q, eligible, tier, scarcity, firsts, keys[i], keys[0]);
    }
  }

  lemma SortedApart(q: State, eligible: set<Id>, tier: nat, scarcity: Scarcity, firsts: map<Id, nat>, i: nat, j: nat)
    requires Entries(q) && Firsts(q, eligible, tier, scarcity, firsts) && i < j < |firsts|
    ensures var keys := Ordered(firsts, Same);
            keys[i] in firsts && keys[j] in firsts && firsts[keys[i]] < firsts[keys[j]]
  {
    hide Ordered, OldestIs, Entries;
    OrderedSorted(firsts, Same, i, j);
    var keys := Ordered(firsts, Same);
    if firsts[keys[i]] == firsts[keys[j]] {
      FirstsDiffer(q, eligible, tier, scarcity, keys[i], keys[j], firsts[keys[i]]);
    }
  }

  lemma PlaceOf(firsts: map<Id, nat>, key: Id) returns (j: nat)
    requires key in firsts
    ensures j < |firsts| && Ordered(firsts, Same)[j] == key
  {
    assert key in Ordered(firsts, Same);
    j :| 0 <= j < |Ordered(firsts, Same)| && Ordered(firsts, Same)[j] == key;
  }

  /** No key lies between two neighbours. */
  lemma KeysAhead(firsts: map<Id, nat>, i: nat)
    requires i + 1 < |firsts|
    ensures var keys := Ordered(firsts, Same);
            forall key :: key in firsts && keys[i] in firsts && firsts[keys[i]] < firsts[key] ==> keys[i + 1] in firsts && firsts[keys[i + 1]] <= firsts[key]
  {
    hide Ordered;
    var keys := Ordered(firsts, Same);
    forall key | key in firsts && keys[i] in firsts && firsts[keys[i]] < firsts[key]
      ensures keys[i + 1] in firsts && firsts[keys[i + 1]] <= firsts[key]
    {
      var j := PlaceOf(firsts, key);
      if j < i {
        OrderedSorted(firsts, Same, j, i);
      }
      if i + 1 < j {
        OrderedSorted(firsts, Same, i + 1, j);
      }
    }
  }

  /** No key comes after the last, and none before the first. */
  lemma KeysBehind(firsts: map<Id, nat>, i: nat)
    requires i + 1 == |firsts|
    ensures var keys := Ordered(firsts, Same);
            forall key :: key in firsts && keys[i] in firsts && keys[0] in firsts ==> firsts[keys[0]] <= firsts[key] <= firsts[keys[i]]
  {
    hide Ordered;
    var keys := Ordered(firsts, Same);
    forall key | key in firsts && keys[i] in firsts && keys[0] in firsts
      ensures firsts[keys[0]] <= firsts[key] <= firsts[keys[i]]
    {
      var j := PlaceOf(firsts, key);
      if j < i {
        OrderedSorted(firsts, Same, j, i);
      }
      if 0 < j {
        OrderedSorted(firsts, Same, 0, j);
      }
    }
  }

  lemma KeysAre(q: State, eligible: set<Id>, tier: nat, scarcity: Scarcity, items: map<Id, Queued>, key: Id)
    requires AreOf(q, eligible, tier, scarcity, items)
    ensures key in KeyOrder(items) <==> KeyWaits(q, eligible, tier, scarcity, key)
  {
    hide FirstSequences, AreOf;
    FirstsAre(q, eligible, tier, scarcity, items, key);
  }

  /** The first key in order is the key of the oldest request. */
  lemma FirstKeyIsOldest(q: State, eligible: set<Id>, tier: nat, scarcity: Scarcity, firsts: map<Id, nat>, id: Id)
    requires Firsts(q, eligible, tier, scarcity, firsts) && |firsts| > 0
    requires WaitsIn(q, eligible, tier, scarcity, id)
    ensures var keys := Ordered(firsts, Same);
            keys[0] in firsts && firsts[keys[0]] <= q.queued[id].sequence
  {
    var keys := Ordered(firsts, Same);
    var key := q.queued[id].entry.key;
    assert WaitsFor(q, eligible, tier, scarcity, key, id);
    assert key in firsts && OldestIs(q, eligible, tier, scarcity, key, firsts[key]);
    assert keys[0] in firsts;
    KeysBehind(firsts, |firsts| - 1);
    assert keys[|firsts| - 1] in firsts;
  }

  lemma KeyServedIs(q: State, eligible: set<Id>, tier: nat, scarcity: Scarcity, items: map<Id, Queued>)
    requires AreOf(q, eligible, tier, scarcity, items) && items != map[]
    ensures KeyServed(q, eligible, tier, scarcity, ChosenKey(items, q.fairness.keyCursors, (tier, scarcity)))
  {
    hide AreOf, FirstSequences, KeyWaits;
    var keys := KeyOrder(items);
    OrderNonempty(items);
    FirstsList(q, eligible, tier, scarcity, items);
    KeysAre(q, eligible, tier, scarcity, items, keys[0]);
    if (tier, scarcity) in q.fairness.keyCursors {
      KeysAre(q, eligible, tier, scarcity, items, q.fairness.keyCursors[(tier, scarcity)]);
    }
    var firsts := FirstSequences(items);
    assert keys[0] in firsts && OldestIs(q, eligible, tier, scarcity, keys[0], firsts[keys[0]]);
    var id :| WaitsFor(q, eligible, tier, scarcity, keys[0], id) && q.queued[id].sequence == firsts[keys[0]];
    forall j | WaitsIn(q, eligible, tier, scarcity, j)
      ensures q.queued[id].sequence <= q.queued[j].sequence
    {
      FirstKeyIsOldest(q, eligible, tier, scarcity, firsts, j);
    }
  }

  /** The key's items: their oldest and their lightest. */
  lemma KeyItemsAre(q: State, eligible: set<Id>, tier: nat, scarcity: Scarcity, items: map<Id, Queued>, key: Id)
    requires AreOf(q, eligible, tier, scarcity, items) && OfKey(items, key) != map[]
    ensures var mine := OfKey(items, key);
            && WeightIs(q, eligible, tier, scarcity, key, WeightOf(mine[First(mine, WeightOf)]))
            && OldestIs(q, eligible, tier, scarcity, key, Oldest(mine).sequence)
            && WaitsFor(q, eligible, tier, scarcity, key, First(mine, SequenceOf)) && q.queued[First(mine, SequenceOf)] == Oldest(mine)
  {
    var mine := OfKey(items, key);
    var lightest, oldest := First(mine, WeightOf), First(mine, SequenceOf);
    assert WaitsFor(q, eligible, tier, scarcity, key, lightest) && WaitsFor(q, eligible, tier, scarcity, key, oldest);
    forall id | WaitsFor(q, eligible, tier, scarcity, key, id)
      ensures WeightOf(mine[lightest]) <= q.queued[id].entry.quality.weight && q.queued[oldest].sequence <= q.queued[id].sequence
    {
      assert id in mine;
    }
  }

  lemma NextKeyAt(q: State, eligible: set<Id>, tier: nat, scarcity: Scarcity, items: map<Id, Queued>, i: nat)
    requires Entries(q) && AreOf(q, eligible, tier, scarcity, items) && i < |KeyOrder(items)|
    ensures var keys := KeyOrder(items);
            Follows(q, eligible, tier, scarcity, keys[i], if i + 1 < |keys| then keys[i + 1] else keys[0])
  {
    hide AreOf, FirstSequences, Entries, Follows, Firsts;
    FirstsList(q, eligible, tier, scarcity, items);
    NextFollows(q, eligible, tier, scarcity, FirstSequences(items), i);
  }

  lemma Wrap(keys: seq<Id>, i: nat)
    requires i < |keys|
    ensures keys[(i + 1) % |keys|] == if i + 1 < |keys| then keys[i + 1] else keys[0]
  {
    if i + 1 < |keys| {
      assert (i + 1) % |keys| == i + 1;
    }
  }

  lemma NextKey(q: State, eligible: set<Id>, tier: nat, scarcity: Scarcity, items: map<Id, Queued>, key: Id)
    requires Entries(q) && AreOf(q, eligible, tier, scarcity, items) && key in KeyOrder(items)
    ensures var keys := KeyOrder(items);
            Follows(q, eligible, tier, scarcity, key, keys[(IndexOf(keys, key) + 1) % |keys|])
  {
    hide *;
    var keys := KeyOrder(items);
    NextKeyAt(q, eligible, tier, scarcity, items, IndexOf(keys, key));
    Wrap(keys, IndexOf(keys, key));
  }

  lemma ChargedIs(q: State, eligible: set<Id>, tier: nat, scarcity: Scarcity, items: map<Id, Queued>, key: Id, streak: nat)
    requires Entries(q) && AreOf(q, eligible, tier, scarcity, items) && key in KeyOrder(items) && OfKey(items, key) != map[]
    ensures var mine := OfKey(items, key);
            UsesUp(q, eligible, tier, scarcity, key,
                   Charged(q.fairness, tier, scarcity, KeyOrder(items), key, WeightOf(mine[First(mine, WeightOf)]), streak))
  {
    hide AreOf, KeyOrder, Entries, Follows, WeightIs, OldestIs, OfKey;
    var mine := OfKey(items, key);
    var weight := WeightOf(mine[First(mine, WeightOf)]);
    KeyItemsAre(q, eligible, tier, scarcity, items, key);
    NextKey(q, eligible, tier, scarcity, items, key);
    assert KeyPays(q, eligible, tier, scarcity, key, Charged(q.fairness, tier, scarcity, KeyOrder(items), key, weight, streak), weight);
  }

  /** A proposal within a tier. */
  lemma InTierSelects(q: State, eligible: set<Id>, tier: nat, streak: nat)
    requires Entries(q) && InTier(Available(q.queued, eligible), tier) != map[]
    ensures var s := ProposeIn(q, tier, InTier(Available(q.queued, eligible), tier), streak); var e := s.entry;
            && s.version == q.version && s.fairness.streak == streak
            && e.quality.tier == tier && ClassServed(q, eligible, tier, e.scarcity)
            && KeyServed(q, eligible, tier, e.scarcity, e.key)
            && WaitsFor(q, eligible, tier, e.scarcity, e.key, e.request) && q.queued[e.request].entry == e
            && OldestIs(q, eligible, tier, e.scarcity, e.key, q.queued[e.request].sequence)
            && UsesUp(q, eligible, tier, e.scarcity, e.key, s.fairness)
  {
    hide AreOf, KeyOrder, KeyServed, UsesUp, ClassServed, OldestIs, WeightIs, ChosenKey, ServedClass, InTier, InClass, OfKey;
    var tierItems := InTier(Available(q.queued, eligible), tier);
    var scarcity := ServedClass(q.fairness, tier, tierItems);
    ServedNonempty(q.fairness, tier, tierItems);
    var items := InClass(tierItems, scarcity);
    ClassIs(q, eligible, tier, scarcity);
    ClassServedIs(q, eligible, tier);
    KeyServedIs(q, eligible, tier, scarcity, items);
    var key := ChosenKey(items, q.fairness.keyCursors, (tier, scarcity));
    ChosenIsKey(items, q.fairness.keyCursors, (tier, scarcity));
    KeyNonempty(items, key);
    KeyItemsAre(q, eligible, tier, scarcity, items, key);
    ChargedIs(q, eligible, tier, scarcity, items, key, streak);
  }

  lemma ServedNonempty(f: Fairness, tier: nat, tierItems: map<Id, Queued>)
    requires tierItems != map[]
    ensures InClass(tierItems, ServedClass(f, tier, tierItems)) != map[]
  {
    ClassNonempty(tierItems, Get(f.classCursors, tier, Scarce));
  }

  lemma ChosenIsKey(items: map<Id, Queued>, cursors: map<ClassKey, Id>, classKey: ClassKey)
    requires items != map[]
    ensures ChosenKey(items, cursors, classKey) in KeyOrder(items)
  {
    OrderNonempty(items);
  }

  /** A proposal is what the requests that wait and the fairness state make of it: tier, class, key,
      request, and what the grant uses up. */
  lemma ProposalSelects(q: State, eligible: set<Id>, bound: nat)
    requires Entries(q)
    ensures Propose(q, eligible, bound).None? <==> forall id :: !Waits(q, eligible, id)
    ensures Propose(q, eligible, bound).Some? ==> Selects(q, eligible, bound, Propose(q, eligible, bound).value)
  {
    hide ClassServed, KeyServed, UsesUp, OldestIs, ProposeIn, ChosenTier, HigherGrant, TopTier, TierServed, Ages;
    AvailableWaits(q, eligible);
    var items := Available(q.queued, eligible);
    if items != map[] {
      var id :| id in items;
      assert Waits(q, eligible, id);
      var tier := ChosenTier(items, q.fairness.streak, bound);
      TierNonempty(items, q.fairness.streak, bound);
      TierIs(q, eligible, bound);
      InTierSelects(q, eligible, tier, if HigherGrant(items, tier) then q.fairness.streak + 1 else 0);
    }
  }

  // ---------------------------------------------------------------- what the operations leave

  /** `after` is `q` after the grant that `s` stands for. */
  ghost predicate Takes(q: State, s: Selection, after: State) {
    && s.entry.request in q.queued && after.queued.Keys == q.queued.Keys - {s.entry.request}
    && (forall id :: id in after.queued ==> after.queued[id] == q.queued[id])
    && after.next == q.next && after.version == q.version + 1 && after.fairness == s.fairness
  }

  /** A grant takes the selected request out of the queue and its fairness state over; it does nothing
      exactly when nobody waits. */
  lemma GrantTakes(q: State, eligible: set<Id>, bound: nat)
    requires Entries(q)
    ensures var after := Grant(q, eligible, bound);
            if forall id :: !Waits(q, eligible, id) then after == q
            else
              && Propose(q, eligible, bound).Some? && Selects(q, eligible, bound, Propose(q, eligible, bound).value)
              && Takes(q, Propose(q, eligible, bound).value, after)
  {
    hide Propose, Selects;
    ProposalSelects(q, eligible, bound);
    if Propose(q, eligible, bound).Some? {
      SelectedWaits(q, eligible, bound, Propose(q, eligible, bound).value);
    }
  }

  lemma SelectedWaits(q: State, eligible: set<Id>, bound: nat, s: Selection)
    requires Selects(q, eligible, bound, s)
    ensures s.version == q.version && s.entry.request in q.queued && q.queued[s.entry.request].entry == s.entry
  {
  }

  /** The other operations: a request waits once and in the order of arrival, leaves once, and only
      contracts. A selection is taken exactly in the version and with the entry it was made from. */
  lemma OperationsAre(q: State, e: Entry, id: Id, s: Selection)
    ensures var after := Enqueue(q, e);
            if e.request in q.queued then after == None
            else
              && after.Some? && after.value.queued == q.queued[e.request := Queued(e, q.next)]
              && after.value.next == q.next + 1 && after.value.version == q.version + 1 && after.value.fairness == q.fairness
    ensures var after := Cancel(q, id);
            if id !in q.queued then after == q
            else
              && after.queued.Keys == q.queued.Keys - {id} && (forall j :: j in after.queued ==> after.queued[j] == q.queued[j])
              && after.next == q.next && after.version == q.version + 1 && after.fairness == q.fairness
    ensures var after := Commit(q, s);
            if s.version == q.version && s.entry.request in q.queued && q.queued[s.entry.request].entry == s.entry
            then after.Some? && Takes(q, s, after.value) else after == None
  {
  }

  /** What a contraction changes: the given parts of one entry, and the deficit of its key if the entry
      stays in its tier with less weight. */
  ghost predicate ContractsTo(q: State, id: Id, tier: Option<nat>, weight: Option<nat>, legs: Option<seq<Leg>>, after: State) {
    && id in q.queued && id in after.queued
    && (var before, now := q.queued[id].entry, after.queued[id].entry;
        && after.queued == q.queued[id := after.queued[id]] && after.queued[id].sequence == q.queued[id].sequence
        && now.request == before.request && now.key == before.key && now.scarcity == before.scarcity
        && now.quality.tier == (match tier case Some(t) => t case None => before.quality.tier)
        && now.quality.weight == (match weight case Some(w) => w case None => before.quality.weight)
        && now.quality.legs == (match legs case Some(ls) => ls case None => before.quality.legs)
        && (var k := (before.quality.tier, before.scarcity, before.key);
            var lightened := now.quality.tier == before.quality.tier && now.quality.weight < before.quality.weight;
            && after.fairness.(keyDeficits := q.fairness.keyDeficits) == q.fairness
            && after.fairness.keyDeficits == (
                 if lightened && k in q.fairness.keyDeficits && 8 * now.quality.weight < q.fairness.keyDeficits[k]
                 then q.fairness.keyDeficits[k := 8 * now.quality.weight] else q.fairness.keyDeficits)))
    && after.next == q.next && after.version == q.version + 1
  }

  lemma ContractionIs(q: State, id: Id, tier: Option<nat>, weight: Option<nat>, legs: Option<seq<Leg>>)
    ensures var after := Contract(q, id, tier, weight, legs);
            after.Some? ==> ContractsTo(q, id, tier, weight, legs, after.value)
    ensures Contract(q, id, tier, weight, legs).Some? <==>
            id in q.queued && Accepts(q.queued[id].entry.quality, Replacement(q.queued[id].entry.quality, tier, weight, legs))
  {
    hide Accepts;
    var after := Contract(q, id, tier, weight, legs);
    if after.Some? {
      var k := (q.queued[id].entry.quality.tier, q.queued[id].entry.scarcity, q.queued[id].entry.key);
      if k in q.fairness.keyDeficits {
        assert q.fairness.keyDeficits[k := q.fairness.keyDeficits[k]] == q.fairness.keyDeficits;
      }
    }
  }

  // ---------------------------------------------------------------- turns over a run

  /** The request that an event grants, if it grants one. */
  ghost function GrantOf(q: State, e: Event, bound: nat): Option<Entry> {
    if e.Granting? && Propose(q, e.eligible, bound).Some? then Some(Propose(q, e.eligible, bound).value.entry) else None
  }

  ghost predicate GrantsIn(q: State, e: Event, bound: nat, tier: nat, scarcity: Scarcity) {
    var entry := GrantOf(q, e, bound);
    entry.Some? && entry.value.quality.tier == tier && entry.value.scarcity == scarcity
  }

  /** The next grant of the class is for `key`, if the key has an eligible request then. */
  ghost predicate GoesTo(q: State, events: seq<Event>, bound: nat, tier: nat, scarcity: Scarcity, key: Id)
    decreases |events|
  {
    events != [] ==>
      if GrantsIn(q, events[0], bound, tier, scarcity)
      then KeyWaits(q, events[0].eligible, tier, scarcity, key) ==> GrantOf(q, events[0], bound).value.key == key
      else GoesTo(After(q, events[0], bound), events[1..], bound, tier, scarcity, key)
  }

  /** After its last grant the turn passes to the key that follows. */
  ghost predicate PassesOn(q: State, events: seq<Event>, bound: nat, tier: nat, scarcity: Scarcity, key: Id)
    requires events != [] && events[0].Granting?
  {
    exists next ::
      && Follows(q, events[0].eligible, tier, scarcity, key, next)
      && GoesTo(After(q, events[0], bound), events[1..], bound, tier, scarcity, next)
  }

  /** The next `n` grants of the class are for `key`, and the one after them for the key that follows it. */
  ghost predicate InARow(q: State, events: seq<Event>, bound: nat, tier: nat, scarcity: Scarcity, key: Id, n: int)
    decreases |events|
  {
    events != [] ==>
      var after := After(q, events[0], bound);
      if !GrantsIn(q, events[0], bound, tier, scarcity) then InARow(after, events[1..], bound, tier, scarcity, key, n)
      else
        && GrantOf(q, events[0], bound).value.key == key
        && (if n <= 1 then PassesOn(q, events, bound, tier, scarcity, key)
            else InARow(after, events[1..], bound, tier, scarcity, key, n - 1))
  }

  /** A request of the key is made so light, in its tier, that fewer than `n` grants are left. */
  predicate Lightens(q: State, e: Event, tier: nat, scarcity: Scarcity, key: Id, n: int) {
    && e.Contracting? && e.request in q.queued && e.weight.Some? && 8 * e.weight.value < n
    && (var entry := q.queued[e.request].entry;
        entry.key == key && entry.scarcity == scarcity && entry.quality.tier == tier && e.weight.value < entry.quality.weight)
  }

  /** Until its `n` grants are over the key has an eligible request whenever the class is served, with
      `w` the least weight among them, and is not made so light as to lose one. */
  ghost predicate Steady(q: State, events: seq<Event>, bound: nat, tier: nat, scarcity: Scarcity, key: Id, w: nat, n: int)
    decreases |events|
  {
    events != [] ==>
      var after := After(q, events[0], bound);
      if !GrantsIn(q, events[0], bound, tier, scarcity)
      then !Lightens(q, events[0], tier, scarcity, key, n) && Steady(after, events[1..], bound, tier, scarcity, key, w, n)
      else
        && WeightIs(q, events[0].eligible, tier, scarcity, key, w)
        && (n > 1 ==> Steady(after, events[1..], bound, tier, scarcity, key, w, n - 1))
  }

  /** The cursor of the class is at `key`. */
  predicate Points(f: Fairness, tier: nat, scarcity: Scarcity, key: Id) {
    (tier, scarcity) in f.keyCursors && f.keyCursors[(tier, scarcity)] == key
  }

  function LeftOf(f: Fairness, tier: nat, scarcity: Scarcity, key: Id, w: nat): int {
    Allowance(DeficitOf(f.keyDeficits, (tier, scarcity, key)), w)
  }

  /** Serving another class moves nothing of this one. */
  lemma ElsewhereKeeps(q: State, eligible: set<Id>, bound: nat, s: Selection, tier: nat, scarcity: Scarcity, key: Id)
    requires Selects(q, eligible, bound, s) && !(s.entry.quality.tier == tier && s.entry.scarcity == scarcity)
    ensures Points(s.fairness, tier, scarcity, key) <==> Points(q.fairness, tier, scarcity, key)
    ensures DeficitOf(s.fairness.keyDeficits, (tier, scarcity, key)) == DeficitOf(q.fairness.keyDeficits, (tier, scarcity, key))
  {
    hide ClassServed, KeyServed, OldestIs, Follows, WeightIs, TierServed, Ages;
    assert KeyUsesUp(q, eligible, s.entry.quality.tier, s.entry.scarcity, s.entry.key, s.fairness);
  }

  lemma ContractKeepsTurn(q: State, id: Id, t: Option<nat>, weight: Option<nat>, legs: Option<seq<Leg>>,
                          tier: nat, scarcity: Scarcity, key: Id, w: nat, n: int)
    requires Entries(q) && w >= 1
    requires n == LeftOf(q.fairness, tier, scarcity, key, w) && !Lightens(q, Contracting(id, t, weight, legs), tier, scarcity, key, n)
    ensures var after := Either(Contract(q, id, t, weight, legs), q);
            && n == LeftOf(after.fairness, tier, scarcity, key, w)
            && (Points(after.fairness, tier, scarcity, key) <==> Points(q.fairness, tier, scarcity, key))
  {
    hide Contract, Accepts;
    ContractionIs(q, id, t, weight, legs);
    if Contract(q, id, t, weight, legs).Some? {
      var k := (tier, scarcity, key);
      var after := Contract(q, id, t, weight, legs).value;
      if DeficitOf(after.fairness.keyDeficits, k) != DeficitOf(q.fairness.keyDeficits, k) {
        assert weight.Some?;
      }
    }
  }

  lemma QuietKeepsTurn(q: State, e: Event, bound: nat, tier: nat, scarcity: Scarcity, key: Id, w: nat, n: int)
    requires Entries(q) && w >= 1
    requires !GrantsIn(q, e, bound, tier, scarcity) && !Lightens(q, e, tier, scarcity, key, n)
    requires n == LeftOf(q.fairness, tier, scarcity, key, w)
    ensures var after := After(q, e, bound);
            && n == LeftOf(after.fairness, tier, scarcity, key, w)
            && (Points(after.fairness, tier, scarcity, key) <==> Points(q.fairness, tier, scarcity, key))
  {
    hide Propose, Selects, Contract, Grant, Points;
    match e
    case Enqueuing(entry) =>
    case Cancelling(id) =>
    case Contracting(id, t, weight, legs) => ContractKeepsTurn(q, id, t, weight, legs, tier, scarcity, key, w, n);
    case Granting(eligible) =>
      GrantTakes(q, eligible, bound);
      if Propose(q, eligible, bound).Some? && Selects(q, eligible, bound, Propose(q, eligible, bound).value) {
        ElsewhereKeeps(q, eligible, bound, Propose(q, eligible, bound).value, tier, scarcity, key);
      }
  }

  lemma QuietKeepsCursor(q: State, e: Event, bound: nat, tier: nat, scarcity: Scarcity, key: Id)
    requires Entries(q) && !GrantsIn(q, e, bound, tier, scarcity)
    ensures Points(After(q, e, bound).fairness, tier, scarcity, key) <==> Points(q.fairness, tier, scarcity, key)
  {
    hide Propose, Selects, Contract, Grant, Points;
    match e
    case Enqueuing(entry) =>
    case Cancelling(id) =>
    case Contracting(id, t, weight, legs) => ContractKeepsCursor(q, id, t, weight, legs, tier, scarcity, key);
    case Granting(eligible) =>
      GrantTakes(q, eligible, bound);
      if Propose(q, eligible, bound).Some? && Selects(q, eligible, bound, Propose(q, eligible, bound).value) {
        ElsewhereKeeps(q, eligible, bound, Propose(q, eligible, bound).value, tier, scarcity, key);
      }
  }

  lemma ContractKeepsCursor(q: State, id: Id, t: Option<nat>, weight: Option<nat>, legs: Option<seq<Leg>>, tier: nat, scarcity: Scarcity, key: Id)
    ensures Points(Either(Contract(q, id, t, weight, legs), q).fairness, tier, scarcity, key) <==> Points(q.fairness, tier, scarcity, key)
  {
    hide Accepts;
  }

  /** With the cursor at a key, the next grant of the class goes to that key. */
  lemma {:induction false} CursorServes(q: State, events: seq<Event>, bound: nat, tier: nat, scarcity: Scarcity, key: Id)
    requires Fair(q, bound) && (forall e :: e in events ==> WellEntered(e)) && Points(q.fairness, tier, scarcity, key)
    ensures GoesTo(q, events, bound, tier, scarcity, key)
    decreases |events|
  {
    hide Fair, Points, GrantOf, WellEntered, KeyWaits, After;
    if events != [] {
      var e := events[0];
      FairEntries(q, bound);
      if GrantsIn(q, e, bound, tier, scarcity) {
        ServedAtCursor(q, e, bound, tier, scarcity, key);
      } else {
        FairAfter(q, e, bound);
        QuietKeepsCursor(q, e, bound, tier, scarcity, key);
        CursorServes(After(q, e, bound), events[1..], bound, tier, scarcity, key);
      }
    }
  }

  lemma FairEntries(q: State, bound: nat)
    requires Fair(q, bound)
    ensures Entries(q) && Deficits(q.fairness, bound)
  {
  }

  lemma ServedAtCursor(q: State, e: Event, bound: nat, tier: nat, scarcity: Scarcity, key: Id)
    requires Entries(q) && GrantsIn(q, e, bound, tier, scarcity) && Points(q.fairness, tier, scarcity, key)
    ensures e.Granting? && (KeyWaits(q, e.eligible, tier, scarcity, key) ==> GrantOf(q, e, bound).value.key == key)
  {
    hide Propose, TierServed, Ages, ClassServed, UsesUp, OldestIs, Entries;
    ProposalSelects(q, e.eligible, bound);
  }

  /** One grant to a key uses up one of what it has left; the cursor stays while something is left, and
      passes to the key that follows when nothing is. */
  lemma GrantUsesOne(q: State, e: Event, bound: nat, tier: nat, scarcity: Scarcity, key: Id, w: nat, n: int)
    requires Entries(q) && GrantsIn(q, e, bound, tier, scarcity) && GrantOf(q, e, bound).value.key == key
    requires WeightIs(q, e.eligible, tier, scarcity, key, w) && n == LeftOf(q.fairness, tier, scarcity, key, w) >= 1 && w >= 1
    ensures e.Granting?
    ensures var f := After(q, e, bound).fairness;
            if n == 1 then exists next :: Follows(q, e.eligible, tier, scarcity, key, next) && Points(f, tier, scarcity, next)
            else Points(f, tier, scarcity, key) && LeftOf(f, tier, scarcity, key, w) == n - 1
  {
    hide Propose, Grant, TierServed, Ages, ClassServed, KeyServed, OldestIs, Entries, Follows;
    ProposalSelects(q, e.eligible, bound);
    GrantTakes(q, e.eligible, bound);
    var s := Propose(q, e.eligible, bound).value;
    var v: nat :| KeyPays(q, e.eligible, tier, scarcity, key, s.fairness, v);
    WeightIsOne(q, e.eligible, tier, scarcity, key, v, w);
    hide WeightIs;
    var f := After(q, e, bound).fairness;
    assert f == s.fairness;
    if n == 1 {
      assert Points(f, tier, scarcity, f.keyCursors[(tier, scarcity)]);
    }
  }

  lemma WeightIsOne(q: State, eligible: set<Id>, tier: nat, scarcity: Scarcity, key: Id, v: nat, w: nat)
    requires WeightIs(q, eligible, tier, scarcity, key, v) && WeightIs(q, eligible, tier, scarcity, key, w)
    ensures v == w
  {
  }

  /** A key at the cursor is granted what it has left in a row, and then its follower is served. */
  lemma {:induction false} TurnLasts(q: State, events: seq<Event>, bound: nat, tier: nat, scarcity: Scarcity, key: Id, w: nat, n: int)
    requires Fair(q, bound) && (forall e :: e in events ==> WellEntered(e)) && w >= 1
    requires Points(q.fairness, tier, scarcity, key) && n == LeftOf(q.fairness, tier, scarcity, key, w) >= 1
    requires Steady(q, events, bound, tier, scarcity, key, w, n)
    ensures InARow(q, events, bound, tier, scarcity, key, n)
    decreases |events|
  {
    hide Fair, Points, GrantOf, WellEntered, KeyWaits, After, LeftOf, GrantsIn, WeightIs, Follows, Lightens;
    if events != [] {
      var e := events[0];
      FairEntries(q, bound);
      FairAfter(q, e, bound);
      if GrantsIn(q, e, bound, tier, scarcity) {
        WeightWaits(q, e, bound, tier, scarcity, key, w);
        ServedAtCursor(q, e, bound, tier, scarcity, key);
        TurnTaken(q, events, bound, tier, scarcity, key, w, n);
      } else {
        QuietKeepsTurn(q, e, bound, tier, scarcity, key, w, n);
        TurnLasts(After(q, e, bound), events[1..], bound, tier, scarcity, key, w, n);
      }
    }
  }

  lemma WeightWaits(q: State, e: Event, bound: nat, tier: nat, scarcity: Scarcity, key: Id, w: nat)
    requires GrantsIn(q, e, bound, tier, scarcity) && WeightIs(q, e.eligible, tier, scarcity, key, w)
    ensures KeyWaits(q, e.eligible, tier, scarcity, key)
  {
  }

  /** Whenever a key is granted, it is granted what it has left in a row while it waits: exactly its weight
      if its deficit was used up, and otherwise what remains of it, at most eight weights. The next grant of
      the class then goes to the key that follows it in the order of oldest requests, if that one waits. */
  lemma {:induction false} TurnTaken(q: State, events: seq<Event>, bound: nat, tier: nat, scarcity: Scarcity, key: Id, w: nat, n: int)
    requires Fair(q, bound) && (forall e :: e in events ==> WellEntered(e)) && w >= 1
    requires events != [] && GrantsIn(q, events[0], bound, tier, scarcity) && GrantOf(q, events[0], bound).value.key == key
    requires n == LeftOf(q.fairness, tier, scarcity, key, w) >= 1 && Steady(q, events, bound, tier, scarcity, key, w, n)
    ensures InARow(q, events, bound, tier, scarcity, key, n)
    decreases |events|, 0
  {
    hide Fair, Points, GrantOf, WellEntered, KeyWaits, After, LeftOf, WeightIs, Follows;
    var e := events[0];
    FairEntries(q, bound);
    FairAfter(q, e, bound);
    GrantUsesOne(q, e, bound, tier, scarcity, key, w, n);
    var after := After(q, e, bound);
    if n == 1 {
      var next :| Follows(q, e.eligible, tier, scarcity, key, next) && Points(after.fairness, tier, scarcity, next);
      CursorServes(after, events[1..], bound, tier, scarcity, next);
    } else {
      TurnLasts(after, events[1..], bound, tier, scarcity, key, w, n - 1);
    }
  }

  /** So a key whose deficit is used up gets exactly its weight in a row, in every queue there can be. */
  lemma SpentKeyGetsItsWeight(before: seq<Event>, events: seq<Event>, bound: nat, tier: nat, scarcity: Scarcity, key: Id, w: nat)
    requires (forall e :: e in before ==> WellEntered(e)) && (forall e :: e in events ==> WellEntered(e)) && w >= 1
    requires var q := AfterAll(EMPTY_QUEUE, before, bound);
             && events != [] && GrantsIn(q, events[0], bound, tier, scarcity) && GrantOf(q, events[0], bound).value.key == key
             && DeficitOf(q.fairness.keyDeficits, (tier, scarcity, key)) == 0 && Steady(q, events, bound, tier, scarcity, key, w, w)
    ensures InARow(AfterAll(EMPTY_QUEUE, before, bound), events, bound, tier, scarcity, key, w)
  {
    QueueIsFair(before, bound);
    hide Fair, WellEntered, GrantOf, GrantsIn, Steady, InARow, AfterAll;
    TurnTaken(AfterAll(EMPTY_QUEUE, before, bound), events, bound, tier, scarcity, key, w, w);
  }

  /** The tier and class that the fairness theorems count are those of the request granted. */
  lemma ServedIsGranted(q: State, eligible: set<Id>, bound: nat)
    requires Entries(q)
    ensures ServedBy(q, eligible, bound).Some? <==> Propose(q, eligible, bound).Some?
    ensures ServedBy(q, eligible, bound).Some? ==>
              var served := ServedBy(q, eligible, bound).value; var e := Propose(q, eligible, bound).value.entry;
              && served.tier == e.quality.tier && served.scarcity == e.scarcity
              && (served.both <==> AnyoneWaits(q, eligible, served.tier, Scarce) && AnyoneWaits(q, eligible, served.tier, Flexible))
              && (served.higher <==> IsTop(q, eligible, served.tier) && exists id :: WaitsBelow(q, eligible, served.tier, id))
  {
    hide ProposeIn, ChosenTier, TopTier, InTier, InClass, Lower, AnyoneWaits, AreOf, UsesUp, KeyServed, ClassServed, OldestIs;
    var items := Available(q.queued, eligible);
    if items != map[] {
      var tier := ChosenTier(items, q.fairness.streak, bound);
      TierNonempty(items, q.fairness.streak, bound);
      var streak := if HigherGrant(items, tier) then q.fairness.streak + 1 else 0;
      InTierSelects(q, eligible, tier, streak);
      ScarcityIs(q, tier, InTier(items, tier), streak, eligible);
      ClassIs(q, eligible, tier, Scarce);
      ClassIs(q, eligible, tier, Flexible);
      NoneIfEmpty(q, eligible, tier, Scarce, InClass(InTier(items, tier), Scarce));
      NoneIfEmpty(q, eligible, tier, Flexible, InClass(InTier(items, tier), Flexible));
      HigherIs(q, eligible, tier);
    }
  }

  lemma ScarcityIs(q: State, tier: nat, tierItems: map<Id, Queued>, streak: nat, eligible: set<Id>)
    requires tierItems != map[] && tierItems == InTier(Available(q.queued, eligible), tier) && Entries(q)
    ensures ProposeIn(q, tier, tierItems, streak).entry.scarcity == ServedClass(q.fairness, tier, tierItems)
  {
    ServesTier(q, tier, tierItems, streak);
  }

  lemma HigherIs(q: State, eligible: set<Id>, tier: nat)
    requires Available(q.queued, eligible) != map[]
    ensures HigherGrant(Available(q.queued, eligible), tier)
            <==> IsTop(q, eligible, tier) && exists id :: WaitsBelow(q, eligible, tier, id)
  {
    hide TopTier, Lower, Available;
    var items := Available(q.queued, eligible);
    TopIs(q, eligible);
    if IsTop(q, eligible, tier) {
      TopIsOne(q, eligible, tier, TopTier(items));
      if Lower(items, tier) != map[] {
        var id :| id in Lower(items, tier);
        assert WaitsBelow(q, eligible, tier, id);
      }
    }
  }

  lemma TopIsOne(q: State, eligible: set<Id>, a: nat, b: nat)
    requires IsTop(q, eligible, a) && IsTop(q, eligible, b)
    ensures a == b
  {
  }
}
