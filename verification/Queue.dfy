/** The weighted deficit round robin queue: strict tiers with aging, a two-to-one share between scarce and
    flexible requests, and weighted turns between keys. */
module Queue {
  import opened Common
  import opened Authorization

  datatype Scarcity = Scarce | Flexible
  {
    function Other(): Scarcity { if Scarce? then Flexible else Scarce }

    function Quantum(): nat { if Scarce? then 2 else 1 }
  }

  datatype Entry = Entry(request: Id, key: Id, quality: Quality, scarcity: Scarcity)

  datatype Queued = Queued(entry: Entry, sequence: nat)

  type ClassKey = (nat, Scarcity)

  type KeyKey = (nat, Scarcity, Id)

  /** The fairness state. It is kept as sorted lists of pairs; here each list is the map it lists. */
  datatype Fairness = Fairness(classDeficits: map<ClassKey, int>, classCursors: map<nat, Scarcity>,
                               keyDeficits: map<KeyKey, int>, keyCursors: map<ClassKey, Id>, streak: nat)

  datatype State = State(queued: map<Id, Queued>, next: nat, version: nat, fairness: Fairness)

  datatype Selection = Selection(entry: Entry, version: nat, fairness: Fairness)

  const EMPTY_FAIRNESS := Fairness(map[], map[], map[], map[], 0)

  const EMPTY_QUEUE := State(map[], 0, 0, EMPTY_FAIRNESS)

  function Get<K, V>(m: map<K, V>, k: K, otherwise: V): V { if k in m then m[k] else otherwise }

  // ---------------------------------------------------------------- the items a selection looks at

  function SequenceOf(q: Queued): nat { q.sequence }

  function TierOf(q: Queued): nat { q.entry.quality.tier }

  function WeightOf(q: Queued): nat { q.entry.quality.weight }

  function Available(queued: map<Id, Queued>, eligible: set<Id>): map<Id, Queued> {
    queued - set id | id in queued && id !in eligible
  }

  function Lower(items: map<Id, Queued>, tier: nat): map<Id, Queued> {
    items - set id | id in items && TierOf(items[id]) <= tier
  }

  function InTier(items: map<Id, Queued>, tier: nat): map<Id, Queued> {
    items - set id | id in items && TierOf(items[id]) != tier
  }

  function InClass(items: map<Id, Queued>, scarcity: Scarcity): map<Id, Queued> {
    items - set id | id in items && items[id].entry.scarcity != scarcity
  }

  function OfKey(items: map<Id, Queued>, key: Id): map<Id, Queued> {
    items - set id | id in items && items[id].entry.key != key
  }

  function NotOfKey(items: map<Id, Queued>, key: Id): map<Id, Queued> {
    items - set id | id in items && items[id].entry.key == key
  }

  ghost function Oldest(items: map<Id, Queued>): Queued
    requires items != map[]
  {
    items[First(items, SequenceOf)]
  }

  ghost function TopTier(items: map<Id, Queued>): nat
    requires items != map[]
  {
    TierOf(items[First(items, TierOf)])
  }

  /** The oldest sequence of each key. */
  ghost function FirstSequences(items: map<Id, Queued>): map<Id, nat>
    decreases |items|
  {
    if items == map[] then map[]
    else
      var oldest := Oldest(items);
      var key := oldest.entry.key;
      FirstSequencesStep(items);
      FirstSequences(NotOfKey(items, key))[key := oldest.sequence]
  }

  lemma {:induction false} FirstSequencesAre(items: map<Id, Queued>, key: Id)
    ensures key in FirstSequences(items) <==> OfKey(items, key) != map[]
    ensures key in FirstSequences(items) ==> FirstSequences(items)[key] == Oldest(OfKey(items, key)).sequence
    decreases |items|
  {
    if items != map[] {
      FirstSequencesStep(items);
      if key != Oldest(items).entry.key {
        FirstSequencesAre(NotOfKey(items, Oldest(items).entry.key), key);
      }
    }
  }

  lemma FirstSequencesStep(items: map<Id, Queued>)
    requires items != map[]
    ensures var key := Oldest(items).entry.key;
            && |NotOfKey(items, key)| < |items|
            && OfKey(items, key) != map[] && Oldest(OfKey(items, key)).sequence == Oldest(items).sequence
            && forall other :: other != key ==> OfKey(NotOfKey(items, key), other) == OfKey(items, other)
  {
    var id := First(items, SequenceOf);
    var key := items[id].entry.key;
    assert id in OfKey(items, key);
    assert NotOfKey(items, key).Keys <= items.Keys - {id};
    assert NotOfKey(items, key).Keys < items.Keys;
    SmallerSet(NotOfKey(items, key).Keys, items.Keys);
    assert |NotOfKey(items, key).Keys| == |NotOfKey(items, key)| && |items.Keys| == |items|;
    forall other | other != key
      ensures OfKey(NotOfKey(items, key), other) == OfKey(items, other)
    {
    }
  }

  lemma SmallerSet(a: set<Id>, b: set<Id>)
    requires a < b
    ensures |a| < |b|
  {
    var x :| x in b && x !in a;
    assert a <= b - {x};
    SubsetSize(a, b - {x});
  }

  lemma {:induction false} SubsetSize(a: set<Id>, b: set<Id>)
    requires a <= b
    ensures |a| <= |b|
    decreases |a|
  {
    if a != {} {
      var x :| x in a;
      SubsetSize(a - {x}, b - {x});
    }
  }

  /** Keys take turns in the order of their oldest waiting request. */
  ghost function KeyOrder(items: map<Id, Queued>): seq<Id> { Ordered(FirstSequences(items), Same) }

  function Same(n: nat): nat { n }

  function IndexOf(keys: seq<Id>, key: Id): (i: nat)
    requires key in keys
    ensures i < |keys| && keys[i] == key
  {
    if keys[0] == key then 0 else 1 + IndexOf(keys[1..], key)
  }

  // ---------------------------------------------------------------- one selection

  ghost function ChosenTier(items: map<Id, Queued>, streak: nat, bound: nat): nat
    requires items != map[]
  {
    var top := TopTier(items);
    var lower := Lower(items, top);
    if lower != map[] && streak >= bound then TierOf(Oldest(lower)) else top
  }

  function ChosenClass(items: map<Id, Queued>, cursor: Scarcity): Scarcity {
    if InClass(items, cursor) != map[] then cursor else cursor.Other()
  }

  /** What remains of a deficit after one more grant, topped up by one quantum when it has run out. */
  function Spend(deficit: int, quantum: nat): int {
    var capped := Min(deficit, 8 * quantum);
    (if capped <= 0 then Min(capped + quantum, 8 * quantum) else capped) - 1
  }

  ghost function ChosenKey(items: map<Id, Queued>, cursors: map<ClassKey, Id>, classKey: ClassKey): Id
    requires items != map[]
  {
    var keys := KeyOrder(items);
    OrderNonempty(items);
    var cursor := Get(cursors, classKey, keys[0]);
    if cursor in keys then cursor else keys[0]
  }

  lemma OrderNonempty(items: map<Id, Queued>)
    requires items != map[]
    ensures KeyOrder(items) != []
  {
    var key := Oldest(items).entry.key;
    FirstSequencesStep(items);
    FirstSequencesAre(items, key);
  }

  /** The chosen key has a request waiting. */
  lemma KeyNonempty(items: map<Id, Queued>, key: Id)
    requires key in KeyOrder(items)
    ensures OfKey(items, key) != map[]
  {
    FirstSequencesAre(items, key);
  }

  /** The fairness state after granting from one key of one class of one tier. */
  function Charged(f: Fairness, tier: nat, scarcity: Scarcity, keys: seq<Id>, key: Id, weight: nat, streak: nat): Fairness
    requires key in keys
  {
    var classKey := (tier, scarcity);
    var left := Spend(Get(f.classDeficits, classKey, 0), scarcity.Quantum());
    var keyLeft := Spend(Get(f.keyDeficits, (tier, scarcity, key), 0), weight);
    Fairness(f.classDeficits[classKey := left],
             f.classCursors[tier := if left == 0 then scarcity.Other() else scarcity],
             f.keyDeficits[(tier, scarcity, key) := keyLeft],
             f.keyCursors[classKey := if keyLeft == 0 then keys[(IndexOf(keys, key) + 1) % |keys|] else key],
             streak)
  }

  ghost predicate HigherGrant(items: map<Id, Queued>, tier: nat)
    requires items != map[]
  {
    tier == TopTier(items) && Lower(items, tier) != map[]
  }

  lemma TierNonempty(items: map<Id, Queued>, streak: nat, bound: nat)
    requires items != map[]
    ensures InTier(items, ChosenTier(items, streak, bound)) != map[]
  {
    var top := TopTier(items);
    var lower := Lower(items, top);
    if lower != map[] && streak >= bound {
      assert First(lower, SequenceOf) in InTier(items, ChosenTier(items, streak, bound));
    } else {
      assert First(items, TierOf) in InTier(items, top);
    }
  }

  lemma ClassNonempty(items: map<Id, Queued>, cursor: Scarcity)
    requires items != map[]
    ensures InClass(items, ChosenClass(items, cursor)) != map[]
  {
    var id :| id in items;
    assert id in InClass(items, items[id].entry.scarcity);
  }

  /** Which class of a tier is served next. */
  ghost function ServedClass(f: Fairness, tier: nat, tierItems: map<Id, Queued>): Scarcity {
    ChosenClass(tierItems, Get(f.classCursors, tier, Scarce))
  }

  ghost function ProposeIn(q: State, tier: nat, tierItems: map<Id, Queued>, streak: nat): Selection
    requires tierItems != map[]
  {
    var scarcity := ServedClass(q.fairness, tier, tierItems);
    ClassNonempty(tierItems, Get(q.fairness.classCursors, tier, Scarce));
    var classItems := InClass(tierItems, scarcity);
    OrderNonempty(classItems);
    var key := ChosenKey(classItems, q.fairness.keyCursors, (tier, scarcity));
    KeyNonempty(classItems, key);
    var keyItems := OfKey(classItems, key);
    Selection(Oldest(keyItems).entry, q.version,
              Charged(q.fairness, tier, scarcity, KeyOrder(classItems), key, WeightOf(keyItems[First(keyItems, WeightOf)]), streak))
  }

  ghost function ProposeAmong(q: State, items: map<Id, Queued>, bound: nat): Selection
    requires items != map[]
  {
    var tier := ChosenTier(items, q.fairness.streak, bound);
    TierNonempty(items, q.fairness.streak, bound);
    ProposeIn(q, tier, InTier(items, tier), if HigherGrant(items, tier) then q.fairness.streak + 1 else 0)
  }

  /** The selection the queue proposes among the eligible requests. */
  ghost function Propose(q: State, eligible: set<Id>, bound: nat): Option<Selection> {
    var items := Available(q.queued, eligible);
    if items == map[] then None else Some(ProposeAmong(q, items, bound))
  }

  // ---------------------------------------------------------------- the other operations

  function Enqueue(q: State, e: Entry): Option<State> {
    if e.request in q.queued then None
    else Some(q.(queued := q.queued[e.request := Queued(e, q.next)], next := q.next + 1, version := q.version + 1))
  }

  function Cancel(q: State, id: Id): State {
    if id !in q.queued then q else q.(queued := Without(q.queued, id), version := q.version + 1)
  }

  /** A lighter key in the same tier may keep at most eight of its new quanta. */
  function Capped(f: Fairness, tier: nat, scarcity: Scarcity, key: Id, weight: nat): Fairness {
    var k := (tier, scarcity, key);
    if k in f.keyDeficits then f.(keyDeficits := f.keyDeficits[k := Min(f.keyDeficits[k], 8 * weight)]) else f
  }

  function Replacement(before: Quality, tier: Option<nat>, weight: Option<nat>, legs: Option<seq<Leg>>): Quality {
    Quality(if tier.Some? then tier.value else before.tier, if weight.Some? then weight.value else before.weight,
            if legs.Some? then legs.value else before.legs)
  }

  /** Contract an entry in place; `None` where the queue raises. The scarcity class does not change. */
  function Contract(q: State, id: Id, tier: Option<nat>, weight: Option<nat>, legs: Option<seq<Leg>>): Option<State> {
    if id !in q.queued then None
    else
      var e := q.queued[id].entry;
      var quality := Replacement(e.quality, tier, weight, legs);
      if !Accepts(e.quality, quality) then None
      else
        Some(q.(queued := q.queued[id := Queued(e.(quality := quality), q.queued[id].sequence)],
                fairness := if quality.tier == e.quality.tier && quality.weight < e.quality.weight
                            then Capped(q.fairness, e.quality.tier, e.scarcity, e.key, quality.weight) else q.fairness,
                version := q.version + 1))
  }

  /** Commit a selection; `None` when it is stale. */
  function Commit(q: State, s: Selection): Option<State> {
    var id := s.entry.request;
    if s.version != q.version || id !in q.queued || q.queued[id].entry != s.entry then None
    else Some(q.(queued := Without(q.queued, id), version := q.version + 1, fairness := s.fairness))
  }

  // ---------------------------------------------------------------- runs

  datatype Event =
    | Enqueuing(entry: Entry)
    | Cancelling(request: Id)
    | Contracting(request: Id, tier: Option<nat>, weight: Option<nat>, legs: Option<seq<Leg>>)
    | Granting(eligible: set<Id>)

  function Either(s: Option<State>, otherwise: State): State { if s.Some? then s.value else otherwise }

  /** Propose among the eligible requests and commit at once. */
  ghost function Grant(q: State, eligible: set<Id>, bound: nat): State {
    var s := Propose(q, eligible, bound);
    if s.None? then q else Either(Commit(q, s.value), q)
  }

  /** One event; an operation that raises changes nothing. */
  ghost function After(q: State, e: Event, bound: nat): State {
    match e
    case Enqueuing(entry) => Either(Enqueue(q, entry), q)
    case Cancelling(id) => Cancel(q, id)
    case Contracting(id, tier, weight, legs) => Either(Contract(q, id, tier, weight, legs), q)
    case Granting(eligible) => Grant(q, eligible, bound)
  }

  ghost function AfterAll(q: State, events: seq<Event>, bound: nat): State
    decreases |events|
  {
    if events == [] then q else AfterAll(After(q, events[0], bound), events[1..], bound)
  }

  // ---------------------------------------------------------------- what every run keeps

  ghost predicate Entries(q: State) {
    && (forall id :: id in q.queued ==> q.queued[id].entry.request == id && 1 <= WeightOf(q.queued[id]) <= 64
                                        && q.queued[id].sequence < q.next)
    && (forall a, b :: a in q.queued && b in q.queued && a != b ==> q.queued[a].sequence != q.queued[b].sequence)
  }

  ghost predicate Deficits(f: Fairness, bound: nat) {
    && (forall t :: Get(f.classDeficits, (t, Flexible), 0) == 0)
    && (forall t :: Get(f.classDeficits, (t, Scarce), 0) == 0
                    || (Get(f.classDeficits, (t, Scarce), 0) == 1 && Get(f.classCursors, t, Scarce) == Scarce))
    && (forall k :: k in f.keyDeficits ==> 0 <= f.keyDeficits[k] <= 63)
    && f.streak <= bound
  }

  ghost predicate WellEntered(e: Event) {
    e.Enqueuing? ==> 1 <= e.entry.quality.weight <= 64
  }

  lemma ServesTier(q: State, tier: nat, tierItems: map<Id, Queued>, streak: nat)
    requires tierItems != map[] && forall id :: id in tierItems ==> tierItems[id].entry.request == id
    ensures var e := ProposeIn(q, tier, tierItems, streak).entry;
            && e.request in tierItems && tierItems[e.request].entry == e
            && e.scarcity == ServedClass(q.fairness, tier, tierItems)
            && forall id :: id in tierItems && tierItems[id].entry.key == e.key && tierItems[id].entry.scarcity == e.scarcity
                 ==> tierItems[e.request].sequence <= tierItems[id].sequence
  {
    var scarcity := ServedClass(q.fairness, tier, tierItems);
    ClassNonempty(tierItems, Get(q.fairness.classCursors, tier, Scarce));
    var classItems := InClass(tierItems, scarcity);
    OrderNonempty(classItems);
    var key := ChosenKey(classItems, q.fairness.keyCursors, (tier, scarcity));
    KeyNonempty(classItems, key);
    var keyItems := OfKey(classItems, key);
    var first := First(keyItems, SequenceOf);
    assert IsFirst(keyItems, SequenceOf, first);
    forall id | id in tierItems && tierItems[id].entry.key == key && tierItems[id].entry.scarcity == scarcity
      ensures tierItems[first].sequence <= tierItems[id].sequence
    {
      assert id in keyItems;
    }
  }

  /** The entry is eligible, and the oldest eligible one of its key in its class and tier. */
  ghost predicate Serves(q: State, eligible: set<Id>, e: Entry) {
    && e.request in q.queued && q.queued[e.request].entry == e && e.request in eligible
    && (forall id :: id in q.queued && id in eligible && q.queued[id].entry.key == e.key
          && q.queued[id].entry.scarcity == e.scarcity && TierOf(q.queued[id]) == e.quality.tier
          ==> q.queued[e.request].sequence <= q.queued[id].sequence)
  }

  lemma ServesAvailable(q: State, eligible: set<Id>, tier: nat, e: Entry)
    requires var tierItems := InTier(Available(q.queued, eligible), tier);
             && e.request in tierItems && tierItems[e.request].entry == e
             && forall id :: id in tierItems && tierItems[id].entry.key == e.key && tierItems[id].entry.scarcity == e.scarcity
                  ==> tierItems[e.request].sequence <= tierItems[id].sequence
    ensures Serves(q, eligible, e)
  {
    var tierItems := InTier(Available(q.queued, eligible), tier);
    forall id | id in q.queued && id in eligible && q.queued[id].entry.key == e.key
          && q.queued[id].entry.scarcity == e.scarcity && TierOf(q.queued[id]) == e.quality.tier
      ensures q.queued[e.request].sequence <= q.queued[id].sequence
    {
      assert id in tierItems;
    }
  }

  lemma NothingAvailable(q: State, eligible: set<Id>)
    ensures Available(q.queued, eligible) == map[] <==> q.queued.Keys !! eligible
  {
    var items := Available(q.queued, eligible);
    if items != map[] {
      var id :| id in items;
      assert id in q.queued.Keys && id in eligible;
    } else {
      forall id | id in q.queued.Keys
        ensures id !in eligible
      {
        assert id !in items;
      }
    }
  }

  /** A proposal serves an eligible request, the oldest of its key in its class and tier; there is none
      exactly when no eligible request waits. */
  lemma ProposalServes(q: State, eligible: set<Id>, bound: nat)
    requires Entries(q)
    ensures Propose(q, eligible, bound).None? <==> q.queued.Keys !! eligible
    ensures Propose(q, eligible, bound).Some? ==> Serves(q, eligible, Propose(q, eligible, bound).value.entry)
  {
    NothingAvailable(q, eligible);
    var items := Available(q.queued, eligible);
    if items != map[] {
      var tier := ChosenTier(items, q.fairness.streak, bound);
      var streak := if HigherGrant(items, tier) then q.fairness.streak + 1 else 0;
      TierNonempty(items, q.fairness.streak, bound);
      ServesTier(q, tier, InTier(items, tier), streak);
      ServesAvailable(q, eligible, tier, ProposeIn(q, tier, InTier(items, tier), streak).entry);
    }
  }

  lemma ChargedDeficits(f: Fairness, tier: nat, scarcity: Scarcity, keys: seq<Id>, key: Id, weight: nat, streak: nat, bound: nat)
    requires Deficits(f, bound) && key in keys && 1 <= weight <= 64 && streak <= bound
    ensures Deficits(Charged(f, tier, scarcity, keys, key, weight, streak), bound)
  {
    var after := Charged(f, tier, scarcity, keys, key, weight, streak);
    forall t
      ensures Get(after.classDeficits, (t, Flexible), 0) == 0
      ensures Get(after.classDeficits, (t, Scarce), 0) == 0
              || (Get(after.classDeficits, (t, Scarce), 0) == 1 && Get(after.classCursors, t, Scarce) == Scarce)
    {
      assert Get(f.classDeficits, (t, Flexible), 0) == 0;
    }
  }
}
