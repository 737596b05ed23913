/** The queue as an object: fields updated in place, proved against the values of module Queue. */
module QueueObject {
  import opened Common
  import opened Authorization
  import opened Queue
  import Turns = QueueTurns

  class WDRRQueue {
    const maxConsecutiveHigherGrants: nat
    var queued: map<Id, Queued>
    var next: nat
    var version: nat
    var fairness: Fairness

    ghost function Value(): State
      reads this
    {
      State(queued, next, version, fairness)
    }

    constructor (bound: nat)
      ensures Value() == EMPTY_QUEUE && maxConsecutiveHigherGrants == bound
    {
      maxConsecutiveHigherGrants := bound;
      queued, next, version, fairness := map[], 0, 0, EMPTY_FAIRNESS;
    }

    method Enqueue(entry: Entry) returns (ok: bool)
      modifies this
      ensures ok == Queue.Enqueue(old(Value()), entry).Some?
      ensures Value() == Either(Queue.Enqueue(old(Value()), entry), old(Value()))
    {
      if entry.request in queued {
        return false;
      }
      queued := queued[entry.request := Queued(entry, next)];
      next := next + 1;
      version := version + 1;
      return true;
    }

    method Cancel(request: Id) returns (ok: bool)
      modifies this
      ensures ok == (request in old(queued)) && Value() == Queue.Cancel(old(Value()), request)
    {
      if request !in queued {
        return false;
      }
      queued := Without(queued, request);
      version := version + 1;
      return true;
    }

    method Contract(request: Id, tier: Option<nat>, weight: Option<nat>, legs: Option<seq<Leg>>) returns (ok: bool)
      modifies this
      ensures ok == Queue.Contract(old(Value()), request, tier, weight, legs).Some?
      ensures Value() == Either(Queue.Contract(old(Value()), request, tier, weight, legs), old(Value()))
      ensures ok ==> Turns.ContractsTo(old(Value()), request, tier, weight, legs, Value())
    {
      Turns.ContractionIs(Value(), request, tier, weight, legs);
      hide Turns.ContractsTo;
      if request !in queued {
        return false;
      }
      var before := queued[request].entry;
      var quality := Replacement(before.quality, tier, weight, legs);
      if !Accepts(before.quality, quality) {
        return false;
      }
      queued := queued[request := Queued(before.(quality := quality), queued[request].sequence)];
      if quality.tier == before.quality.tier && quality.weight < before.quality.weight {
        var k := (before.quality.tier, before.scarcity, before.key);
        if k in fairness.keyDeficits {
          fairness := fairness.(keyDeficits := fairness.keyDeficits[k := Min(fairness.keyDeficits[k], 8 * quality.weight)]);
        }
      }
      version := version + 1;
      return true;
    }

    method Commit(selection: Selection) returns (ok: bool)
      modifies this
      ensures ok == Queue.Commit(old(Value()), selection).Some?
      ensures Value() == Either(Queue.Commit(old(Value()), selection), old(Value()))
    {
      var id := selection.entry.request;
      if selection.version != version || id !in queued || queued[id].entry != selection.entry {
        return false;
      }
      fairness := selection.fairness;
      queued := Without(queued, id);
      version := version + 1;
      return true;
    }

    /** Choose the tier: the top one, unless it has been favoured too long over a lower one. */
    method ChooseTier(items: map<Id, Queued>) returns (tier: nat, streak: nat)
      requires items != map[]
      ensures tier == ChosenTier(items, fairness.streak, maxConsecutiveHigherGrants)
      ensures streak == if HigherGrant(items, tier) then fairness.streak + 1 else 0
    {
      var first := FindFirst(items, TierOf);
      tier := TierOf(items[first]);
      var lower := Lower(items, tier);
      streak := 0;
      if lower != map[] {
        if fairness.streak >= maxConsecutiveHigherGrants {
          var oldest := FindFirst(lower, SequenceOf);
          AgedIsLower(items, oldest);
          tier := TierOf(lower[oldest]);
        } else {
          streak := fairness.streak + 1;
        }
      }
    }

    /** Propose the next grant among the eligible requests, without changing the queue. */
    method Propose(eligible: set<Id>) returns (selection: Option<Selection>)
      ensures selection == Queue.Propose(Value(), eligible, maxConsecutiveHigherGrants)
      ensures Entries(Value()) ==>
                if selection.Some? then Turns.Selects(Value(), eligible, maxConsecutiveHigherGrants, selection.value)
                else forall id :: !Turns.Waits(Value(), eligible, id)
    {
      hide Turns.Selects;
      if Entries(Value()) {
        Turns.ProposalSelects(Value(), eligible, maxConsecutiveHigherGrants);
      }
      var items := Available(queued, eligible);
      if items == map[] {
        return None;
      }
      var s := ProposeFrom(items);
      return Some(s);
    }

    method ProposeFrom(items: map<Id, Queued>) returns (selection: Selection)
      requires items != map[]
      ensures selection == ProposeAmong(Value(), items, maxConsecutiveHigherGrants)
    {
      var tier, streak := ChooseTier(items);
      TierNonempty(items, fairness.streak, maxConsecutiveHigherGrants);
      selection := ProposeInTier(tier, InTier(items, tier), streak);
    }

    method ProposeInTier(tier: nat, tierItems: map<Id, Queued>, streak: nat) returns (selection: Selection)
      requires tierItems != map[]
      ensures selection == ProposeIn(Value(), tier, tierItems, streak)
    {
      var cursor := Get(fairness.classCursors, tier, Scarce);
      var scarcity := ChosenClass(tierItems, cursor);
      ClassNonempty(tierItems, cursor);
      var classItems := InClass(tierItems, scarcity);
      var firsts := OldestSequences(classItems);
      var keys := Sort(firsts, Same);
      OrderNonempty(classItems);
      var key := Get(fairness.keyCursors, (tier, scarcity), keys[0]);
      if key !in keys {
        key := keys[0];
      }
      KeyNonempty(classItems, key);
      var keyItems := OfKey(classItems, key);
      var lightest := FindFirst(keyItems, WeightOf);
      var oldest := FindFirst(keyItems, SequenceOf);
      return Selection(keyItems[oldest].entry, version,
                       Charged(fairness, tier, scarcity, keys, key, WeightOf(keyItems[lightest]), streak));
    }
  }

  lemma AgedIsLower(items: map<Id, Queued>, oldest: Id)
    requires items != map[]
    requires var lower := Lower(items, TopTier(items)); lower != map[] && oldest == First(lower, SequenceOf)
    ensures !HigherGrant(items, TierOf(items[oldest]))
  {
  }

  /** The oldest sequence of each key, by one pass over the items in any order. */
  method OldestSequences(items: map<Id, Queued>) returns (firsts: map<Id, nat>)
    ensures firsts == FirstSequences(items)
  {
    firsts := map[];
    var todo := items.Keys;
    while todo != {}
      invariant todo <= items.Keys
      invariant forall id :: id in items && id !in todo ==>
                  items[id].entry.key in firsts && firsts[items[id].entry.key] <= items[id].sequence
      invariant forall key :: key in firsts ==>
                  exists id :: id in items && items[id].entry.key == key && items[id].sequence == firsts[key]
      decreases |todo|
    {
      var id :| id in todo;
      var key := items[id].entry.key;
      firsts := firsts[key := Min(items[id].sequence, Get(firsts, key, items[id].sequence))];
      todo := todo - {id};
    }
    forall key
      ensures key in firsts <==> key in FirstSequences(items)
      ensures key in firsts ==> firsts[key] == FirstSequences(items)[key]
    {
      FirstIsOldest(items, firsts, key);
    }
  }

  lemma FirstIsOldest(items: map<Id, Queued>, firsts: map<Id, nat>, key: Id)
    requires forall id :: id in items ==> items[id].entry.key in firsts && firsts[items[id].entry.key] <= items[id].sequence
    requires key in firsts ==> exists id :: id in items && items[id].entry.key == key && items[id].sequence == firsts[key]
    ensures key in firsts <==> key in FirstSequences(items)
    ensures key in firsts ==> firsts[key] == FirstSequences(items)[key]
  {
    FirstSequencesAre(items, key);
    var ofKey := OfKey(items, key);
    if key in firsts {
      var id :| id in items && items[id].entry.key == key && items[id].sequence == firsts[key];
      assert id in ofKey && IsFirst(ofKey, SequenceOf, First(ofKey, SequenceOf));
    }
  }
}
