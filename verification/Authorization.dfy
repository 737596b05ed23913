/** Authorization ceilings and their meet. A queued request is re-authorized against the current policy
    again and again; what it may do can only shrink, and the queue accepts every such contraction. */
module Authorization {
  import opened Common

  // ---------------------------------------------------------------- ordered lists without repetition

  ghost predicate Distinct(s: seq<Id>) { forall i, j :: 0 <= i < j < |s| ==> s[i] != s[j] }

  /** The items of `s` that also occur in `t`, in the order of `s`. */
  function Shared(s: seq<Id>, t: seq<Id>): seq<Id> {
    if s == [] then [] else (if s[0] in t then [s[0]] else []) + Shared(s[1..], t)
  }

  lemma {:induction false} SharedMembers(s: seq<Id>, t: seq<Id>)
    ensures |Shared(s, t)| <= |s|
    ensures forall x :: x in Shared(s, t) <==> x in s && x in t
  {
    if s != [] {
      SharedMembers(s[1..], t);
    }
  }

  lemma {:induction false} SharedDistinct(s: seq<Id>, t: seq<Id>)
    requires Distinct(s)
    ensures Distinct(Shared(s, t))
  {
    if s != [] {
      SharedDistinct(s[1..], t);
      SharedMembers(s[1..], t);
      assert s[0] !in s[1..];
    }
  }

  lemma {:induction false} SharedAll(s: seq<Id>, t: seq<Id>)
    requires forall x :: x in s ==> x in t
    ensures Shared(s, t) == s
  {
    if s != [] {
      assert s[0] in s;
      assert forall x :: x in s[1..] ==> x in s;
      SharedAll(s[1..], t);
    }
  }

  lemma {:induction false} SharedTwice(s: seq<Id>, t: seq<Id>, u: seq<Id>)
    ensures Shared(Shared(s, t), u) == Shared(s, Shared(t, u))
  {
    SharedMembers(t, u);
    if s != [] {
      var rest := Shared(s[1..], t);
      SharedTwice(s[1..], t, u);
      if s[0] in t {
        assert ([s[0]] + rest)[1..] == rest;
      } else {
        assert [] + rest == rest;
      }
    }
  }

  /** Keeping everything means that nothing was left out. */
  lemma {:induction false} SharedFull(s: seq<Id>, t: seq<Id>)
    requires |Shared(s, t)| == |s|
    ensures Shared(s, t) == s
  {
    if s != [] {
      SharedMembers(s[1..], t);
      SharedFull(s[1..], t);
    }
  }

  lemma SharedAntisymmetric(s: seq<Id>, t: seq<Id>)
    requires Shared(s, t) == t && Shared(t, s) == s
    ensures s == t
  {
    SharedMembers(s, t);
    SharedMembers(t, s);
    SharedFull(s, t);
  }

  // ---------------------------------------------------------------- capabilities

  datatype Capabilities = Capabilities(endpoints: seq<Id>, modalities: seq<Id>, contextTokens: nat, tools: bool, forcedTool: bool,
                                       responseSchema: bool, streaming: bool, reasoning: bool, continuation: bool, shadow: bool)
  {
    /** What construction enforces. */
    ghost predicate Valid() {
      && endpoints != [] && modalities != [] && Distinct(endpoints) && Distinct(modalities)
      && contextTokens > 0 && (forcedTool ==> tools)
    }

    function Meet(other: Capabilities): Option<Capabilities> {
      var e, m := Shared(endpoints, other.endpoints), Shared(modalities, other.modalities);
      if e == [] || m == [] then None
      else Some(Capabilities(e, m, Min(contextTokens, other.contextTokens), tools && other.tools,
                             tools && other.tools && forcedTool && other.forcedTool,
                             responseSchema && other.responseSchema, streaming && other.streaming,
                             reasoning && other.reasoning, continuation && other.continuation, shadow || other.shadow))
    }
  }

  /** The meet lifted to results, where nothing in common absorbs. */
  function MeetCapabilities(a: Option<Capabilities>, b: Option<Capabilities>): Option<Capabilities> {
    if a.None? || b.None? then None else a.value.Meet(b.value)
  }

  lemma CapabilitiesValid(a: Capabilities, b: Capabilities)
    requires a.Valid() && b.Valid()
    ensures a.Meet(b).Some? ==> a.Meet(b).value.Valid()
  {
    SharedDistinct(a.endpoints, b.endpoints);
    SharedDistinct(a.modalities, b.modalities);
  }

  lemma CapabilitiesIdempotent(a: Capabilities)
    requires a.Valid()
    ensures a.Meet(a) == Some(a)
  {
    SharedAll(a.endpoints, a.endpoints);
    SharedAll(a.modalities, a.modalities);
  }

  lemma SharedEmpty(s: seq<Id>, t: seq<Id>, u: seq<Id>)
    ensures Shared(Shared(s, t), u) == Shared(s, Shared(t, u))
    ensures (Shared(s, t) == [] || Shared(Shared(s, t), u) == []) <==> (Shared(t, u) == [] || Shared(s, Shared(t, u)) == [])
  {
    SharedTwice(s, t, u);
    SharedMembers(s, Shared(t, u));
  }

  /** The meet is associative, with "nothing in common" absorbing on both sides. */
  lemma CapabilitiesAssociative(a: Capabilities, b: Capabilities, c: Capabilities)
    ensures MeetCapabilities(MeetCapabilities(Some(a), Some(b)), Some(c)) == MeetCapabilities(Some(a), MeetCapabilities(Some(b), Some(c)))
  {
    SharedEmpty(a.endpoints, b.endpoints, c.endpoints);
    SharedEmpty(a.modalities, b.modalities, c.modalities);
    var left := MeetCapabilities(Some(a), Some(b));
    var right := MeetCapabilities(Some(b), Some(c));
    if left.None? || right.None? || MeetCapabilities(left, Some(c)).None? {
      assert MeetCapabilities(Some(a), right).None?;
      assert MeetCapabilities(left, Some(c)).None?;
    }
  }

  // ---------------------------------------------------------------- legs

  datatype Leg = Leg(id: Id, account: Id, generation: Id, order: nat, triggers: seq<Id>, capabilities: Capabilities)
  {
    ghost predicate Valid() { order >= 1 && triggers != [] && Distinct(triggers) && capabilities.Valid() }

    function Identity(): (Id, Id, Id, nat) { (id, account, generation, order) }

    function Meet(other: Leg): Option<Leg> {
      var t := Shared(triggers, other.triggers);
      var c := capabilities.Meet(other.capabilities);
      if Identity() != other.Identity() || t == [] || c.None? then None
      else Some(Leg(id, account, generation, order, t, c.value))
    }
  }

  function MeetLegs(a: Option<Leg>, b: Option<Leg>): Option<Leg> {
    if a.None? || b.None? then None else a.value.Meet(b.value)
  }

  lemma LegValid(a: Leg, b: Leg)
    requires a.Valid() && b.Valid()
    ensures a.Meet(b).Some? ==> a.Meet(b).value.Valid() && a.Meet(b).value.Identity() == a.Identity()
  {
    SharedDistinct(a.triggers, b.triggers);
    CapabilitiesValid(a.capabilities, b.capabilities);
  }

  lemma LegIdempotent(a: Leg)
    requires a.Valid()
    ensures a.Meet(a) == Some(a)
  {
    SharedAll(a.triggers, a.triggers);
    CapabilitiesIdempotent(a.capabilities);
  }

  lemma LegAssociative(a: Leg, b: Leg, c: Leg)
    ensures MeetLegs(MeetLegs(Some(a), Some(b)), Some(c)) == MeetLegs(Some(a), MeetLegs(Some(b), Some(c)))
  {
    SharedEmpty(a.triggers, b.triggers, c.triggers);
    CapabilitiesAssociative(a.capabilities, b.capabilities, c.capabilities);
  }

  // ---------------------------------------------------------------- contraction is a partial order

  /** What the queue asks of a leg that is to replace another. */
  predicate Contracts(before: Leg, after: Leg) { before.Meet(after) == Some(after) }

  lemma ContractsTransitive(a: Leg, b: Leg, c: Leg)
    requires Contracts(a, b) && Contracts(b, c)
    ensures Contracts(a, c)
  {
    LegAssociative(a, b, c);
  }

  lemma ContractsAntisymmetric(a: Leg, b: Leg)
    requires Contracts(a, b) && Contracts(b, a)
    ensures a == b
  {
    SharedAntisymmetric(a.triggers, b.triggers);
    SharedAntisymmetric(a.capabilities.endpoints, b.capabilities.endpoints);
    SharedAntisymmetric(a.capabilities.modalities, b.capabilities.modalities);
  }

  /** The meet contracts the leg it starts from, and it is the largest leg below both. */
  lemma MeetIsLargest(a: Leg, b: Leg, lower: Leg)
    requires a.Valid() && a.Meet(b).Some?
    ensures Contracts(a, a.Meet(b).value)
    ensures Contracts(a, lower) && Contracts(b, lower) ==> Contracts(a.Meet(b).value, lower)
  {
    LegIdempotent(a);
    LegAssociative(a, a, b);
    if Contracts(a, lower) && Contracts(b, lower) {
      LegAssociative(a, b, lower);
    }
  }

  // ---------------------------------------------------------------- ceilings

  datatype Ceiling = Ceiling(key: Id, credentialGeneration: nat, policy: Id, bundleGeneration: nat, bundleHash: Id, routeGroup: Id,
                             legs: seq<Leg>, tier: nat, weight: nat, maxConcurrency: nat, maxWaiters: nat, deadline: nat)
  {
    ghost predicate Valid() { DistinctLegs(legs) && (forall l :: l in legs ==> l.Valid()) && 1 <= weight <= 64 }

    predicate SameIdentity(other: Ceiling) {
      key == other.key && credentialGeneration == other.credentialGeneration && policy == other.policy && routeGroup == other.routeGroup
    }

    /** `None` where the source refuses to intersect ceilings of different identities. */
    function Meet(other: Ceiling): Option<Ceiling> {
      if !SameIdentity(other) then None
      else Some(Ceiling(key, credentialGeneration, policy, bundleGeneration, bundleHash, routeGroup, MeetAll(legs, other.legs),
                        Max(tier, other.tier), Min(weight, other.weight), Min(maxConcurrency, other.maxConcurrency),
                        Min(maxWaiters, other.maxWaiters), Min(deadline, other.deadline)))
    }
  }

  predicate DistinctLegs(legs: seq<Leg>) { forall i, j :: 0 <= i < j < |legs| ==> legs[i].id != legs[j].id }

  /** The leg with the given identity, if there is one; the last one, should there be several. */
  function FindLeg(legs: seq<Leg>, identity: (Id, Id, Id, nat)): Option<Leg> {
    if legs == [] then None
    else if FindLeg(legs[1..], identity).Some? then FindLeg(legs[1..], identity)
    else if legs[0].Identity() == identity then Some(legs[0])
    else None
  }

  function MeetAll(admitted: seq<Leg>, current: seq<Leg>): seq<Leg> {
    if admitted == [] then []
    else
      var met := MeetLegs(Some(admitted[0]), FindLeg(current, admitted[0].Identity()));
      (if met.Some? then [met.value] else []) + MeetAll(admitted[1..], current)
  }

  lemma {:induction false} FindLegIs(legs: seq<Leg>, identity: (Id, Id, Id, nat))
    ensures var f := FindLeg(legs, identity);
            && (f.Some? <==> exists l :: l in legs && l.Identity() == identity)
            && (f.Some? ==> f.value in legs && f.value.Identity() == identity)
  {
    if legs != [] {
      FindLegIs(legs[1..], identity);
    }
  }

  /** Every leg of a meet is a meet of a leg of each side. */
  lemma {:induction false} MeetAllFrom(admitted: seq<Leg>, current: seq<Leg>, x: Leg)
    requires x in MeetAll(admitted, current)
    ensures exists a, b :: a in admitted && b in current && a.Meet(b) == Some(x)
  {
    var met := MeetLegs(Some(admitted[0]), FindLeg(current, admitted[0].Identity()));
    FindLegIs(current, admitted[0].Identity());
    if met != Some(x) {
      MeetAllFrom(admitted[1..], current, x);
      var a, b :| a in admitted[1..] && b in current && a.Meet(b) == Some(x);
      assert a in admitted;
    } else {
      assert admitted[0] in admitted;
    }
  }

  /** Distinct leg identifiers make the identity lookup exact. */
  lemma {:induction false} FindOwn(legs: seq<Leg>, l: Leg)
    requires DistinctLegs(legs) && l in legs
    ensures FindLeg(legs, l.Identity()) == Some(l)
  {
    assert DistinctLegs(legs[1..]);
    FindLegIs(legs[1..], l.Identity());
    if l in legs[1..] {
      FindOwn(legs[1..], l);
    } else {
      assert forall x :: x in legs[1..] ==> x.id != legs[0].id;
    }
  }

  lemma MeetAllCons(first: Leg, rest: seq<Leg>, current: seq<Leg>, own: Leg)
    requires MeetLegs(Some(first), FindLeg(current, first.Identity())) == Some(own)
    ensures MeetAll([first] + rest, current) == [own] + MeetAll(rest, current)
  {
    assert ([first] + rest)[0] == first && ([first] + rest)[1..] == rest;
    hide MeetLegs, FindLeg;
  }

  lemma {:induction false} MeetAllSelf(part: seq<Leg>, legs: seq<Leg>)
    requires DistinctLegs(legs) && forall l :: l in part ==> l in legs && l.Valid()
    ensures MeetAll(part, legs) == part
    decreases |part|
  {
    hide Leg.Meet, Leg.Valid, Leg.Identity, FindLeg, DistinctLegs;
    if part != [] {
      var first, rest := part[0], part[1..];
      assert part == [first] + rest && first in part && forall l :: l in rest ==> l in part;
      FindOwn(legs, first);
      LegIdempotent(first);
      MeetAllSelf(rest, legs);
      MeetAllCons(first, rest, legs, first);
    }
  }

  /** A ceiling met with itself is itself. */
  lemma CeilingIdempotent(c: Ceiling)
    requires c.Valid()
    ensures c.Meet(c) == Some(c)
  {
    MeetAllSelf(c.legs, c.legs);
  }

  // ---------------------------------------------------------------- a queued request

  /** The part of a queue entry that activations may contract. */
  datatype Quality = Quality(tier: nat, weight: nat, legs: seq<Leg>)

  /** Whether the queue accepts a contraction: it raises when any part of it would expand, and an entry
      without a leg or with a repeated one cannot be constructed. */
  predicate Accepts(entry: Quality, replacement: Quality) {
    && replacement.tier >= entry.tier && replacement.weight <= entry.weight
    && AllContract(entry.legs, replacement.legs)
    && 1 <= replacement.weight <= 64 && replacement.legs != [] && DistinctLegs(replacement.legs)
  }

  predicate AllContract(before: seq<Leg>, after: seq<Leg>) {
    forall i :: 0 <= i < |after| ==> ContractsOne(before, after[i])
  }

  predicate ContractsOne(before: seq<Leg>, l: Leg) {
    var previous := FindLeg(before, l.Identity());
    previous.Some? && Contracts(previous.value, l)
  }

  datatype Waiter = Waiter(ceiling: Ceiling, entry: Quality)

  /** The effective ceiling is always something that the queue would still accept. */
  ghost predicate Within(w: Waiter) {
    && w.ceiling.Valid() && DistinctLegs(w.entry.legs) && (forall l :: l in w.entry.legs ==> l.Valid())
    && w.ceiling.tier >= w.entry.tier && w.ceiling.weight <= w.entry.weight
    && AllContract(w.entry.legs, w.ceiling.legs)
  }

  function QualityOf(c: Ceiling): Quality { Quality(c.tier, c.weight, c.legs) }

  /** Admission queues exactly the ceiling it computed. */
  function Admitted(c: Ceiling): Waiter { Waiter(c, QualityOf(c)) }

  /** What the current policy authorizes; `None` where it authorizes nothing or another identity. */
  datatype Refresh = Refresh(current: Option<Ceiling>)

  /** Re-authorization contracts the effective ceiling in place; `None` where the waiter fails. */
  function Reauthorize(w: Waiter, r: Refresh): Option<Waiter> {
    if r.current.None? then None
    else
      var met := w.ceiling.Meet(r.current.value);
      if met.None? || met.value.legs == [] then None else Some(w.(ceiling := met.value))
  }

  /** A preview then contracts the queue entry, if anything changed. */
  function Preview(w: Waiter): Waiter {
    if w.entry == QualityOf(w.ceiling) then w else w.(entry := QualityOf(w.ceiling))
  }

  lemma {:induction false} MeetAllDistinct(admitted: seq<Leg>, current: seq<Leg>)
    requires DistinctLegs(admitted)
    requires forall l :: l in admitted || l in current ==> l.Valid()
    ensures DistinctLegs(MeetAll(admitted, current))
    ensures forall l :: l in MeetAll(admitted, current) ==> l.Valid()
    ensures forall l :: l in MeetAll(admitted, current) ==> exists a :: a in admitted && a.id == l.id
  {
    hide MeetLegs, Leg.Valid, FindLeg;
    if admitted != [] {
      MetValid(admitted[0], current);
      assert admitted[0] in admitted;
      assert DistinctLegs(admitted[1..]);
      assert forall l :: l in admitted[1..] ==> l in admitted && l.id != admitted[0].id;
      MeetAllDistinct(admitted[1..], current);
    }
  }

  lemma MetValid(a: Leg, current: seq<Leg>)
    requires a.Valid() && forall l :: l in current ==> l.Valid()
    ensures var met := MeetLegs(Some(a), FindLeg(current, a.Identity())); met.Some? ==> met.value.Valid() && met.value.id == a.id
  {
    hide Leg.Valid, Leg.Meet;
    FindLegIs(current, a.Identity());
    if FindLeg(current, a.Identity()).Some? {
      LegValid(a, FindLeg(current, a.Identity()).value);
    }
  }

  /** Re-authorization against any policy keeps the effective ceiling within the queue entry. */
  lemma ReauthorizeWithin(w: Waiter, r: Refresh)
    requires Within(w) && (r.current.Some? ==> r.current.value.Valid())
    ensures var after := Reauthorize(w, r); after.Some? ==> Within(after.value) && Accepts(w.entry, QualityOf(after.value.ceiling))
  {
    var after := Reauthorize(w, r);
    if after.Some? {
      var current := r.current.value;
      MeetAllDistinct(w.ceiling.legs, current.legs);
      forall i | 0 <= i < |after.value.ceiling.legs|
        ensures ContractsOne(w.entry.legs, after.value.ceiling.legs[i])
      {
        MetLegWithin(w, current, after.value.ceiling.legs[i]);
      }
    }
  }

  lemma MetLegWithin(w: Waiter, current: Ceiling, x: Leg)
    requires Within(w) && x in MeetAll(w.ceiling.legs, current.legs)
    ensures ContractsOne(w.entry.legs, x)
  {
    MeetAllFrom(w.ceiling.legs, current.legs, x);
    var a, b :| a in w.ceiling.legs && b in current.legs && a.Meet(b) == Some(x);
    var i :| 0 <= i < |w.ceiling.legs| && w.ceiling.legs[i] == a;
    assert ContractsOne(w.entry.legs, w.ceiling.legs[i]);
    MeetIsLargest(a, b, x);
    ContractsTransitive(FindLeg(w.entry.legs, a.Identity()).value, a, x);
  }

  /** Every contraction that a preview asks for is one the queue accepts, and the two then agree. */
  lemma PreviewAccepted(w: Waiter)
    requires Within(w) && w.ceiling.legs != []
    ensures w.entry != QualityOf(w.ceiling) ==> Accepts(w.entry, QualityOf(w.ceiling))
    ensures Within(Preview(w)) && Preview(w).entry == QualityOf(w.ceiling)
  {
    AllContractSelf(w.ceiling.legs);
  }

  lemma AllContractSelf(legs: seq<Leg>)
    requires DistinctLegs(legs) && forall l :: l in legs ==> l.Valid()
    ensures AllContract(legs, legs)
  {
    forall i | 0 <= i < |legs|
      ensures ContractsOne(legs, legs[i])
    {
      FindOwn(legs, legs[i]);
      LegIdempotent(legs[i]);
    }
  }

  /** One step of a waiter's life: the policy is read again, and a preview may follow. */
  datatype Look = Look(refresh: Refresh, previewed: bool)

  /** The waiter after some looks; `None` once it has failed. */
  function LookAll(w: Waiter, looks: seq<Look>): Option<Waiter>
    decreases |looks|
  {
    if looks == [] then Some(w)
    else
      var after := Reauthorize(w, looks[0].refresh);
      if after.None? then None
      else LookAll(if looks[0].previewed then Preview(after.value) else after.value, looks[1..])
  }

  /** In every life of a queued request, under any sequence of policies, the queue accepts every
      contraction it is asked for: no re-authorization ever expands what was admitted. */
  lemma {:induction false} QueueAlwaysAccepts(admitted: Waiter, looks: seq<Look>)
    requires Within(admitted) && admitted.ceiling.legs != []
    requires forall k :: k in looks && k.refresh.current.Some? ==> k.refresh.current.value.Valid()
    ensures LookAll(admitted, looks).Some? ==>
              var w := LookAll(admitted, looks).value;
              Within(w) && w.ceiling.legs != [] && Accepts(w.entry, QualityOf(w.ceiling))
              && Accepts(admitted.entry, QualityOf(w.ceiling))
    decreases |looks|
  {
    if looks == [] {
    } else {
      var after := Reauthorize(admitted, looks[0].refresh);
      assert looks[0] in looks;
      if after.Some? {
        ReauthorizeWithin(admitted, looks[0].refresh);
        PreviewAccepted(after.value);
        var next := if looks[0].previewed then Preview(after.value) else after.value;
        QueueAlwaysAccepts(next, looks[1..]);
        if LookAll(next, looks[1..]).Some? {
          AcceptsChain(admitted.entry, next.entry, QualityOf(LookAll(next, looks[1..]).value.ceiling));
        }
      }
    }
  }

  lemma AcceptsChain(first: Quality, second: Quality, third: Quality)
    requires second == first || Accepts(first, second)
    requires Accepts(second, third)
    ensures Accepts(first, third)
  {
    if second != first {
      forall i | 0 <= i < |third.legs|
        ensures ContractsOne(first.legs, third.legs[i])
      {
        var l := third.legs[i];
        assert ContractsOne(second.legs, l);
        FindLegIs(second.legs, l.Identity());
        var middle := FindLeg(second.legs, l.Identity()).value;
        var j :| 0 <= j < |second.legs| && second.legs[j] == middle;
        assert ContractsOne(first.legs, second.legs[j]);
        ContractsTransitive(FindLeg(first.legs, middle.Identity()).value, middle, l);
      }
    }
  }

  /** A request as it is admitted starts within its own ceiling. */
  lemma AdmittedWithin(c: Ceiling)
    requires c.Valid()
    ensures Within(Admitted(c))
  {
    AllContractSelf(c.legs);
  }

  /** So from its admission on, the queue accepts every contraction of a request with a valid ceiling. */
  lemma AdmittedNeverExpands(c: Ceiling, looks: seq<Look>)
    requires c.Valid() && c.legs != []
    requires forall k :: k in looks && k.refresh.current.Some? ==> k.refresh.current.value.Valid()
    ensures LookAll(Admitted(c), looks).Some? ==>
              var w := LookAll(Admitted(c), looks).value;
              Within(w) && w.ceiling.legs != [] && Accepts(w.entry, QualityOf(w.ceiling)) && Accepts(QualityOf(c), QualityOf(w.ceiling))
  {
    AdmittedWithin(c);
    QueueAlwaysAccepts(Admitted(c), looks);
  }
}
