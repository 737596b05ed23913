/** What "no more than" means for capabilities, legs and ceilings, field by field, and the proof that the meets
    are the greatest values below both sides. No definition here calls a meet. */
module AuthorizationOrder {
  import opened Common
  import opened Authorization

  /** `t` picks some items of `s`, in their order. */
  predicate Picks(t: seq<Id>, s: seq<Id>)
    decreases |s|
  {
    t == [] || (s != [] && (if t[0] == s[0] then Picks(t[1..], s[1..]) else Picks(t, s[1..])))
  }

  predicate Among(t: seq<Id>, s: seq<Id>) { forall x :: x in t ==> x in s }

  /** The capabilities `x` allow nothing that `a` does not. Being a shadow is a restriction. */
  predicate Narrower(x: Capabilities, a: Capabilities) {
    && Among(x.endpoints, a.endpoints) && Among(x.modalities, a.modalities) && x.contextTokens <= a.contextTokens
    && (x.tools ==> a.tools) && (x.forcedTool ==> a.forcedTool) && (x.responseSchema ==> a.responseSchema)
    && (x.streaming ==> a.streaming) && (x.reasoning ==> a.reasoning) && (x.continuation ==> a.continuation)
    && (a.shadow ==> x.shadow)
  }

  predicate SameLeg(x: Leg, a: Leg) { x.id == a.id && x.account == a.account && x.generation == a.generation && x.order == a.order }

  predicate NarrowerLeg(x: Leg, a: Leg) { SameLeg(x, a) && Among(x.triggers, a.triggers) && Narrower(x.capabilities, a.capabilities) }

  predicate NothingShared(s: seq<Id>, t: seq<Id>) { forall x :: x in s ==> x !in t }

  lemma {:induction false} SharedPicks(s: seq<Id>, t: seq<Id>)
    ensures Picks(Shared(s, t), s) && Among(Shared(s, t), s) && Among(Shared(s, t), t)
    ensures Shared(s, t) == [] <==> NothingShared(s, t)
    decreases |s|
  {
    SharedMembers(s, t);
    if s != [] {
      SharedPicks(s[1..], t);
      if s[0] in t {
        assert Shared(s, t)[1..] == Shared(s[1..], t);
      } else {
        assert Shared(s, t) == Shared(s[1..], t);
        PicksLater(Shared(s, t), s);
      }
    }
  }

  /** Picking from later items is picking from all. */
  lemma {:induction false} PicksLater(t: seq<Id>, s: seq<Id>)
    requires s != [] && Picks(t, s[1..])
    ensures Picks(t, s)
    decreases |s|, |t|
  {
    if t != [] && t[0] == s[0] {
      PicksTail(t, s[1..]);
    }
  }

  lemma {:induction false} PicksTail(t: seq<Id>, s: seq<Id>)
    requires t != [] && Picks(t, s)
    ensures Picks(t[1..], s)
    decreases |s|, |t|
  {
    if t[0] == s[0] {
      PicksLater(t[1..], s);
    } else {
      PicksTail(t, s[1..]);
      PicksLater(t[1..], s);
    }
  }

  /** The meet of capabilities: nothing if no endpoint or no modality is shared; otherwise the greatest
      capabilities that allow no more than either side, listed as on the left. */
  lemma CapabilitiesGreatest(a: Capabilities, b: Capabilities)
    ensures a.Meet(b).None? <==> NothingShared(a.endpoints, b.endpoints) || NothingShared(a.modalities, b.modalities)
    ensures a.Meet(b).Some? ==>
              var m := a.Meet(b).value;
              && Narrower(m, b) && Picks(m.endpoints, a.endpoints) && Picks(m.modalities, a.modalities) && Narrower(m, a)
              && forall x: Capabilities :: x.Valid() && Narrower(x, a) && Narrower(x, b) ==> Narrower(x, m)
  {
    SharedPicks(a.endpoints, b.endpoints);
    SharedPicks(a.modalities, b.modalities);
    hide Shared, Picks;
    if a.Meet(b).Some? {
      forall x: Capabilities | x.Valid() && Narrower(x, a) && Narrower(x, b)
        ensures Narrower(x, a.Meet(b).value)
      {
        BelowBoth(a, b, x);
      }
    }
  }

  lemma BelowBoth(a: Capabilities, b: Capabilities, x: Capabilities)
    requires a.Meet(b).Some? && x.Valid() && Narrower(x, a) && Narrower(x, b)
    ensures Narrower(x, a.Meet(b).value)
  {
    SharedMembers(a.endpoints, b.endpoints);
    SharedMembers(a.modalities, b.modalities);
    hide Shared;
  }

  /** The meet of legs: nothing across identities or without a shared trigger, endpoint or modality. */
  lemma LegGreatest(a: Leg, b: Leg)
    ensures a.Meet(b).None? <==>
              || !SameLeg(a, b) || NothingShared(a.triggers, b.triggers)
              || NothingShared(a.capabilities.endpoints, b.capabilities.endpoints)
              || NothingShared(a.capabilities.modalities, b.capabilities.modalities)
    ensures a.Meet(b).Some? ==>
              var m := a.Meet(b).value;
              && NarrowerLeg(m, a) && NarrowerLeg(m, b) && Picks(m.triggers, a.triggers)
              && forall x: Leg :: x.Valid() && NarrowerLeg(x, a) && NarrowerLeg(x, b) ==> NarrowerLeg(x, m)
  {
    hide Narrower, Capabilities.Meet, Shared, Capabilities.Valid;
    CapabilitiesGreatest(a.capabilities, b.capabilities);
    SharedPicks(a.triggers, b.triggers);
    SharedMembers(a.triggers, b.triggers);
  }

  // ---------------------------------------------------------------- contraction

  /** Picking what one already has gives it back. */
  lemma {:induction false} PickedIsShared(s: seq<Id>, t: seq<Id>)
    requires Picks(t, s) && Distinct(s)
    ensures Shared(s, t) == t
    decreases |s|
  {
    if s != [] {
      assert Distinct(s[1..]);
      if t != [] && t[0] == s[0] {
        PickedIsShared(s[1..], t[1..]);
        SharedIgnores(s[1..], t);
        assert t == [t[0]] + t[1..];
      } else if t != [] {
        PickedIsShared(s[1..], t);
        PicksAmong(t, s[1..]);
        assert s[0] !in s[1..];
      } else {
        SharedMembers(s, t);
        NothingPicked(s);
      }
    }
  }

  lemma {:induction false} NothingPicked(s: seq<Id>)
    ensures Shared(s, []) == []
  {
    if s != [] {
      NothingPicked(s[1..]);
    }
  }

  lemma {:induction false} PicksAmong(t: seq<Id>, s: seq<Id>)
    requires Picks(t, s)
    ensures Among(t, s)
    decreases |s|
  {
    if t != [] && s != [] {
      if t[0] == s[0] {
        PicksAmong(t[1..], s[1..]);
        assert t == [t[0]] + t[1..];
      } else {
        PicksAmong(t, s[1..]);
      }
    }
  }

  /** An item that is not there cannot be shared. */
  lemma {:induction false} SharedIgnores(s: seq<Id>, t: seq<Id>)
    requires t != [] && t[0] !in s
    ensures Shared(s, t) == Shared(s, t[1..])
    decreases |s|
  {
    if s != [] {
      assert s[0] in s && forall x :: x in s[1..] ==> x in s;
      SharedIgnores(s[1..], t);
      assert t == [t[0]] + t[1..];
    }
  }

  /** A leg may replace another exactly if it is the same leg, allows no more, and lists what it keeps in the
      same order. */
  lemma ContractsIff(before: Leg, after: Leg)
    requires before.Valid() && after.Valid()
    ensures Contracts(before, after) <==>
              && NarrowerLeg(after, before) && Picks(after.triggers, before.triggers)
              && Picks(after.capabilities.endpoints, before.capabilities.endpoints)
              && Picks(after.capabilities.modalities, before.capabilities.modalities)
  {
    hide Shared;
    if Contracts(before, after) {
      LegGreatest(before, after);
      CapabilitiesGreatest(before.capabilities, after.capabilities);
    }
    if Picks(after.triggers, before.triggers) && Picks(after.capabilities.endpoints, before.capabilities.endpoints)
       && Picks(after.capabilities.modalities, before.capabilities.modalities) {
      PickedIsShared(before.triggers, after.triggers);
      PickedIsShared(before.capabilities.endpoints, after.capabilities.endpoints);
      PickedIsShared(before.capabilities.modalities, after.capabilities.modalities);
    }
  }

  // ---------------------------------------------------------------- ceilings and entries

  predicate SamePrincipal(a: Ceiling, b: Ceiling) {
    a.key == b.key && a.credentialGeneration == b.credentialGeneration && a.policy == b.policy && a.routeGroup == b.routeGroup
  }

  /** No less deferred, and no more weight, concurrency, waiters or time. */
  predicate NarrowerCeiling(x: Ceiling, a: Ceiling) {
    && SamePrincipal(x, a) && a.tier <= x.tier && x.weight <= a.weight && x.maxConcurrency <= a.maxConcurrency
    && x.maxWaiters <= a.maxWaiters && x.deadline <= a.deadline
    && forall l :: l in x.legs ==> exists k :: k in a.legs && NarrowerLeg(l, k)
  }

  lemma {:induction false} MeetAllLists(admitted: seq<Leg>, current: seq<Leg>, a: Leg, b: Leg)
    requires a in admitted && b in current && DistinctLegs(current) && SameLeg(a, b) && a.Meet(b).Some?
    ensures a.Meet(b).value in MeetAll(admitted, current)
    decreases |admitted|
  {
    hide Leg.Meet;
    if admitted[0] == a {
      FindOwn(current, b);
    } else {
      assert a in admitted[1..];
      MeetAllLists(admitted[1..], current, a, b);
    }
  }

  /** The meet of ceilings: refused across principals; otherwise the stricter bound in every field, the
      bundle of the left, and of the legs exactly the meets of the same leg on both sides. */
  lemma CeilingMeets(a: Ceiling, b: Ceiling)
    requires a.Valid() && b.Valid()
    ensures a.Meet(b).Some? <==> SamePrincipal(a, b)
    ensures a.Meet(b).Some? ==>
              var m := a.Meet(b).value;
              && NarrowerCeiling(m, a) && NarrowerCeiling(m, b)
              && m.bundleGeneration == a.bundleGeneration && m.bundleHash == a.bundleHash
              && (m.tier == a.tier || m.tier == b.tier) && (m.weight == a.weight || m.weight == b.weight)
              && (m.maxConcurrency == a.maxConcurrency || m.maxConcurrency == b.maxConcurrency)
              && (m.maxWaiters == a.maxWaiters || m.maxWaiters == b.maxWaiters)
              && (m.deadline == a.deadline || m.deadline == b.deadline)
              && (forall x, y :: x in a.legs && y in b.legs && SameLeg(x, y) && x.Meet(y).Some? ==> x.Meet(y).value in m.legs)
              && (forall l :: l in m.legs ==> exists x, y :: x in a.legs && y in b.legs && x.Meet(y) == Some(l))
  {
    hide Leg.Meet, Leg.Valid, NarrowerLeg;
    if SamePrincipal(a, b) {
      var legs := MeetAll(a.legs, b.legs);
      forall l | l in legs
        ensures exists x, y :: x in a.legs && y in b.legs && x.Meet(y) == Some(l)
        ensures exists k :: k in a.legs && NarrowerLeg(l, k)
        ensures exists k :: k in b.legs && NarrowerLeg(l, k)
      {
        MeetAllFrom(a.legs, b.legs, l);
        var x, y :| x in a.legs && y in b.legs && x.Meet(y) == Some(l);
        LegGreatest(x, y);
      }
      forall x, y | x in a.legs && y in b.legs && SameLeg(x, y) && x.Meet(y).Some?
        ensures x.Meet(y).value in legs
      {
        MeetAllLists(a.legs, b.legs, x, y);
      }
    }
  }

  /** The queue accepts a contraction exactly if it is served no earlier and no more often, keeps a leg, names
      none twice, and every leg may replace the one of the same identity. */
  lemma AcceptsIff(entry: Quality, replacement: Quality)
    requires DistinctLegs(entry.legs)
    ensures Accepts(entry, replacement) <==>
              && entry.tier <= replacement.tier && replacement.weight <= entry.weight && 1 <= replacement.weight && replacement.weight <= 64
              && |replacement.legs| > 0 && (forall i, j :: 0 <= i < j < |replacement.legs| ==> replacement.legs[i].id != replacement.legs[j].id)
              && (forall l :: l in replacement.legs ==> exists k :: k in entry.legs && SameLeg(k, l) && Contracts(k, l))
  {
    hide Contracts;
    forall l | l in replacement.legs
      ensures ContractsOne(entry.legs, l) <==> exists k :: k in entry.legs && SameLeg(k, l) && Contracts(k, l)
    {
      OneContracts(entry.legs, l);
    }
  }

  lemma OneContracts(before: seq<Leg>, l: Leg)
    requires DistinctLegs(before)
    ensures ContractsOne(before, l) <==> exists k :: k in before && SameLeg(k, l) && Contracts(k, l)
  {
    hide Contracts, DistinctLegs;
    FindLegIs(before, l.Identity());
    if k :| k in before && SameLeg(k, l) && Contracts(k, l) {
      FindOwn(before, k);
    }
  }

  /** Re-authorization fails exactly without a policy, for another principal, or without a leg left;
      otherwise the ceiling is the meet and the queue entry stays. A preview brings the entry to the ceiling. */
  lemma ReauthorizationIs(w: Waiter, r: Refresh)
    ensures var after := Reauthorize(w, r);
            && (after.None? <==> r.current.None? || !SamePrincipal(w.ceiling, r.current.value)
                                 || w.ceiling.Meet(r.current.value).value.legs == [])
            && (after.Some? ==> after.value.entry == w.entry && Some(after.value.ceiling) == w.ceiling.Meet(r.current.value))
    ensures Preview(w).ceiling == w.ceiling
    ensures var e := Preview(w).entry; e.tier == w.ceiling.tier && e.weight == w.ceiling.weight && e.legs == w.ceiling.legs
    ensures forall c :: Admitted(c).ceiling == c && Admitted(c).entry == Quality(c.tier, c.weight, c.legs)
  {
  }
}
