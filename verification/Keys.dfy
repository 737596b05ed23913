/** Client keys: which record may follow which, what that means for a whole history, and the commands, which
    never produce a record that may not follow. */
module Keys {
  import opened Common

  const MAX_KEY_LIFETIME := 365 * 86_400

  const DEFAULT_KEY_LIFETIME := 90 * 86_400

  const MAX_OVERLAP := 7 * 86_400

  datatype Kind = Canonical | Legacy

  datatype CredentialStatus = Active | Retiring | Retired | Expired
  {
    predicate Accepted() { Active? || Retiring? }

    predicate MayBecome(next: CredentialStatus) {
      match this
      case Active => true
      case Retiring => !next.Active?
      case Retired => next.Retired?
      case Expired => next.Expired?
    }
  }

  datatype KeyState = Draft | Enabled | Suspended | Revoked

  /** The digest of a credential, represented by an opaque value. */
  datatype Verifier = Verifier(kind: Kind, generation: nat, digest: Id, pepper: Id, notBefore: nat, notAfter: nat, status: CredentialStatus)

  datatype Record = Record(key: Id, policy: Id, state: KeyState, issued: nat, expires: nat, highWater: nat, generationHigh: nat,
                           canonical: seq<Verifier>, legacy: seq<Verifier>)
  {
    function Verifiers(): seq<Verifier> { canonical + legacy }

    predicate Terminal() { state.Revoked? || highWater >= expires }

    /** The constraints under which a record can be constructed at all. */
    predicate Valid() {
      var all := Verifiers();
      && issued > 0 && expires > issued && expires - issued <= MAX_KEY_LIFETIME && highWater >= issued && generationHigh >= 1
      && OfKind(canonical, Canonical) && OfKind(legacy, Legacy)
      && 1 <= |all| <= 2 && Within(all, issued, expires, generationHigh)
      && (if Terminal() then forall v :: v in all ==> !v.status.Accepted()
          else
            && (exists v :: v in all && v.status.Active? && v.generation == generationHigh)
            && (forall v :: v in all && v.status.Active? ==> v.generation == generationHigh))
    }
  }

  predicate OfKind(s: seq<Verifier>, kind: Kind) { Increasing(s) && forall v :: v in s ==> v.kind == kind }

  /** Generations are unique and at most the highest, which is present; windows lie inside the lifetime. */
  predicate Within(s: seq<Verifier>, issued: nat, expires: nat, high: nat) {
    && Unique(s)
    && (forall v :: v in s ==> 1 <= v.generation <= high)
    && (exists v :: v in s && v.generation == high)
    && (forall v :: v in s ==> issued <= v.notBefore <= v.notAfter <= expires && v.notBefore > 0)
  }

  predicate Increasing(s: seq<Verifier>) { forall i, j :: 0 <= i < j < |s| ==> s[i].generation <= s[j].generation }

  predicate Unique(s: seq<Verifier>) { forall i, j :: 0 <= i < j < |s| ==> s[i].generation != s[j].generation }

  datatype Reassignment = Reassignment(expected: Id, target: Id)

  // ---------------------------------------------------------------- which record may follow which

  /** What a verifier that stays may change: only its window, to an earlier end, and its status, forward. */
  predicate Continues(before: Verifier, after: Verifier) {
    && after.kind == before.kind && after.digest == before.digest && after.pepper == before.pepper && after.notBefore == before.notBefore
    && after.notAfter <= before.notAfter
    && before.status.MayBecome(after.status)
  }

  predicate Has(s: seq<Verifier>, generation: nat) { exists v :: v in s && v.generation == generation }

  /** A generation that was not there before is new, and begins within the transition. */
  predicate Introduced(before: Record, after: Record, v: Verifier) {
    v.generation > before.generationHigh && before.highWater <= v.notBefore <= after.highWater
  }

  predicate ReassignmentMatches(before: Record, after: Record, r: Option<Reassignment>) {
    if after.policy != before.policy then r == Some(Reassignment(before.policy, after.policy))
    else r.Some? ==> r.value == Reassignment(before.policy, after.policy)
  }

  predicate MayFollow(before: Record, after: Record, r: Option<Reassignment>) {
    && before.Valid() && after.Valid()
    && after.key == before.key && after.issued == before.issued
    && (if before.Terminal() then after == before
        else
          && after.highWater >= before.highWater && after.expires == before.expires
          && ReassignmentMatches(before, after, r)
          && after.generationHigh >= before.generationHigh
          && (forall b, a :: b in before.Verifiers() && a in after.Verifiers() && a.generation == b.generation ==> Continues(b, a))
          && (forall a :: a in after.Verifiers() && !Has(before.Verifiers(), a.generation) ==> Introduced(before, after, a))
          && (if after.generationHigh > before.generationHigh then Has(after.Verifiers(), after.generationHigh)
              else forall a :: a in after.Verifiers() ==> Has(before.Verifiers(), a.generation))
          && (forall active, fading :: active in after.Verifiers() && fading in after.Verifiers() && active.status.Active? && fading.status.Retiring?
                ==> fading.notAfter - active.notBefore <= MAX_OVERLAP))
  }

  // ---------------------------------------------------------------- what that means for a history

  /** Each record of the history may follow the one before, under some reassignment. */
  ghost predicate History(records: seq<Record>) {
    forall i :: 0 <= i < |records| - 1 ==> MaySucceed(records[i], records[i + 1])
  }

  ghost predicate MaySucceed(before: Record, after: Record) { exists r :: MayFollow(before, after, r) }

  /** What a record keeps of an earlier one. */
  ghost predicate Descends(earlier: Record, later: Record) {
    && later.key == earlier.key && later.issued == earlier.issued && later.expires == earlier.expires
    && later.highWater >= earlier.highWater && later.generationHigh >= earlier.generationHigh
    && (earlier.Terminal() ==> later == earlier)
    && (forall v :: v in later.Verifiers() && v.generation <= earlier.generationHigh ==>
          exists w :: w in earlier.Verifiers() && w.generation == v.generation && Continues(w, v))
  }

  lemma DescendsSelf(r: Record)
    ensures Descends(r, r)
  {
    forall v | v in r.Verifiers()
      ensures exists w :: w in r.Verifiers() && w.generation == v.generation && Continues(w, v)
    {
      assert Continues(v, v);
    }
  }

  lemma FollowDescends(before: Record, after: Record, r: Option<Reassignment>)
    requires MayFollow(before, after, r)
    ensures Descends(before, after)
  {
    if before.Terminal() {
      DescendsSelf(before);
    } else {
      forall v | v in after.Verifiers() && v.generation <= before.generationHigh
        ensures exists w :: w in before.Verifiers() && w.generation == v.generation && Continues(w, v)
      {
        assert Has(before.Verifiers(), v.generation);
      }
    }
  }

  lemma DescendsTransitive(a: Record, b: Record, c: Record)
    requires Descends(a, b) && Descends(b, c)
    ensures Descends(a, c)
  {
    forall v | v in c.Verifiers() && v.generation <= a.generationHigh
      ensures exists w :: w in a.Verifiers() && w.generation == v.generation && Continues(w, v)
    {
      var w :| w in b.Verifiers() && w.generation == v.generation && Continues(w, v);
      var u :| u in a.Verifiers() && u.generation == w.generation && Continues(u, w);
      assert Continues(u, v);
    }
  }

  /** Along every history of accepted records, a generation number that was ever used stands for the same
      credential for ever: it is never reused, its window only shrinks and its status never moves back; the
      clock and the generations only grow, and a terminal record never changes. */
  lemma {:induction false} HistoryDescends(records: seq<Record>, i: nat, j: nat)
    requires History(records) && i <= j < |records|
    ensures Descends(records[i], records[j])
    decreases j - i
  {
    hide MayFollow, Descends;
    if i == j {
      DescendsSelf(records[i]);
    } else {
      HistoryDescends(records, i, j - 1);
      assert MaySucceed(records[j - 1], records[j - 1 + 1]);
      var r :| MayFollow(records[j - 1], records[j], r);
      FollowDescends(records[j - 1], records[j], r);
      DescendsTransitive(records[i], records[j - 1], records[j]);
    }
  }

  // ---------------------------------------------------------------- the commands

  datatype Command =
    | Activate
    | Suspend
    | Resume
    | Revoke
    | Expire
    | Rotate(digest: Id, pepper: Id, overlap: nat)
    | Reassign(reassignment: Reassignment)

  function Issue(key: Id, policy: Id, expiry: Option<nat>, digest: Id, pepper: Id, now: nat, enabled: bool): Option<Record> {
    var expires := if expiry.Some? then expiry.value else now + DEFAULT_KEY_LIFETIME;
    if expires <= now || expires - now > MAX_KEY_LIFETIME then None
    else
      var r := Record(key, policy, if enabled then Enabled else Draft, now, expires, now, 1,
                      [Verifier(Canonical, 1, digest, pepper, now, expires, Active)], []);
      if r.Valid() then Some(r) else None
  }

  predicate LiveTime(r: Record, now: nat) { r.highWater <= now < r.expires }

  /** The candidate, if it can be constructed and may follow. */
  function Checked(before: Record, after: Record, r: Option<Reassignment>): Option<Record> {
    if after.Valid() && MayFollow(before, after, r) then Some(after) else None
  }

  function Next(state: KeyState, c: Command): Option<KeyState> {
    if state.Draft? && c.Activate? then Some(Enabled)
    else if state.Enabled? && c.Suspend? then Some(Suspended)
    else if state.Suspended? && c.Resume? then Some(Enabled)
    else if c.Revoke? then Some(Revoked)
    else None
  }

  function MapAll(s: seq<Verifier>, f: Verifier -> Verifier): (r: seq<Verifier>)
    ensures |r| == |s| && forall i :: 0 <= i < |s| ==> r[i] == f(s[i])
  {
    seq(|s|, i requires 0 <= i < |s| => f(s[i]))
  }

  function Retire(now: nat): Verifier -> Verifier {
    (v: Verifier) => v.(status := Retired, notAfter := Min(v.notAfter, now))
  }

  function ExpireOne(expires: nat): Verifier -> Verifier {
    (v: Verifier) => if v.status.Accepted() then v.(status := Expired, notAfter := Min(v.notAfter, expires)) else v
  }

  /** The last active verifier, the legacy ones coming after the canonical ones. */
  function CurrentOf(s: seq<Verifier>): Option<Verifier> {
    if s == [] then None else if s[|s| - 1].status.Active? then Some(s[|s| - 1]) else CurrentOf(s[..|s| - 1])
  }

  function RotateKey(r: Record, digest: Id, pepper: Id, overlap: nat, now: nat): Option<Record> {
    var current := CurrentOf(r.Verifiers());
    if !LiveTime(r, now) || r.state.Revoked? || overlap > MAX_OVERLAP || current.None? then None
    else
      var retiring := current.value.(status := if overlap > 0 then Retiring else Retired, notAfter := Min(r.expires, now + overlap));
      var added := Verifier(Canonical, r.generationHigh + 1, digest, pepper, now, r.expires, Active);
      Checked(r, r.(highWater := now, generationHigh := r.generationHigh + 1,
                    canonical := if retiring.kind.Canonical? then [retiring, added] else [added],
                    legacy := if retiring.kind.Legacy? then [retiring] else []), None)
  }

  function ExpireKey(r: Record, now: nat): Option<Record> {
    if now < r.highWater || now < r.expires then None
    else if r.highWater >= r.expires then Some(r)
    else Checked(r, r.(highWater := now, canonical := MapAll(r.canonical, ExpireOne(r.expires)), legacy := MapAll(r.legacy, ExpireOne(r.expires))), None)
  }

  function RevokeKey(r: Record, now: nat): Option<Record> {
    if r.state.Revoked? then Some(r)
    else if !LiveTime(r, now) then None
    else Checked(r, r.(state := Revoked, highWater := now, canonical := MapAll(r.canonical, Retire(now)), legacy := MapAll(r.legacy, Retire(now))), None)
  }

  /** One command; `None` where it raises. */
  function Execute(r: Record, c: Command, now: nat): Option<Record> {
    match c
    case Rotate(digest, pepper, overlap) => RotateKey(r, digest, pepper, overlap, now)
    case Expire => ExpireKey(r, now)
    case Revoke => RevokeKey(r, now)
    case Reassign(reassignment) =>
      if !LiveTime(r, now) || reassignment.expected != r.policy then None
      else Checked(r, r.(highWater := now, policy := reassignment.target), Some(reassignment))
    case _ =>
      if r.state.Revoked? || !LiveTime(r, now) || Next(r.state, c).None? then None
      else Checked(r, r.(highWater := now, state := Next(r.state, c).value), None)
  }

  // ---------------------------------------------------------------- every command is accepted

  /** No fading credential outlasts the beginning of the active one by more than a rotation grants. */
  predicate ShortOverlaps(r: Record) {
    forall active, fading :: active in r.Verifiers() && fading in r.Verifiers() && active.status.Active? && fading.status.Retiring?
      ==> fading.notAfter - active.notBefore <= MAX_OVERLAP
  }

  /** A credential that revocation can close: it has begun, and it has not expired by itself. */
  predicate Closable(v: Verifier, now: nat) { !v.status.Expired? && v.notBefore <= now }

  /** The active credential may end at this instant. */
  predicate Rotatable(r: Record, until: nat) { exists v :: v in r.Verifiers() && v.status.Active? && v.notBefore <= until <= v.notAfter }

  /** When a command is legal, for any record that can be constructed. */
  predicate Legal(r: Record, c: Command, now: nat) {
    match c
    case Rotate(_, _, overlap) =>
      !r.state.Revoked? && r.highWater <= now < r.expires && overlap <= 604_800 && Rotatable(r, Min(r.expires, now + overlap))
    case Expire => now >= r.highWater && now >= r.expires && (r.state.Revoked? ==> r.highWater >= r.expires)
    case Revoke => r.state.Revoked? || (r.highWater <= now < r.expires && forall v :: v in r.Verifiers() ==> Closable(v, now))
    case Reassign(reassignment) =>
      r.highWater <= now < r.expires && reassignment.expected == r.policy
      && (if r.state.Revoked? then now == r.highWater && reassignment.target == r.policy else ShortOverlaps(r))
    case Activate => r.state.Draft? && r.highWater <= now < r.expires && ShortOverlaps(r)
    case Suspend => r.state.Enabled? && r.highWater <= now < r.expires && ShortOverlaps(r)
    case Resume => r.state.Suspended? && r.highWater <= now < r.expires && ShortOverlaps(r)
  }

  /** What records reached by commands satisfy besides validity: no credential begins in the future or has
      expired before the key is terminal, overlaps are short, and an active credential lasts as long as the key. */
  predicate Good(r: Record) {
    && r.Valid() && ShortOverlaps(r)
    && (forall v :: v in r.Verifiers() ==> v.notBefore <= r.highWater && (v.status.Expired? ==> r.Terminal()))
    && (forall v :: v in r.Verifiers() && v.status.Active? ==> v.notAfter == r.expires)
  }

  /** A change of state, policy or clock leaves every verifier as it was: it is accepted if and only if the
      overlaps are short. */
  lemma SameVerifiers(r: Record, after: Record, reassignment: Option<Reassignment>)
    requires r.Valid() && !r.Terminal() && after == r.(state := after.state, policy := after.policy, highWater := after.highWater)
    requires r.highWater <= after.highWater < r.expires && !after.state.Revoked? && ReassignmentMatches(r, after, reassignment)
    ensures after.Valid() && (MayFollow(r, after, reassignment) <==> ShortOverlaps(r)) && (Good(r) ==> Good(after))
  {
    assert after.Verifiers() == r.Verifiers();
    forall b, a | b in r.Verifiers() && a in after.Verifiers() && a.generation == b.generation
      ensures Continues(b, a)
    {
      SameGeneration(r.Verifiers(), a, b);
    }
  }

  lemma SameGeneration(s: seq<Verifier>, a: Verifier, b: Verifier)
    requires Unique(s) && a in s && b in s && a.generation == b.generation
    ensures a == b
  {
  }

  /** A candidate whose verifiers are those of the record, each continued. */
  ghost predicate EachContinued(r: Record, after: Record) {
    && |after.canonical| == |r.canonical| && |after.legacy| == |r.legacy|
    && (forall i :: 0 <= i < |r.canonical| ==> Continued(r.canonical[i], after.canonical[i]))
    && (forall i :: 0 <= i < |r.legacy| ==> Continued(r.legacy[i], after.legacy[i]))
  }

  ghost predicate Continued(before: Verifier, after: Verifier) {
    Continues(before, after) && after.generation == before.generation && !after.status.Accepted() && after.notBefore <= after.notAfter
  }

  lemma ContinuedAt(r: Record, after: Record, i: nat)
    requires EachContinued(r, after) && i < |after.Verifiers()|
    ensures |after.Verifiers()| == |r.Verifiers()| && Continued(r.Verifiers()[i], after.Verifiers()[i])
  {
  }

  /** Ending every credential gives a record that may follow. */
  lemma EndingFollows(r: Record, after: Record)
    requires r.Valid() && !r.Terminal() && EachContinued(r, after)
    requires after == r.(state := after.state, highWater := after.highWater, canonical := after.canonical, legacy := after.legacy)
    requires r.highWater <= after.highWater && after.Terminal()
    ensures after.Valid() && MayFollow(r, after, None) && (Good(r) ==> Good(after))
  {
    var earlier, later := r.Verifiers(), after.Verifiers();
    forall i | 0 <= i < |later|
      ensures Continued(earlier[i], later[i]) && |later| == |earlier|
    {
      ContinuedAt(r, after, i);
    }
    EndingValid(r, after);
    forall b, a | b in earlier && a in later && a.generation == b.generation
      ensures Continues(b, a)
    {
      var i :| 0 <= i < |later| && later[i] == a;
      SameGeneration(earlier, b, earlier[i]);
    }
    forall a | a in later
      ensures Has(earlier, a.generation) && !a.status.Accepted() && (Good(r) ==> a.notBefore <= after.highWater)
    {
      var i :| 0 <= i < |later| && later[i] == a;
      assert earlier[i] in earlier;
    }
  }

  /** One list of verifiers, each continued: kinds and order are as before. */
  lemma ContinuedList(before: seq<Verifier>, after: seq<Verifier>, kind: Kind)
    requires |after| == |before| && forall i :: 0 <= i < |before| ==> Continued(before[i], after[i])
    requires OfKind(before, kind)
    ensures OfKind(after, kind)
    ensures forall i :: 0 <= i < |after| ==> after[i].generation == before[i].generation
  {
    forall i | 0 <= i < |after|
      ensures after[i].generation == before[i].generation && after[i].kind == kind
    {
      assert Continued(before[i], after[i]) && before[i] in before;
    }
  }

  /** All verifiers together: generations stay unique and bounded, windows stay inside, none is accepted. */
  lemma ContinuedAll(before: seq<Verifier>, after: seq<Verifier>, issued: nat, expires: nat, high: nat)
    requires |after| == |before| && forall i :: 0 <= i < |before| ==> Continued(before[i], after[i])
    requires Within(before, issued, expires, high)
    ensures Within(after, issued, expires, high)
    ensures forall v :: v in after ==> !v.status.Accepted()
  {
    forall i | 0 <= i < |after|
      ensures after[i].generation == before[i].generation && !after[i].status.Accepted()
      ensures 1 <= after[i].generation <= high && issued <= after[i].notBefore <= after[i].notAfter <= expires && after[i].notBefore > 0
    {
      assert Continued(before[i], after[i]) && before[i] in before;
    }
    var v :| v in before && v.generation == high;
    var k :| 0 <= k < |before| && before[k] == v;
    assert after[k] in after;
  }

  lemma EndingValid(r: Record, after: Record)
    requires r.Valid() && !r.Terminal() && EachContinued(r, after) && |after.Verifiers()| == |r.Verifiers()|
    requires after == r.(state := after.state, highWater := after.highWater, canonical := after.canonical, legacy := after.legacy)
    requires r.highWater <= after.highWater && after.Terminal()
    requires forall i :: 0 <= i < |after.Verifiers()| ==> Continued(r.Verifiers()[i], after.Verifiers()[i])
    ensures after.Valid()
  {
    hide Continued, OfKind, Within;
    ContinuedList(r.canonical, after.canonical, Canonical);
    ContinuedList(r.legacy, after.legacy, Legacy);
    ContinuedAll(r.Verifiers(), after.Verifiers(), r.issued, r.expires, r.generationHigh);
  }

  lemma InVerifiers(r: Record, i: nat)
    ensures i < |r.canonical| ==> r.canonical[i] in r.Verifiers()
    ensures i < |r.legacy| ==> r.legacy[i] in r.Verifiers()
  {
    assert i < |r.canonical| ==> r.Verifiers()[i] == r.canonical[i];
    assert i < |r.legacy| ==> r.Verifiers()[|r.canonical| + i] == r.legacy[i];
  }

  lemma EachRetired(r: Record, after: Record, now: nat)
    requires r.Valid() && !r.Terminal() && forall v :: v in r.Verifiers() ==> Closable(v, now)
    requires after.canonical == MapAll(r.canonical, Retire(now)) && after.legacy == MapAll(r.legacy, Retire(now))
    ensures EachContinued(r, after)
  {
    forall i | 0 <= i < |r.canonical|
      ensures Continued(r.canonical[i], after.canonical[i])
    {
      InVerifiers(r, i);
      RetireContinues(r.canonical[i], now);
    }
    forall i | 0 <= i < |r.legacy|
      ensures Continued(r.legacy[i], after.legacy[i])
    {
      InVerifiers(r, i);
      RetireContinues(r.legacy[i], now);
    }
  }

  lemma RetireContinues(v: Verifier, now: nat)
    requires v.notBefore <= now && v.notBefore <= v.notAfter && !v.status.Expired?
    ensures Continued(v, Retire(now)(v))
  {
  }

  /** The candidate that revocation builds. */
  function RevokedAt(r: Record, now: nat): Record {
    r.(state := Revoked, highWater := now, canonical := MapAll(r.canonical, Retire(now)), legacy := MapAll(r.legacy, Retire(now)))
  }

  lemma RevokeFollows(r: Record, now: nat)
    requires r.Valid() && !r.Terminal() && LiveTime(r, now) && forall v :: v in r.Verifiers() ==> Closable(v, now)
    ensures RevokeKey(r, now) == Some(RevokedAt(r, now)) && MayFollow(r, RevokedAt(r, now), None) && (Good(r) ==> Good(RevokedAt(r, now)))
  {
    EachRetired(r, RevokedAt(r, now), now);
    EndingFollows(r, RevokedAt(r, now));
    hide Good, MayFollow, Record.Valid, EachContinued;
  }

  lemma NotContinued(before: Record, after: Record, b: Verifier, a: Verifier)
    requires !before.Terminal() && b in before.Verifiers() && a in after.Verifiers() && a.generation == b.generation && !Continues(b, a)
    ensures !MayFollow(before, after, None)
  {
    hide Record.Valid, Record.Verifiers, Continues, Introduced, ReassignmentMatches;
  }

  lemma EmptyWindow(r: Record, v: Verifier)
    requires v in r.Verifiers() && v.notAfter < v.notBefore
    ensures !r.Valid()
  {
    hide OfKind, Unique;
  }

  /** A credential that has expired may not become retired, and one that has not begun has no window left. */
  lemma RevokeNeeds(r: Record, now: nat, v: Verifier)
    requires !r.Terminal() && v in r.Verifiers() && !Closable(v, now)
    ensures !RevokedAt(r, now).Valid() || !MayFollow(r, RevokedAt(r, now), None)
  {
    RetiredIn(r, now, v);
    hide RevokedAt, Record.Valid, Record.Verifiers, MayFollow;
    if v.status.Expired? {
      NotContinued(r, RevokedAt(r, now), v, Retire(now)(v));
    } else {
      EmptyWindow(RevokedAt(r, now), Retire(now)(v));
    }
  }

  lemma RetiredIn(r: Record, now: nat, v: Verifier)
    requires v in r.Verifiers()
    ensures Retire(now)(v) in RevokedAt(r, now).Verifiers()
  {
    var after := RevokedAt(r, now);
    if v in r.canonical {
      var i :| 0 <= i < |r.canonical| && r.canonical[i] == v;
      assert after.canonical[i] == Retire(now)(v);
    } else {
      var i :| 0 <= i < |r.legacy| && r.legacy[i] == v;
      assert after.legacy[i] == Retire(now)(v);
    }
  }

  /** Revocation of a key that is not terminal is accepted if and only if every credential has begun and none
      has expired by itself. */
  lemma RevokedIff(r: Record, now: nat)
    requires r.Valid() && !r.Terminal() && LiveTime(r, now)
    ensures RevokeKey(r, now).Some? <==> forall v :: v in r.Verifiers() ==> !v.status.Expired? && v.notBefore <= now
    ensures RevokeKey(r, now).Some? ==> MayFollow(r, RevokeKey(r, now).value, None) && (Good(r) ==> Good(RevokeKey(r, now).value))
  {
    hide Good, MayFollow, Record.Valid;
    if v :| v in r.Verifiers() && !Closable(v, now) {
      RevokeNeeds(r, now, v);
    } else {
      RevokeFollows(r, now);
    }
  }

  lemma ExpireFollows(r: Record, now: nat)
    requires r.Valid() && !r.Terminal() && now >= r.expires
    ensures ExpireKey(r, now).Some? && MayFollow(r, ExpireKey(r, now).value, None) && (Good(r) ==> Good(ExpireKey(r, now).value))
  {
    var after := r.(highWater := now, canonical := MapAll(r.canonical, ExpireOne(r.expires)), legacy := MapAll(r.legacy, ExpireOne(r.expires)));
    EachExpired(r, after);
    EndingFollows(r, after);
    hide Good, MayFollow, Record.Valid, EachContinued;
  }

  lemma EachExpired(r: Record, after: Record)
    requires r.Valid() && !r.Terminal()
    requires after.canonical == MapAll(r.canonical, ExpireOne(r.expires)) && after.legacy == MapAll(r.legacy, ExpireOne(r.expires))
    ensures EachContinued(r, after)
  {
    hide Continued, Continues, ExpireOne;
    forall i | 0 <= i < |r.canonical|
      ensures Continued(r.canonical[i], after.canonical[i])
    {
      InVerifiers(r, i);
      ExpireContinues(r.canonical[i], r.expires);
    }
    forall i | 0 <= i < |r.legacy|
      ensures Continued(r.legacy[i], after.legacy[i])
    {
      InVerifiers(r, i);
      ExpireContinues(r.legacy[i], r.expires);
    }
  }

  lemma ExpireContinues(v: Verifier, expires: nat)
    requires v.notBefore <= v.notAfter <= expires
    ensures Continued(v, ExpireOne(expires)(v))
  {
  }

  lemma {:induction false} CurrentIsActive(s: seq<Verifier>)
    requires exists v :: v in s && v.status.Active?
    ensures CurrentOf(s).Some? && CurrentOf(s).value in s && CurrentOf(s).value.status.Active?
    decreases |s|
  {
    if !s[|s| - 1].status.Active? {
      var v :| v in s && v.status.Active?;
      assert v in s[..|s| - 1];
      CurrentIsActive(s[..|s| - 1]);
    }
  }

  lemma ActiveExists(r: Record)
    requires r.Valid() && !r.Terminal()
    ensures exists v :: v in r.Verifiers() && v.status.Active?
  {
  }

  lemma OneActive(r: Record, a: Verifier, b: Verifier)
    requires r.Valid() && !r.Terminal() && a in r.Verifiers() && b in r.Verifiers() && a.status.Active? && b.status.Active?
    ensures a == b
  {
    SameGeneration(r.Verifiers(), a, b);
  }

  /** The verifiers that a rotation leaves: the one that was active, until then, and the new generation. */
  function Faded(current: Verifier, overlap: nat, until: nat): Verifier {
    current.(status := if overlap > 0 then Retiring else Retired, notAfter := until)
  }

  function Added(r: Record, digest: Id, pepper: Id, now: nat): Verifier {
    Verifier(Canonical, r.generationHigh + 1, digest, pepper, now, r.expires, Active)
  }

  function RotatedAt(r: Record, retiring: Verifier, added: Verifier, now: nat): Record {
    r.(highWater := now, generationHigh := r.generationHigh + 1,
       canonical := if retiring.kind.Canonical? then [retiring, added] else [added],
       legacy := if retiring.kind.Legacy? then [retiring] else [])
  }

  lemma RotatedHolds(r: Record, retiring: Verifier, added: Verifier, now: nat)
    ensures forall v :: v in RotatedAt(r, retiring, added, now).Verifiers() <==> v == retiring || v == added
  {
    assert RotatedAt(r, retiring, added, now).Verifiers() == if retiring.kind.Canonical? then [retiring, added] else [added, retiring];
  }

  lemma CurrentFacts(r: Record, current: Verifier)
    requires r.Valid() && !r.Terminal() && current in r.Verifiers() && current.status.Active?
    ensures current.generation == r.generationHigh >= 1 && r.issued <= current.notBefore <= current.notAfter <= r.expires && current.notBefore > 0
    ensures r.issued > 0 && r.expires > r.issued && r.expires - r.issued <= MAX_KEY_LIFETIME && r.highWater >= r.issued
  {
  }

  lemma RotatedValid(r: Record, current: Verifier, retiring: Verifier, added: Verifier, overlap: nat, until: nat, now: nat)
    requires r.Valid() && !r.Terminal() && LiveTime(r, now) && current in r.Verifiers() && current.status.Active?
    requires retiring == Faded(current, overlap, until) && until <= r.expires && current.notBefore <= until
    requires added == Added(r, added.digest, added.pepper, now)
    ensures RotatedAt(r, retiring, added, now).Valid()
  {
    CurrentFacts(r, current);
    var after := RotatedAt(r, retiring, added, now);
    var all := if retiring.kind.Canonical? then [retiring, added] else [added, retiring];
    assert after.Verifiers() == all;
    TwoWithin(all, retiring, added, r.issued, r.expires, r.generationHigh + 1);
    hide Within, CurrentOf, MayFollow;
    assert added in all;
  }

  lemma TwoWithin(all: seq<Verifier>, retiring: Verifier, added: Verifier, issued: nat, expires: nat, high: nat)
    requires all == [retiring, added] || all == [added, retiring]
    requires 1 <= retiring.generation < high == added.generation
    requires issued <= retiring.notBefore <= retiring.notAfter <= expires && retiring.notBefore > 0
    requires issued <= added.notBefore <= added.notAfter <= expires && added.notBefore > 0
    ensures Within(all, issued, expires, high)
  {
    assert added in all;
  }

  lemma RotatedFollows(r: Record, current: Verifier, retiring: Verifier, added: Verifier, overlap: nat, until: nat, now: nat)
    requires r.Valid() && !r.Terminal() && LiveTime(r, now) && overlap <= MAX_OVERLAP && current in r.Verifiers() && current.status.Active?
    requires retiring == Faded(current, overlap, until) && until <= now + overlap && until <= current.notAfter
    requires added == Added(r, added.digest, added.pepper, now) && RotatedAt(r, retiring, added, now).Valid()
    ensures MayFollow(r, RotatedAt(r, retiring, added, now), None) && (Good(r) ==> Good(RotatedAt(r, retiring, added, now)))
  {
    var after := RotatedAt(r, retiring, added, now);
    RotatedHolds(r, retiring, added, now);
    forall b, a | b in r.Verifiers() && a in after.Verifiers() && a.generation == b.generation
      ensures Continues(b, a)
    {
      SameGeneration(r.Verifiers(), b, current);
    }
    forall a | a in after.Verifiers() && !Has(r.Verifiers(), a.generation)
      ensures Introduced(r, after, a)
    {
      assert a != retiring;
    }
  }

  /** A window cannot be extended, nor end before it begins. */
  lemma RotationNeeds(r: Record, current: Verifier, retiring: Verifier, added: Verifier, overlap: nat, until: nat, now: nat)
    requires !r.Terminal() && current in r.Verifiers() && retiring == Faded(current, overlap, until)
    requires !(current.notBefore <= until <= current.notAfter)
    ensures !RotatedAt(r, retiring, added, now).Valid() || !MayFollow(r, RotatedAt(r, retiring, added, now), None)
  {
    RotatedHolds(r, retiring, added, now);
    hide RotatedAt, Record.Valid, Record.Verifiers, MayFollow;
    if until > current.notAfter {
      NotContinued(r, RotatedAt(r, retiring, added, now), current, retiring);
    } else {
      EmptyWindow(RotatedAt(r, retiring, added, now), retiring);
    }
  }

  /** A rotation with a permitted overlap is accepted if and only if the window of the active credential holds
      the instant at which it is to end. */
  lemma RotatedIff(r: Record, digest: Id, pepper: Id, overlap: nat, now: nat)
    requires r.Valid() && !r.Terminal() && LiveTime(r, now) && overlap <= MAX_OVERLAP
    ensures var current := CurrentOf(r.Verifiers());
            && current.Some? && current.value in r.Verifiers() && current.value.status.Active?
            && (RotateKey(r, digest, pepper, overlap, now).Some? <==>
                  current.value.notBefore <= Min(r.expires, now + overlap) <= current.value.notAfter)
    ensures var after := RotateKey(r, digest, pepper, overlap, now);
            after.Some? ==> MayFollow(r, after.value, None) && (Good(r) ==> Good(after.value))
  {
    hide Good, MayFollow, Record.Valid, Increasing, Unique, Continues;
    ActiveExists(r);
    CurrentIsActive(r.Verifiers());
    var current, until := CurrentOf(r.Verifiers()).value, Min(r.expires, now + overlap);
    var retiring, added := Faded(current, overlap, until), Added(r, digest, pepper, now);
    assert RotateKey(r, digest, pepper, overlap, now) == Checked(r, RotatedAt(r, retiring, added, now), None);
    if current.notBefore <= until <= current.notAfter {
      RotatedValid(r, current, retiring, added, overlap, until, now);
      RotatedFollows(r, current, retiring, added, overlap, until, now);
    } else {
      RotationNeeds(r, current, retiring, added, overlap, until, now);
    }
  }

  /** For every record that can be constructed, a command succeeds exactly when it is legal, and what it
      produces may follow. */
  lemma CommandsAreAccepted(r: Record, c: Command, now: nat)
    requires r.Valid()
    ensures Execute(r, c, now).Some? <==> Legal(r, c, now)
    ensures Execute(r, c, now).Some? ==> MaySucceed(r, Execute(r, c, now).value) && (Good(r) ==> Good(Execute(r, c, now).value))
  {
    match c
    case Rotate(_, _, _) => RotateAccepted(r, c, now);
    case Expire => ExpireAccepted(r, c, now);
    case Revoke => RevokeAccepted(r, c, now);
    case Reassign(_) => ReassignAccepted(r, c, now);
    case _ => MoveAccepted(r, c, now);
    hide *;
  }

  lemma TerminalIsKept(r: Record)
    requires r.Valid() && r.Terminal()
    ensures MaySucceed(r, r)
  {
    assert MayFollow(r, r, None);
  }

  lemma RotateAccepted(r: Record, c: Command, now: nat)
    requires r.Valid() && c.Rotate?
    ensures Execute(r, c, now).Some? <==> Legal(r, c, now)
    ensures Execute(r, c, now).Some? ==> MaySucceed(r, Execute(r, c, now).value) && (Good(r) ==> Good(Execute(r, c, now).value))
  {
    hide Good, MayFollow, Record.Valid;
    if !r.state.Revoked? && LiveTime(r, now) && c.overlap <= MAX_OVERLAP {
      RotatedIff(r, c.digest, c.pepper, c.overlap, now);
      var current := CurrentOf(r.Verifiers()).value;
      forall v | v in r.Verifiers() && v.status.Active?
        ensures v == current
      {
        OneActive(r, v, current);
      }
      hide RotateKey;
    }
  }

  lemma ExpireAccepted(r: Record, c: Command, now: nat)
    requires r.Valid() && c.Expire?
    ensures Execute(r, c, now).Some? <==> Legal(r, c, now)
    ensures Execute(r, c, now).Some? ==> MaySucceed(r, Execute(r, c, now).value) && (Good(r) ==> Good(Execute(r, c, now).value))
  {
    if !r.Terminal() {
      if Legal(r, c, now) {
        ExpireFollows(r, now);
      }
    } else {
      TerminalIsKept(r);
      hide Good, MaySucceed;
    }
  }

  lemma RevokeAccepted(r: Record, c: Command, now: nat)
    requires r.Valid() && c.Revoke?
    ensures Execute(r, c, now).Some? <==> Legal(r, c, now)
    ensures Execute(r, c, now).Some? ==> MaySucceed(r, Execute(r, c, now).value) && (Good(r) ==> Good(Execute(r, c, now).value))
  {
    hide Good, MayFollow, Record.Valid, Checked;
    if r.state.Revoked? {
      TerminalIsKept(r);
    } else if LiveTime(r, now) {
      RevokedIff(r, now);
      hide RevokeKey;
    }
  }

  lemma ReassignAccepted(r: Record, c: Command, now: nat)
    requires r.Valid() && c.Reassign?
    ensures Execute(r, c, now).Some? <==> Legal(r, c, now)
    ensures Execute(r, c, now).Some? ==> MaySucceed(r, Execute(r, c, now).value) && (Good(r) ==> Good(Execute(r, c, now).value))
  {
    hide Good, MayFollow, Record.Valid, ShortOverlaps;
    if r.Terminal() {
      ReassignTerminal(r, c.reassignment, now);
    } else if LiveTime(r, now) && c.reassignment.expected == r.policy {
      SameVerifiers(r, r.(highWater := now, policy := c.reassignment.target), Some(c.reassignment));
    }
  }

  lemma MoveAccepted(r: Record, c: Command, now: nat)
    requires r.Valid() && (c.Activate? || c.Suspend? || c.Resume?)
    ensures Execute(r, c, now).Some? <==> Legal(r, c, now)
    ensures Execute(r, c, now).Some? ==> MaySucceed(r, Execute(r, c, now).value) && (Good(r) ==> Good(Execute(r, c, now).value))
  {
    hide Good, MayFollow, Record.Valid, ShortOverlaps;
    if !r.state.Revoked? && LiveTime(r, now) && Next(r.state, c).Some? {
      SameVerifiers(r, r.(highWater := now, state := Next(r.state, c).value), None);
    }
  }

  lemma ReassignTerminal(r: Record, reassignment: Reassignment, now: nat)
    requires r.Valid() && r.Terminal()
    ensures var after := Execute(r, Reassign(reassignment), now);
            && (after.Some? <==> Legal(r, Reassign(reassignment), now))
            && (after.Some? ==> after.value == r && MayFollow(r, r, Some(reassignment)))
  {
  }

  /** On records reached by commands the state, the clock and the arguments alone decide. */
  lemma GoodNeedsNoMore(r: Record, c: Command, now: nat)
    requires Good(r)
    ensures c.Rotate? ==> (Legal(r, c, now) <==> !r.state.Revoked? && LiveTime(r, now) && c.overlap <= MAX_OVERLAP)
    ensures c.Revoke? ==> (Legal(r, c, now) <==> r.state.Revoked? || LiveTime(r, now))
    ensures c.Activate? ==> (Legal(r, c, now) <==> r.state.Draft? && LiveTime(r, now))
    ensures c.Suspend? ==> (Legal(r, c, now) <==> r.state.Enabled? && LiveTime(r, now))
    ensures c.Resume? ==> (Legal(r, c, now) <==> r.state.Suspended? && LiveTime(r, now))
    ensures c.Reassign? && !r.state.Revoked? ==> (Legal(r, c, now) <==> LiveTime(r, now) && c.reassignment.expected == r.policy)
  {
    if !r.Terminal() {
      ActiveExists(r);
    }
  }

  // ---------------------------------------------------------------- records that the validator lets through

  /** A key after one rotation, as commands leave it. */
  function Overlapping(): Record {
    Record(1, 1, Enabled, 1, 1_000_000, 10, 2,
           [Verifier(Canonical, 1, 1, 1, 1, 1010, Retiring), Verifier(Canonical, 2, 2, 1, 10, 1_000_000, Active)], [])
  }

  function WithFirst(r: Record, v: Verifier): Record
    requires |r.canonical| == 2
  {
    r.(canonical := [v, r.canonical[1]])
  }

  function WithSecond(r: Record, v: Verifier): Record
    requires |r.canonical| == 2
  {
    r.(canonical := [r.canonical[0], v])
  }

  lemma OverlappingIsReached()
    ensures var issued := Issue(1, 1, Some(1_000_000), 1, 1, 1, true);
            issued.Some? && RotateKey(issued.value, 2, 1, 1000, 10) == Some(Overlapping())
  {
    var issued := Issue(1, 1, Some(1_000_000), 1, 1, 1, true);
    IssuedIsGood(1, 1, Some(1_000_000), 1, 1, 1, true);
    var v := Verifier(Canonical, 1, 1, 1, 1, 1_000_000, Active);
    assert issued.value.Verifiers() == [v];
    RotatedIff(issued.value, 2, 1, 1000, 10);
    assert CurrentOf([v]) == Some(v);
  }

  /** The record with other windows and another status of the credential that fades. */
  ghost predicate Alike(r: Record, first: Verifier, second: Verifier) {
    && r == Overlapping().(canonical := [first, second])
    && first == Overlapping().canonical[0].(notAfter := first.notAfter, status := first.status)
    && second == Overlapping().canonical[1].(notAfter := second.notAfter)
    && 1 <= first.notAfter <= 1010 && !first.status.Active? && 10 <= second.notAfter <= 1_000_000
  }

  lemma AlikeValid(r: Record, first: Verifier, second: Verifier)
    requires Alike(r, first, second)
    ensures r.Valid() && !r.Terminal() && r.Verifiers() == [first, second]
  {
    assert r.Verifiers() == [first, second];
    assert second in r.Verifiers();
  }

  lemma AlikeFollows(r: Record, first: Verifier, second: Verifier)
    requires Alike(r, first, second)
    ensures MayFollow(Overlapping(), r, None)
  {
    var start := Overlapping();
    AlikeValid(r, first, second);
    AlikeValid(start, start.canonical[0], start.canonical[1]);
    hide Record.Valid;
    assert start.Verifiers() == [start.canonical[0], start.canonical[1]];
    assert start.canonical[0] in start.Verifiers() && start.canonical[1] in start.Verifiers();
    assert Continues(start.canonical[0], first) && Continues(start.canonical[1], second);
  }

  /** The validator lets the fading credential expire; the key can then no longer be revoked, at any time. */
  lemma ExpiredCredentialStopsRevocation(now: nat)
    ensures var r := WithFirst(Overlapping(), Overlapping().canonical[0].(status := Expired));
            r.Valid() && !r.Terminal() && MayFollow(Overlapping(), r, None) && RevokeKey(r, now).None?
  {
    var first := Overlapping().canonical[0].(status := Expired);
    var r := WithFirst(Overlapping(), first);
    AlikeValid(r, first, Overlapping().canonical[1]);
    AlikeFollows(r, first, Overlapping().canonical[1]);
    assert first in r.Verifiers() && first.status.Expired?;
    assert !r.state.Revoked?;
    hide Record.Valid, MayFollow, Record.Verifiers, Overlapping, WithFirst;
    if LiveTime(r, now) {
      RevokedIff(r, now);
    }
  }

  /** The validator lets the active credential end early; from then on the key cannot be rotated. */
  lemma EarlyEndStopsRotation(digest: Id, pepper: Id, overlap: nat, now: nat)
    requires now > 2000
    ensures var r := WithSecond(Overlapping(), Overlapping().canonical[1].(notAfter := 2000));
            && r.Valid() && !r.Terminal() && MayFollow(Overlapping(), r, None)
            && RotateKey(r, digest, pepper, overlap, now).None?
  {
    var second := Overlapping().canonical[1].(notAfter := 2000);
    var r := WithSecond(Overlapping(), second);
    AlikeValid(r, Overlapping().canonical[0], second);
    AlikeFollows(r, Overlapping().canonical[0], second);
    assert second in r.Verifiers() && second.status.Active? && (LiveTime(r, now) ==> second.notAfter < Min(r.expires, now + overlap));
    hide Record.Valid, MayFollow, Record.Verifiers, Overlapping, WithSecond;
    if LiveTime(r, now) && overlap <= MAX_OVERLAP {
      RotatedIff(r, digest, pepper, overlap, now);
      OneActive(r, CurrentOf(r.Verifiers()).value, second);
    }
  }

  /** A first record may have a longer overlap than any rotation grants; no change of its state or policy is
      accepted then. */
  lemma LongOverlapStopsChanges(c: Command, now: nat)
    requires c.Activate? || c.Suspend? || c.Resume? || c.Reassign?
    ensures var r := WithFirst(Overlapping(), Overlapping().canonical[0].(notAfter := 900_000));
            r.Valid() && !r.Terminal() && Execute(r, c, now).None?
  {
    var first, second := Overlapping().canonical[0].(notAfter := 900_000), Overlapping().canonical[1];
    var r := WithFirst(Overlapping(), first);
    assert r.Verifiers() == [first, second];
    assert first in r.Verifiers() && second in r.Verifiers();
    assert first.notAfter - second.notBefore > MAX_OVERLAP;
    hide OfKind, Increasing, MayFollow, Execute;
    CommandsAreAccepted(r, c, now);
  }

  /** Long overlaps, which stop changes of state and policy, cannot be introduced by any accepted step. */
  lemma OverlapsStayShort(before: Record, after: Record, r: Option<Reassignment>)
    requires MayFollow(before, after, r) && !before.Terminal()
    ensures ShortOverlaps(after)
  {
  }

  // ---------------------------------------------------------------- whole lives

  /** The history that a sequence of commands produces; a command that raises leaves the record alone. */
  function Life(r: Record, commands: seq<(Command, nat)>): seq<Record>
    decreases |commands|
  {
    if commands == [] then [r]
    else
      var next := Execute(r, commands[0].0, commands[0].1);
      [r] + (if next.Some? then Life(next.value, commands[1..]) else Life(r, commands[1..]))
  }

  lemma MaySucceedItself(r: Record)
    requires Good(r)
    ensures MaySucceed(r, r)
  {
    assert MayFollow(r, r, None) by {
      forall b, a | b in r.Verifiers() && a in r.Verifiers() && a.generation == b.generation
        ensures Continues(b, a)
      {
        SameGeneration(r.Verifiers(), a, b);
      }
    }
  }

  /** From an issued key, every sequence of commands at any times gives a history that the validator
      accepts step by step. */
  lemma {:induction false} LifeIsHistory(r: Record, commands: seq<(Command, nat)>)
    requires Good(r)
    ensures History(Life(r, commands)) && Life(r, commands)[0] == r && |Life(r, commands)| == |commands| + 1
    ensures forall x :: x in Life(r, commands) ==> Good(x)
    decreases |commands|
  {
    if commands != [] {
      CommandsAreAccepted(r, commands[0].0, commands[0].1);
      MaySucceedItself(r);
      var next := Either(Execute(r, commands[0].0, commands[0].1), r);
      LifeIsHistory(next, commands[1..]);
      var rest := Life(next, commands[1..]);
      var all := Life(r, commands);
      assert all == [r] + rest;
      forall i | 0 <= i < |all| - 1
        ensures MaySucceed(all[i], all[i + 1])
      {
        if i > 0 {
          assert MaySucceed(rest[i - 1], rest[i - 1 + 1]);
        }
      }
    }
  }

  function Either(r: Option<Record>, otherwise: Record): Record { if r.Some? then r.value else otherwise }

  lemma IssuedIsGood(key: Id, policy: Id, expiry: Option<nat>, digest: Id, pepper: Id, now: nat, enabled: bool)
    requires now > 0
    ensures var expires := if expiry.Some? then expiry.value else now + DEFAULT_KEY_LIFETIME;
            var r := Issue(key, policy, expiry, digest, pepper, now, enabled);
            (r.Some? <==> now < expires <= now + MAX_KEY_LIFETIME) && (r.Some? ==> Good(r.value))
  {
    var expires := if expiry.Some? then expiry.value else now + DEFAULT_KEY_LIFETIME;
    var v := Verifier(Canonical, 1, digest, pepper, now, expires, Active);
    var r := Record(key, policy, if enabled then Enabled else Draft, now, expires, now, 1, [v], []);
    assert r.Verifiers() == [v];
    assert v in r.Verifiers();
  }
}
