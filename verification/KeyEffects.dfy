/** What a client key's commands do to it, and which record may follow which, said over the fields of the
    records. No definition here calls a command or a check of Keys. */
module KeyEffects {
  import opened Common
  import opened Keys

  // ---------------------------------------------------------------- the outcome of each command

  /** Ended at `now`: retired, with a window that does not reach beyond, and otherwise the same credential. */
  predicate EndedAt(before: Verifier, now: nat, after: Verifier) {
    && after.status == Retired
    && after.notAfter == (if before.notAfter <= now then before.notAfter else now)
    && after.(status := before.status, notAfter := before.notAfter) == before
  }

  /** An accepted credential has expired with the key; any other is as it was. */
  predicate ExpiredAt(before: Verifier, expires: nat, after: Verifier) {
    if before.status == Active || before.status == Retiring then
      && after.status == CredentialStatus.Expired
      && after.notAfter == (if before.notAfter <= expires then before.notAfter else expires)
      && after.(status := before.status, notAfter := before.notAfter) == before
    else after == before
  }

  predicate AllEnded(before: seq<Verifier>, now: nat, after: seq<Verifier>) {
    |after| == |before| && forall i :: 0 <= i < |before| ==> EndedAt(before[i], now, after[i])
  }

  predicate AllExpired(before: seq<Verifier>, expires: nat, after: seq<Verifier>) {
    |after| == |before| && forall i :: 0 <= i < |before| ==> ExpiredAt(before[i], expires, after[i])
  }

  /** The credential that was active fades for the overlap, or ends at once without one. */
  predicate FadesTo(before: Verifier, overlap: nat, expires: nat, now: nat, after: Verifier) {
    && after.status == (if overlap == 0 then Retired else Retiring)
    && after.notAfter == (if now + overlap < expires then now + overlap else expires)
    && after.(status := before.status, notAfter := before.notAfter) == before
  }

  /** A rotation leaves two credentials: the one that was active, fading, and the new one. */
  ghost predicate RotatesTo(r: Record, digest: Id, pepper: Id, overlap: nat, now: nat, after: Record) {
    var added := Verifier(Canonical, r.generationHigh + 1, digest, pepper, now, r.expires, Active);
    && after.generationHigh == r.generationHigh + 1 && after.highWater == now
    && after.key == r.key && after.policy == r.policy && after.state == r.state && after.issued == r.issued && after.expires == r.expires
    && exists current, fading ::
         && current in r.canonical + r.legacy && current.status == Active && FadesTo(current, overlap, r.expires, now, fading)
         && (if current.kind == Canonical then after.canonical == [fading, added] && after.legacy == []
             else after.canonical == [added] && after.legacy == [fading])
  }

  /** The record that a successful command leaves. */
  ghost predicate Yields(r: Record, c: Command, now: nat, after: Record) {
    match c
    case Activate => r.state == Draft && after == r.(state := Enabled, highWater := now)
    case Suspend => r.state == Enabled && after == r.(state := Suspended, highWater := now)
    case Resume => r.state == Suspended && after == r.(state := Enabled, highWater := now)
    case Revoke =>
      if r.state == Revoked then after == r
      else
        && after.state == Revoked && after.highWater == now
        && AllEnded(r.canonical, now, after.canonical) && AllEnded(r.legacy, now, after.legacy)
        && after.(state := r.state, highWater := r.highWater, canonical := r.canonical, legacy := r.legacy) == r
    case Expire =>
      if r.highWater >= r.expires then after == r
      else
        && after.highWater == now
        && AllExpired(r.canonical, r.expires, after.canonical) && AllExpired(r.legacy, r.expires, after.legacy)
        && after.(highWater := r.highWater, canonical := r.canonical, legacy := r.legacy) == r
    case Rotate(digest, pepper, overlap) => RotatesTo(r, digest, pepper, overlap, now, after)
    case Reassign(reassignment) =>
      r.policy == reassignment.expected && after == r.(policy := reassignment.target, highWater := now)
  }

  /** Every successful command leaves what it names, and keeps everything else of the record. */
  lemma CommandYields(r: Record, c: Command, now: nat)
    requires r.Valid() && Execute(r, c, now).Some?
    ensures Yields(r, c, now, Execute(r, c, now).value)
  {
    match c
    case Rotate(digest, pepper, overlap) => RotationYields(r, digest, pepper, overlap, now);
    case Revoke => RevocationYields(r, now);
    case Expire => ExpiryYields(r, now);
    case _ => MoveYields(r, c, now);
    hide Record.Valid, RotateKey, RevokeKey, ExpireKey, MayFollow, RotatesTo, AllEnded, AllExpired;
  }

  lemma MoveYields(r: Record, c: Command, now: nat)
    requires !c.Rotate? && !c.Revoke? && !c.Expire? && Execute(r, c, now).Some?
    ensures Yields(r, c, now, Execute(r, c, now).value)
  {
    hide Record.Valid, MayFollow, RotateKey, RevokeKey, ExpireKey, RotatesTo, AllEnded, AllExpired;
  }

  lemma RevocationYields(r: Record, now: nat)
    requires RevokeKey(r, now).Some?
    ensures Yields(r, Revoke, now, RevokeKey(r, now).value)
  {
    hide Record.Valid, MayFollow;
  }

  lemma ExpiryYields(r: Record, now: nat)
    requires ExpireKey(r, now).Some?
    ensures Yields(r, Expire, now, ExpireKey(r, now).value)
  {
    hide Record.Valid, MayFollow;
  }

  lemma RotationYields(r: Record, digest: Id, pepper: Id, overlap: nat, now: nat)
    requires r.Valid() && RotateKey(r, digest, pepper, overlap, now).Some?
    ensures RotatesTo(r, digest, pepper, overlap, now, RotateKey(r, digest, pepper, overlap, now).value)
  {
    RotatesLive(r, digest, pepper, overlap, now);
    ActiveExists(r);
    CurrentIsActive(r.Verifiers());
    hide Record.Valid, MayFollow;
    var current := CurrentOf(r.Verifiers()).value;
    var until := Min(r.expires, now + overlap);
    var fading := Faded(current, overlap, until);
    assert FadesTo(current, overlap, r.expires, now, fading);
  }

  lemma RotatesLive(r: Record, digest: Id, pepper: Id, overlap: nat, now: nat)
    requires RotateKey(r, digest, pepper, overlap, now).Some?
    ensures !r.Terminal() && r.highWater <= now < r.expires
  {
    hide Record.Valid, MayFollow;
  }

  // ---------------------------------------------------------------- states over a life

  /** The record stays as it is where the command raises. */
  lemma StateMoves(r: Record, c: Command, now: nat)
    requires r.Valid() && Execute(r, c, now).Some?
    ensures var state := Execute(r, c, now).value.state;
            && (state == Enabled ==> r.state == Enabled || c == Activate || c == Resume)
            && (state == Suspended ==> r.state == Suspended || c == Suspend)
            && (state == Draft ==> r.state == Draft)
            && (r.state == Revoked ==> state == Revoked)
            && (c == Suspend ==> state == Suspended) && (c == Revoke ==> state == Revoked)
            && (c == Resume || c == Activate ==> state == Enabled)
            && !(r.state == Suspended && c == Activate)
  {
    CommandYields(r, c, now);
    hide Record.Valid, Execute, AllEnded, AllExpired;
  }

  /** No command of the life resumes the key. */
  ghost predicate NeverResumed(r: Record, commands: seq<(Command, nat)>)
    decreases |commands|
  {
    commands != [] ==>
      var next := Execute(r, commands[0].0, commands[0].1);
      !(commands[0].0 == Resume && next.Some?) && NeverResumed(if next.Some? then next.value else r, commands[1..])
  }

  /** A suspended key is suspended or revoked until a resumption is accepted. */
  lemma {:induction false} SuspendedUntilResumed(r: Record, commands: seq<(Command, nat)>)
    requires Good(r) && (r.state == Suspended || r.state == Revoked) && NeverResumed(r, commands)
    ensures forall x :: x in Life(r, commands) ==> x.state == Suspended || x.state == Revoked
    decreases |commands|
  {
    hide Good, Execute;
    if commands != [] {
      var (c, now) := commands[0];
      GoodIsValid(r);
      CommandsAreAccepted(r, c, now);
      var next := Execute(r, c, now);
      if next.Some? {
        StateMoves(r, c, now);
        SuspendedUntilResumed(next.value, commands[1..]);
      } else {
        SuspendedUntilResumed(r, commands[1..]);
      }
    }
  }

  lemma GoodIsValid(r: Record)
    requires Good(r)
    ensures r.Valid()
  {
  }

  /** After an accepted suspension the key is not enabled until an accepted resumption. */
  lemma SuspensionHolds(r: Record, now: nat, commands: seq<(Command, nat)>)
    requires Good(r) && Execute(r, Suspend, now).Some? && NeverResumed(Execute(r, Suspend, now).value, commands)
    ensures forall x :: x in Life(Execute(r, Suspend, now).value, commands) ==> x.state != Enabled
  {
    hide Good, Execute;
    GoodIsValid(r);
    CommandsAreAccepted(r, Suspend, now);
    StateMoves(r, Suspend, now);
    SuspendedUntilResumed(Execute(r, Suspend, now).value, commands);
  }

  /** After an accepted revocation no credential of the key is accepted again, whatever comes. */
  lemma {:induction false} RevocationHolds(r: Record, commands: seq<(Command, nat)>)
    requires Good(r) && r.state == Revoked
    ensures forall x :: x in Life(r, commands) ==> x == r
    ensures forall v :: v in r.canonical + r.legacy ==> v.status != Active && v.status != Retiring
    decreases |commands|
  {
    if commands != [] {
      hide Good;
      var (c, now) := commands[0];
      GoodIsValid(r);
      CommandsAreAccepted(r, c, now);
      if Execute(r, c, now).Some? {
        CommandYields(r, c, now);
        RevokedStays(r, c, now);
      }
      hide Execute;
      RevocationHolds(r, commands[1..]);
    }
  }

  lemma RevokedStays(r: Record, c: Command, now: nat)
    requires r.Valid() && r.state == Revoked && Execute(r, c, now).Some?
    ensures Execute(r, c, now).value == r
  {
  }

  // ---------------------------------------------------------------- issue

  /** A key is issued for its lifetime with one credential of generation one that lasts as long. */
  lemma IssuedIs(key: Id, policy: Id, expiry: Option<nat>, digest: Id, pepper: Id, now: nat, enabled: bool)
    requires now > 0
    ensures var expires := match expiry case Some(e) => e case None => now + 7_776_000;
            var r := Issue(key, policy, expiry, digest, pepper, now, enabled);
            && (r.Some? <==> now < expires && expires - now <= 31_536_000)
            && (r.Some? ==>
                  && r.value.key == key && r.value.policy == policy && r.value.state == (if enabled then Enabled else Draft)
                  && r.value.issued == now && r.value.expires == expires && r.value.highWater == now && r.value.generationHigh == 1
                  && r.value.canonical == [Verifier(Canonical, 1, digest, pepper, now, expires, Active)] && r.value.legacy == [])
  {
    IssuedIsGood(key, policy, expiry, digest, pepper, now, enabled);
    hide Good, Record.Valid;
  }

  // ---------------------------------------------------------------- which record may follow which

  /** Two lists that are each sorted by generation, as they are written in a record. */
  predicate Apart(a: seq<Verifier>, b: seq<Verifier>) {
    && (forall i, j :: 0 <= i < j < |a| ==> a[i].generation < a[j].generation)
    && (forall i, j :: 0 <= i < j < |b| ==> b[i].generation < b[j].generation)
    && (forall v, w :: v in a && w in b ==> v.generation != w.generation)
  }

  /** The record could have been constructed. */
  predicate Constructible(r: Record) {
    var all := r.canonical + r.legacy;
    && 0 < r.issued < r.expires && r.expires - r.issued <= 31_536_000 && r.issued <= r.highWater && 1 <= r.generationHigh
    && (|all| == 1 || |all| == 2)
    && (forall v :: v in r.canonical ==> v.kind == Canonical) && (forall v :: v in r.legacy ==> v.kind == Legacy)
    && Apart(r.canonical, r.legacy)
    && (forall v :: v in all ==>
          && 1 <= v.generation <= r.generationHigh
          && r.issued <= v.notBefore && v.notBefore <= v.notAfter && v.notAfter <= r.expires)
    && (exists v :: v in all && v.generation == r.generationHigh)
    && (if r.state == Revoked || r.expires <= r.highWater
        then forall v :: v in all ==> v.status == Retired || v.status == CredentialStatus.Expired
        else
          && (exists v :: v in all && v.status == Active)
          && (forall v :: v in all && v.status == Active ==> v.generation == r.generationHigh))
  }

  lemma ConstructibleIs(r: Record)
    ensures r.Valid() <==> Constructible(r)
  {
    if r.Valid() {
      ValidIsConstructible(r);
    }
    if Constructible(r) {
      ConstructibleIsValid(r);
    }
  }

  lemma FirstPart(a: seq<Verifier>, b: seq<Verifier>, i: nat)
    requires i < |a|
    ensures (a + b)[i] == a[i]
  {
  }

  lemma SecondPart(a: seq<Verifier>, b: seq<Verifier>, i: nat)
    requires i < |b|
    ensures (a + b)[|a| + i] == b[i]
  {
  }

  lemma UniqueIsApart(a: seq<Verifier>, b: seq<Verifier>)
    requires Unique(a + b) && Increasing(a) && Increasing(b)
    ensures Apart(a, b)
  {
    forall i, j | 0 <= i < j < |a|
      ensures a[i].generation < a[j].generation
    {
      FirstPart(a, b, i);
      FirstPart(a, b, j);
    }
    forall i, j | 0 <= i < j < |b|
      ensures b[i].generation < b[j].generation
    {
      SecondPart(a, b, i);
      SecondPart(a, b, j);
    }
    forall v, w | v in a && w in b
      ensures v.generation != w.generation
    {
      var i :| 0 <= i < |a| && a[i] == v;
      var j :| 0 <= j < |b| && b[j] == w;
      FirstPart(a, b, i);
      SecondPart(a, b, j);
    }
  }

  lemma ApartIsUnique(a: seq<Verifier>, b: seq<Verifier>)
    requires Apart(a, b)
    ensures Unique(a + b)
  {
    forall i, j | 0 <= i < j < |a + b|
      ensures (a + b)[i].generation != (a + b)[j].generation
    {
      ApartAt(a, b, i, j);
    }
  }

  lemma ApartAt(a: seq<Verifier>, b: seq<Verifier>, i: nat, j: nat)
    requires Apart(a, b) && i < j < |a + b|
    ensures (a + b)[i].generation != (a + b)[j].generation
  {
    if j < |a| {
      FirstPart(a, b, i);
      FirstPart(a, b, j);
    } else if i < |a| {
      FirstPart(a, b, i);
      SecondPart(a, b, j - |a|);
      assert a[i] in a && b[j - |a|] in b;
    } else {
      SecondPart(a, b, i - |a|);
      SecondPart(a, b, j - |a|);
    }
  }

  lemma ValidIsConstructible(r: Record)
    requires r.Valid()
    ensures Constructible(r)
  {
    assert r.Verifiers() == r.canonical + r.legacy;
    UniqueIsApart(r.canonical, r.legacy);
    hide Unique, Increasing;
  }

  lemma ConstructibleIsValid(r: Record)
    requires Constructible(r)
    ensures r.Valid()
  {
    var all := r.canonical + r.legacy;
    assert r.Verifiers() == all;
    ApartIsUnique(r.canonical, r.legacy);
    hide Unique, Apart;
    if !r.Terminal() {
      var v :| v in all && v.status.Active?;
      assert v.generation == r.generationHigh;
    }
  }

  /** What a credential may still change: its end, to an earlier one, and its status, forward. */
  predicate StaysItself(before: Verifier, after: Verifier) {
    && after.kind == before.kind && after.digest == before.digest && after.pepper == before.pepper
    && after.notBefore == before.notBefore && after.notAfter <= before.notAfter
    && (match before.status
        case Active => true
        case Retiring => after.status != Active
        case Retired => after.status == Retired
        case Expired => after.status == CredentialStatus.Expired)
  }

  /** What may follow a record that is not terminal. */
  ghost predicate Extends(before: Record, after: Record, r: Option<Reassignment>) {
    var earlier, later := before.canonical + before.legacy, after.canonical + after.legacy;
    && before.highWater <= after.highWater && after.expires == before.expires && before.generationHigh <= after.generationHigh
    && (match r
        case Some(x) => x.expected == before.policy && x.target == after.policy
        case None => after.policy == before.policy)
    && (forall b, a :: b in earlier && a in later && a.generation == b.generation ==> StaysItself(b, a))
    && (forall a :: a in later && (forall b :: b in earlier ==> b.generation != a.generation) ==>
          && before.generationHigh < a.generation && before.generationHigh < after.generationHigh
          && before.highWater <= a.notBefore <= after.highWater)
    && (forall a, f :: a in later && f in later && a.status == Active && f.status == Retiring ==> f.notAfter <= a.notBefore + 604_800)
  }

  /** The validator accepts exactly this: the same key, nothing at all after a terminal record, and otherwise
      a policy change only under the exact reassignment, old credentials only closed further, new ones under a
      higher generation and begun within the step, and overlaps of at most seven days. */
  lemma MayFollowIs(before: Record, after: Record, r: Option<Reassignment>)
    ensures MayFollow(before, after, r) <==>
              && before.Valid() && after.Valid() && after.key == before.key && after.issued == before.issued
              && (if before.state == Revoked || before.expires <= before.highWater then after == before else Extends(before, after, r))
  {
    if before.Valid() && after.Valid() {
      HighestIsThere(after);
      if MayFollow(before, after, r) && !before.Terminal() {
        FollowExtends(before, after, r);
      }
      if !before.Terminal() && after.key == before.key && after.issued == before.issued && Extends(before, after, r) {
        ExtendsFollows(before, after, r);
      }
      hide Record.Valid, Extends;
    }
  }

  lemma HighestIsThere(r: Record)
    requires r.Valid()
    ensures exists v :: v in r.canonical + r.legacy && v.generation == r.generationHigh
  {
  }

  lemma ContinuesIs(before: Verifier, after: Verifier)
    ensures Continues(before, after) <==> StaysItself(before, after)
  {
  }

  lemma HasIs(s: seq<Verifier>, generation: nat)
    ensures Has(s, generation) <==> !(forall b :: b in s ==> b.generation != generation)
  {
  }

  lemma FollowExtends(before: Record, after: Record, r: Option<Reassignment>)
    requires MayFollow(before, after, r) && !before.Terminal()
    ensures Extends(before, after, r)
  {
    hide Record.Valid;
    var earlier, later := before.canonical + before.legacy, after.canonical + after.legacy;
    forall a | a in later && (forall b :: b in earlier ==> b.generation != a.generation)
      ensures before.generationHigh < a.generation && before.generationHigh < after.generationHigh
      ensures before.highWater <= a.notBefore <= after.highWater
    {
      HasIs(earlier, a.generation);
    }
  }

  lemma ExtendsFollows(before: Record, after: Record, r: Option<Reassignment>)
    requires before.Valid() && after.Valid() && !before.Terminal() && after.key == before.key && after.issued == before.issued
    requires Extends(before, after, r)
    ensures MayFollow(before, after, r)
  {
    HighestIsThere(after);
    NewOnes(before, after, r);
    OldOnes(before, after, r);
    hide Record.Valid, Continues, Introduced, StaysItself;
    var later := after.canonical + after.legacy;
    assert after.Verifiers() == later;
    var top :| top in later && top.generation == after.generationHigh;
    assert Has(later, after.generationHigh);
  }

  lemma OldOnes(before: Record, after: Record, r: Option<Reassignment>)
    requires Extends(before, after, r)
    ensures forall b, a :: b in before.Verifiers() && a in after.Verifiers() && a.generation == b.generation ==> Continues(b, a)
  {
    forall b, a | b in before.Verifiers() && a in after.Verifiers() && a.generation == b.generation
      ensures Continues(b, a)
    {
      ContinuesIs(b, a);
    }
  }

  lemma NewOnes(before: Record, after: Record, r: Option<Reassignment>)
    requires Extends(before, after, r)
    ensures forall a :: a in after.Verifiers() && !Has(before.Verifiers(), a.generation) ==>
              Introduced(before, after, a) && before.generationHigh < after.generationHigh
  {
    forall a | a in after.Verifiers() && !Has(before.Verifiers(), a.generation)
      ensures Introduced(before, after, a) && before.generationHigh < after.generationHigh
    {
      HasIs(before.canonical + before.legacy, a.generation);
    }
  }
}
