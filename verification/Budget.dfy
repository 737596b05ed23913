/** The send cap of one request: at most three durable dispatches, never twice the same leg under the same
    circuit epochs, and a generation again only for capacity and on unused probe tokens. */
module Budget {
  import opened Common
  import opened LedgerModel

  datatype Cause = PrimaryCause | CapacityCauseSpill | FailureCause | QuotaFallback | ManualEmergency | Shadow

  /** A send that could be made: the leg, and the circuits as they were seen. */
  datatype Candidate = Candidate(leg: Id, generation: Id, account: Id, cause: Cause, deployment: Circuit, accountCircuit: Circuit)

  datatype Sent = Sent(attempt: Id, leg: Id, generation: Id, circuitEpoch: nat, accountEpoch: nat, probes: seq<Id>)

  function Listed(probe: Option<Id>): seq<Id> { if probe.Some? then [probe.value] else [] }

  /** The probe tokens that a send through half-open circuits consumes, the account's first. */
  function ProbesOf(c: Candidate): seq<Id> { Listed(c.accountCircuit.Token()) + Listed(c.deployment.Token()) }

  function SentOf(c: Candidate, attempt: Id): Sent {
    Sent(attempt, c.leg, c.generation, c.deployment.epoch, c.accountCircuit.epoch, ProbesOf(c))
  }

  predicate SamePlace(s: Sent, c: Candidate) {
    s.leg == c.leg && s.circuitEpoch == c.deployment.epoch && s.accountEpoch == c.accountCircuit.epoch
  }

  predicate CanSend(attempts: seq<Sent>, responseStarted: bool, c: Candidate) {
    && !responseStarted && |attempts| < 3
    && (forall s :: s in attempts ==> !SamePlace(s, c))
    && ((exists s :: s in attempts && s.generation == c.generation) ==>
          && c.cause.CapacityCauseSpill? && ProbesOf(c) != []
          && forall p, s :: p in ProbesOf(c) && s in attempts ==> p !in s.probes)
  }

  // ---------------------------------------------------------------- what the sends of a request satisfy

  /** One send and the cause it was made for. */
  datatype Send = Send(sent: Sent, cause: Cause)

  predicate SameSpot(a: Sent, b: Sent) { a.leg == b.leg && a.circuitEpoch == b.circuitEpoch && a.accountEpoch == b.accountEpoch }

  /** A send may follow those before it: nowhere twice, and a generation again only for capacity with
      probe tokens that no earlier send used. */
  ghost predicate MayFollow(earlier: seq<Send>, later: Send) {
    && (forall s :: s in earlier ==> !SameSpot(s.sent, later.sent) && s.sent.attempt != later.sent.attempt)
    && ((exists s :: s in earlier && s.sent.generation == later.sent.generation) ==>
          && later.cause.CapacityCauseSpill? && later.sent.probes != []
          && forall p, s :: p in later.sent.probes && s in earlier ==> p !in s.sent.probes)
  }

  /** The send cap, over the sends in the order they were made. */
  ghost predicate Capped(sends: seq<Send>) {
    |sends| <= 3 && forall j :: 0 <= j < |sends| ==> MayFollow(sends[..j], sends[j])
  }

  ghost predicate Made(sends: seq<Send>, s: Sent) { exists x :: x in sends && x.sent == s }

  /** The budget holds exactly the sends made, in whatever order. */
  ghost predicate HoldsAll(attempts: seq<Sent>, sends: seq<Send>) {
    |attempts| == |sends| && forall s :: s in attempts <==> Made(sends, s)
  }

  lemma CapExtends(sends: seq<Send>, later: Send)
    requires Capped(sends)
    ensures Capped(sends + [later]) <==> |sends| < 3 && MayFollow(sends, later)
  {
    var longer := sends + [later];
    assert longer[..|sends|] == sends;
    forall j | 0 <= j < |sends|
      ensures longer[..j] == sends[..j]
    {
    }
    if Capped(longer) {
      assert MayFollow(longer[..|sends|], longer[|sends|]);
    }
  }

  /** What a send is refused for is exactly what the cap forbids. */
  lemma PermittedIffCapped(attempts: seq<Sent>, responseStarted: bool, c: Candidate, attempt: Id, sends: seq<Send>)
    requires HoldsAll(attempts, sends) && Capped(sends)
    requires forall s :: s in attempts ==> s.attempt != attempt
    ensures CanSend(attempts, responseStarted, c) <==> !responseStarted && Capped(sends + [Send(SentOf(c, attempt), c.cause)])
  {
    var later := Send(SentOf(c, attempt), c.cause);
    CapExtends(sends, later);
    FollowsAlike(attempts, sends, c, attempt);
  }

  lemma FollowsAlike(attempts: seq<Sent>, sends: seq<Send>, c: Candidate, attempt: Id)
    requires HoldsAll(attempts, sends) && forall s :: s in attempts ==> s.attempt != attempt
    ensures |attempts| < 3 ==> (CanSend(attempts, false, c) <==> MayFollow(sends, Send(SentOf(c, attempt), c.cause)))
  {
    var later := Send(SentOf(c, attempt), c.cause);
    assert forall x :: x in sends ==> Made(sends, x.sent);
    assert forall x :: x in sends ==> x.sent in attempts;
    if exists s :: s in attempts && s.generation == c.generation {
      var s :| s in attempts && s.generation == c.generation;
      assert Made(sends, s);
    }
    if MayFollow(sends, later) {
      forall s | s in attempts
        ensures !SamePlace(s, c)
      {
        assert Made(sends, s);
      }
    }
    if CanSend(attempts, false, c) {
      forall x | x in sends
        ensures !SameSpot(x.sent, later.sent)
      {
        assert !SamePlace(x.sent, c);
      }
    }
  }

  lemma HoldsOneMore(attempts: seq<Sent>, sends: seq<Send>, later: Send)
    requires HoldsAll(attempts, sends)
    ensures HoldsAll(attempts + [later.sent], sends + [later])
  {
    forall s
      ensures s in attempts + [later.sent] <==> Made(sends + [later], s)
    {
      if s in attempts {
        var x :| x in sends && x.sent == s;
        assert x in sends + [later];
      }
      if s == later.sent {
        assert later in sends + [later];
      }
      if Made(sends + [later], s) {
        var x :| x in sends + [later] && x.sent == s;
        assert x in sends ==> Made(sends, s);
      }
    }
  }

  // ---------------------------------------------------------------- the budget

  /** Insert by attempt identifier. */
  function InsertSent(attempts: seq<Sent>, s: Sent): seq<Sent> {
    if attempts == [] || s.attempt < attempts[0].attempt then [s] + attempts else [attempts[0]] + InsertSent(attempts[1..], s)
  }

  function SortSent(attempts: seq<Sent>): seq<Sent> {
    if attempts == [] then [] else InsertSent(SortSent(attempts[1..]), attempts[0])
  }

  lemma {:induction false} InsertKeeps(attempts: seq<Sent>, s: Sent)
    ensures |InsertSent(attempts, s)| == |attempts| + 1
    ensures forall x :: x in InsertSent(attempts, s) <==> x in attempts || x == s
  {
    if attempts != [] && s.attempt >= attempts[0].attempt {
      InsertKeeps(attempts[1..], s);
    }
  }

  lemma {:induction false} SortKeeps(attempts: seq<Sent>)
    ensures |SortSent(attempts)| == |attempts|
    ensures forall x :: x in SortSent(attempts) <==> x in attempts
  {
    if attempts != [] {
      SortKeeps(attempts[1..]);
      InsertKeeps(SortSent(attempts[1..]), attempts[0]);
    }
  }

  /** A durable dispatch as the budget reads it. */
  function SentFrom(d: Dispatch): Sent {
    Sent(d.attempt, d.leg, d.generation, d.circuitEpoch, d.accountEpoch, Listed(d.accountProbe) + Listed(d.circuitProbe))
  }

  predicate Knows(attempts: seq<Sent>, attempt: Id) { exists s :: s in attempts && s.attempt == attempt }

  /** The budget after reading a view: the request's dispatches whose attempt is new to it are appended. */
  function Absorb(attempts: seq<Sent>, view: seq<Dispatch>, request: Id): seq<Sent>
    decreases |view|
  {
    if view == [] then attempts
    else if view[0].request == request && !Knows(attempts, view[0].attempt) then Absorb(attempts + [SentFrom(view[0])], view[1..], request)
    else Absorb(attempts, view[1..], request)
  }

  /** A view of dispatches that are known already, whatever pruning has dropped from it, adds nothing. */
  lemma {:induction false} AbsorbKnown(attempts: seq<Sent>, view: seq<Dispatch>, request: Id)
    requires forall d :: d in view && d.request == request ==> SentFrom(d) in attempts
    ensures Absorb(attempts, view, request) == attempts
    decreases |view|
  {
    if view != [] {
      assert view[0] in view;
      assert view[0].request == request ==> SentFrom(view[0]) in attempts;
      AbsorbKnown(attempts, view[1..], request);
    }
  }

  ghost predicate DistinctAttempts(s: seq<Sent>) { forall i, j :: 0 <= i < j < |s| ==> s[i].attempt != s[j].attempt }

  class AttemptBudget {
    const request: Id
    var attempts: seq<Sent>
    var responseStarted: bool
    /** The sends of the request that were made durable, in order. */
    ghost var sends: seq<Send>

    ghost predicate Valid()
      reads this
    {
      HoldsAll(attempts, sends) && Capped(sends)
    }

    constructor (request: Id)
      ensures Valid() && sends == [] && attempts == [] && !responseStarted && this.request == request
    {
      this.request, attempts, responseStarted, sends := request, [], false, [];
    }

    /** Take over the durable dispatches that are not known yet. A view of dispatches that this budget made
        itself, whatever pruning has dropped from it, changes nothing but the order. */
    method SyncRuntime(view: seq<Dispatch>)
      modifies this`attempts
      ensures attempts == SortSent(Absorb(old(attempts), view, request))
      ensures old(Valid()) && (forall d :: d in view && d.request == request ==> Made(sends, SentFrom(d)))
              ==> Valid() && forall s :: s in attempts <==> s in old(attempts)
    {
      ghost var before := attempts;
      if Valid() && forall d :: d in view && d.request == request ==> Made(sends, SentFrom(d)) {
        AbsorbKnown(before, view, request);
        SortKeeps(before);
      }
      var i := 0;
      while i < |view|
        invariant 0 <= i <= |view|
        invariant Absorb(attempts, view[i..], request) == Absorb(before, view, request)
      {
        assert view[i..][0] == view[i] && view[i..][1..] == view[i + 1..];
        if view[i].request == request && !Knows(attempts, view[i].attempt) {
          attempts := attempts + [SentFrom(view[i])];
        }
        i := i + 1;
      }
      attempts := SortSent(attempts);
    }

    /** Send: refused exactly when the cap forbids it or a response has started. */
    method RecordSend(c: Candidate, attempt: Id) returns (ok: bool)
      requires Valid() && !Knows(attempts, attempt)
      modifies this`attempts, this`sends
      ensures Valid()
      ensures ok <==> !responseStarted && Capped(old(sends) + [Send(SentOf(c, attempt), c.cause)])
      ensures sends == if ok then old(sends) + [Send(SentOf(c, attempt), c.cause)] else old(sends)
    {
      PermittedIffCapped(attempts, responseStarted, c, attempt, sends);
      ok := CanSend(attempts, responseStarted, c);
      if ok {
        HoldsOneMore(attempts, sends, Send(SentOf(c, attempt), c.cause));
        attempts := attempts + [SentOf(c, attempt)];
        sends := sends + [Send(SentOf(c, attempt), c.cause)];
      }
    }
  }
}
