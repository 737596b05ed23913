/** Slot and byte accounting of the lifecycle spool, and the event budget of one request. */
module SpoolBudget {
  import opened Common

  const MAX_EVENT_BYTES := 4096

  datatype Status = Healthy | Failed | Crashed | Closed

  datatype Reservation = Reservation(remaining: nat, emitted: nat, closed: bool)

  datatype Command = EventCommand(reservation: Id, terminal: bool) | ControlCommand

  function Remaining(r: Reservation): nat { r.remaining }

  function Events(queue: seq<Command>): nat {
    if queue == [] then 0 else (if queue[0].EventCommand? then 1 else 0) + Events(queue[1..])
  }

  /** Outstanding slots are exactly what the reservations have left, and queued slots are exactly the events
      on their way to disk; beside them the queue holds at most one command. */
  ghost predicate Balanced(reservations: map<Id, Reservation>, queue: seq<Command>, inFlight: nat, outstanding: nat, queuedSlots: nat) {
    && outstanding == Total(reservations, Remaining)
    && queuedSlots == Events(queue) + inFlight
    && |queue| <= Events(queue) + 1
    && forall r :: r in reservations ==> (reservations[r].closed <==> reservations[r].remaining == 0)
  }

  lemma ReservedBalances(reservations: map<Id, Reservation>, queue: seq<Command>, inFlight: nat, outstanding: nat, queuedSlots: nat,
                         id: Id, events: nat)
    requires Balanced(reservations, queue, inFlight, outstanding, queuedSlots) && id !in reservations && events >= 1
    ensures Balanced(reservations[id := Reservation(events, 0, false)], queue, inFlight, outstanding + events, queuedSlots)
  {
    TotalInsert(reservations, Remaining, id, Reservation(events, 0, false));
  }

  /** Lowering what a reservation has left lowers the outstanding slots by as much. */
  lemma LoweredBalances(reservations: map<Id, Reservation>, queue: seq<Command>, inFlight: nat, outstanding: nat, queuedSlots: nat,
                        id: Id, lower: Reservation)
    requires Balanced(reservations, queue, inFlight, outstanding, queuedSlots) && id in reservations
    requires lower.remaining <= reservations[id].remaining && (lower.closed <==> lower.remaining == 0)
    ensures outstanding >= reservations[id].remaining - lower.remaining
    ensures Balanced(reservations[id := lower], queue, inFlight, outstanding - (reservations[id].remaining - lower.remaining), queuedSlots)
  {
    TotalReplace(reservations, Remaining, id, lower);
    TotalSplit(reservations, Remaining, id);
  }

  lemma AppendedBalances(reservations: map<Id, Reservation>, queue: seq<Command>, inFlight: nat, outstanding: nat, queuedSlots: nat)
    requires Balanced(reservations, queue, inFlight, outstanding, queuedSlots) && inFlight > 0
    ensures queuedSlots > 0 && Balanced(reservations, queue, inFlight - 1, outstanding, queuedSlots - 1)
  {
  }

  lemma {:induction false} EventsJoin(a: seq<Command>, b: seq<Command>)
    ensures Events(a + b) == Events(a) + Events(b)
    ensures Events(a) <= |a|
  {
    if a == [] {
      assert [] + b == b;
    } else {
      assert (a + b)[1..] == a[1..] + b;
      EventsJoin(a[1..], b);
    }
  }

  /** Why an emit may be refused. */
  datatype Emitted = Queued | Preserved | Exhausted | Unavailable | QueueFull

  class SpoolSlots {
    const maxBytes: nat
    /** The bytes found on disk when the spool was opened, a gap record included; they may exceed the cap. */
    const found: nat
    const queueCapacity: nat
    const watermarkBytes: nat
    var physicalBytes: nat
    var outstanding: nat
    var queuedSlots: nat
    var status: Status
    var accepting: bool
    var reservations: map<Id, Reservation>
    var queue: seq<Command>
    /** Events that the writer has taken from the queue and not yet appended. */
    var inFlight: nat

    function ProtectedBytes(): nat
      reads this
    {
      physicalBytes + (outstanding + queuedSlots) * MAX_EVENT_BYTES
    }

    function UsableBytes(): nat
      reads this
    {
      Max(0, maxBytes - ProtectedBytes())
    }

    ghost predicate Valid()
      reads this
    {
      && Balanced(reservations, queue, inFlight, outstanding, queuedSlots)
      && outstanding + queuedSlots <= queueCapacity
      && ProtectedBytes() <= Max(maxBytes, found)
    }

    constructor (maxBytes: nat, queueCapacity: nat, watermarkBytes: nat, found: nat)
      ensures Valid() && reservations == map[] && status.Healthy? && accepting && queue == [] && physicalBytes == found
      ensures this.maxBytes == maxBytes && this.found == found
    {
      this.maxBytes, this.queueCapacity, this.watermarkBytes, this.found := maxBytes, queueCapacity, watermarkBytes, found;
      physicalBytes, outstanding, queuedSlots, status, accepting := found, 0, 0, Healthy, true;
      reservations, queue, inFlight := map[], [], 0;
    }

    /** Reserve slots, and the bytes behind them, all or nothing. */
    method TryReserve(id: Id, events: nat) returns (ok: bool)
      requires Valid() && events >= 1 && id !in reservations
      modifies this
      ensures Valid()
      ensures var slots := old(outstanding) + old(queuedSlots);
              ok <==> && old(accepting) && old(status) == Healthy
                      && (watermarkBytes == 0 || old(physicalBytes) + slots * 4096 + watermarkBytes <= maxBytes)
                      && old(physicalBytes) + (slots + events) * 4096 <= maxBytes
                      && slots + events <= queueCapacity
      ensures outstanding == old(outstanding) + (if ok then events else 0) && queuedSlots == old(queuedSlots)
      ensures reservations == if ok then old(reservations)[id := Reservation(events, 0, false)] else old(reservations)
      ensures queue == old(queue) && status == old(status) && physicalBytes == old(physicalBytes)
      ensures inFlight == old(inFlight) && accepting == old(accepting)
    {
      if !accepting || !status.Healthy? || UsableBytes() < watermarkBytes || UsableBytes() < events * MAX_EVENT_BYTES
         || outstanding + queuedSlots + events > queueCapacity {
        return false;
      }
      hide Balanced;
      ReservedBalances(reservations, queue, inFlight, outstanding, queuedSlots, id, events);
      reservations := reservations[id := Reservation(events, 0, false)];
      outstanding := outstanding + events;
      return true;
    }

    /** Spend one slot on an event. While the spool is up this always queues: the queue has room for every
        reserved event and one control command. */
    method Submit(id: Id, terminal: bool) returns (result: Emitted)
      requires Valid() && id in reservations
      modifies this
      ensures Valid() && !result.QueueFull?
      ensures var r := old(reservations)[id];
              result == (if r.remaining == 0 then Exhausted
                         else if old(status).Healthy? then Queued
                         else if terminal && !old(status).Closed? then Preserved
                         else Unavailable)
      ensures var r := old(reservations)[id];
              reservations == if result.Queued? || result.Preserved?
                              then old(reservations)[id := Reservation(r.remaining - 1, r.emitted + 1, r.remaining == 1)]
                              else old(reservations)
      ensures queue == if result.Queued? then old(queue) + [EventCommand(id, terminal)] else old(queue)
      ensures outstanding == old(outstanding) - (if result.Queued? || result.Preserved? then 1 else 0)
      ensures queuedSlots == old(queuedSlots) + (if result.Queued? then 1 else 0)
      ensures if result.Queued? || result.Preserved? then status == old(status) && accepting == old(accepting) else status == Failed && !accepting
      ensures physicalBytes == old(physicalBytes) && inFlight == old(inFlight)
    {
      hide Total, Events;
      var r := reservations[id];
      if r.closed || r.remaining < 1 {
        accepting, status := false, Failed;
        return Exhausted;
      }
      if (status.Failed? || status.Crashed?) && terminal {
        Spend(id);
        return Preserved;
      }
      if !status.Healthy? {
        accepting, status := false, Failed;
        return Unavailable;
      }
      RoomInQueue(queue, id, terminal);
      SpendTotal(reservations, id);
      if |queue| >= queueCapacity + 1 {
        accepting, status := false, Failed;
        return QueueFull;
      }
      Spend(id);
      queuedSlots := queuedSlots + 1;
      queue := queue + [EventCommand(id, terminal)];
      return Queued;
    }

    method Spend(id: Id)
      requires Valid() && id in reservations && reservations[id].remaining > 0
      modifies this`reservations, this`outstanding
      ensures Valid() && outstanding == old(outstanding) - 1
      ensures var r := old(reservations)[id];
              reservations == old(reservations)[id := Reservation(r.remaining - 1, r.emitted + 1, r.remaining == 1)]
    {
      hide Balanced;
      var r := reservations[id];
      LoweredBalances(reservations, queue, inFlight, outstanding, queuedSlots, id, Reservation(r.remaining - 1, r.emitted + 1, r.remaining == 1));
      reservations := reservations[id := Reservation(r.remaining - 1, r.emitted + 1, r.remaining == 1)];
      outstanding := outstanding - 1;
    }

    /** Give back slots that will not be used; `None` gives back all of them. */
    method ReleaseUnused(id: Id, count: Option<nat>) returns (released: Option<nat>)
      requires Valid() && id in reservations
      modifies this
      ensures Valid()
      ensures var r := old(reservations)[id];
              var wanted := if count.None? || r.remaining == 0 then r.remaining else count.value;
              && released == (if wanted <= r.remaining then Some(wanted) else None)
              && reservations == (if released.Some? then old(reservations)[id := Reservation(r.remaining - wanted, r.emitted, wanted == r.remaining)]
                                  else old(reservations))
              && outstanding == old(outstanding) - (if released.Some? then wanted else 0)
      ensures if released.Some? then status == old(status) && accepting == old(accepting) else status == Failed && !accepting
      ensures queue == old(queue) && queuedSlots == old(queuedSlots) && physicalBytes == old(physicalBytes) && inFlight == old(inFlight)
    {
      var r := reservations[id];
      if r.remaining == 0 {
        assert reservations[id := Reservation(0, r.emitted, true)] == reservations;
        return Some(0);
      }
      var wanted := if count.None? then r.remaining else count.value;
      if wanted > r.remaining {
        accepting, status := false, Failed;
        return None;
      }
      var left := Reservation(r.remaining - wanted, r.emitted, wanted == r.remaining);
      hide Balanced;
      LoweredBalances(reservations, queue, inFlight, outstanding, queuedSlots, id, left);
      reservations := reservations[id := left];
      outstanding := outstanding - wanted;
      return Some(wanted);
    }

    /** The one serialized control command. */
    method PutControl()
      requires Valid() && |queue| == Events(queue)
      modifies this`queue
      ensures Valid() && queue == old(queue) + [ControlCommand]
    {
      EventsJoin(queue, [ControlCommand]);
      queue := queue + [ControlCommand];
    }

    /** The writer takes the next command. */
    method Take() returns (c: Command)
      requires Valid() && queue != []
      modifies this`queue, this`inFlight
      ensures Valid() && old(queue) == [c] + queue
      ensures inFlight == old(inFlight) + if c.EventCommand? then 1 else 0
    {
      c := queue[0];
      queue := queue[1..];
      inFlight := inFlight + if c.EventCommand? then 1 else 0;
    }

    /** The writer appends one event: its slot turns into the bytes it takes. An event that would take more
        than a slot is refused before anything is written. */
    method Append(bytes: nat) returns (ok: bool)
      requires Valid() && inFlight > 0
      modifies this
      ensures Valid() && ok == (bytes <= 4096)
      ensures physicalBytes == old(physicalBytes) + if ok then bytes else 0
      ensures inFlight == old(inFlight) - if ok then 1 else 0
      ensures queuedSlots == old(queuedSlots) - (if ok then 1 else 0) && outstanding == old(outstanding)
      ensures if ok then status == old(status) && accepting == old(accepting) else status == Failed && !accepting
      ensures reservations == old(reservations) && queue == old(queue)
    {
      hide Balanced;
      AppendedBalances(reservations, queue, inFlight, outstanding, queuedSlots);
      if bytes > MAX_EVENT_BYTES {
        accepting, status := false, Failed;
        return false;
      }
      physicalBytes := physicalBytes + bytes;
      inFlight, queuedSlots := inFlight - 1, queuedSlots - 1;
      return true;
    }

    /** Acknowledged segments give their bytes back. */
    method Deleted(bytes: nat)
      requires Valid() && bytes <= physicalBytes
      modifies this`physicalBytes
      ensures Valid() && physicalBytes == old(physicalBytes) - bytes
    {
      physicalBytes := physicalBytes - bytes;
    }
  }

  lemma SpendTotal(reservations: map<Id, Reservation>, id: Id)
    requires id in reservations && reservations[id].remaining > 0
    ensures var r := reservations[id];
            && Total(reservations, Remaining) > 0
            && Total(reservations[id := Reservation(r.remaining - 1, r.emitted + 1, r.remaining == 1)], Remaining)
               == Total(reservations, Remaining) - 1
  {
    var r := reservations[id];
    TotalReplace(reservations, Remaining, id, Reservation(r.remaining - 1, r.emitted + 1, r.remaining == 1));
    TotalSplit(reservations, Remaining, id);
  }

  lemma RoomInQueue(queue: seq<Command>, id: Id, terminal: bool)
    ensures Events(queue + [EventCommand(id, terminal)]) == Events(queue) + 1
  {
    EventsJoin(queue, [EventCommand(id, terminal)]);
  }

  // ---------------------------------------------------------------- one request's events

  datatype Refusal = NotOpen | OutOfOrder | Repeated | OverBudget | UnknownAttempt | SpoolDown

  function AttemptSlots(resolved: bool): nat { if resolved then 0 else 1 }

  /** What the attempts that can still start or end need. */
  ghost function AttemptsNeed(maxAttempts: nat, attempts: map<Id, bool>): nat {
    Max(0, 2 * (maxAttempts - |attempts|)) + Total(attempts, AttemptSlots)
  }

  lemma StartingNeeds(maxAttempts: nat, attempts: map<Id, bool>, id: Id)
    requires id !in attempts && |attempts| < maxAttempts
    ensures |attempts[id := false]| == |attempts| + 1 && AttemptsNeed(maxAttempts, attempts) >= 2
    ensures AttemptsNeed(maxAttempts, attempts[id := false]) == AttemptsNeed(maxAttempts, attempts) - 1
  {
    TotalInsert(attempts, AttemptSlots, id, false);
    assert attempts[id := false].Keys == attempts.Keys + {id};
    assert |attempts[id := false].Keys| == |attempts[id := false]| && |attempts.Keys| == |attempts|;
  }

  lemma ResolvingNeeds(maxAttempts: nat, attempts: map<Id, bool>, id: Id)
    requires id in attempts && !attempts[id]
    ensures |attempts[id := true]| == |attempts| && AttemptsNeed(maxAttempts, attempts) >= 1
    ensures AttemptsNeed(maxAttempts, attempts[id := true]) == AttemptsNeed(maxAttempts, attempts) - 1
  {
    TotalReplace(attempts, AttemptSlots, id, true);
    assert attempts[id := true].Keys == attempts.Keys;
    assert |attempts[id := true].Keys| == |attempts[id := true]| && |attempts.Keys| == |attempts|;
  }

  /** The lifecycle of one request over a reservation of four events and two for each attempt. */
  class Lifecycle {
    const maxAttempts: nat
    const slots: SpoolSlots
    const reservation: Id
    var profileRecorded: bool
    var queuedRecorded: bool
    var terminalRecorded: bool
    var released: bool
    /** Whether each started attempt has been resolved. */
    var attempts: map<Id, bool>

    ghost function Needed(): nat
      reads this
    {
      if terminalRecorded then 0
      else (if profileRecorded then 0 else 1) + (if queuedRecorded then 0 else 1) + AttemptsNeed(maxAttempts, attempts) + 1
    }

    /** The reservation holds exactly what is still needed; so, until the terminal event is recorded, there
        is always a slot for it. */
    ghost predicate Valid()
      reads this, slots
    {
      && slots.Valid() && reservation in slots.reservations
      && slots.reservations[reservation].remaining == Needed()
      && |attempts| <= maxAttempts
      && (queuedRecorded ==> profileRecorded)
      && (attempts != map[] ==> queuedRecorded)
      && (released ==> terminalRecorded)
    }

    /** A request is admitted with its whole budget reserved and its first event emitted. */
    constructor (slots: SpoolSlots, reservation: Id, maxAttempts: nat)
      requires slots.Valid() && reservation in slots.reservations
      requires slots.reservations[reservation].remaining == 3 + 2 * maxAttempts
      ensures Valid() && this.slots == slots && this.reservation == reservation && this.maxAttempts == maxAttempts
      ensures attempts == map[] && !terminalRecorded
    {
      this.slots, this.reservation, this.maxAttempts := slots, reservation, maxAttempts;
      profileRecorded, queuedRecorded, terminalRecorded, released, attempts := false, false, false, false, map[];
    }

    /** What this request does leaves every other reservation as it was. */
    twostate predicate OthersKeep()
      reads this, slots
    {
      forall id :: id in old(slots.reservations) && id != reservation ==>
        id in slots.reservations && slots.reservations[id] == old(slots.reservations)[id]
    }

    /** Exactly one event of this request was queued, or none was. */
    twostate predicate Writes(one: bool)
      reads this, slots
    {
      slots.queue == if one then old(slots.queue) + [EventCommand(reservation, false)] else old(slots.queue)
    }

    method Emit(terminal: bool) returns (ok: bool)
      requires slots.Valid() && reservation in slots.reservations && slots.reservations[reservation].remaining > 0
      modifies slots
      ensures slots.Valid() && reservation in slots.reservations
      ensures ok <==> old(slots.status).Healthy? || (terminal && !old(slots.status).Closed?)
      ensures slots.queue == if old(slots.status).Healthy? then old(slots.queue) + [EventCommand(reservation, terminal)] else old(slots.queue)
      ensures if ok then slots.status == old(slots.status) else slots.status == Failed
      ensures slots.reservations[reservation].remaining == old(slots.reservations[reservation].remaining) - if ok then 1 else 0
      ensures OthersKeep()
    {
      var result := slots.Submit(reservation, terminal);
      ok := result.Queued? || result.Preserved?;
    }

    method ProfileAccepted() returns (refusal: Option<Refusal>)
      requires Valid()
      modifies this`profileRecorded, slots
      ensures OthersKeep()
      ensures Valid()
      ensures refusal == if old(released || terminalRecorded) then Some(NotOpen) else if old(profileRecorded) then Some(Repeated)
                         else if !old(slots.status).Healthy? then Some(SpoolDown) else None
      ensures profileRecorded == (old(profileRecorded) || refusal.None?)
      ensures Writes(refusal.None?)
    {
      if released || terminalRecorded { return Some(NotOpen); }
      if profileRecorded { return Some(Repeated); }
      var ok := Emit(false);
      if !ok { return Some(SpoolDown); }
      profileRecorded := true;
      return None;
    }

    method Queued() returns (refusal: Option<Refusal>)
      requires Valid()
      modifies this`queuedRecorded, slots
      ensures OthersKeep()
      ensures Valid()
      ensures refusal == if old(released || terminalRecorded) then Some(NotOpen) else if !old(profileRecorded) then Some(OutOfOrder)
                         else if old(queuedRecorded) then Some(Repeated)
                         else if !old(slots.status).Healthy? then Some(SpoolDown) else None
      ensures queuedRecorded == (old(queuedRecorded) || refusal.None?)
      ensures Writes(refusal.None?)
    {
      if released || terminalRecorded { return Some(NotOpen); }
      if !profileRecorded { return Some(OutOfOrder); }
      if queuedRecorded { return Some(Repeated); }
      var ok := Emit(false);
      if !ok { return Some(SpoolDown); }
      queuedRecorded := true;
      return None;
    }

    /** The send fence. An attempt is refused for its number alone: the slots behind it are always there. */
    method AttemptStarted(id: Id) returns (refusal: Option<Refusal>)
      requires Valid()
      modifies this`attempts, slots
      ensures OthersKeep()
      ensures Valid()
      ensures refusal == if old(released || terminalRecorded) then Some(NotOpen) else if !old(queuedRecorded) then Some(OutOfOrder)
                         else if id in old(attempts) then Some(Repeated)
                         else if |old(attempts)| >= maxAttempts then Some(OverBudget)
                         else if !old(slots.status).Healthy? then Some(SpoolDown) else None
      ensures attempts == if refusal.None? then old(attempts)[id := false] else old(attempts)
      ensures Writes(refusal.None?)
    {
      if released || terminalRecorded { return Some(NotOpen); }
      if !queuedRecorded { return Some(OutOfOrder); }
      if id in attempts { return Some(Repeated); }
      hide AttemptsNeed, SpoolSlots.Valid;
      if |attempts| < maxAttempts {
        StartingNeeds(maxAttempts, attempts, id);
      }
      if |attempts| >= maxAttempts || slots.reservations[reservation].remaining < 3 { return Some(OverBudget); }
      var ok := Emit(false);
      if !ok { return Some(SpoolDown); }
      attempts := attempts[id := false];
      return None;
    }

    method AttemptFinished(id: Id) returns (refusal: Option<Refusal>)
      requires Valid()
      modifies this`attempts, slots
      ensures OthersKeep()
      ensures Valid()
      ensures refusal == if old(released || terminalRecorded) then Some(NotOpen) else if id !in old(attempts) then Some(UnknownAttempt)
                         else if old(attempts)[id] then None
                         else if !old(slots.status).Healthy? then Some(SpoolDown) else None
      ensures attempts == if refusal.None? then old(attempts)[id := true] else old(attempts)
      ensures Writes(refusal.None? && !(id in old(attempts) && old(attempts)[id]))
    {
      if released || terminalRecorded { return Some(NotOpen); }
      if id !in attempts { return Some(UnknownAttempt); }
      if attempts[id] {
        assert attempts[id := true] == attempts;
        return None;
      }
      ResolvingNeeds(maxAttempts, attempts, id);
      hide AttemptsNeed, SpoolSlots.Valid;
      var ok := Emit(false);
      if !ok { return Some(SpoolDown); }
      attempts := attempts[id := true];
      return None;
    }

    /** The terminal event, and the unused slots given back. It is refused only by a closed spool. */
    method Finished() returns (refusal: Option<Refusal>)
      requires Valid()
      modifies this`terminalRecorded, slots
      ensures OthersKeep()
      ensures Valid() && attempts == old(attempts) && released == old(released)
      ensures refusal == if old(terminalRecorded) || !old(slots.status).Closed? then None else Some(SpoolDown)
      ensures refusal.None? ==> terminalRecorded && slots.reservations[reservation].remaining == 0
      ensures slots.queue == if !old(terminalRecorded) && old(slots.status).Healthy?
                             then old(slots.queue) + [EventCommand(reservation, true)] else old(slots.queue)
    {
      if terminalRecorded { return None; }
      var ok := Emit(true);
      if !ok { return Some(SpoolDown); }
      terminalRecorded := true;
      var _ := slots.ReleaseUnused(reservation, None);
      return None;
    }

    /** The end of the request, with a terminal event recorded if there was none. */
    method Release() returns (refusal: Option<Refusal>)
      requires Valid()
      modifies this`terminalRecorded, this`released, slots
      ensures OthersKeep()
      ensures Valid() && (refusal.None? ==> released && terminalRecorded && slots.reservations[reservation].remaining == 0)
      ensures refusal.Some? ==> !old(terminalRecorded) && old(slots.status).Closed?
      ensures slots.queue == if !old(released) && !old(terminalRecorded) && old(slots.status).Healthy?
                             then old(slots.queue) + [EventCommand(reservation, true)] else old(slots.queue)
    {
      hide AttemptsNeed, SpoolSlots.Valid;
      if released { return None; }
      refusal := Finished();
      if refusal.None? {
        var _ := slots.ReleaseUnused(reservation, None);
        released := true;
      }
    }
  }
  /** Admit a request: its whole budget is reserved, four events and two for each attempt, and the first of
      them emitted, or nothing is left reserved. Other requests keep what they have. */
  method Admit(slots: SpoolSlots, id: Id, maxAttempts: nat) returns (admitted: Option<Lifecycle>)
    requires slots.Valid() && id !in slots.reservations
    modifies slots
    ensures slots.Valid()
    ensures admitted.Some? ==> fresh(admitted.value) && admitted.value.Valid() && admitted.value.slots == slots
                                && admitted.value.reservation == id && admitted.value.maxAttempts == maxAttempts
    ensures var live, budget := old(slots.outstanding) + old(slots.queuedSlots), 4 + 2 * maxAttempts;
            admitted.Some? <==>
              && old(slots.accepting) && old(slots.status) == Healthy
              && (slots.watermarkBytes == 0 || old(slots.physicalBytes) + live * 4096 + slots.watermarkBytes <= slots.maxBytes)
              && old(slots.physicalBytes) + (live + budget) * 4096 <= slots.maxBytes && live + budget <= slots.queueCapacity
    ensures slots.queue == if admitted.Some? then old(slots.queue) + [EventCommand(id, false)] else old(slots.queue)
    ensures admitted.None? ==> slots.reservations == old(slots.reservations)
    ensures forall r :: r in old(slots.reservations) ==> r in slots.reservations && slots.reservations[r] == old(slots.reservations)[r]
  {
    hide SpoolSlots.Valid, SpoolSlots.UsableBytes, Lifecycle.Valid;
    admitted := None;
    var ok := slots.TryReserve(id, 4 + 2 * maxAttempts);
    if ok {
      var result := slots.Submit(id, false);
      var lifecycle := new Lifecycle(slots, id, maxAttempts);
      admitted := Some(lifecycle);
    }
  }

  /** Requests share one spool and do not disturb each other: after a step of one, and after the admission of
      another, every other request still holds exactly what it needs, its terminal event included. */
  twostate lemma OthersStayValid(one: Lifecycle, other: Lifecycle)
    requires one.slots == other.slots && one.reservation != other.reservation
    requires old(other.Valid()) && unchanged(other) && one.slots.Valid() && one.OthersKeep()
    ensures other.Valid() && other.Needed() == old(other.Needed())
    ensures !other.terminalRecorded ==> other.slots.reservations[other.reservation].remaining > 0
  {
  }
}
