/** The gateway's activation state: the digest-chained command log, the staged, active and base references,
    and the deny overlay with its high-water marks. */
module Activation {
  import opened Common

  // ---------------------------------------------------------------- commands

  datatype Ref = Ref(generation: nat, hash: Id)

  datatype Payload =
    | Prepare(target: Ref, base: Option<Ref>)
    | CommitTo(target: Ref)
    | Deny(subject: Id, denyEpoch: nat, floor: Option<nat>)
    | ClearDeny(subject: Id, denyEpoch: nat)
    | Status

  /** SHA-256 over a command, idealised: the digest is what it covers. */
  datatype Digest = Zero | Of(id: Id, epoch: nat, sequence: nat, previous: Digest, payload: Payload)

  datatype Command = Command(id: Id, epoch: nat, sequence: nat, previous: Digest, payload: Payload)
  {
    function Hash(): Digest { Of(id, epoch, sequence, previous, payload) }
  }

  // ---------------------------------------------------------------- the durable state

  datatype Overlay = Overlay(denyEpoch: nat, floor: Option<nat>)

  /** An acknowledgement. Each row mints one identifier for its acknowledgement, represented by the row's own. */
  datatype Ack = Ack(id: Id, command: Id, digest: Digest, content: Id)

  /** A row of the dedupe table, with its acknowledgement once there is one. */
  datatype Row = Row(digest: Digest, epoch: nat, sequence: nat, ack: Option<Ack>)

  datatype Link = Link(sequence: nat, digest: Digest)

  datatype Takeover = NotTaken | FencedOld | Released

  datatype Db = Db(active: Option<Ref>, staged: Option<Ref>, previous: Option<Ref>, base: Option<Ref>,
                   denies: map<Id, Overlay>, highwater: map<Id, Overlay>, commands: map<Id, Row>, channel: map<nat, Link>,
                   fence: nat, takeover: Takeover)
  {
    /** Where the chain of an epoch stands. */
    function Tip(epoch: nat): Link { if epoch in channel then channel[epoch] else Link(0, Zero) }

    predicate AboveFloor(generation: nat) {
      forall s :: s in highwater && highwater[s].floor.Some? ==> generation > highwater[s].floor.value
    }
  }

  // ---------------------------------------------------------------- what each command does

  predicate ValidPrepare(db: Db, base: Option<Ref>, target: Ref) {
    && db.active == base && db.staged.None? && db.AboveFloor(target.generation)
    && (base.Some? ==> target.generation > base.value.generation)
  }

  predicate ValidCommit(db: Db, target: Ref) {
    db.staged == Some(target) && db.AboveFloor(target.generation) && db.base == db.active
  }

  function FloorContracts(earlier: Option<nat>, later: Option<nat>): bool {
    earlier.Some? && (later.None? || later.value < earlier.value)
  }

  predicate ValidDeny(db: Db, subject: Id, denyEpoch: nat, floor: Option<nat>) {
    subject in db.highwater ==> denyEpoch > db.highwater[subject].denyEpoch && !FloorContracts(db.highwater[subject].floor, floor)
  }

  predicate ValidClear(db: Db, subject: Id, denyEpoch: nat) { subject in db.denies && db.denies[subject].denyEpoch == denyEpoch }

  /** The change a command makes besides being recorded; `None` where it is refused. */
  function Effect(db: Db, p: Payload): Option<Db> {
    match p
    case Prepare(target, base) => if ValidPrepare(db, base, target) then Some(db.(staged := Some(target), base := base)) else None
    case CommitTo(target) =>
      if ValidCommit(db, target) then Some(db.(previous := db.active, active := Some(target), staged := None, base := None)) else None
    case Deny(subject, denyEpoch, floor) =>
      if ValidDeny(db, subject, denyEpoch, floor)
      then Some(db.(denies := db.denies[subject := Overlay(denyEpoch, floor)], highwater := db.highwater[subject := Overlay(denyEpoch, floor)]))
      else None
    case ClearDeny(subject, denyEpoch) =>
      if ValidClear(db, subject, denyEpoch) then Some(db.(denies := db.denies - {subject})) else None
    case Status => Some(db)
  }

  // ---------------------------------------------------------------- dedupe and retention

  function Acked(commands: map<Id, Row>): set<Id> { set c | c in commands && commands[c].ack.Some? }

  predicate Earlier(a: Row, b: Row) { a.epoch < b.epoch || (a.epoch == b.epoch && a.sequence < b.sequence) }

  /** The acknowledged rows that make room for one more, oldest first; all of them if there are too few. */
  ghost predicate MakesRoom(commands: map<Id, Row>, retained: nat, doomed: set<Id>) {
    var excess := |commands| - retained + 1;
    && doomed <= Acked(commands)
    && |doomed| == (if excess <= 0 then 0 else Min(excess, |Acked(commands)|))
    && forall d, k :: d in doomed && k in Acked(commands) - doomed ==> Earlier(commands[d], commands[k])
  }

  predicate Next(db: Db, c: Command) { c.sequence == db.Tip(c.epoch).sequence + 1 && c.previous == db.Tip(c.epoch).digest }

  /** The command recorded and the chain advanced; `None` where retention is full of unacknowledged rows. */
  function Recorded(db: Db, c: Command, retained: nat, doomed: set<Id>): Option<Db> {
    var kept := db.commands - doomed;
    if |kept| >= retained then None
    else Some(db.(commands := kept[c.id := Row(c.Hash(), c.epoch, c.sequence, None)],
                  channel := db.channel[c.epoch := Link(c.sequence, c.Hash())]))
  }

  datatype Outcome = Repeated | Refused | Done(db: Db)

  /** A command as it is executed: an identifier seen before is answered from its row. */
  function Execute(db: Db, c: Command, retained: nat, doomed: set<Id>): Outcome {
    if c.id in db.commands then if db.commands[c.id].digest == c.Hash() then Repeated else Refused
    else if !Next(db, c) then Refused
    else
      var effect := Effect(db, c.payload);
      if effect.None? then Refused
      else
        var after := Recorded(effect.value, c, retained, doomed);
        if after.None? then Refused else Done(after.value)
  }

  /** Whether an acknowledgement is accepted: it answers a row that is there, and is the only one. */
  predicate AcceptsAck(db: Db, a: Ack) {
    && a.command in db.commands && db.commands[a.command].digest == a.digest && a.id == a.command
    && (db.commands[a.command].ack.None? || db.commands[a.command].ack == Some(a))
  }

  /** An acknowledgement is stored once, for a row that has none. */
  function PushAck(db: Db, a: Ack): Db {
    if AcceptsAck(db, a) then db.(commands := db.commands[a.command := db.commands[a.command].(ack := Some(a))]) else db
  }

  // ---------------------------------------------------------------- runs

  datatype Event =
    | Executing(command: Command, doomed: set<Id>)
    | Acking(ack: Ack)
    | Fencing(epoch: nat)
    | Accepting(epoch: nat)
    | Advancing(epoch: nat)

  /** One durable step. Accepting a takeover takes two: the gateway denies everything in between. */
  function After(db: Db, e: Event, retained: nat): Db {
    match e
    case Executing(c, doomed) => var out := Execute(db, c, retained, doomed); if out.Done? then out.db else db
    case Acking(a) => PushAck(db, a)
    case Fencing(epoch) => if epoch > db.fence then db.(fence := epoch, takeover := FencedOld) else db
    case Accepting(epoch) => if epoch > db.fence then db.(takeover := FencedOld) else db
    case Advancing(epoch) => if epoch > db.fence && db.takeover.FencedOld? then db.(fence := epoch, takeover := Released) else db
  }

  function AfterAll(db: Db, events: seq<Event>, retained: nat): Db
    decreases |events|
  {
    if events == [] then db else AfterAll(After(db, events[0], retained), events[1..], retained)
  }

  // ---------------------------------------------------------------- what every run keeps

  predicate OnChain(db: Db, id: Id, r: Row) { 1 <= r.sequence <= db.Tip(r.epoch).sequence && r.digest.Of? && r.digest.id == id }

  /** No two rows share a place on a channel. */
  ghost predicate Placed(commands: map<Id, Row>) {
    forall a, b :: a in commands && b in commands && a != b ==> Earlier(commands[a], commands[b]) || Earlier(commands[b], commands[a])
  }

  predicate Raises(earlier: Option<Ref>, later: Option<Ref>) {
    earlier == later || (later.Some? && (earlier.Some? ==> later.value.generation > earlier.value.generation))
  }

  /** The rows lie on the chain below its tip, each in its own place, and within the retention bound. */
  ghost predicate RowsSound(db: Db, retained: nat) {
    && (forall c :: c in db.commands ==> OnChain(db, c, db.commands[c]))
    && Placed(db.commands)
    && |db.commands| <= retained
  }

  /** A staged target is newer than its base, and every deny in force is at or below its high-water mark. */
  ghost predicate Sound(db: Db, retained: nat) {
    && (db.staged.None? ==> db.base.None?)
    && (db.staged.Some? && db.base.Some? ==> db.staged.value.generation > db.base.value.generation)
    && (forall s :: s in db.denies ==> s in db.highwater && db.highwater[s].denyEpoch >= db.denies[s].denyEpoch)
    && RowsSound(db, retained)
  }

  /** What no step ever takes back. */
  ghost predicate Advances(before: Db, after: Db) {
    && ChannelsAdvance(before, after)
    && MarksRise(before.highwater, after.highwater)
    && Raises(before.active, after.active)
    && before.fence <= after.fence
  }

  ghost predicate ChannelsAdvance(before: Db, after: Db) {
    forall e :: before.Tip(e).sequence <= after.Tip(e).sequence
  }

  ghost predicate MarksRise(before: map<Id, Overlay>, after: map<Id, Overlay>) {
    forall s :: s in before ==>
      s in after && before[s].denyEpoch <= after[s].denyEpoch && !FloorContracts(before[s].floor, after[s].floor)
  }

  lemma ChannelsSame(before: Db, after: Db)
    requires after.channel == before.channel
    ensures ChannelsAdvance(before, after)
  {
    assert forall e :: after.Tip(e) == before.Tip(e);
  }

  lemma AdvancesSelf(db: Db)
    ensures Advances(db, db)
  {
  }

  lemma AdvancesTransitive(a: Db, b: Db, c: Db)
    requires Advances(a, b) && Advances(b, c)
    ensures Advances(a, c)
  {
    ChannelsTransitive(a, b, c);
    MarksTransitive(a.highwater, b.highwater, c.highwater);
    hide ChannelsAdvance, MarksRise;
  }

  lemma ChannelsTransitive(a: Db, b: Db, c: Db)
    requires ChannelsAdvance(a, b) && ChannelsAdvance(b, c)
    ensures ChannelsAdvance(a, c)
  {
    forall e
      ensures a.Tip(e).sequence <= c.Tip(e).sequence
    {
      assert a.Tip(e).sequence <= b.Tip(e).sequence <= c.Tip(e).sequence;
    }
  }

  lemma MarksTransitive(a: map<Id, Overlay>, b: map<Id, Overlay>, c: map<Id, Overlay>)
    requires MarksRise(a, b) && MarksRise(b, c)
    ensures MarksRise(a, c)
  {
    forall s | s in a
      ensures s in c && a[s].denyEpoch <= c[s].denyEpoch && !FloorContracts(a[s].floor, c[s].floor)
    {
      assert s in b;
    }
  }

  lemma EffectAdvances(db: Db, p: Payload, retained: nat)
    requires Sound(db, retained) && Effect(db, p).Some?
    ensures Sound(Effect(db, p).value, retained) && Advances(db, Effect(db, p).value)
    ensures Effect(db, p).value.commands == db.commands && Effect(db, p).value.channel == db.channel
  {
    EffectSound(db, p, retained);
    EffectRaises(db, p, retained);
    hide *;
  }

  lemma EffectSound(db: Db, p: Payload, retained: nat)
    requires Sound(db, retained) && Effect(db, p).Some?
    ensures Sound(Effect(db, p).value, retained)
    ensures Effect(db, p).value.commands == db.commands && Effect(db, p).value.channel == db.channel
  {
    EffectKeepsChain(db, p);
    RowsKept(db, Effect(db, p).value, retained);
    hide RowsSound, Db.AboveFloor;
  }

  lemma EffectRaises(db: Db, p: Payload, retained: nat)
    requires Sound(db, retained) && Effect(db, p).Some?
    ensures Advances(db, Effect(db, p).value)
  {
    var after := Effect(db, p).value;
    StagedIsNewer(db, retained);
    EffectKeepsChain(db, p);
    ChannelsSame(db, after);
    EffectOnMarks(db, p);
    hide Sound, Db.AboveFloor, ChannelsAdvance, MarksRise;
  }

  lemma EffectOnMarks(db: Db, p: Payload)
    requires Effect(db, p).Some?
    ensures MarksRise(db.highwater, Effect(db, p).value.highwater)
  {
  }

  lemma StagedIsNewer(db: Db, retained: nat)
    requires Sound(db, retained)
    ensures db.staged.Some? && db.base.Some? ==> db.staged.value.generation > db.base.value.generation
  {
  }

  lemma RowsKept(db: Db, after: Db, retained: nat)
    requires RowsSound(db, retained) && after.commands == db.commands && after.channel == db.channel
    ensures RowsSound(after, retained)
  {
    assert forall e :: after.Tip(e) == db.Tip(e);
    assert forall c :: c in db.commands ==> OnChain(db, c, db.commands[c]) ==> OnChain(after, c, db.commands[c]);
  }

  lemma RoomMade(commands: map<Id, Row>, doomed: set<Id>, id: Id, row: Row)
    ensures |(commands - doomed)[id := row]| <= |commands - doomed| + 1
    ensures forall c :: c in (commands - doomed)[id := row] ==> c == id || (c in commands && (commands - doomed)[id := row][c] == commands[c])
  {
    var kept := commands - doomed;
    assert kept[id := row].Keys == kept.Keys + {id};
    if id in kept {
      assert kept.Keys + {id} == kept.Keys;
    }
    assert |kept[id := row].Keys| == |kept[id := row]| && |kept.Keys| == |kept|;
  }

  lemma RecordedAdvances(db: Db, c: Command, retained: nat, doomed: set<Id>)
    requires Sound(db, retained) && Next(db, c) && Recorded(db, c, retained, doomed).Some?
    ensures Sound(Recorded(db, c, retained, doomed).value, retained) && Advances(db, Recorded(db, c, retained, doomed).value)
  {
    RecordedSound(db, c, retained, doomed);
    hide Sound, Command.Hash;
    var after := Recorded(db, c, retained, doomed).value;
    TipAdvances(db, after, c);
  }

  lemma TipAdvances(db: Db, after: Db, c: Command)
    requires Next(db, c) && after.channel == db.channel[c.epoch := Link(c.sequence, c.Hash())]
    requires after.highwater == db.highwater && after.active == db.active && after.fence == db.fence
    ensures Advances(db, after)
  {
    hide Command.Hash;
    assert forall e :: after.Tip(e) == if e == c.epoch then Link(c.sequence, c.Hash()) else db.Tip(e);
  }

  lemma RecordedSound(db: Db, c: Command, retained: nat, doomed: set<Id>)
    requires Sound(db, retained) && Next(db, c) && Recorded(db, c, retained, doomed).Some?
    ensures Sound(Recorded(db, c, retained, doomed).value, retained)
  {
    var after := Recorded(db, c, retained, doomed).value;
    var row := Row(c.Hash(), c.epoch, c.sequence, None);
    RoomMade(db.commands, doomed, c.id, row);
    RowsAfter(db, retained, after, c, row);
    hide RowsSound, Next;
  }

  lemma RowsAfter(db: Db, retained: nat, after: Db, c: Command, row: Row)
    requires RowsSound(db, retained) && Next(db, c) && row == Row(c.Hash(), c.epoch, c.sequence, None)
    requires c.id in after.commands && after.commands[c.id] == row && |after.commands| <= retained
    requires forall i :: i in after.commands ==> i == c.id || (i in db.commands && after.commands[i] == db.commands[i])
    requires after.channel == db.channel[c.epoch := Link(c.sequence, c.Hash())]
    ensures RowsSound(after, retained)
  {
    RowPlaced(db, retained, after.commands, c.id, row);
    hide Placed;
    assert forall e :: after.Tip(e) == if e == c.epoch then Link(c.sequence, c.Hash()) else db.Tip(e);
    forall id | id in after.commands
      ensures OnChain(after, id, after.commands[id])
    {
      if id != c.id {
        assert OnChain(db, id, db.commands[id]);
      }
    }
  }

  lemma RowPlaced(db: Db, retained: nat, commands: map<Id, Row>, id: Id, row: Row)
    requires RowsSound(db, retained) && id in commands && commands[id] == row && row.sequence == db.Tip(row.epoch).sequence + 1
    requires forall c :: c in commands ==> c == id || (c in db.commands && commands[c] == db.commands[c])
    ensures Placed(commands)
  {
    forall c | c in commands && c != id
      ensures Earlier(commands[c], row) || Earlier(row, commands[c])
    {
      assert OnChain(db, c, db.commands[c]);
    }
  }

  lemma StepAdvances(db: Db, e: Event, retained: nat)
    requires Sound(db, retained)
    ensures Sound(After(db, e, retained), retained) && Advances(db, After(db, e, retained))
  {
    hide Sound, Advances, Effect, Recorded, Next;
    AdvancesSelf(db);
    match e
    case Executing(c, doomed) =>
      if Execute(db, c, retained, doomed).Done? {
        var middle := Effect(db, c.payload).value;
        EffectAdvances(db, c.payload, retained);
        NextKept(db, middle, c);
        RecordedAdvances(middle, c, retained, doomed);
        AdvancesTransitive(db, middle, Recorded(middle, c, retained, doomed).value);
      }
    case Acking(a) => AckAdvances(db, a, retained);
    case Fencing(epoch) => FenceAdvances(db, After(db, e, retained), retained);
    case Accepting(epoch) => FenceAdvances(db, After(db, e, retained), retained);
    case Advancing(epoch) => FenceAdvances(db, After(db, e, retained), retained);
  }

  lemma NextKept(db: Db, middle: Db, c: Command)
    requires Next(db, c) && middle.channel == db.channel
    ensures Next(middle, c)
  {
  }

  lemma AckAdvances(db: Db, a: Ack, retained: nat)
    requires Sound(db, retained)
    ensures Sound(PushAck(db, a), retained) && Advances(db, PushAck(db, a))
  {
    if AcceptsAck(db, a) {
      SameSize(db.commands, a.command, db.commands[a.command].(ack := Some(a)));
      RowsAcked(db, PushAck(db, a), retained);
      ChannelsSame(db, PushAck(db, a));
      hide RowsSound, ChannelsAdvance;
    }
  }

  lemma SameSize(m: map<Id, Row>, id: Id, row: Row)
    requires id in m
    ensures |m[id := row]| == |m|
  {
    assert m[id := row].Keys == m.Keys;
    assert |m[id := row].Keys| == |m[id := row]| && |m.Keys| == |m|;
  }

  lemma RowsAcked(db: Db, after: Db, retained: nat)
    requires RowsSound(db, retained) && after.channel == db.channel && |after.commands| == |db.commands|
    requires forall c :: c in after.commands ==> c in db.commands && after.commands[c] == db.commands[c].(ack := after.commands[c].ack)
    ensures RowsSound(after, retained)
  {
    assert forall e :: after.Tip(e) == db.Tip(e);
    forall c | c in after.commands
      ensures OnChain(after, c, after.commands[c])
    {
      assert OnChain(db, c, db.commands[c]);
    }
  }

  lemma FenceAdvances(db: Db, after: Db, retained: nat)
    requires Sound(db, retained) && after == db.(fence := after.fence, takeover := after.takeover) && db.fence <= after.fence
    ensures Sound(after, retained) && Advances(db, after)
  {
    RowsKept(db, after, retained);
    ChannelsSame(db, after);
    hide RowsSound, ChannelsAdvance;
  }

  /** Along every run the active generation only grows, the deny high-water marks and their floors never
      fall, the fence and every channel only advance, and retention stays within its bound. */
  lemma {:induction false} RunAdvances(db: Db, events: seq<Event>, retained: nat)
    requires Sound(db, retained)
    ensures Sound(AfterAll(db, events, retained), retained) && Advances(db, AfterAll(db, events, retained))
    decreases |events|
  {
    hide Sound, Advances, After;
    AdvancesSelf(db);
    if events != [] {
      var next := After(db, events[0], retained);
      StepAdvances(db, events[0], retained);
      RunAdvances(next, events[1..], retained);
      AdvancesTransitive(db, next, AfterAll(next, events[1..], retained));
    }
  }

  // ---------------------------------------------------------------- at most once

  /** A command that took effect is never executed again, whatever happens in between, even after its
      dedupe row has been pruned: it is answered from its row or refused. */
  lemma AtMostOnce(db: Db, c: Command, doomed: set<Id>, events: seq<Event>, later: set<Id>, retained: nat)
    requires Sound(db, retained) && Execute(db, c, retained, doomed).Done?
    ensures !Execute(AfterAll(Execute(db, c, retained, doomed).db, events, retained), c, retained, later).Done?
  {
    hide Sound, Execute, Advances, AfterAll;
    var done := Execute(db, c, retained, doomed).db;
    var e := Executing(c, doomed);
    TipMoves(db, e, c.epoch, retained);
    StepAdvances(db, e, retained);
    RunAdvances(done, events, retained);
    PassedIsRefused(done, AfterAll(done, events, retained), c, retained, later);
  }

  lemma PassedIsRefused(done: Db, now: Db, c: Command, retained: nat, later: set<Id>)
    requires Advances(done, now) && done.Tip(c.epoch).sequence == c.sequence
    ensures !Execute(now, c, retained, later).Done?
  {
    assert done.Tip(c.epoch).sequence <= now.Tip(c.epoch).sequence;
    hide Effect, Recorded;
  }

  /** Each executed command names the digest of the one executed before it on its channel, so the tip of a
      channel fixes every command that ever took effect on it, in order. */
  ghost predicate Chain(log: seq<Command>, epoch: nat, tip: Link) {
    if log == [] then tip == Link(0, Zero)
    else
      var c := log[|log| - 1];
      && c.epoch == epoch && tip == Link(c.sequence, c.Hash()) && c.sequence == |log|
      && Chain(log[..|log| - 1], epoch, Link(c.sequence - 1, c.previous))
  }

  /** The commands of one channel that a run executes. */
  function Executed(db: Db, events: seq<Event>, epoch: nat, retained: nat): seq<Command>
    decreases |events|
  {
    if events == [] then []
    else
      var e := events[0];
      (if e.Executing? && e.command.epoch == epoch && Execute(db, e.command, retained, e.doomed).Done? then [e.command] else [])
      + Executed(After(db, e, retained), events[1..], epoch, retained)
  }

  lemma TipMoves(db: Db, e: Event, epoch: nat, retained: nat)
    ensures After(db, e, retained).Tip(epoch) ==
            if e.Executing? && e.command.epoch == epoch && Execute(db, e.command, retained, e.doomed).Done?
            then Link(e.command.sequence, e.command.Hash()) else db.Tip(epoch)
  {
    if e.Executing? && Execute(db, e.command, retained, e.doomed).Done? {
      EffectKeepsChain(db, e.command.payload);
      hide Effect;
    }
  }

  lemma EffectKeepsChain(db: Db, p: Payload)
    ensures Effect(db, p).Some? ==> Effect(db, p).value.channel == db.channel && Effect(db, p).value.commands == db.commands
  {
  }

  /** An executed command is the next of its chain. */
  lemma ExecutedIsNext(db: Db, c: Command, retained: nat, doomed: set<Id>)
    requires Execute(db, c, retained, doomed).Done?
    ensures Next(db, c)
  {
  }

  lemma {:induction false} RunChains(db: Db, events: seq<Event>, epoch: nat, retained: nat, log: seq<Command>)
    requires Chain(log, epoch, db.Tip(epoch))
    ensures Chain(log + Executed(db, events, epoch, retained), epoch, AfterAll(db, events, retained).Tip(epoch))
    decreases |events|
  {
    hide After, Execute;
    if events == [] {
      assert log + [] == log;
    } else {
      var e := events[0];
      TipMoves(db, e, epoch, retained);
      var next := After(db, e, retained);
      var rest := Executed(next, events[1..], epoch, retained);
      if e.Executing? && e.command.epoch == epoch && Execute(db, e.command, retained, e.doomed).Done? {
        var longer := log + [e.command];
        assert longer[..|log|] == log;
        ChainTip(log, epoch, db.Tip(epoch));
        ExecutedIsNext(db, e.command, retained, e.doomed);
        RunChains(next, events[1..], epoch, retained, longer);
        assert log + ([e.command] + rest) == longer + rest;
      } else {
        RunChains(next, events[1..], epoch, retained, log);
        assert log + ([] + rest) == log + rest;
      }
    }
  }

  lemma ChainTip(log: seq<Command>, epoch: nat, tip: Link)
    requires Chain(log, epoch, tip)
    ensures tip.sequence == |log|
  {
  }

  /** The tip fixes the log. */
  lemma {:induction false} ChainInjective(a: seq<Command>, b: seq<Command>, epoch: nat, tip: Link)
    requires Chain(a, epoch, tip) && Chain(b, epoch, tip)
    ensures a == b
    decreases |a|
  {
    ChainTip(a, epoch, tip);
    ChainTip(b, epoch, tip);
    if a != [] {
      var n := |a| - 1;
      ChainInjective(a[..n], b[..n], epoch, Link(a[n].sequence - 1, a[n].previous));
      assert a == a[..n] + [a[n]] && b == b[..n] + [b[n]];
    }
  }

  // ---------------------------------------------------------------- activations and floors

  /** An activation strictly raises the generation, and its target lies above every floor that was ever
      imposed before it. */
  lemma ActivationExceedsFloors(start: Db, events: seq<Event>, c: Command, doomed: set<Id>, retained: nat)
    requires Sound(start, retained)
    requires var db := AfterAll(start, events, retained);
             Execute(db, c, retained, doomed).Done? && Execute(db, c, retained, doomed).db.active != db.active
    ensures var db := AfterAll(start, events, retained);
            var target := Execute(db, c, retained, doomed).db.active;
            && c.payload.CommitTo? && target == Some(c.payload.target)
            && (db.active.Some? ==> target.value.generation > db.active.value.generation)
            && (forall s :: s in start.highwater && start.highwater[s].floor.Some? ==> target.value.generation > start.highwater[s].floor.value)
  {
    RunAdvances(start, events, retained);
    var db := AfterAll(start, events, retained);
    StepActivates(db, c, doomed, retained);
    hide Execute, Sound;
    forall s | s in start.highwater && start.highwater[s].floor.Some?
      ensures c.payload.target.generation > start.highwater[s].floor.value
    {
      assert s in db.highwater;
    }
  }

  lemma StepActivates(db: Db, c: Command, doomed: set<Id>, retained: nat)
    requires Sound(db, retained) && Execute(db, c, retained, doomed).Done? && Execute(db, c, retained, doomed).db.active != db.active
    ensures c.payload.CommitTo? && Execute(db, c, retained, doomed).db.active == Some(c.payload.target) && ValidCommit(db, c.payload.target)
    ensures db.active.Some? ==> c.payload.target.generation > db.active.value.generation
  {
    ExecutedEffect(db, c, doomed, retained);
    StagedIsNewer(db, retained);
    hide Execute, Recorded, Next, Sound, Db.AboveFloor;
  }

  lemma ExecutedEffect(db: Db, c: Command, doomed: set<Id>, retained: nat)
    requires Execute(db, c, retained, doomed).Done?
    ensures Effect(db, c.payload).Some? && Execute(db, c, retained, doomed).db.active == Effect(db, c.payload).value.active
  {
    hide Effect, Next;
  }

  // ---------------------------------------------------------------- retention

  /** The event stores the acknowledgement of `id`. */
  predicate Answers(db: Db, e: Event, id: Id) { e.Acking? && e.ack.command == id && AcceptsAck(db, e.ack) }

  /** Making room removes acknowledged rows only, so a command whose acknowledgement has not been stored
      keeps its row, and a repetition of it is answered. */
  lemma UnackedAreKept(db: Db, e: Event, id: Id, retained: nat)
    requires id in db.commands && db.commands[id].ack.None?
    requires e.Executing? ==> MakesRoom(db.commands, retained, e.doomed)
    requires !Answers(db, e, id)
    ensures id in After(db, e, retained).commands && After(db, e, retained).commands[id] == db.commands[id]
  {
  }

  /** A stored acknowledgement never changes while its row is there; every other one for it is refused. */
  lemma AcksAreFinal(db: Db, e: Event, id: Id, retained: nat)
    requires id in db.commands && db.commands[id].ack.Some?
    ensures id in After(db, e, retained).commands ==> After(db, e, retained).commands[id] == db.commands[id]
    ensures e.Acking? && e.ack.command == id ==> (AcceptsAck(db, e.ack) ==> Some(e.ack) == db.commands[id].ack)
  {
    hide Next;
  }

  /** Along these events every retention step makes room as the code does, and no acknowledgement of `id`
      is stored. */
  ghost predicate Unanswered(db: Db, events: seq<Event>, id: Id, retained: nat)
    decreases |events|
  {
    events == [] ||
    (&& (events[0].Executing? ==> MakesRoom(db.commands, retained, events[0].doomed))
     && !Answers(db, events[0], id) && Unanswered(After(db, events[0], retained), events[1..], id, retained))
  }

  lemma {:induction false} UnansweredKeepsRow(db: Db, events: seq<Event>, id: Id, retained: nat)
    requires id in db.commands && db.commands[id].ack.None? && Unanswered(db, events, id, retained)
    ensures id in AfterAll(db, events, retained).commands && AfterAll(db, events, retained).commands[id] == db.commands[id]
    decreases |events|
  {
    hide After, MakesRoom;
    if events != [] {
      UnackedAreKept(db, events[0], id, retained);
      UnansweredKeepsRow(After(db, events[0], retained), events[1..], id, retained);
    }
  }

  /** A command that took effect is answered as a repetition, however often it comes again, until its
      acknowledgement has been stored; one that differs under the same identifier is refused. */
  lemma RepeatedUntilAcked(db: Db, c: Command, doomed: set<Id>, events: seq<Event>, again: Command, later: set<Id>, retained: nat)
    requires Execute(db, c, retained, doomed).Done? && again.id == c.id
    requires Unanswered(Execute(db, c, retained, doomed).db, events, c.id, retained)
    ensures Execute(AfterAll(Execute(db, c, retained, doomed).db, events, retained), again, retained, later)
            == if again.Hash() == c.Hash() then Repeated else Refused
  {
    var done := Execute(db, c, retained, doomed).db;
    ExecutedRow(db, c, doomed, retained);
    UnansweredKeepsRow(done, events, c.id, retained);
    hide AfterAll, Effect, Next, Recorded, Unanswered;
  }

  lemma ExecutedRow(db: Db, c: Command, doomed: set<Id>, retained: nat)
    requires Execute(db, c, retained, doomed).Done?
    ensures var done := Execute(db, c, retained, doomed).db;
            c.id in done.commands && done.commands[c.id] == Row(c.Hash(), c.epoch, c.sequence, None)
  {
    hide Effect, Next;
  }
}
