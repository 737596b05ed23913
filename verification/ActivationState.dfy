/** The gateway's local state as an object over a database with atomic transactions, bundle files and a
    pointer file. The ghost trace collects the disk at every point at which the process could stop. */
module ActivationState {
  import opened Common
  import opened Activation
  import Rules = ActivationRules

  /** Bundle files are named by their hash, which fixes their content; here, its generation. */
  datatype Disk = Disk(db: Db, pointer: Option<Ref>, bundles: map<Id, nat>)

  predicate Present(bundles: map<Id, nat>, r: Option<Ref>) { r.Some? ==> r.value.hash in bundles && bundles[r.value.hash] == r.value.generation }

  predicate Readable(bundles: map<Id, nat>, r: Option<Ref>) { r.Some? ==> r.value.hash in bundles }

  datatype Opening = Opened(disk: Disk) | NeedsRecovery

  /** Recovery: the database decides. A staged bundle that does not load is dropped with its base; an active
      or previous one that does not load needs recovery; the pointer file is rewritten to the active
      reference. */
  function Recover(d: Disk): Opening {
    if !Readable(d.bundles, d.db.previous) || !Present(d.bundles, d.db.active) then NeedsRecovery
    else
      var db := if Present(d.bundles, d.db.staged) then d.db else d.db.(staged := None, base := None);
      Opened(d.(db := db, pointer := db.active))
  }

  /** Every reference of the database has a bundle that loads. */
  predicate Whole(d: Disk) {
    Readable(d.bundles, d.db.previous) && Present(d.bundles, d.db.active) && Present(d.bundles, d.db.staged)
  }

  /** Reopening gives exactly this database, and a pointer that agrees with it. */
  predicate Reopens(d: Disk, db: Db) {
    var o := Recover(d);
    o.Opened? && o.disk.db == db && o.disk.pointer == db.active
  }

  lemma WholeReopens(d: Disk)
    requires Whole(d)
    ensures Reopens(d, d.db)
  {
  }

  class GatewayLocalState {
    const retained: nat
    // The disk.
    var db: Db
    var pointer: Option<Ref>
    var bundles: map<Id, nat>
    // Memory.
    var active: Option<Ref>
    var staged: Option<Ref>
    var previous: Option<Ref>
    var base: Option<Ref>
    var denies: map<Id, Overlay>
    var highwater: map<Id, Overlay>
    var fence: nat
    var takeover: Takeover
    var recoveryRequired: bool
    ghost var trace: seq<Disk>

    function OnDisk(): Disk
      reads this
    {
      Disk(db, pointer, bundles)
    }

    /** Memory mirrors the database, and every reference has its bundle. */
    ghost predicate Valid()
      reads this
    {
      && !recoveryRequired && Whole(OnDisk()) && Sound(db, retained)
      && active == db.active && staged == db.staged && previous == db.previous && base == db.base
      && denies == db.denies && highwater == db.highwater && fence == db.fence && takeover == db.takeover
    }

    /** Open whatever is there. Without an active or previous bundle that loads, nothing on disk is touched,
        nothing is active, and recovery is required; otherwise the database decides. */
    constructor Open(d: Disk, retained: nat)
      requires Sound(d.db, retained)
      ensures this.retained == retained && bundles == d.bundles && trace == [d, OnDisk()]
      ensures recoveryRequired <==> !(Readable(d.bundles, d.db.previous) && Present(d.bundles, d.db.active))
      ensures recoveryRequired ==> OnDisk() == d && active.None?
      ensures !recoveryRequired ==>
                && Valid() && pointer == d.db.active && Reopens(d, db)
                && db == if Present(d.bundles, d.db.staged) then d.db else d.db.(staged := None, base := None)
    {
      var opening := Recover(d);
      var start := if opening.Opened? then opening.disk else d;
      this.retained := retained;
      recoveryRequired := opening.NeedsRecovery?;
      db, pointer, bundles := start.db, start.pointer, start.bundles;
      active := if opening.Opened? then start.db.active else None;
      staged, previous, base := start.db.staged, start.db.previous, start.db.base;
      denies := if opening.Opened? then start.db.denies else map[];
      highwater := if opening.Opened? then start.db.highwater else map[];
      fence, takeover := start.db.fence, start.db.takeover;
      trace := [d, start];
      if opening.Opened? {
        RecoverIsSound(d, retained);
      }
    }

    /** The new part of the trace reopens to the state before the operation or to the one after it. */
    twostate predicate NeverAMix()
      reads this
    {
      && old(trace) <= trace
      && forall i :: |old(trace)| <= i < |trace| ==> Reopens(trace[i], old(db)) || Reopens(trace[i], db)
    }

    ghost method Note()
      requires Whole(OnDisk())
      modifies this`trace
      ensures trace == old(trace) + [OnDisk()] && Reopens(OnDisk(), db)
    {
      WholeReopens(OnDisk());
      trace := trace + [OnDisk()];
    }

    /** Store a bundle under its hash. */
    method StoreBundle(r: Ref)
      requires Valid() && (r.hash in bundles ==> bundles[r.hash] == r.generation)
      modifies this`bundles, this`trace
      ensures Valid() && NeverAMix() && bundles == old(bundles)[r.hash := r.generation]
    {
      bundles := bundles[r.hash := r.generation];
      Note();
    }

    /** The command row and the chain, inside the transaction; the caller has made the other change. */
    method Reserve(commands: map<Id, Row>) returns (doomed: set<Id>)
      requires Placed(commands)
      ensures MakesRoom(commands, retained, doomed)
    {
      doomed := {};
      var excess := |commands| - retained + 1;
      var left := Acked(commands);
      ghost var all := left;
      while |doomed| < excess && left != {}
        invariant doomed + left == all && doomed !! left
        invariant |doomed| <= Max(0, excess)
        invariant forall d, k :: d in doomed && k in left ==> Earlier(commands[d], commands[k])
        decreases |left|
      {
        var first := Oldest(commands, left);
        left := left - {first};
        doomed := doomed + {first};
      }
      Counted(doomed, left, all);
    }

    /** Execute a command whose binding has been checked. A bundle comes with a preparation. */
    method Execute(c: Command) returns (outcome: Outcome, ghost doomed: set<Id>)
      requires Valid()
      requires c.payload.Prepare? ==> c.payload.target.hash in bundles ==> bundles[c.payload.target.hash] == c.payload.target.generation
      modifies this`db, this`pointer, this`bundles, this`active, this`staged, this`previous, this`base, this`denies, this`highwater, this`trace
      ensures Valid() && NeverAMix()
      ensures MakesRoom(old(db).commands, retained, doomed)
      ensures outcome == Activation.Execute(old(db), c, retained, doomed)
      ensures db == if outcome.Done? then outcome.db else old(db)
      ensures outcome.Done? <==>
                && c.id !in old(db).commands && Rules.FollowsOn(old(db), c) && Rules.Allowed(old(db), c.payload)
                && |Rules.Unanswerable(old(db).commands)| < retained
      ensures outcome.Done? ==> Rules.Changes(old(db), c.payload, db) && Rules.Records(old(db), c, doomed, db)
    {
      hide Sound, Effect, Recorded, Next, Whole, Placed, MakesRoom, Rules.FollowsOn, Rules.Allowed, Rules.Unanswerable,
           Rules.Changes, Rules.Records, Rules.Removes;
      PlacedOf(db, retained);
      var room := Reserve(db.commands);
      doomed := room;
      Rules.RoomIs(db.commands, retained, room);
      Rules.ExecuteIs(db, c, retained, room);
      if c.id in db.commands {
        outcome := if db.commands[c.id].digest == c.Hash() then Repeated else Refused;
        return;
      }
      var effect := Effect(db, c.payload);
      if !Next(db, c) || effect.None? {
        return Refused, doomed;
      }
      if c.payload.Prepare? {
        StoreBundle(c.payload.target);
      }
      if c.payload.CommitTo? {
        WritePointer(c.payload.target);
      }
      var after := Recorded(effect.value, c, retained, room);
      if after.None? {
        NotRecorded(old(db), c, retained, room);
        return Refused, doomed;
      }
      outcome := Done(after.value);
      ExecuteKeeps(db, c, retained, room);
      EffectWhole(db, pointer, bundles, c.payload, after.value);
      Transact(after.value);
    }

    /** The pointer file is replaced before the transaction: for a moment it names a target that the
        database does not know as active. */
    method WritePointer(target: Ref)
      requires Valid()
      modifies this`pointer, this`trace
      ensures Valid() && NeverAMix() && pointer == Some(target)
    {
      pointer := Some(target);
      Note();
    }

    /** One transaction, and then memory. */
    method Transact(after: Db)
      requires Valid() && Sound(after, retained) && Whole(Disk(after, pointer, bundles))
      requires after.fence == db.fence && after.takeover == db.takeover
      modifies this`db, this`active, this`staged, this`previous, this`base, this`denies, this`highwater, this`trace
      ensures Valid() && NeverAMix() && db == after
    {
      hide Sound, Whole, Recover;
      db := after;
      Note();
      active, staged, previous, base := db.active, db.staged, db.previous, db.base;
      denies, highwater := db.denies, db.highwater;
    }

    /** Store an acknowledgement. It is refused if its command has no row, if it names another digest or
        another acknowledgement than the row's, or if a different one has been stored; the same one again is
        accepted and changes nothing. */
    method PushAck(a: Ack) returns (ok: bool)
      requires Valid()
      modifies this`db, this`trace
      ensures Valid() && NeverAMix() && db == Activation.PushAck(old(db), a)
      ensures ok <==> && a.command in old(db).commands
                      && old(db).commands[a.command].digest == a.digest && a.id == a.command
                      && (old(db).commands[a.command].ack.None? || old(db).commands[a.command].ack == Some(a))
      ensures ok ==> a.command in db.commands && db.commands[a.command] == old(db).commands[a.command].(ack := Some(a))
      ensures !ok || old(db).commands[a.command].ack.Some? ==> db == old(db) && trace == old(trace)
    {
      AckAdvances(db, a, retained);
      hide Sound, Advances, Recover, Whole;
      if a.command !in db.commands {
        return false;
      }
      var row := db.commands[a.command];
      if row.digest != a.digest || a.id != a.command {
        return false;
      }
      if row.ack.Some? {
        assert row.ack == Some(a) ==> db.commands[a.command := row] == db.commands;
        return row.ack == Some(a);
      }
      SameReferences(OnDisk(), db.(commands := db.commands[a.command := row.(ack := Some(a))]));
      db := db.(commands := db.commands[a.command := row.(ack := Some(a))]);
      Note();
      return true;
    }

    /** Take over from another installation, in two transactions. The point between them is neither the
        state before nor the one after: it denies everything, and accepting again completes it. */
    method AcceptTakeover(epoch: nat) returns (ok: bool)
      requires Valid()
      modifies this`db, this`fence, this`takeover, this`trace
      ensures Valid() && ok == (epoch > old(db).fence)
      ensures db == if ok then After(After(old(db), Accepting(epoch), retained), Advancing(epoch), retained) else old(db)
      ensures db == if ok then old(db).(fence := epoch, takeover := Released) else old(db)
      ensures old(trace) <= trace
      ensures forall i :: |old(trace)| <= i < |trace| ==>
                Reopens(trace[i], old(db).(takeover := FencedOld)) || Reopens(trace[i], db)
    {
      if epoch <= fence {
        return false;
      }
      hide Sound, Whole, Recover, After, Reopens;
      TakeoverSteps(db, epoch, retained);
      Fence(fence, FencedOld);
      Fence(epoch, Released);
      return true;
    }

    /** One transaction on the fence and the takeover state, and then memory. */
    method Fence(epoch: nat, state: Takeover)
      requires Valid() && Sound(db.(fence := epoch, takeover := state), retained)
      modifies this`db, this`fence, this`takeover, this`trace
      ensures Valid() && db == old(db).(fence := epoch, takeover := state)
      ensures trace == old(trace) + [OnDisk()] && Reopens(OnDisk(), db)
    {
      hide Sound;
      db := db.(fence := epoch, takeover := state);
      fence, takeover := epoch, state;
      Note();
    }

    /** The old host fences itself, in one transaction. */
    method RecordOldFence(epoch: nat) returns (ok: bool)
      requires Valid()
      modifies this`db, this`fence, this`takeover, this`trace
      ensures Valid() && NeverAMix() && ok == (epoch > old(db).fence) && db == After(old(db), Fencing(epoch), retained)
      ensures db == if ok then old(db).(fence := epoch, takeover := FencedOld) else old(db)
    {
      if epoch <= fence {
        return false;
      }
      hide Sound, Advances, Whole, Recover, Activation.Execute, Activation.PushAck;
      StepAdvances(db, Fencing(epoch), retained);
      Fence(epoch, FencedOld);
      return true;
    }

    /** The highest generation that a deny ever set as a floor. */
    method DenyFloor() returns (floor: Option<nat>)
      ensures IsFloor(highwater, floor)
    {
      floor := None;
      var todo := highwater.Keys;
      while todo != {}
        invariant todo <= highwater.Keys && IsFloorOf(highwater, highwater.Keys - todo, floor)
        decreases |todo|
      {
        var s :| s in todo;
        var next := highwater[s].floor;
        if next.Some? && (floor.None? || next.value > floor.value) {
          floor := next;
        }
        todo := todo - {s};
      }
      assert highwater.Keys - {} == highwater.Keys;
    }

    /** Delete the bundle files that no reference needs and that are not listed with the generation of the
        deny floor. `listed` are the rows of the table of bundles. */
    method CollectBundles(listed: map<Id, nat>) returns (floor: Option<nat>)
      requires Valid()
      modifies this`bundles, this`trace
      ensures Valid() && NeverAMix() && IsFloor(db.highwater, floor)
      ensures forall h :: h in bundles <==>
                h in old(bundles) && (h in Referenced(db) || (h in listed && floor == Some(listed[h])))
      ensures forall h :: h in bundles ==> bundles[h] == old(bundles)[h]
    {
      floor := DenyFloor();
      var keep := set h | h in listed && floor == Some(listed[h]);
      bundles := bundles - (bundles.Keys - keep - Referenced(db));
      Note();
    }
  }

  predicate IsFloorOf(highwater: map<Id, Overlay>, among: set<Id>, floor: Option<nat>) {
    && (forall s :: s in among && s in highwater && highwater[s].floor.Some? ==> floor.Some? && highwater[s].floor.value <= floor.value)
    && (floor.Some? ==> exists s :: s in among && s in highwater && highwater[s].floor == floor)
  }

  /** The greatest of the floors, if there are any. */
  predicate IsFloor(highwater: map<Id, Overlay>, floor: Option<nat>) { IsFloorOf(highwater, highwater.Keys, floor) }

  lemma SameReferences(d: Disk, after: Db)
    requires Whole(d) && after == d.db.(commands := after.commands)
    ensures Whole(d.(db := after))
  {
  }

  lemma RecoverIsSound(d: Disk, retained: nat)
    requires Sound(d.db, retained) && Recover(d).Opened?
    ensures Sound(Recover(d).disk.db, retained) && Whole(Recover(d).disk) && Reopens(d, Recover(d).disk.db)
  {
  }

  lemma TakeoverSteps(db: Db, epoch: nat, retained: nat)
    requires Sound(db, retained) && epoch > db.fence
    ensures var between := After(db, Accepting(epoch), retained);
            && between == db.(fence := db.fence, takeover := FencedOld) && Sound(between, retained)
            && After(between, Advancing(epoch), retained) == between.(fence := epoch, takeover := Released)
            && Sound(between.(fence := epoch, takeover := Released), retained)
  {
    hide Sound, Advances;
    var between := After(db, Accepting(epoch), retained);
    StepAdvances(db, Accepting(epoch), retained);
    StepAdvances(between, Advancing(epoch), retained);
  }

  function Hashes(r: Option<Ref>): set<Id> { if r.Some? then {r.value.hash} else {} }

  function Referenced(db: Db): set<Id> { Hashes(db.active) + Hashes(db.staged) + Hashes(db.previous) }

  lemma PlacedOf(db: Db, retained: nat)
    requires Sound(db, retained)
    ensures Placed(db.commands)
  {
  }

  /** A command's effect only refers to bundles that are there: its own, if it prepares one. */
  lemma EffectWhole(db: Db, pointer: Option<Ref>, bundles: map<Id, nat>, p: Payload, after: Db)
    requires Whole(Disk(db, pointer, bundles)) && Effect(db, p).Some?
    requires p.Prepare? ==> Present(bundles, Some(p.target))
    requires after == Effect(db, p).value.(commands := after.commands, channel := after.channel)
    ensures Whole(Disk(after, pointer, bundles))
  {
  }

  /** Recording a command leaves its effect as it is. */
  lemma ExecuteKeeps(db: Db, c: Command, retained: nat, doomed: set<Id>)
    requires Sound(db, retained) && c.id !in db.commands && Next(db, c) && Effect(db, c.payload).Some?
    requires Recorded(Effect(db, c.payload).value, c, retained, doomed).Some?
    ensures var effect := Effect(db, c.payload).value;
            var after := Recorded(effect, c, retained, doomed).value;
            && Activation.Execute(db, c, retained, doomed) == Done(after)
            && Sound(after, retained)
            && after == effect.(commands := after.commands, channel := after.channel)
            && after.fence == db.fence && after.takeover == db.takeover
  {
    hide Sound, Effect, Next, Recorded, Advances;
    StepAdvances(db, Executing(c, doomed), retained);
    RecordedIs(Effect(db, c.payload).value, c, retained, doomed);
    EffectKeepsFence(db, c.payload);
  }

  lemma RecordedIs(db: Db, c: Command, retained: nat, doomed: set<Id>)
    requires Recorded(db, c, retained, doomed).Some?
    ensures var after := Recorded(db, c, retained, doomed).value;
            after == db.(commands := after.commands, channel := after.channel)
  {
  }

  lemma EffectKeepsFence(db: Db, p: Payload)
    requires Effect(db, p).Some?
    ensures Effect(db, p).value.fence == db.fence && Effect(db, p).value.takeover == db.takeover
  {
  }

  lemma NotRecorded(db: Db, c: Command, retained: nat, doomed: set<Id>)
    requires c.id !in db.commands && Effect(db, c.payload).Some? && Recorded(Effect(db, c.payload).value, c, retained, doomed).None?
    ensures Activation.Execute(db, c, retained, doomed) == Refused
  {
  }

  method Oldest(commands: map<Id, Row>, among: set<Id>) returns (first: Id)
    requires among != {} && among <= commands.Keys && Placed(commands)
    ensures first in among && forall k :: k in among && k != first ==> Earlier(commands[first], commands[k])
  {
    first :| first in among;
    var todo := among - {first};
    while todo != {}
      invariant first in among && todo <= among
      invariant forall k :: k in among && k !in todo && k != first ==> Earlier(commands[first], commands[k])
      decreases |todo|
    {
      var k :| k in todo;
      if k != first && Earlier(commands[k], commands[first]) {
        first := k;
      }
      todo := todo - {k};
    }
  }

  lemma Counted(a: set<Id>, b: set<Id>, all: set<Id>)
    requires a + b == all && a !! b
    ensures |all| == |a| + |b|
  {
    assert all == a + b;
  }

  // ---------------------------------------------------------------- the point inside a takeover

  /** Stopped between its two transactions, a takeover leaves a gateway that denies everything, and
      accepting the same receipt again gives what the uninterrupted takeover would have given. */
  lemma TakeoverResumes(db: Db, epoch: nat, retained: nat)
    requires epoch > db.fence
    ensures var between := After(db, Accepting(epoch), retained);
            && between.takeover.FencedOld?
            && After(After(between, Accepting(epoch), retained), Advancing(epoch), retained)
               == After(After(db, Accepting(epoch), retained), Advancing(epoch), retained)
  {
  }

  /** Losing a staged bundle drops the staged activation and nothing else. */
  lemma StagedBundleLost(d: Disk)
    requires Readable(d.bundles, d.db.previous) && Present(d.bundles, d.db.active) && !Present(d.bundles, d.db.staged)
    ensures Reopens(d, d.db.(staged := None, base := None))
  {
  }
}
