/** What each activation command requires and leaves behind, said over the database's own tables, and what
    that makes of denies over a run. No definition here calls the execution of Activation. */
module ActivationRules {
  import opened Common
  import opened Activation

  // ---------------------------------------------------------------- what a command requires

  /** No deny ever set a floor at or above this generation. */
  predicate ClearsFloors(db: Db, generation: nat) {
    forall s :: s in db.highwater && db.highwater[s].floor != None ==> db.highwater[s].floor.value < generation
  }

  predicate Allowed(db: Db, p: Payload) {
    match p
    case Prepare(target, base) =>
      && base == db.active && db.staged == None && ClearsFloors(db, target.generation)
      && (match base case Some(b) => b.generation < target.generation case None => true)
    case CommitTo(target) => db.staged == Some(target) && db.base == db.active && ClearsFloors(db, target.generation)
    case Deny(subject, epoch, floor) =>
      subject in db.highwater ==>
        && db.highwater[subject].denyEpoch < epoch
        && (match db.highwater[subject].floor case Some(f) => floor.Some? && f <= floor.value case None => true)
    case ClearDeny(subject, epoch) => subject in db.denies && db.denies[subject].denyEpoch == epoch
    case Status => true
  }

  /** The command follows the last one of its channel, or begins it. */
  predicate FollowsOn(db: Db, c: Command) {
    if c.epoch in db.channel then c.sequence == db.channel[c.epoch].sequence + 1 && c.previous == db.channel[c.epoch].digest
    else c.sequence == 1 && c.previous == Zero
  }

  function Fingerprint(c: Command): Digest { Of(c.id, c.epoch, c.sequence, c.previous, c.payload) }

  function Unanswerable(commands: map<Id, Row>): set<Id> { set id | id in commands && commands[id].ack == None }

  function Answered(commands: map<Id, Row>): set<Id> { set id | id in commands && commands[id].ack != None }

  /** The rows removed to make room for one more: answered ones, the oldest by channel and sequence, as many
      as it takes, or all of them if that is too few. */
  ghost predicate Removes(commands: map<Id, Row>, retained: nat, doomed: set<Id>) {
    && doomed <= Answered(commands)
    && (forall d, k :: d in doomed && k in Answered(commands) && k !in doomed ==>
          commands[d].epoch < commands[k].epoch
          || (commands[d].epoch == commands[k].epoch && commands[d].sequence < commands[k].sequence))
    && (if |commands| < retained then doomed == {}
        else if |Answered(commands)| <= |commands| + 1 - retained then doomed == Answered(commands)
        else |doomed| == |commands| + 1 - retained)
  }

  lemma RoomIs(commands: map<Id, Row>, retained: nat, doomed: set<Id>)
    ensures MakesRoom(commands, retained, doomed) <==> Removes(commands, retained, doomed)
  {
    assert Acked(commands) == Answered(commands);
    if doomed <= Answered(commands) && |doomed| == |Answered(commands)| {
      SameSizeSame(doomed, Answered(commands));
    }
  }

  lemma SameSizeSame(part: set<Id>, whole: set<Id>)
    requires part <= whole && |part| == |whole|
    ensures part == whole
  {
    if x :| x in whole && x !in part {
      assert part <= whole - {x};
      PartIsSmaller(part, whole - {x});
    }
  }

  lemma {:induction false} PartIsSmaller(part: set<Id>, whole: set<Id>)
    requires part <= whole
    ensures |part| <= |whole|
    decreases |part|
  {
    if part != {} {
      var x :| x in part;
      PartIsSmaller(part - {x}, whole - {x});
    }
  }

  // ---------------------------------------------------------------- what it leaves

  predicate SameReferences(db: Db, after: Db) {
    after.active == db.active && after.staged == db.staged && after.previous == db.previous && after.base == db.base
  }

  predicate SameDenies(db: Db, after: Db) { after.denies == db.denies && after.highwater == db.highwater }

  /** The other subjects are as they were. */
  predicate OtherSubjects(before: map<Id, Overlay>, subject: Id, after: map<Id, Overlay>) {
    && (forall s :: s in before && s != subject ==> s in after && after[s] == before[s])
    && (forall s :: s in after && s != subject ==> s in before)
  }

  predicate Changes(db: Db, p: Payload, after: Db) {
    match p
    case Prepare(target, base) =>
      && SameDenies(db, after) && after.staged == Some(target) && after.base == base
      && after.active == db.active && after.previous == db.previous
    case CommitTo(target) =>
      && SameDenies(db, after) && after.active == Some(target) && after.previous == db.active
      && after.staged == None && after.base == None
    case Deny(subject, epoch, floor) =>
      && SameReferences(db, after)
      && OtherSubjects(db.denies, subject, after.denies) && OtherSubjects(db.highwater, subject, after.highwater)
      && subject in after.denies && after.denies[subject] == Overlay(epoch, floor)
      && subject in after.highwater && after.highwater[subject] == Overlay(epoch, floor)
    case ClearDeny(subject, _) =>
      && SameReferences(db, after) && after.highwater == db.highwater
      && OtherSubjects(db.denies, subject, after.denies) && subject !in after.denies
    case Status => SameReferences(db, after) && SameDenies(db, after)
  }

  /** The command's row and its place on the channel; the doomed rows are gone, and nothing else. */
  predicate Records(db: Db, c: Command, doomed: set<Id>, after: Db) {
    && c.id in after.commands && after.commands[c.id] == Row(Fingerprint(c), c.epoch, c.sequence, None)
    && (forall id :: id in after.commands && id != c.id ==> id in db.commands && id !in doomed && after.commands[id] == db.commands[id])
    && (forall id :: id in db.commands && id !in doomed ==> id in after.commands)
    && after.channel == db.channel[c.epoch := Link(c.sequence, Fingerprint(c))]
    && after.fence == db.fence && after.takeover == db.takeover
  }

  lemma EffectIs(db: Db, p: Payload)
    ensures Effect(db, p).Some? <==> Allowed(db, p)
    ensures Effect(db, p).Some? ==>
              var after := Effect(db, p).value;
              && Changes(db, p, after) && after.commands == db.commands && after.channel == db.channel
              && after.fence == db.fence && after.takeover == db.takeover
  {
  }

  /** Making room suffices exactly while fewer than the retained number of rows wait for their answer. */
  lemma RoomSuffices(commands: map<Id, Row>, retained: nat, doomed: set<Id>)
    requires Removes(commands, retained, doomed)
    ensures |commands - doomed| < retained <==> |Unanswerable(commands)| < retained
  {
    KeptSize(commands, doomed);
    UnansweredSize(commands);
    PartIsSmaller(doomed, Answered(commands));
    hide Answered, Unanswerable;
  }

  lemma KeptSize(commands: map<Id, Row>, doomed: set<Id>)
    requires doomed <= commands.Keys
    ensures |commands - doomed| == |commands| - |doomed|
  {
    assert (commands - doomed).Keys == commands.Keys - doomed;
    assert |commands - doomed| == |(commands - doomed).Keys| && |commands| == |commands.Keys|;
    Parts(commands.Keys, doomed);
  }

  lemma UnansweredSize(commands: map<Id, Row>)
    ensures |Unanswerable(commands)| == |commands| - |Answered(commands)|
  {
    assert |commands| == |commands.Keys|;
    assert commands.Keys - Answered(commands) == Unanswerable(commands);
    Parts(commands.Keys, Answered(commands));
  }

  lemma Parts(whole: set<Id>, part: set<Id>)
    requires part <= whole
    ensures |whole - part| == |whole| - |part|
  {
    assert whole == part + (whole - part);
  }

  /** A command seen before is answered from its row exactly if it is the very same; a new one takes effect
      exactly if it is the next of its channel, its own conditions hold and there is room for its row. It then
      changes what it names, is recorded, and touches nothing else. */
  lemma ExecuteIs(db: Db, c: Command, retained: nat, doomed: set<Id>)
    requires Removes(db.commands, retained, doomed)
    ensures var out := Execute(db, c, retained, doomed);
            && (out.Repeated? <==> c.id in db.commands && db.commands[c.id].digest == Fingerprint(c))
            && (out.Done? <==> c.id !in db.commands && FollowsOn(db, c) && Allowed(db, c.payload)
                               && |Unanswerable(db.commands)| < retained)
            && (out.Done? ==> Changes(db, c.payload, out.db) && Records(db, c, doomed, out.db))
  {
    hide Effect, Removes, Allowed, Unanswerable;
    EffectIs(db, c.payload);
    RoomSuffices(db.commands, retained, doomed);
    NextIs(db, c);
    if Execute(db, c, retained, doomed).Done? {
      DoneIs(db, c, retained, doomed);
    }
  }

  lemma NextIs(db: Db, c: Command)
    ensures Next(db, c) <==> FollowsOn(db, c)
    ensures c.Hash() == Fingerprint(c)
  {
  }

  lemma DoneIs(db: Db, c: Command, retained: nat, doomed: set<Id>)
    requires Execute(db, c, retained, doomed).Done?
    ensures Changes(db, c.payload, Execute(db, c, retained, doomed).db) && Records(db, c, doomed, Execute(db, c, retained, doomed).db)
  {
    hide *;
    DoneChanges(db, c, retained, doomed);
    DoneRecords(db, c, retained, doomed);
  }

  lemma DoneChanges(db: Db, c: Command, retained: nat, doomed: set<Id>)
    requires Execute(db, c, retained, doomed).Done?
    ensures Changes(db, c.payload, Execute(db, c, retained, doomed).db)
  {
    hide Effect, Allowed, Next, Changes;
    EffectIs(db, c.payload);
    ChangesKept(db, c.payload, Effect(db, c.payload).value, Execute(db, c, retained, doomed).db);
  }

  lemma DoneRecords(db: Db, c: Command, retained: nat, doomed: set<Id>)
    requires Execute(db, c, retained, doomed).Done?
    ensures Records(db, c, doomed, Execute(db, c, retained, doomed).db)
  {
    hide Effect, Allowed, Next, Changes;
    EffectIs(db, c.payload);
  }

  lemma ChangesKept(db: Db, p: Payload, middle: Db, after: Db)
    requires Changes(db, p, middle) && after == middle.(commands := after.commands, channel := after.channel)
    ensures Changes(db, p, after)
  {
  }

  /** The other steps: an acknowledgement fills its own row, once; a later fence is taken over and nothing
      else changes. */
  lemma OtherStepsAre(db: Db, e: Event, retained: nat)
    requires !e.Executing?
    ensures var after := After(db, e, retained);
            match e
            case Acking(a) =>
              var fills := a.command in db.commands && db.commands[a.command].digest == a.digest && a.id == a.command
                           && db.commands[a.command].ack == None;
              && after.(commands := db.commands) == db
              && (if fills then after.commands == db.commands[a.command := Row(a.digest, db.commands[a.command].epoch, db.commands[a.command].sequence, Some(a))]
                  else after.commands == db.commands)
            case Fencing(epoch) => after == if db.fence < epoch then db.(fence := epoch, takeover := FencedOld) else db
            case Accepting(epoch) => after == if db.fence < epoch then db.(takeover := FencedOld) else db
            case Advancing(epoch) =>
              after == if db.fence < epoch && db.takeover == FencedOld then db.(fence := epoch, takeover := Released) else db
            case _ => true
  {
    if e.Acking? && AcceptsAck(db, e.ack) && db.commands[e.ack.command].ack.Some? {
      assert db.commands[e.ack.command := db.commands[e.ack.command]] == db.commands;
    }
  }

  // ---------------------------------------------------------------- denies over a run

  predicate TakesEffect(db: Db, e: Event, retained: nat) {
    e.Executing? && Execute(db, e.command, retained, e.doomed).Done?
  }

  /** What the last executed deny or clear-deny of a subject says is in force: its overlay, or nothing. */
  function InForce(db: Db, events: seq<Event>, subject: Id, sofar: Option<Overlay>, retained: nat): Option<Overlay>
    decreases |events|
  {
    if events == [] then sofar
    else
      var e := events[0];
      var next :=
        if !TakesEffect(db, e, retained) then sofar
        else match e.command.payload
          case Deny(s, epoch, floor) => if s == subject then Some(Overlay(epoch, floor)) else sofar
          case ClearDeny(s, _) => if s == subject then None else sofar
          case _ => sofar;
      InForce(After(db, e, retained), events[1..], subject, next, retained)
  }

  /** The last executed deny of a subject, cleared or not. */
  function LastDeny(db: Db, events: seq<Event>, subject: Id, sofar: Option<Overlay>, retained: nat): Option<Overlay>
    decreases |events|
  {
    if events == [] then sofar
    else
      var e := events[0];
      var next :=
        if TakesEffect(db, e, retained) && e.command.payload.Deny? && e.command.payload.subject == subject
        then Some(Overlay(e.command.payload.denyEpoch, e.command.payload.floor)) else sofar;
      LastDeny(After(db, e, retained), events[1..], subject, next, retained)
  }

  predicate Holds(denies: map<Id, Overlay>, subject: Id, overlay: Option<Overlay>) {
    match overlay
    case Some(o) => subject in denies && denies[subject] == o
    case None => subject !in denies
  }

  /** In every run a subject is denied exactly if the last deny or clear-deny executed for it was a deny, and
      then with that deny's epoch and floor; its mark is that of the last deny, cleared or not. */
  lemma {:induction false} DeniesFollowCommands(db: Db, events: seq<Event>, subject: Id, denied: Option<Overlay>, marked: Option<Overlay>, retained: nat)
    requires Holds(db.denies, subject, denied) && Holds(db.highwater, subject, marked)
    ensures Holds(AfterAll(db, events, retained).denies, subject, InForce(db, events, subject, denied, retained))
    ensures Holds(AfterAll(db, events, retained).highwater, subject, LastDeny(db, events, subject, marked, retained))
    decreases |events|
  {
    hide After, Execute, Changes, Records;
    if events != [] {
      var e := events[0];
      StepOnDenies(db, e, subject, retained);
      hide TakesEffect;
      var inForce :=
        if !TakesEffect(db, e, retained) then denied
        else match e.command.payload
          case Deny(s, epoch, floor) => if s == subject then Some(Overlay(epoch, floor)) else denied
          case ClearDeny(s, _) => if s == subject then None else denied
          case _ => denied;
      var mark :=
        if TakesEffect(db, e, retained) && e.command.payload.Deny? && e.command.payload.subject == subject
        then Some(Overlay(e.command.payload.denyEpoch, e.command.payload.floor)) else marked;
      DeniesFollowCommands(After(db, e, retained), events[1..], subject, inForce, mark, retained);
    }
  }

  /** One step on one subject. */
  lemma StepOnDenies(db: Db, e: Event, subject: Id, retained: nat)
    ensures var after := After(db, e, retained);
            var done := TakesEffect(db, e, retained);
            if done && e.command.payload.Deny? && e.command.payload.subject == subject then
              var o := Overlay(e.command.payload.denyEpoch, e.command.payload.floor);
              subject in after.denies && after.denies[subject] == o && subject in after.highwater && after.highwater[subject] == o
            else
              && (subject in after.highwater <==> subject in db.highwater)
              && (subject in db.highwater ==> after.highwater[subject] == db.highwater[subject])
              && (if done && e.command.payload.ClearDeny? && e.command.payload.subject == subject then subject !in after.denies
                  else (subject in after.denies <==> subject in db.denies)
                       && (subject in db.denies ==> after.denies[subject] == db.denies[subject]))
  {
    if TakesEffect(db, e, retained) {
      DoneIs(db, e.command, retained, e.doomed);
      hide Execute;
    } else if e.Executing? {
      hide Execute;
    } else {
      OtherStepsAre(db, e, retained);
      hide After;
    }
  }
}
