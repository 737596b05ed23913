/** The lifecycle spool's writer: opening with repair, appending, rotation, syncing, acknowledgement and
    clean close, updated in place. The ghost trace collects every directory state at which the process
    could stop, with the history it holds and how much of it had been flushed; the one it passes over, inside
    a reopening after a clean close, is the subject of Spool.OpeningWindow. */
module SpoolWriter {
  import opened Common
  import opened Spool

  datatype Instant = Instant(disk: Disk, history: seq<Rec>, flushed: nat)
  {
    ghost predicate Sound() { Intact(disk, history) && flushed <= Durable(LiveOf(disk), history) }
  }

  // ---------------------------------------------------------------- what each change of the directory keeps

  function SyncedFiles(files: seq<File>): seq<File> {
    if files == [] then files else WithLast(files, Last(files).(synced := |Last(files).lines|))
  }

  lemma SyncedAlready(files: seq<File>)
    requires files != [] && Last(files).synced == |Last(files).lines|
    ensures SyncedFiles(files) == files
  {
  }

  lemma SyncKeeps(d: Disk, h: seq<Rec>)
    requires Intact(d, h) && Plain(d.files) && d.files != []
    ensures Intact(d.(files := SyncedFiles(d.files)), h) && Plain(SyncedFiles(d.files))
    ensures Durable(SyncedFiles(d.files), h) == |h| >= Durable(d.files, h) && Indexes(SyncedFiles(d.files)) == Indexes(d.files)
    ensures SyncedFiles(d.files) != [] && Last(SyncedFiles(d.files)) == Last(d.files).(synced := |Last(d.files).lines|)
  {
    PlainIsLive(d.files, d.manifest.names);
    DurableWithin(d.files, h, d.manifest.anchor.sequence);
    var f := Last(d.files);
    LastLaid(d.files, h, d.manifest.anchor.sequence, |f.lines|, f.torn);
    IndexesOfUpdate(d.files, f.(synced := |f.lines|));
    assert Plain(SyncedFiles(d.files));
    PlainIsLive(SyncedFiles(d.files), d.manifest.names);
  }

  /** A manifest that lists every file, and is not clean. */
  function Listing(d: Disk): Disk { d.(manifest := Manifest(false, d.manifest.anchor, Indexes(d.files))) }

  lemma ListKeeps(d: Disk, h: seq<Rec>)
    requires Intact(d, h) && Plain(d.files)
    ensures Intact(Listing(d), h)
  {
    PlainIsLive(d.files, d.manifest.names);
    PlainIsLive(d.files, Indexes(d.files));
  }

  /** A clean manifest lists every file of a spool that is all synced. */
  lemma CloseKeeps(d: Disk, h: seq<Rec>)
    requires Intact(d, h) && Plain(d.files) && (d.files != [] ==> !Last(d.files).torn)
    ensures Intact(d.(manifest := Manifest(true, d.manifest.anchor, Indexes(d.files))), h)
  {
    PlainIsLive(d.files, d.manifest.names);
    PlainIsLive(d.files, Indexes(d.files));
  }

  function Appended(files: seq<File>, r: Rec): seq<File>
    requires files != []
  {
    WithLast(files, Last(files).(lines := Last(files).lines + [r]))
  }

  lemma LastDescribed(infos: seq<Info>, files: seq<File>)
    requires Matches(infos, files) && files != []
    ensures infos != [] && infos[|infos| - 1].index == Last(files).index
  {
    assert Describes(infos[|infos| - 1], Last(files));
  }

  lemma FirstAppended(files: seq<File>, index: nat, r: Rec)
    ensures Appended(files + [File(index, [], 0, false, false)], r) == files + [File(index, [r], 0, false, false)]
  {
    var f := File(index, [], 0, false, false);
    assert f.lines + [r] == [r];
    assert f.(lines := [r]) == File(index, [r], 0, false, false);
    assert (files + [f])[|files| := f.(lines := [r])] == files + [f.(lines := [r])];
  }

  lemma AppendKeeps(d: Disk, h: seq<Rec>, r: Rec)
    requires Intact(d, h) && Plain(d.files) && d.files != [] && !d.manifest.clean
    requires r == Seal(|h| + 1, Last(d.files).index, r.body, TipAt(h, |h|).digest) && Last(d.files).index > 0
    ensures Intact(d.(files := Appended(d.files, r)), h + [r]) && Plain(Appended(d.files, r))
    ensures Durable(Appended(d.files, r), h + [r]) == Durable(d.files, h)
    ensures Indexes(Appended(d.files, r)) == Indexes(d.files)
  {
    ExtendChained(h, r.segment, r.body);
    PlainIsLive(d.files, d.manifest.names);
    AppendLaid(d.files, h, d.manifest.anchor.sequence, r);
    IndexesOfUpdate(d.files, Last(d.files).(lines := Last(d.files).lines + [r]));
    assert Plain(Appended(d.files, r));
    PlainIsLive(Appended(d.files, r), d.manifest.names);
    assert TipAt(h + [r], d.manifest.anchor.sequence) == TipAt(h, d.manifest.anchor.sequence);
  }

  /** What the writer checks from memory is whether the cursor names a durable record. */
  lemma AckAllowed(d: Disk, infos: seq<Info>, h: seq<Rec>, c: Cursor)
    requires Intact(d, h) && Plain(d.files) && Matches(infos, d.files)
    ensures CursorKnown(c, d.manifest.anchor.Position(), infos) <==> CursorIn(c, d.manifest.anchor.Position(), h, |h|)
  {
    PlainIsLive(d.files, d.manifest.names);
    KnownIsDurable(c, d.manifest.anchor.Position(), infos, d.files);
    DurableIff(c, d.manifest.anchor, d.files, h);
  }

  lemma AckKeeps(d: Disk, h: seq<Rec>, cursor: Cursor)
    requires Intact(d, h) && CursorIn(cursor, d.manifest.anchor.Position(), h, Durable(LiveOf(d), h))
    ensures Intact(d.(ack := cursor), h)
  {
  }

  /** The manifest that drops the doomed files: its anchor is the end of the newest of them. */
  function Cut(d: Disk, plain: seq<File>, above: nat): Manifest
    requires NewestDoomed(plain, above).Some? && NewestDoomed(plain, above).value.lines != []
  {
    var f := NewestDoomed(plain, above).value;
    var last := f.lines[|f.lines| - 1];
    Manifest(false, Anchor(f.index, last.sequence, last.digest), Indexes(Kept(plain, above)))
  }

  /** Dropping the doomed files from the manifest: the rest is intact from the new anchor on, and the
      cursor is still above it. */
  lemma CutKeeps(d: Disk, h: seq<Rec>, plain: seq<File>, above: nat)
    requires Intact(d, h) && Plain(plain) && plain != [] && LiveOf(d) == plain && Durable(plain, h) == |h|
    requires d.files == StagedDoomed(plain, above) && d.ack.sequence == above
    requires NewestDoomed(plain, above).Some?
    ensures NewestDoomed(plain, above).value.lines != []
    ensures var after := d.(manifest := Cut(d, plain, above));
            Intact(after, h) && LiveOf(after) == Kept(plain, above)
    ensures Durable(Kept(plain, above), h) == |h| && Ascending(plain)
  {
    hide Laid, Chained, Live, Plain, StagedDoomed, NewestDoomed;
    var from := d.manifest.anchor.sequence;
    NewestFacts(plain, h, from, above);
    KeptLaid(plain, h, from, above);
    KeptLast(plain, above);
    KeptMembers(plain, above);
    StagedLive(plain, above, Indexes(Kept(plain, above)));
    assert TipAt(h, CutAt(plain, from, above)).sequence == CutAt(plain, from, above);
  }

  // ---------------------------------------------------------------- what reopening leaves

  /** The last live file is torn, and so will be truncated and synced, or was synced already. */
  predicate TailDurable(d: Disk) {
    LiveOf(d) == [] || Last(LiveOf(d)).torn || Last(LiveOf(d)).synced == |Last(LiveOf(d)).lines|
  }

  function FreshIndex(files: seq<File>): nat { if files == [] then 1 else Last(files).index + 1 }

  function GapRecord(d: Disk, h: seq<Rec>, now: nat): Rec {
    Seal(|h| + 1, FreshIndex(Truncated(LiveOf(d))), Gap(now, now), TipAt(h, |h|).digest)
  }

  /** The segment that reopening starts: empty after a clean close, and otherwise with the gap, synced. */
  function StartedFile(d: Disk, h: seq<Rec>, now: nat): File {
    if d.manifest.clean then File(FreshIndex(Truncated(LiveOf(d))), [], 0, false, false)
    else File(FreshIndex(Truncated(LiveOf(d))), [GapRecord(d, h, now)], 1, false, false)
  }

  function AfterReopening(d: Disk, h: seq<Rec>, now: nat): Disk {
    var files := Truncated(LiveOf(d)) + [StartedFile(d, h, now)];
    Disk(Manifest(false, d.manifest.anchor, Indexes(files)), d.ack, files)
  }

  lemma TailAsRequired(d: Disk)
    requires TailDurable(d)
    ensures LiveOf(d) != [] && !Last(LiveOf(d)).torn ==> Last(LiveOf(d)).synced == |Last(LiveOf(d)).lines|
  {
  }

  /** Reopening from the repaired and truncated directory is reopening from the directory as it was found. */
  lemma LoadedReopensAlike(d: Disk, h: seq<Rec>, now: nat)
    ensures var loaded := Disk(d.manifest, d.ack, Truncated(LiveOf(d)));
            AfterReopening(loaded, h, now) == AfterReopening(d, h, now) && HistoryAfter(loaded, h, now) == HistoryAfter(d, h, now)
  {
    LiveIsPlain(d.files, d.manifest.names);
    assert Plain(Truncated(LiveOf(d)));
    PlainIsLive(Truncated(LiveOf(d)), d.manifest.names);
    hide Live, Plain;
  }

  lemma StartedIs(d: Disk, h: seq<Rec>, now: nat, index: nat)
    requires Plain(d.files) && (d.files != [] ==> !Last(d.files).torn) && index == FreshIndex(d.files)
    ensures Truncated(LiveOf(d)) == d.files && GapRecord(d, h, now) == Seal(|h| + 1, index, Gap(now, now), TipAt(h, |h|).digest)
    ensures AfterReopening(d, h, now).files == d.files + [StartedFile(d, h, now)]
  {
    PlainIsLive(d.files, d.manifest.names);
  }

  lemma OneRecordSynced(files: seq<File>, index: nat, r: Rec)
    ensures SyncedFiles(Appended(files + [File(index, [], 0, false, false)], r)) == files + [File(index, [r], 1, false, false)]
  {
    assert [] + [r] == [r];
  }

  function HistoryAfter(d: Disk, h: seq<Rec>, now: nat): seq<Rec> {
    if d.manifest.clean then h else h + [GapRecord(d, h, now)]
  }

  // ---------------------------------------------------------------- the writer

  class LifecycleSpool {
    // The directory.
    var files: seq<File>
    var manifest: Manifest
    var ackFile: Cursor
    // Memory.
    var segments: seq<Info>
    var anchor: Anchor
    var cursor: Cursor
    var tip: Tip
    var dirty: bool
    // What the proofs follow.
    ghost var history: seq<Rec>
    ghost var flushed: nat
    ghost var trace: seq<Instant>

    function OnDisk(): Disk
      reads this
    {
      Disk(manifest, ackFile, files)
    }

    ghost predicate Traced()
      reads this
    {
      && (forall i :: i in trace ==> i.Sound())
      && trace != [] && trace[|trace| - 1] == Instant(OnDisk(), history, flushed)
    }

    /** The directory is intact and memory agrees with it. */
    ghost predicate Open()
      reads this
    {
      && Intact(OnDisk(), history) && Plain(files) && files != [] && !Last(files).torn && !manifest.clean
      && anchor == manifest.anchor && cursor == ackFile && tip == TipAt(history, |history|)
      && Matches(segments, files) && Last(files).index > 0
      && (!dirty ==> Last(files).synced == |Last(files).lines|)
      && flushed <= Durable(files, history)
    }

    /** Between operations: unless something is unsynced, the manifest lists every file. */
    ghost predicate Valid()
      reads this
    {
      Open() && Traced() && (!dirty ==> manifest.names == Indexes(files))
    }

    /** A new spool, with its first segment open and listed. */
    constructor Create()
      ensures Valid() && !dirty && history == [] && cursor == ORIGIN
    {
      var f := File(1, [], 0, false, false);
      files := [f];
      manifest := Manifest(false, Anchor(0, 0, Zero), {1});
      ackFile, cursor := ORIGIN, ORIGIN;
      segments := [Info(1, 0, 0, Zero)];
      anchor := Anchor(0, 0, Zero);
      tip := Tip(0, Zero);
      dirty := false;
      history, flushed := [], 0;
      new;
      PlainIsLive(files, manifest.names);
      assert files[1..] == [] && Laid(files[1..], history, 0);
      assert Indexes(files) == {1};
      trace := [Instant(OnDisk(), history, flushed)];
    }

    /** Reopen what a stopped process left: finish or undo staged deletions, walk the chain, truncate an
        incomplete last record, start a new segment, and, unless the spool had been closed cleanly, append
        one record for the gap. What the trace then promises needs a last live file that is torn or synced;
        SpoolReopening says what happens without it. The one directory that the trace passes over lies
        between creating the new segment and publishing the manifest after a clean close; OpeningWindow is
        about it. */
    constructor Reopen(d: Disk, now: nat, ghost h: seq<Rec>)
      requires Intact(d, h)
      requires TailDurable(d)
      ensures Valid() && !dirty && flushed == |history| && cursor == d.ack
      ensures OnDisk() == AfterReopening(d, h, now) && history == HistoryAfter(d, h, now)
    {
      files, manifest, ackFile := d.files, d.manifest, d.ack;
      segments, anchor, cursor, tip, dirty := [], d.manifest.anchor, d.ack, Tip(0, Zero), false;
      history, flushed, trace := h, 0, [];
      new;
      Recover(d, now);
    }

    /** Repair, load, and start a segment. */
    method Recover(ghost d: Disk, now: nat)
      requires OnDisk() == d && Intact(d, history) && TailDurable(d) && flushed == 0 && trace == [] && !dirty
      requires anchor == manifest.anchor && cursor == ackFile
      modifies this
      ensures Valid() && !dirty && flushed == |history| && cursor == old(cursor)
      ensures OnDisk() == AfterReopening(d, old(history), now) && history == HistoryAfter(d, old(history), now)
    {
      hide Intact, Plain, Live, Matches, Indexes, Truncated, TailDurable, AfterReopening, HistoryAfter;
      hide LifecycleSpool.Valid, LifecycleSpool.Open, LifecycleSpool.Traced, LifecycleSpool.Loaded;
      TailAsRequired(d);
      Repair();
      Load();
      LoadedReopensAlike(d, history, now);
      StartSegment(now);
    }

    /** Loaded from the directory, with nothing left to repair and no segment open yet. */
    ghost predicate Loaded()
      reads this
    {
      && Intact(OnDisk(), history) && Plain(files) && Matches(segments, files) && !dirty
      && (files != [] ==> !Last(files).torn && Last(files).synced == |Last(files).lines|)
      && anchor == manifest.anchor && cursor == ackFile && tip == TipAt(history, |history|)
      && flushed <= |history| && forall i :: i in trace ==> i.Sound()
    }

    /** Rename listed staged files back and unlink the others. */
    method Repair()
      requires Intact(OnDisk(), history) && flushed == 0 && trace == []
      modifies this`files, this`trace
      ensures Intact(OnDisk(), history) && Plain(files) && files == old(LiveOf(OnDisk())) && Traced()
    {
      hide Intact, Plain, Live;
      NothingFlushed(OnDisk(), history);
      Note();
      var i := 0;
      while i < |files|
        invariant 0 <= i <= |files| && Traced() && Intact(OnDisk(), history)
        invariant LiveOf(OnDisk()) == old(LiveOf(OnDisk()))
        invariant forall f :: f in files[..i] ==> !f.staged
        decreases |files| - i
      {
        if !files[i].staged {
          assert files[..i + 1] == files[..i] + [files[i]];
          i := i + 1;
        } else if files[i].index in manifest.names {
          StagingKeepsLive(files, i, false, manifest.names);
          SameLive(OnDisk(), files[i := files[i].(staged := false)], history);
          files := files[i := files[i].(staged := false)];
          assert files[..i + 1] == files[..i] + [files[i]];
          Note();
          i := i + 1;
        } else {
          UnlinkKeepsLive(files, i, manifest.names);
          var shorter := files[..i] + files[i + 1..];
          SameLive(OnDisk(), shorter, history);
          assert shorter[..i] == files[..i];
          files := shorter;
          Note();
        }
      }
      assert files[..i] == files;
      AllPlain(files);
      PlainIsLive(files, manifest.names);
    }

    /** Walk the chain and truncate an incomplete last record. */
    method Load()
      requires Intact(OnDisk(), history) && Plain(files) && Traced() && !dirty
      requires files != [] && !Last(files).torn ==> Last(files).synced == |Last(files).lines|
      requires anchor == manifest.anchor && cursor == ackFile && flushed == 0
      modifies this`files, this`segments, this`tip, this`trace
      ensures Loaded() && manifest == old(manifest) && files == Truncated(old(files))
    {
      hide Intact, Plain, Live, Matches, Truncated, ScanFiles;
      var ok, infos, end := Scan(files, Tip(anchor.sequence, anchor.digest), !manifest.clean);
      LoadIntact(OnDisk(), history);
      TruncatedMatches(infos, files);
      segments, tip := infos, end;
      files := Truncated(files);
      PlainIsLive(files, manifest.names);
      Note();
    }

    /** Open the new segment; unless the spool had been closed cleanly, record the gap and sync; then
        publish the manifest. A clean manifest does not list the new file in between. */
    method StartSegment(now: nat)
      requires Loaded()
      modifies this
      ensures Valid() && !dirty && flushed == |history| && cursor == old(cursor)
      ensures OnDisk() == AfterReopening(old(OnDisk()), old(history), now) && history == HistoryAfter(old(OnDisk()), old(history), now)
    {
      hide Intact, Plain, Live, Matches, Indexes, SyncedFiles, Appended, Truncated, Durable, TailDurable, Instant.Sound;
      ghost var d, h := OnDisk(), history;
      var index := if segments == [] then 1 else segments[|segments| - 1].index + 1;
      var f := File(index, [], 0, false, false);
      NextIndex(d, segments, h, index);
      StartedIs(d, h, now, index);
      OpenMatches(segments, files, Info(index, 0, 0, tip.digest), f);
      StartKeeps(d, h, index);
      files := files + [f];
      segments := segments + [Info(index, 0, 0, tip.digest)];
      PlainIsLive(files, manifest.names);
      if manifest.clean {
        manifest := Manifest(false, anchor, Indexes(files));
        PlainIsLive(files, manifest.names);
        flushed := |history|;
        Note();
      } else {
        Note();
        var last := segments[|segments| - 1];
        OneRecordSynced(d.files, index, GapRecord(d, h, now));
        Write(Seal(tip.sequence + 1, last.index, Gap(now, now), tip.digest));
        Flush();
      }
    }

    ghost method Note()
      requires Intact(OnDisk(), history) && flushed <= Durable(LiveOf(OnDisk()), history)
      requires forall i :: i in trace ==> i.Sound()
      modifies this`trace
      ensures Traced() && old(trace) <= trace
    {
      trace := trace + [Instant(OnDisk(), history, flushed)];
    }

    /** Sync the current segment and list it in the manifest, if anything was written since. */
    method Sync()
      requires Open() && Traced() && (!dirty ==> manifest.names == Indexes(files))
      modifies this`files, this`manifest, this`dirty, this`trace
      ensures Valid() && !dirty && old(trace) <= trace
      ensures files == old(SyncedFiles(files))
      ensures if old(dirty) then manifest == Manifest(false, anchor, Indexes(files)) else files == old(files) && manifest == old(manifest)
    {
      hide Intact, Matches, Indexes, Live, SyncedFiles, Plain;
      if !dirty {
        SyncedAlready(files);
        return;
      }
      SyncKeeps(OnDisk(), history);
      SyncMatches(segments, files);
      files := SyncedFiles(files);
      PlainIsLive(files, manifest.names);
      Note();
      ListKeeps(OnDisk(), history);
      manifest := Manifest(false, anchor, Indexes(files));
      PlainIsLive(files, manifest.names);
      Note();
      dirty := false;
    }

    /** Everything appended before is durable when this returns. */
    method Flush()
      requires Valid()
      modifies this`files, this`manifest, this`dirty, this`trace, this`flushed
      ensures Valid() && !dirty && flushed == |history| && old(trace) <= trace
      ensures files == old(SyncedFiles(files))
      ensures old(dirty) ==> manifest == Manifest(false, anchor, Indexes(files))
    {
      hide Intact, Indexes, Live, Matches, Plain;
      Sync();
      flushed := |history|;
      PlainIsLive(files, manifest.names);
      Note();
    }

    /** Start the next segment file. The manifest does not list it yet. */
    method OpenSegment()
      requires Open() && Traced() && !dirty
      modifies this`files, this`segments, this`trace
      ensures Open() && Traced() && !dirty && old(trace) <= trace
      ensures files == old(files) + [File(old(Last(files)).index + 1, [], 0, false, false)]
    {
      hide Intact, Indexes, Live;
      var index := segments[|segments| - 1].index + 1;
      assert Describes(segments[|segments| - 1], Last(files));
      AscendingLast(OnDisk(), history);
      OpenKeeps(OnDisk(), history, index);
      var f := File(index, [], 0, false, false);
      OpenMatches(segments, files, Info(index, 0, 0, tip.digest), f);
      files := files + [f];
      segments := segments + [Info(index, 0, 0, tip.digest)];
      assert Plain(files);
      PlainIsLive(files, manifest.names);
      Note();
    }

    /** Sync and start the next segment if the current one holds a record and is full or old. */
    method RotateIfNeeded(full: bool)
      requires Valid()
      modifies this`files, this`manifest, this`segments, this`dirty, this`trace
      ensures Open() && Traced() && old(trace) <= trace
      ensures if old(Last(files)).lines != [] && full
              then files == old(SyncedFiles(files)) + [File(old(Last(files)).index + 1, [], 0, false, false)]
                   && manifest == if old(dirty) then Manifest(false, anchor, old(Indexes(SyncedFiles(files)))) else old(manifest)
              else files == old(files) && manifest == old(manifest)
    {
      hide Intact, Live, Plain, Indexes;
      assert Describes(segments[|segments| - 1], Last(files));
      if segments[|segments| - 1].last > 0 && full {
        Sync();
        OpenSegment();
      }
    }

    /** Append one record, on a new segment if the current one is full or old. */
    method Append(body: Body, rotate: bool) returns (r: Rec)
      requires Valid()
      modifies this`files, this`manifest, this`segments, this`tip, this`dirty, this`history, this`trace
      ensures Valid() && old(trace) <= trace && history == old(history) + [r] && r.body == body && r.sequence == |history|
      ensures if old(Last(files)).lines != [] && rotate
              then files == old(SyncedFiles(files)) + [File(old(Last(files)).index + 1, [r], 0, false, false)]
                   && manifest == if old(dirty) then Manifest(false, anchor, old(Indexes(SyncedFiles(files)))) else old(manifest)
              else files == Appended(old(files), r) && manifest == old(manifest)
    {
      hide Intact, Live, Plain, Indexes, SyncedFiles, Matches, Durable, Appended;
      RotateIfNeeded(rotate);
      LastDescribed(segments, files);
      r := Seal(tip.sequence + 1, segments[|segments| - 1].index, body, tip.digest);
      FirstAppended(old(SyncedFiles(files)), old(Last(files)).index + 1, r);
      Write(r);
    }

    method Write(r: Rec)
      requires Open() && Traced()
      requires r == Seal(tip.sequence + 1, segments[|segments| - 1].index, r.body, tip.digest)
      modifies this`files, this`segments, this`tip, this`dirty, this`history, this`trace
      ensures Valid() && dirty && old(trace) <= trace && history == old(history) + [r] && r.sequence == |history|
      ensures files == Appended(old(files), r)
    {
      hide Intact, Indexes, Live, Durable, Plain;
      var last := segments[|segments| - 1];
      assert Describes(last, Last(files));
      AppendKeeps(OnDisk(), history, r);
      AppendMatches(segments, files, r);
      files := Appended(files, r);
      dirty := true;
      segments := segments[|segments| - 1 := Info(last.index, if last.first > 0 then last.first else r.sequence, r.sequence, r.digest)];
      history := history + [r];
      tip := Tip(r.sequence, r.digest);
      PlainIsLive(files, manifest.names);
      Note();
    }

    /** Close the spool; nothing may follow but reopening. */
    method Close()
      requires Valid()
      modifies this`files, this`manifest, this`dirty, this`trace
      ensures Intact(OnDisk(), history) && manifest.clean && Durable(LiveOf(OnDisk()), history) == |history|
      ensures Traced() && old(trace) <= trace
    {
      Sync();
      CloseKeeps(OnDisk(), history);
      manifest := Manifest(true, anchor, Indexes(files));
      PlainIsLive(files, manifest.names);
      Note();
    }

    /** Acknowledge everything up to a durable record, and delete the closed segments below it: write the
        cursor, rename, write the manifest, unlink. Refused if the cursor moves back or is not durable. */
    method Ack(c: Cursor) returns (ok: bool)
      requires Valid()
      modifies this`files, this`manifest, this`ackFile, this`segments, this`anchor, this`cursor, this`dirty, this`flushed, this`trace
      ensures Valid() && old(trace) <= trace && flushed == |history|
      ensures ok <==> c.sequence >= old(cursor).sequence && CursorIn(c, old(anchor).Position(), history, |history|)
      ensures cursor == if ok then c else old(cursor)
      ensures files == if ok then Kept(old(SyncedFiles(files)), c.sequence) else old(SyncedFiles(files))
      ensures ok ==> forall k :: 0 <= k < |files| - 1 ==> !Doomed(files[k], c.sequence)
      ensures !ok ==> anchor == old(anchor)
    {
      hide Intact, Indexes, Live, Plain, Matches, Describes, CursorKnown, CursorIn, Kept, NewestInfo, NewestDoomed, Doomed;
      Flush();
      AckAllowed(OnDisk(), segments, history, c);
      if c.sequence < cursor.sequence || !CursorKnown(c, anchor.Position(), segments) {
        return false;
      }
      PlainIsLive(files, manifest.names);
      AckKeeps(OnDisk(), history, c);
      cursor := c;
      ackFile := c;
      Note();
      KeptMatches(segments, files, c.sequence);
      NothingDoomedLeft(files, c.sequence);
      if NewestInfo(segments, c.sequence).Some? {
        Stage(c.sequence);
        Unlink();
      } else {
        KeptLast(files, c.sequence);
      }
      return true;
    }

    /** Rename every doomed segment, then publish the manifest without them. */
    method Stage(above: nat)
      requires Valid() && !dirty && above == cursor.sequence && NewestInfo(segments, above).Some? && flushed == |history|
      modifies this`files, this`manifest, this`segments, this`anchor, this`trace
      ensures Traced() && old(trace) <= trace && Staging() && LiveOf(OnDisk()) == Kept(old(files), above)
    {
      hide Intact, Indexes, Live, Plain, Matches, Describes, Kept, NewestInfo, NewestDoomed, Doomed, KeptInfos, InfoDoomed;
      ghost var plain := files;
      RenameDoomed(above);
      PublishCut(above, plain);
    }

    /** Rename every doomed segment to its staged name. */
    method RenameDoomed(above: nat)
      requires Valid() && !dirty
      modifies this`files, this`trace
      ensures Traced() && old(trace) <= trace && Intact(OnDisk(), history)
      ensures files == StagedDoomed(old(files), above) && LiveOf(OnDisk()) == old(files)
    {
      hide Intact, Indexes, Live, Plain, Matches, Doomed, InfoDoomed, StagedDoomed;
      ghost var plain := files;
      var k := 0;
      PlainIsLive(files, manifest.names);
      MatchedLengths(segments, plain);
      while k + 1 < |segments|
        invariant k <= |files| - 1 && |files| == |plain| == |segments| && Traced() && old(trace) <= trace
        invariant Intact(OnDisk(), history) && LiveOf(OnDisk()) == plain
        invariant forall j :: 0 <= j < |files| ==>
                    files[j] == if j < k && Doomed(plain[j], above) then plain[j].(staged := true) else plain[j]
      {
        DoomedAlike(OnDisk(), segments, plain, history, k, above);
        if InfoDoomed(segments[k], above) {
          StagingKeepsLive(files, k, true, manifest.names);
          SameLive(OnDisk(), files[k := files[k].(staged := true)], history);
          files := files[k := files[k].(staged := true)];
          Note();
        }
        k := k + 1;
      }
      StagedIs(files, plain, above);
    }

    /** Publish the manifest without the renamed segments, anchored at the newest of them. */
    method PublishCut(above: nat, ghost plain: seq<File>)
      requires Traced() && Intact(OnDisk(), history) && files == StagedDoomed(plain, above) && LiveOf(OnDisk()) == plain
      requires plain != [] && Plain(plain) && !Last(plain).torn && !manifest.clean && Last(plain).index > 0 && !dirty
      requires Matches(segments, plain) && Last(plain).synced == |Last(plain).lines| && flushed == |history|
      requires anchor == manifest.anchor && cursor == ackFile && tip == TipAt(history, |history|)
      requires above == cursor.sequence && NewestInfo(segments, above).Some?
      modifies this`manifest, this`segments, this`anchor, this`trace
      ensures Traced() && old(trace) <= trace && Staging() && LiveOf(OnDisk()) == Kept(plain, above)
    {
      hide Intact, Indexes, Live, Plain, Matches, Kept, NewestInfo, NewestDoomed, Doomed, KeptInfos, StagedDoomed, Ascending;
      KeptMatches(segments, plain, above);
      CutKeeps(OnDisk(), history, plain, above);
      var newest := NewestInfo(segments, above).value;
      segments := KeptInfos(segments, above);
      MatchedIndexes(segments, Kept(plain, above));
      anchor := Anchor(newest.index, newest.last, newest.digest);
      manifest := Manifest(false, anchor, set i | i in segments :: i.index);
      KeptLast(plain, above);
      StagedUnlisted(plain, above);
      Note();
    }

    /** After the manifest has dropped the staged files: they are no longer live. */
    ghost predicate Staging()
      reads this
    {
      var live := LiveOf(OnDisk());
      && Intact(OnDisk(), history) && live != [] && !Last(live).torn && !manifest.clean && Last(live).index > 0
      && anchor == manifest.anchor && cursor == ackFile && tip == TipAt(history, |history|)
      && Matches(segments, live) && manifest.names == Indexes(live) && !dirty
      && Durable(live, history) == |history| && flushed == |history|
      && forall f :: f in files && f.staged ==> f.index !in manifest.names
    }

    /** Unlink the staged files. */
    method Unlink()
      requires Traced() && Staging()
      modifies this`files, this`trace
      ensures Valid() && !dirty && old(trace) <= trace && files == old(LiveOf(OnDisk()))
    {
      hide Intact, Indexes, Live, Plain, Matches;
      ghost var live := LiveOf(OnDisk());
      var i := 0;
      while i < |files|
        invariant 0 <= i <= |files| && Traced() && old(trace) <= trace && Staging() && LiveOf(OnDisk()) == live
        invariant forall f :: f in files[..i] ==> !f.staged
        decreases |files| - i
      {
        if files[i].staged {
          assert files[i] in files;
          UnlinkKeepsLive(files, i, manifest.names);
          var shorter := files[..i] + files[i + 1..];
          SameLive(OnDisk(), shorter, history);
          assert shorter[..i] == files[..i];
          files := shorter;
          Note();
        } else {
          assert files[..i + 1] == files[..i] + [files[i]];
          i := i + 1;
        }
      }
      assert files[..i] == files;
      AllPlain(files);
      PlainIsLive(files, manifest.names);
    }
  }

  lemma AllPlain(files: seq<File>)
    requires forall f :: f in files ==> !f.staged
    ensures Plain(files)
  {
  }

  // ---------------------------------------------------------------- opening

  /** Walk one file's records. */
  method ScanFile(f: File, start: Tip) returns (ok: bool, end: Tip)
    ensures ok == ScanLines(start, f.index, f.lines).Some?
    ensures ok ==> end == ScanLines(start, f.index, f.lines).value
  {
    end := start;
    var i := 0;
    while i < |f.lines|
      invariant 0 <= i <= |f.lines|
      invariant ScanLines(end, f.index, f.lines[i..]) == ScanLines(start, f.index, f.lines)
    {
      assert f.lines[i..][0] == f.lines[i] && f.lines[i..][1..] == f.lines[i + 1..];
      var r := f.lines[i];
      if r != Seal(end.sequence + 1, f.index, r.body, end.digest) {
        return false, end;
      }
      end := Tip(r.sequence, r.digest);
      i := i + 1;
    }
    ok := true;
  }

  /** Walk all files from the anchor, describing each. */
  method Scan(files: seq<File>, start: Tip, repair: bool) returns (ok: bool, infos: seq<Info>, end: Tip)
    ensures ok == ScanFiles(start, files, repair).Some?
    ensures ok ==> end == ScanFiles(start, files, repair).value && Matches(infos, files)
  {
    end, infos := start, [];
    var i := 0;
    while i < |files|
      invariant 0 <= i <= |files| && Matches(infos, files[..i])
      invariant ScanFiles(end, files[i..], repair) == ScanFiles(start, files, repair)
    {
      assert files[i..][0] == files[i] && files[i..][1..] == files[i + 1..];
      if files[i].torn && !(repair && i + 1 == |files|) {
        return false, infos, end;
      }
      var fine, next := ScanFile(files[i], end);
      if !fine {
        return false, infos, end;
      }
      var lines := files[i].lines;
      var info := if lines == [] then Info(files[i].index, 0, 0, next.digest)
                  else Info(files[i].index, lines[0].sequence, lines[|lines| - 1].sequence, lines[|lines| - 1].digest);
      ScanPositive(files[i], end);
      OpenMatches(infos, files[..i], info, files[i]);
      assert files[..i + 1] == files[..i] + [files[i]];
      infos := infos + [info];
      end := next;
      i := i + 1;
    }
    assert files[..i] == files;
    ok := true;
  }

  lemma {:induction false} ScanPositive(f: File, start: Tip)
    requires ScanLines(start, f.index, f.lines).Some?
    ensures forall r :: r in f.lines ==> r.sequence > 0
    decreases |f.lines|
  {
    if f.lines != [] {
      ScanPositive(f.(lines := f.lines[1..]), Tip(f.lines[0].sequence, f.lines[0].digest));
    }
  }

  lemma NothingFlushed(d: Disk, h: seq<Rec>)
    requires Intact(d, h)
    ensures 0 <= Durable(LiveOf(d), h)
  {
    DurableWithin(LiveOf(d), h, d.manifest.anchor.sequence);
  }

  /** Walking an intact directory reaches the head of its history; truncating keeps it intact. */
  lemma LoadIntact(d: Disk, h: seq<Rec>)
    requires Intact(d, h) && Plain(d.files)
    requires d.files != [] && !Last(d.files).torn ==> Last(d.files).synced == |Last(d.files).lines|
    ensures ScanFiles(Tip(d.manifest.anchor.sequence, d.manifest.anchor.digest), d.files, !d.manifest.clean) == Some(TipAt(h, |h|))
    ensures var after := d.(files := Truncated(d.files));
            && Intact(after, h) && Plain(after.files) && Durable(after.files, h) == |h|
            && (after.files != [] ==> !Last(after.files).torn && Last(after.files).synced == |Last(after.files).lines|)
  {
    PlainIsLive(d.files, d.manifest.names);
    FilesScan(h, d.manifest.anchor.sequence, d.files, !d.manifest.clean);
    if d.files != [] && Last(d.files).torn {
      var f := Last(d.files);
      LastLaid(d.files, h, d.manifest.anchor.sequence, |f.lines|, false);
      IndexesOfUpdate(d.files, f.(synced := |f.lines|, torn := false));
      DurableWithin(d.files, h, d.manifest.anchor.sequence);
      assert Plain(Truncated(d.files));
      PlainIsLive(Truncated(d.files), d.manifest.names);
    }
  }

  lemma TruncatedMatches(infos: seq<Info>, files: seq<File>)
    requires Matches(infos, files)
    ensures Matches(infos, Truncated(files))
  {
    forall k | 0 <= k < |files|
      ensures Describes(infos[k], Truncated(files)[k])
    {
      assert Describes(infos[k], files[k]);
    }
  }

  lemma NextIndex(d: Disk, infos: seq<Info>, h: seq<Rec>, index: nat)
    requires Intact(d, h) && Plain(d.files) && Matches(infos, d.files)
    requires index == if infos == [] then 1 else infos[|infos| - 1].index + 1
    ensures 0 < index == FreshIndex(d.files) && forall f :: f in d.files ==> f.index < index
  {
    PlainIsLive(d.files, d.manifest.names);
    if infos != [] {
      assert Describes(infos[|infos| - 1], Last(d.files));
    }
  }

  /** A new last segment keeps the directory intact once no clean manifest forbids it. */
  lemma StartKeeps(d: Disk, h: seq<Rec>, index: nat)
    requires Intact(d, h) && Plain(d.files) && 0 < index && forall f :: f in d.files ==> f.index < index
    requires d.files != [] ==> !Last(d.files).torn && Last(d.files).synced == |Last(d.files).lines|
    ensures var files := d.files + [File(index, [], 0, false, false)];
            && Plain(files) && Durable(files, h) == |h|
            && (!d.manifest.clean ==> Intact(d.(files := files), h))
            && Intact(d.(files := files, manifest := Manifest(false, d.manifest.anchor, Indexes(files))), h)
  {
    var open := d.(manifest := d.manifest.(clean := false));
    PlainIsLive(d.files, d.manifest.names);
    OpenKeeps(open, h, index);
    assert Plain(d.files + [File(index, [], 0, false, false)]);
    ListKeeps(open.(files := d.files + [File(index, [], 0, false, false)]), h);
  }

  /** Crash safety of the spool, acknowledgement included: whatever a power loss makes of the directory at
      any moment, reopening succeeds with a prefix of the history that has every flushed record, and
      replay then yields exactly the records above the durable cursor, in order. */
  lemma EveryInstantReopens(i: Instant, lost: Disk) returns (n: nat)
    requires i.Sound() && PowerLoss(i.disk, lost)
    ensures i.flushed <= n <= |i.history| && lost.ack == i.disk.ack && lost.ack.sequence <= n
    ensures Spool.Reopen(lost) == Opened(TipAt(i.history, n), Truncated(LiveOf(lost)))
    ensures Replay(Tip(lost.manifest.anchor.sequence, lost.manifest.anchor.digest), LiveOf(lost), lost.ack.sequence)
            == Some(i.history[lost.ack.sequence..n])
    ensures Intact(lost, i.history[..n])
  {
    hide Intact, Spool.Reopen, Replay, Truncated, Live;
    n := PowerLossKeepsIntact(i.disk, lost, i.history);
    ReopenIntact(lost, i.history[..n]);
    assert i.history[..n][lost.ack.sequence..] == i.history[lost.ack.sequence..n];
  }

  // ---------------------------------------------------------------- memory follows the directory

  lemma SyncMatches(infos: seq<Info>, files: seq<File>)
    requires Matches(infos, files)
    ensures Matches(infos, SyncedFiles(files))
  {
    var after := SyncedFiles(files);
    forall k | 0 <= k < |after|
      ensures Describes(infos[k], after[k])
    {
      assert Describes(infos[k], files[k]);
    }
  }

  lemma OpenMatches(infos: seq<Info>, files: seq<File>, i: Info, f: File)
    requires Matches(infos, files) && Describes(i, f)
    ensures Matches(infos + [i], files + [f])
  {
    forall k | 0 <= k < |files| + 1
      ensures Describes((infos + [i])[k], (files + [f])[k])
    {
      assert k < |files| ==> Describes(infos[k], files[k]);
    }
  }

  lemma AppendMatches(infos: seq<Info>, files: seq<File>, r: Rec)
    requires Matches(infos, files) && files != [] && r.sequence > 0
    ensures var last := infos[|infos| - 1];
            Matches(infos[|infos| - 1 := Info(last.index, if last.first > 0 then last.first else r.sequence, r.sequence, r.digest)],
                    Appended(files, r))
  {
    var last := infos[|infos| - 1];
    var after := infos[|infos| - 1 := Info(last.index, if last.first > 0 then last.first else r.sequence, r.sequence, r.digest)];
    forall k | 0 <= k < |files|
      ensures Describes(after[k], Appended(files, r)[k])
    {
      assert Describes(infos[k], files[k]);
    }
  }

  lemma MatchedIndexes(infos: seq<Info>, files: seq<File>)
    requires Matches(infos, files)
    ensures (set i | i in infos :: i.index) == Indexes(files)
  {
    forall k | 0 <= k < |files|
      ensures infos[k].index == files[k].index
    {
      assert Describes(infos[k], files[k]);
    }
    forall x | x in Indexes(files)
      ensures x in set i | i in infos :: i.index
    {
      var f :| f in files && f.index == x;
      var k :| 0 <= k < |files| && files[k] == f;
      assert infos[k] in infos;
    }
    forall x | x in set i | i in infos :: i.index
      ensures x in Indexes(files)
    {
      var i :| i in infos && i.index == x;
      var k :| 0 <= k < |infos| && infos[k] == i;
      assert files[k] in files;
    }
  }

  lemma AscendingLast(d: Disk, h: seq<Rec>)
    requires Intact(d, h) && Plain(d.files) && d.files != []
    ensures forall f :: f in d.files ==> f.index <= Last(d.files).index
  {
    PlainIsLive(d.files, d.manifest.names);
  }

  lemma MatchedLengths(infos: seq<Info>, files: seq<File>)
    requires Matches(infos, files)
    ensures |infos| == |files|
  {
  }

  /** Memory and directory agree on which segments are doomed, and every one of them is listed. */
  lemma DoomedAlike(d: Disk, infos: seq<Info>, plain: seq<File>, h: seq<Rec>, k: nat, above: nat)
    requires Matches(infos, plain) && k < |infos| && |d.files| == |plain| && d.manifest.names == Indexes(plain)
    requires d.files[k] == plain[k]
    ensures InfoDoomed(infos[k], above) <==> Doomed(plain[k], above)
    ensures d.files[k].index in d.manifest.names
  {
    assert Describes(infos[k], plain[k]) && plain[k] in plain;
  }

  /** The renamed files are exactly those the new manifest does not list. */
  lemma StagedUnlisted(plain: seq<File>, above: nat)
    requires Ascending(plain) && Plain(plain)
    ensures forall f :: f in StagedDoomed(plain, above) && f.staged ==> f.index !in Indexes(Kept(plain, above))
  {
    forall f | f in StagedDoomed(plain, above) && f.staged
      ensures f.index !in Indexes(Kept(plain, above))
    {
      var j :| 0 <= j < |plain| && StagedDoomed(plain, above)[j] == f;
      StagedAt(plain, above, j);
      assert plain[j] in plain;
      KeptNotDoomed(plain, above, j);
    }
  }

  lemma {:induction false} KeptNotDoomed(plain: seq<File>, above: nat, j: nat)
    requires Ascending(plain) && j < |plain| - 1 && Doomed(plain[j], above)
    ensures plain[j].index !in Indexes(Kept(plain, above))
    decreases |plain|
  {
    var rest := plain[1..];
    assert Ascending(rest);
    KeptMembers(rest, above);
    assert forall f :: f in rest ==> plain[0].index < f.index;
    if j > 0 {
      KeptNotDoomed(rest, above, j - 1);
      assert rest[j - 1] in rest;
    }
  }

  lemma StagedIs(files: seq<File>, plain: seq<File>, above: nat)
    requires |files| == |plain|
    requires forall j :: 0 <= j < |files| ==>
               files[j] == if j < |plain| - 1 && Doomed(plain[j], above) then plain[j].(staged := true) else plain[j]
    ensures files == StagedDoomed(plain, above)
  {
    forall j | 0 <= j < |files|
      ensures files[j] == StagedDoomed(plain, above)[j]
    {
      StagedAt(plain, above, j);
    }
  }

  /** No file that acknowledging keeps is doomed, except possibly the current one. */
  lemma {:induction false} NothingDoomedLeft(files: seq<File>, above: nat)
    ensures forall k :: 0 <= k < |Kept(files, above)| - 1 ==> !Doomed(Kept(files, above)[k], above)
    decreases |files|
  {
    if |files| > 1 {
      NothingDoomedLeft(files[1..], above);
    }
  }
}
