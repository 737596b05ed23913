/** The journal's single writer: recovery on opening, group commits, segment rotation, checkpoints and
    compaction, updated in place. The ghost trace collects every directory state at which the process
    could stop, each with the history it holds and the number of appends that had returned. */
module JournalWriter {
  import opened Common
  import opened Fleet
  import opened Journal

  /** A moment at which the process could stop. */
  datatype Instant = Instant(disk: Disk, history: seq<Item>, acked: nat, offered: set<(nat, Image)>)
  {
    ghost predicate Sound() { Intact(disk, history, acked, offered) }
  }

  // ---------------------------------------------------------------- recovery, as loops over the files

  method ReadSegment(from: Origin, before: Scan, lines: seq<Item>, bound: nat) returns (scan: Scan)
    ensures scan == ScanLines(from, before, lines, bound)
  {
    scan := before;
    var i := 0;
    while i < |lines|
      invariant 0 <= i <= |lines|
      invariant ScanLines(from, scan, lines[i..], bound) == ScanLines(from, before, lines, bound)
    {
      assert lines[i..][0] == lines[i] && lines[i..][1..] == lines[i + 1..];
      scan := TakeLine(from, scan, lines[i], bound);
      i := i + 1;
    }
  }

  method ReadSegments(from: Origin, segments: seq<Segment>, bound: nat) returns (scan: Scan)
    ensures scan == ScanSegments(from, Scanned([]), segments, bound)
  {
    scan := Scanned([]);
    var i := 0;
    while i < |segments|
      invariant 0 <= i <= |segments|
      invariant ScanSegments(from, scan, segments[i..], bound) == ScanSegments(from, Scanned([]), segments, bound)
    {
      assert segments[i..][0] == segments[i] && segments[i..][1..] == segments[i + 1..];
      scan := ReadSegment(from, scan, segments[i].lines, bound);
      if scan.Scanned? && segments[i].torn && i + 1 < |segments| {
        scan := Refused(Corrupt);
        return;
      }
      i := i + 1;
    }
  }

  method ReadCheckpoints(checkpoints: seq<Checkpoint>) returns (readable: seq<Checkpoint>)
    ensures readable == Readable(checkpoints)
  {
    readable := [];
    var i := 0;
    while i < |checkpoints|
      invariant 0 <= i <= |checkpoints|
      invariant readable + Readable(checkpoints[i..]) == Readable(checkpoints)
    {
      assert checkpoints[i..][0] == checkpoints[i] && checkpoints[i..][1..] == checkpoints[i + 1..];
      if checkpoints[i].readable {
        readable := readable + [checkpoints[i]];
      }
      i := i + 1;
    }
  }

  method RecoverFrom(d: Disk, bound: nat) returns (r: Recovery)
    ensures r == Recover(d, bound)
  {
    var readable := ReadCheckpoints(d.checkpoints);
    if d.checkpoints != [] && readable == [] {
      return Failed(Corrupt);
    }
    var from := OriginOf(readable);
    var scan := ReadSegments(from, d.segments, bound);
    if scan.Refused? {
      return Failed(scan.reason);
    }
    var last := from.sequence + |scan.records|;
    var digest := TipOf(from, scan.records, |scan.records|);
    if d.manifest.sequence > last || (d.manifest.sequence == last && d.manifest.digest != digest) {
      return Failed(Corrupt);
    }
    return Healthy(if readable == [] then None else Some(readable[|readable| - 1]), scan.records, last, digest, Repaired(d));
  }

  // ---------------------------------------------------------------- the writer

  class AttemptJournal {
    const segmentBytes: nat
    const bound: nat
    var disk: Disk
    var healthy: bool
    var open: bool
    var segmentSize: nat
    var lastSequence: nat
    var lastDigest: Digest
    var nonce: nat
    ghost var history: seq<Item>
    ghost var acked: nat
    ghost var offered: set<(nat, Image)>
    ghost var trace: seq<Instant>

    /** Every state so far is intact, and so is this one; memory agrees with the directory. */
    ghost predicate Valid()
      reads this
    {
      && Intact(disk, history, acked, offered)
      && lastSequence == |history| && lastDigest == DigestAt(history, |history|)
      && (open ==> disk.segments != []) && Writable(disk, open)
      && (forall i :: i in trace ==> i.Sound())
      && trace != [] && trace[|trace| - 1] == Instant(disk, history, acked, offered)
    }

    /** Between two commands everything written is synced and acknowledged. */
    ghost predicate Quiet()
      reads this
    {
      healthy && Valid() && acked == |history| == Durable(disk.segments, history)
    }

    /** A new journal. */
    constructor Create(segmentBytes: nat, bound: nat)
      ensures Quiet() && history == [] && fresh(this) && !open && disk == Disk(Manifest(0, Zero), [], [])
      ensures this.segmentBytes == segmentBytes && this.bound == bound
    {
      this.segmentBytes, this.bound := segmentBytes, bound;
      disk := Disk(Manifest(0, Zero), [], []);
      healthy, open, segmentSize, lastSequence, lastDigest, nonce := true, false, 0, 0, Zero, 0;
      history, acked, offered, trace := [], 0, {}, [Instant(Disk(Manifest(0, Zero), [], []), [], 0, {})];
    }

    /** Open what a stopped process left. Over any intact directory the journal takes up the whole history it
        holds, unless that is out of the replay bound. Only a torn line is cut off and synced: when the newest
        segment is neither torn nor synced the tail stays as it is, and nothing is promised for what follows. */
    constructor Reopen(d: Disk, segmentBytes: nat, bound: nat, ghost h: seq<Item>, ghost n: nat, ghost o: set<(nat, Image)>)
      requires Intact(d, h, n, o)
      ensures healthy <==> |h| - OriginOf(Readable(d.checkpoints)).sequence <= bound
      ensures healthy ==> disk == Repaired(d) && !open && lastSequence == |h| && lastDigest == DigestAt(h, |h|)
      ensures healthy ==> history == h && offered == o && n <= acked && Intact(disk, h, acked, o)
      ensures healthy && (d.segments == [] || Newest(d.segments).torn || Durable(d.segments, h) == |h|) ==> Quiet()
      ensures forall i :: i in trace ==> i.Sound()
      ensures fresh(this) && this.segmentBytes == segmentBytes && this.bound == bound
    {
      this.segmentBytes, this.bound := segmentBytes, bound;
      var recovery := RecoverFrom(d, bound);
      RecoverIntact(d, h, n, o, bound);
      RepairKeeps(d, h, n, o);
      healthy := recovery.Healthy?;
      disk := if recovery.Healthy? then recovery.disk else d;
      open, segmentSize, nonce := false, 0, 0;
      lastSequence := if recovery.Healthy? then recovery.lastSequence else 0;
      lastDigest := if recovery.Healthy? then recovery.lastDigest else Zero;
      ghost var left := if recovery.Healthy? then recovery.disk else d;
      ghost var safe := if Durable(left.segments, h) == |h| then |h| else n;
      history, acked, offered := h, safe, o;
      trace := [Instant(d, h, n, o), Instant(left, h, n, o), Instant(left, h, safe, o)];
    }

    /** Sync and close the open segment. */
    method CloseSegment()
      requires Valid()
      modifies this`disk, this`open, this`segmentSize, this`trace
      ensures old(trace) <= trace
      ensures Valid() && !open && segmentSize == 0 && disk == if old(open) then Synced(old(disk)) else old(disk)
      ensures Durable(disk.segments, history) == |history|
    {
      if open {
        SyncKeeps(disk, history, acked, offered, open);
        disk := Synced(disk);
        trace := trace + [Instant(disk, history, acked, offered)];
      }
      open, segmentSize := false, 0;
    }

    /** Keep the open segment while the line still fits; otherwise go on to the next one. */
    method EnsureSegment(size: nat)
      requires Valid()
      modifies this`disk, this`open, this`segmentSize, this`trace
      ensures old(trace) <= trace
      ensures Valid() && open && disk.checkpoints == old(disk).checkpoints && disk.manifest == old(disk).manifest
      ensures if old(open) && old(segmentSize) > 0 && old(segmentSize) + size <= segmentBytes
              then disk == old(disk) && segmentSize == old(segmentSize)
              else if old(open) && old(segmentSize) == 0 then disk == old(disk) && segmentSize == 0
              else
                && segmentSize == 0 && disk.segments != [] && Newest(disk.segments) == Segment(|history| + 1, [], 0, false)
                && Durable(disk.segments, history) == |history|
    {
      if open && segmentSize > 0 {
        if segmentSize + size <= segmentBytes {
          return;
        }
        CloseSegment();
      }
      if !open {
        OpenKeeps(disk, history, acked, offered);
        disk := Opened(disk, lastSequence + 1);
        trace := trace + [Instant(disk, history, acked, offered)];
        open, segmentSize := true, 0;
      }
    }

    /** Write one line. It is not durable yet. */
    method WriteLine(payload: Payload, size: nat) returns (item: Item)
      requires Valid()
      modifies this`disk, this`open, this`segmentSize, this`lastSequence, this`lastDigest, this`history, this`trace
      ensures old(trace) <= trace
      ensures Valid() && open && history == old(history) + [item] && item.payload == payload
      ensures disk.checkpoints == old(disk).checkpoints && disk.manifest == old(disk).manifest
      ensures segmentSize == size + if old(open) && old(segmentSize) > 0 && old(segmentSize) + size <= segmentBytes
                                    then old(segmentSize) else 0
    {
      item := Seal(lastSequence + 1, payload, lastDigest);
      EnsureSegment(size);
      PutLine(item);
      segmentSize := segmentSize + size;
    }

    method PutLine(item: Item)
      requires Valid() && open && item == Seal(lastSequence + 1, item.payload, lastDigest)
      modifies this`disk, this`lastSequence, this`lastDigest, this`history, this`trace
      ensures old(trace) <= trace
      ensures Valid() && history == old(history) + [item] && disk == Written(old(disk), item)
    {
      WriteKeeps(disk, history, item.payload, acked, offered);
      assert Extend(history, item.payload)[|history|] == item;
      disk := Written(disk, item);
      history := history + [item];
      trace := trace + [Instant(disk, history, acked, offered)];
      lastSequence, lastDigest := item.sequence, item.digest;
    }

    /** Sync what was written, write the manifest, and acknowledge. */
    method Commit()
      requires Valid() && healthy && open
      modifies this`disk, this`acked, this`trace
      ensures old(trace) <= trace
      ensures Quiet() && disk == Synced(old(disk)).(manifest := Manifest(lastSequence, lastDigest))
      ensures trace == old(trace) + [Instant(Synced(old(disk)), history, old(acked), offered),
                                     Instant(disk, history, old(acked), offered), Instant(disk, history, acked, offered)]
    {
      SyncKeeps(disk, history, acked, offered, true);
      disk := Synced(disk);
      trace := trace + [Instant(disk, history, acked, offered)];
      ManifestKeeps(disk, history, acked, offered);
      disk := disk.(manifest := Manifest(lastSequence, lastDigest));
      trace := trace + [Instant(disk, history, acked, offered), Instant(disk, history, |history|, offered)];
      acked := |history|;
    }

    /** Write the lines of a group. */
    method WriteLines(batch: seq<(Payload, nat)>) returns (receipts: seq<Item>)
      requires Valid() && batch != []
      modifies this`disk, this`open, this`segmentSize, this`lastSequence, this`lastDigest, this`history, this`trace
      ensures Valid() && open && old(trace) <= trace && history == old(history) + receipts && disk.checkpoints == old(disk).checkpoints
      ensures lastSequence == |history| && disk.manifest == old(disk).manifest
      ensures |receipts| == |batch| && forall i :: 0 <= i < |batch| ==> receipts[i].payload == batch[i].0
    {
      var first := WriteLine(batch[0].0, batch[0].1);
      receipts := [first];
      var i := 1;
      while i < |batch|
        invariant 1 <= i <= |batch| && Valid() && open && old(trace) <= trace
        invariant history == old(history) + receipts && disk.checkpoints == old(disk).checkpoints && disk.manifest == old(disk).manifest
        invariant |receipts| == i && forall k :: 0 <= k < i ==> receipts[k].payload == batch[k].0
      {
        var item := WriteLine(batch[i].0, batch[i].1);
        receipts := receipts + [item];
        i := i + 1;
      }
    }

    /** Commit a group of appends: write every line, sync, write the manifest, and only then return. */
    method AppendBatch(batch: seq<(Payload, nat)>) returns (receipts: seq<Item>)
      requires Quiet() && batch != []
      modifies this`disk, this`open, this`segmentSize, this`lastSequence, this`lastDigest, this`history, this`acked, this`trace
      ensures old(trace) <= trace
      ensures Quiet() && history == old(history) + receipts && disk.checkpoints == old(disk).checkpoints
      ensures |receipts| == |batch| && forall i :: 0 <= i < |batch| ==> receipts[i].payload == batch[i].0
      ensures disk.manifest == Manifest(|history|, receipts[|receipts| - 1].digest)
    {
      receipts := WriteLines(batch);
      Commit();
    }

    /** Unlink the oldest segment. */
    method DeleteOldest()
      requires Quiet() && !open && |disk.segments| > 1 && Readable(disk.checkpoints) != []
      requires disk.segments[1].start - 1 <= Readable(disk.checkpoints)[0].sequence
      modifies this`disk, this`trace
      ensures old(trace) <= trace
      ensures Quiet() && disk == old(disk).(segments := old(disk).segments[1..])
    {
      DeleteKeeps(disk, history, acked, offered);
      disk := disk.(segments := disk.segments[1..]);
      trace := trace + [Instant(disk, history, acked, offered)];
    }

    /** Delete the segments that hold nothing above the safe sequence. */
    method Compact(safe: nat) returns (ghost gone: nat)
      requires Quiet() && Readable(disk.checkpoints) != [] && safe == Readable(disk.checkpoints)[0].sequence
      modifies this`disk, this`open, this`segmentSize, this`trace
      ensures old(trace) <= trace
      ensures Quiet() && !open && segmentSize == 0
      ensures var files := (if old(open) then Synced(old(disk)) else old(disk)).segments;
              && gone <= |files| && disk == old(disk).(segments := files[gone..])
              && forall j :: 1 <= j <= gone ==> j < |files| && files[j].start - 1 <= safe
      ensures |disk.segments| > 1 ==> disk.segments[1].start - 1 > safe
    {
      hide Readable, Durable, Chained, Laid;
      CloseSegment();
      var files := disk.segments;
      gone := 0;
      if files == [] {
        return;
      }
      var k := 0;
      while k + 1 < |files|
        invariant Quiet() && !open && segmentSize == 0 && old(trace) <= trace && Laid(files, history)
        invariant 0 <= gone <= k < |files| && disk == old(disk).(segments := files[gone..])
        invariant forall j :: 1 <= j <= gone ==> files[j].start - 1 <= safe
        invariant gone < k ==> files[gone + 1].start - 1 > safe
        decreases |files| - k
      {
        if files[k + 1].start - 1 <= safe {
          StartsGrow(files, history, gone + 1, k + 1);
          DeleteOldest();
          gone := gone + 1;
        }
        k := k + 1;
      }
    }

    /** Unlink the oldest readable checkpoint. */
    method DropOldest()
      requires Quiet() && |Readable(disk.checkpoints)| > 1
      modifies this`disk, this`trace
      ensures old(trace) <= trace
      ensures Quiet() && Readable(disk.checkpoints) == Readable(old(disk.checkpoints))[1..]
      ensures disk == old(disk).(checkpoints := Dropped(old(disk.checkpoints), Readable(old(disk.checkpoints))[0]))
    {
      hide Intact, Readable;
      DropKeeps(disk, history, acked, offered);
      ReadableDropped(disk.checkpoints);
      disk := disk.(checkpoints := Dropped(disk.checkpoints, Readable(disk.checkpoints)[0]));
      trace := trace + [Instant(disk, history, acked, offered)];
    }

    /** Unlink the oldest readable checkpoints until two are left. */
    method PruneCheckpoints() returns (readable: seq<Checkpoint>)
      requires Quiet() && Readable(disk.checkpoints) != []
      modifies this`disk, this`trace
      ensures old(trace) <= trace
      ensures Quiet() && readable == Readable(disk.checkpoints) && 1 <= |readable| <= 2
      ensures readable == NewestTwo(Readable(old(disk.checkpoints))) && disk.manifest == old(disk.manifest) && disk.segments == old(disk.segments)
      ensures Latest(disk.checkpoints) == Latest(old(disk.checkpoints))
    {
      hide Valid, Readable;
      readable := ReadCheckpoints(disk.checkpoints);
      ghost var before := readable;
      while |readable| > 2
        invariant Quiet() && old(trace) <= trace && readable == Readable(disk.checkpoints)
        invariant 1 <= |readable| <= |before| && readable == before[|before| - |readable|..]
        invariant |readable| == |before| || |readable| >= 2
        invariant disk.manifest == old(disk.manifest) && disk.segments == old(disk.segments)
        decreases |readable|
      {
        DropOldest();
        readable := readable[1..];
      }
      assert readable[|readable| - 1] == before[|before| - 1];
    }

    /** Rename a finished checkpoint into place. */
    method PublishCheckpoint(c: Checkpoint)
      requires Quiet() && c.sequence == lastSequence && c.digest == lastDigest && c.readable
      modifies this`disk, this`offered, this`trace
      ensures old(trace) <= trace
      ensures Quiet() && offered == old(offered) + {(|history|, c.snapshot)}
      ensures disk == old(disk).(checkpoints := Insert(old(disk.checkpoints), c))
    {
      InsertKeeps(disk, history, acked, offered, c);
      disk := disk.(checkpoints := Insert(disk.checkpoints, c));
      offered := offered + {(|history|, c.snapshot)};
      trace := trace + [Instant(disk, history, acked, offered)];
    }

    /** Publish a checkpoint, keep the newest two that read, and drop the segments they make redundant.
        The newest readable checkpoint is then of the whole history; it is the one just written, unless
        the clock went back between two checkpoints of the same history. */
    method WriteCheckpoint(snapshot: Image, clock: nat)
      requires Quiet()
      modifies this`disk, this`open, this`segmentSize, this`nonce, this`offered, this`trace
      ensures old(trace) <= trace
      ensures Quiet() && offered == old(offered) + {(|history|, snapshot)}
      ensures 1 <= |Readable(disk.checkpoints)| <= 2 && Latest(disk.checkpoints).sequence == |history|
      ensures nonce == old(nonce) + 1 && disk.manifest == old(disk.manifest)
      ensures var c := Checkpoint(|history|, clock, nonce, lastDigest, snapshot, true);
              && Readable(disk.checkpoints) == NewestTwo(Readable(Insert(old(disk.checkpoints), c)))
              && ((forall x :: x in old(disk.checkpoints) ==> Before(x, c)) ==> Latest(disk.checkpoints) == c)
      ensures |Readable(disk.checkpoints)| == 2 && |disk.segments| > 1 ==>
                disk.segments[1].start - 1 > Readable(disk.checkpoints)[0].sequence
    {
      hide Covered, Durable, Readable, Laid, Insert, Chained;
      nonce := nonce + 1;
      var c := Checkpoint(lastSequence, clock, nonce, lastDigest, snapshot, true);
      LatestInsert(disk, history, offered, c);
      PublishCheckpoint(c);
      Tidy();
    }

    /** Keep the newest two checkpoints that read, and what comes after the older of them. */
    method Tidy()
      requires Quiet() && Readable(disk.checkpoints) != []
      modifies this`disk, this`open, this`segmentSize, this`trace
      ensures old(trace) <= trace
      ensures Quiet() && 1 <= |Readable(disk.checkpoints)| <= 2 && Latest(disk.checkpoints) == Latest(old(disk.checkpoints))
      ensures Readable(disk.checkpoints) == NewestTwo(Readable(old(disk.checkpoints))) && disk.manifest == old(disk.manifest)
      ensures |Readable(disk.checkpoints)| == 2 && |disk.segments| > 1 ==>
                disk.segments[1].start - 1 > Readable(disk.checkpoints)[0].sequence
    {
      hide Intact, Readable;
      var readable := PruneCheckpoints();
      if |readable| == 2 {
        ghost var gone := Compact(readable[0].sequence);
      }
    }
  }

  function NewestTwo(cs: seq<Checkpoint>): seq<Checkpoint> { if |cs| <= 2 then cs else cs[|cs| - 2..] }

  /** The checkpoint that recovery would start from. */
  function Latest(checkpoints: seq<Checkpoint>): Checkpoint
    requires Readable(checkpoints) != []
  {
    Readable(checkpoints)[|Readable(checkpoints)| - 1]
  }

  /** No readable checkpoint comes after the latest. */
  lemma LatestIsLast(cs: seq<Checkpoint>, c: Checkpoint)
    requires Sorted(cs) && c in cs && c.readable
    ensures Readable(cs) != [] && (Latest(cs) == c || Before(c, Latest(cs))) && Latest(cs) in cs
  {
    ReadableSorted(cs);
    ReadableMembers(cs);
    var r := Readable(cs);
    assert c in r;
    assert r[|r| - 1] in r;
  }

  lemma LatestInsert(d: Disk, h: seq<Item>, offered: set<(nat, Image)>, c: Checkpoint)
    requires Covered(d, h, offered) && Durable(d.segments, h) == |h| && c.sequence == |h| && c.readable
    ensures Readable(Insert(d.checkpoints, c)) != [] && Latest(Insert(d.checkpoints, c)).sequence == |h|
    ensures (forall x :: x in d.checkpoints ==> Before(x, c)) ==> Latest(Insert(d.checkpoints, c)) == c
  {
    ReadableInsert(d.checkpoints, c);
    InsertSorted(d.checkpoints, c);
    LatestIsLast(Insert(d.checkpoints, c), c);
    InsertedFrom(d.checkpoints, c, Latest(Insert(d.checkpoints, c)));
  }

  lemma {:induction false} StartsGrow(segments: seq<Segment>, h: seq<Item>, i: nat, j: nat)
    requires Laid(segments, h) && i <= j < |segments|
    ensures segments[i].start <= segments[j].start
    decreases j - i
  {
    if i < j {
      StartsGrow(segments, h, i, j - 1);
      assert Full(segments, j - 1);
    }
  }

  /** Every moment of every run is recoverable: whatever a power loss makes of the directory at that
      moment, recovery returns a contiguous piece of the history that reaches at least the last
      acknowledged record, and the checkpoint it starts from is one that was handed in there. */
  lemma EveryInstantRecovers(i: Instant, lost: Disk, bound: nat)
    requires i.Sound() && PowerLoss(i.disk, lost)
    ensures var r := Recover(lost, bound);
            var from := OriginOf(Readable(lost.checkpoints)).sequence;
            exists n :: i.acked <= n <= |i.history| && from <= n
                        && (r.Healthy? <==> n - from <= bound)
                        && (r.Healthy? ==> r.records == i.history[from..n] && r.lastSequence == n
                                           && (r.checkpoint.Some? ==> (from, r.checkpoint.value.snapshot) in i.offered)
                                           && (r.checkpoint.None? ==> from == 0))
  {
    var n := Surviving(lost.segments, i.history);
    PowerLossKeepsIntact(i.disk, lost, i.history, i.acked, i.offered);
    var left := i.history[..n];
    RecoverIntact(lost, left, i.acked, i.offered, bound);
    var readable := Readable(lost.checkpoints);
    var from := OriginOf(readable).sequence;
    ReadableMembers(lost.checkpoints);
    if readable != [] {
      assert readable[|readable| - 1] in readable;
    }
    assert left[from..] == i.history[from..n];
    assert i.acked <= n <= |i.history| && from <= n;
  }
}
