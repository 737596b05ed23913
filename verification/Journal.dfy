/** The attempt journal: a digest-chained log kept in segment files, with retained checkpoints and a
    manifest. Every disk state that a crash could expose is recorded in a ghost trace, and whatever a
    power loss makes of any of them, recovery gives back every record whose append had returned. */
module Journal {
  import opened Common
  import opened Fleet

  // ---------------------------------------------------------------- records and the chain

  /** SHA-256 over a record body, idealised: the digest of a body is the body. */
  datatype Digest = Zero | Of(sequence: nat, payload: Payload, previous: Digest)

  datatype Item = Item(sequence: nat, payload: Payload, previous: Digest, digest: Digest)
  {
    /** What decoding a line checks. */
    predicate Sealed() { sequence >= 1 && digest == Of(sequence, payload, previous) }
  }

  function Seal(sequence: nat, payload: Payload, previous: Digest): Item {
    Item(sequence, payload, previous, Of(sequence, payload, previous))
  }

  /** The digest that the record after the first `n` must name. */
  function DigestAt(h: seq<Item>, n: nat): Digest
    requires n <= |h|
  {
    if n == 0 then Zero else h[n - 1].digest
  }

  /** Record `i` has sequence `i + 1` and names the digest of the one before. */
  predicate Follows(h: seq<Item>, i: nat)
    requires i < |h|
  {
    h[i].Sealed() && h[i].sequence == i + 1 && h[i].previous == DigestAt(h, i)
  }

  /** A complete history. */
  ghost predicate Chained(h: seq<Item>) {
    forall i :: 0 <= i < |h| ==> Follows(h, i)
  }

  function Extend(h: seq<Item>, payload: Payload): seq<Item> {
    h + [Seal(|h| + 1, payload, DigestAt(h, |h|))]
  }

  lemma ExtendChained(h: seq<Item>, payload: Payload)
    requires Chained(h)
    ensures Chained(Extend(h, payload))
  {
    var longer := Extend(h, payload);
    forall i | 0 <= i < |longer|
      ensures Follows(longer, i)
    {
      if i < |h| {
        assert Follows(h, i);
      }
    }
  }

  lemma PrefixChained(h: seq<Item>, n: nat)
    requires Chained(h) && n <= |h|
    ensures Chained(h[..n]) && forall k :: 0 <= k <= n ==> DigestAt(h[..n], k) == DigestAt(h, k)
  {
    forall i | 0 <= i < n
      ensures Follows(h[..n], i)
    {
      assert Follows(h, i);
    }
  }

  lemma HeadIsSealed(h: seq<Item>)
    requires Chained(h) && h != []
    ensures DigestAt(h, |h|).Of? && DigestAt(h, |h|).sequence == |h|
  {
    assert Follows(h, |h| - 1);
  }

  /** The last digest fixes the whole history: a chain cannot be rewritten under the same head. */
  lemma {:induction false} ChainInjective(a: seq<Item>, b: seq<Item>)
    requires Chained(a) && Chained(b) && DigestAt(a, |a|) == DigestAt(b, |b|)
    ensures a == b
    decreases |a|
  {
    if a != [] {
      HeadIsSealed(a);
    }
    if b != [] {
      HeadIsSealed(b);
    }
    if a != [] && b != [] {
      var n := |a| - 1;
      assert Follows(a, n) && Follows(b, |b| - 1);
      PrefixChained(a, n);
      PrefixChained(b, n);
      ChainInjective(a[..n], b[..n]);
      assert a == a[..n] + [a[n]] && b == b[..n] + [b[n]];
    }
  }

  // ---------------------------------------------------------------- the directory

  /** A segment file: the sequence in its name, its complete lines, how many of them have been synced,
      and whether an incomplete line follows them. */
  datatype Segment = Segment(start: nat, lines: seq<Item>, synced: nat, torn: bool)

  /** A checkpoint file, named by sequence, clock and nonce. One that does not read back or whose digest
      is wrong counts as unreadable. */
  datatype Checkpoint = Checkpoint(sequence: nat, clock: nat, nonce: nat, digest: Digest, snapshot: Image, readable: bool)

  datatype Manifest = Manifest(sequence: nat, digest: Digest)

  /** The directory. Checkpoints and segments are listed in the order of their names. */
  datatype Disk = Disk(manifest: Manifest, checkpoints: seq<Checkpoint>, segments: seq<Segment>)

  function Newest(segments: seq<Segment>): Segment
    requires segments != []
  {
    segments[|segments| - 1]
  }

  function Readable(checkpoints: seq<Checkpoint>): seq<Checkpoint> {
    if checkpoints == [] then []
    else (if checkpoints[0].readable then [checkpoints[0]] else []) + Readable(checkpoints[1..])
  }

  lemma {:induction false} ReadableMembers(checkpoints: seq<Checkpoint>)
    ensures forall c :: c in Readable(checkpoints) <==> c in checkpoints && c.readable
  {
    if checkpoints != [] {
      ReadableMembers(checkpoints[1..]);
    }
  }

  // ---------------------------------------------------------------- recovery

  datatype Reason = Corrupt | ReplayBound

  datatype Scan = Scanned(records: seq<Item>) | Refused(reason: Reason)

  /** Where the replay starts: after the newest readable checkpoint, or at the beginning. */
  datatype Origin = Origin(sequence: nat, digest: Digest)

  /** The digest that the record after `i` scanned ones must name. */
  function TipOf(from: Origin, records: seq<Item>, i: nat): Digest
    requires i <= |records|
  {
    if i == 0 then from.digest else records[i - 1].digest
  }

  function TakeLine(from: Origin, done: Scan, item: Item, bound: nat): Scan {
    if done.Refused? then done
    else if !item.Sealed() then Refused(Corrupt)
    else if item.sequence <= from.sequence then done
    else
      var records := done.records;
      if item.sequence != from.sequence + 1 + |records| || item.previous != TipOf(from, records, |records|) then Refused(Corrupt)
      else if |records| + 1 > bound then Refused(ReplayBound)
      else Scanned(records + [item])
  }

  function ScanLines(from: Origin, done: Scan, lines: seq<Item>, bound: nat): Scan
    decreases |lines|
  {
    if lines == [] then done else ScanLines(from, TakeLine(from, done, lines[0], bound), lines[1..], bound)
  }

  /** An incomplete line is accepted only at the end of the newest segment. */
  function ScanSegments(from: Origin, done: Scan, segments: seq<Segment>, bound: nat): Scan
    decreases |segments|
  {
    if segments == [] then done
    else
      var next := ScanLines(from, done, segments[0].lines, bound);
      if next.Scanned? && segments[0].torn && |segments| > 1 then Refused(Corrupt)
      else ScanSegments(from, next, segments[1..], bound)
  }

  datatype Recovery =
    | Healthy(checkpoint: Option<Checkpoint>, records: seq<Item>, lastSequence: nat, lastDigest: Digest, disk: Disk)
    | Failed(reason: Reason)

  /** Truncating an incomplete last line also syncs the file; a complete tail is left as it is. */
  function Repaired(d: Disk): Disk {
    if d.segments != [] && Newest(d.segments).torn then
      var s := Newest(d.segments);
      d.(segments := d.segments[|d.segments| - 1 := s.(synced := |s.lines|, torn := false)])
    else d
  }

  function OriginOf(readable: seq<Checkpoint>): Origin {
    if readable == [] then Origin(0, Zero)
    else var c := readable[|readable| - 1]; Origin(c.sequence, c.digest)
  }

  function Recover(d: Disk, bound: nat): Recovery {
    var readable := Readable(d.checkpoints);
    if d.checkpoints != [] && readable == [] then Failed(Corrupt)
    else
      var from := OriginOf(readable);
      var scan := ScanSegments(from, Scanned([]), d.segments, bound);
      if scan.Refused? then Failed(scan.reason)
      else
        var last := from.sequence + |scan.records|;
        var digest := TipOf(from, scan.records, |scan.records|);
        if d.manifest.sequence > last then Failed(Corrupt)
        else if d.manifest.sequence == last && d.manifest.digest != digest then Failed(Corrupt)
        else Healthy(if readable == [] then None else Some(readable[|readable| - 1]), scan.records, last, digest, Repaired(d))
  }

  // ---------------------------------------------------------------- intact directories

  /** A segment holds the stretch of history that its name says. */
  predicate Holds(s: Segment, h: seq<Item>) {
    && 1 <= s.start && s.start - 1 + |s.lines| <= |h|
    && s.lines == h[s.start - 1..s.start - 1 + |s.lines|]
    && s.synced <= |s.lines|
  }

  /** Segment `k` is synced and ends where the next one starts. */
  predicate Full(segments: seq<Segment>, k: nat)
    requires k + 1 < |segments|
  {
    && segments[k].lines != [] && segments[k].synced == |segments[k].lines| && !segments[k].torn
    && segments[k + 1].start == segments[k].start + |segments[k].lines|
  }

  /** The segments hold the history from some record on, without gap or overlap. */
  ghost predicate Laid(segments: seq<Segment>, h: seq<Item>) {
    && (forall k :: 0 <= k < |segments| ==> Holds(segments[k], h))
    && (forall k :: 0 <= k < |segments| - 1 ==> Full(segments, k))
    && (segments != [] ==> Newest(segments).start - 1 + |Newest(segments).lines| == |h|)
  }

  /** How many records precede the first segment. */
  function Base(segments: seq<Segment>, h: seq<Item>): int {
    if segments == [] then |h| else segments[0].start - 1
  }

  /** How many records a power loss cannot take away. */
  function Durable(segments: seq<Segment>, h: seq<Item>): int {
    if segments == [] then |h| else Newest(segments).start - 1 + Newest(segments).synced
  }

  predicate Before(a: Checkpoint, b: Checkpoint) {
    || a.sequence < b.sequence
    || (a.sequence == b.sequence && (a.clock < b.clock || (a.clock == b.clock && a.nonce < b.nonce)))
  }

  ghost predicate Sorted(cs: seq<Checkpoint>) {
    forall i, j :: 0 <= i < j < |cs| ==> Before(cs[i], cs[j])
  }

  /** Every checkpoint is of durable history; a readable one is a snapshot that was handed in at its
      sequence, and the segments still hold everything after it. */
  ghost predicate Covered(d: Disk, h: seq<Item>, offered: set<(nat, Image)>) {
    && Sorted(d.checkpoints)
    && (d.checkpoints == [] ==> Base(d.segments, h) <= 0)
    && (d.checkpoints != [] ==> Readable(d.checkpoints) != [])
    && forall c :: c in d.checkpoints ==>
         && c.sequence <= Durable(d.segments, h)
         && (c.readable ==>
               && Base(d.segments, h) <= c.sequence <= |h|
               && c.digest == DigestAt(h, c.sequence)
               && (c.sequence, c.snapshot) in offered)
  }

  /** The directory holds the history `h`, of which the first `acked` records have been acknowledged. */
  ghost predicate Intact(d: Disk, h: seq<Item>, acked: nat, offered: set<(nat, Image)>) {
    && Chained(h) && Laid(d.segments, h)
    && acked <= Durable(d.segments, h)
    && d.manifest.sequence <= Durable(d.segments, h) && d.manifest.sequence <= |h|
    && d.manifest.digest == DigestAt(h, d.manifest.sequence)
    && Covered(d, h, offered)
  }

  /** What a scan has read once it has passed the first `to` records of the history. */
  function Read(h: seq<Item>, from: nat, to: nat, bound: nat): Scan
    requires to <= |h|
  {
    if to - from > bound then Refused(ReplayBound) else Scanned(if to <= from then [] else h[from..to])
  }

  lemma ReadOne(h: seq<Item>, from: nat, to: nat, bound: nat)
    requires Chained(h) && from <= |h| && to < |h|
    ensures TakeLine(Origin(from, DigestAt(h, from)), Read(h, from, to, bound), h[to], bound) == Read(h, from, to + 1, bound)
  {
    assert Follows(h, to);
    if to >= from && to - from <= bound {
      assert h[from..to + 1] == (if to <= from then [] else h[from..to]) + [h[to]];
    }
  }

  lemma {:induction false} ScanReads(h: seq<Item>, from: nat, at: nat, lines: seq<Item>, bound: nat)
    requires Chained(h) && from <= |h| && at + |lines| <= |h| && lines == h[at..at + |lines|]
    ensures ScanLines(Origin(from, DigestAt(h, from)), Read(h, from, at, bound), lines, bound) == Read(h, from, at + |lines|, bound)
    decreases |lines|
  {
    if lines != [] {
      ReadOne(h, from, at, bound);
      assert lines[0] == h[at] && lines[1..] == h[at + 1..at + 1 + |lines[1..]|];
      ScanReads(h, from, at + 1, lines[1..], bound);
    }
  }

  lemma LaidTail(segments: seq<Segment>, h: seq<Item>)
    requires Laid(segments, h) && |segments| > 1
    ensures Laid(segments[1..], h) && segments[1].start == segments[0].start + |segments[0].lines| && !segments[0].torn
  {
    var rest := segments[1..];
    assert Full(segments, 0);
    forall k | 0 <= k < |rest| - 1
      ensures Full(rest, k)
    {
      assert Full(segments, k + 1);
    }
  }

  lemma {:induction false} SegmentsRead(h: seq<Item>, from: nat, segments: seq<Segment>, bound: nat)
    requires Chained(h) && from <= |h| && Laid(segments, h) && segments != []
    ensures ScanSegments(Origin(from, DigestAt(h, from)), Read(h, from, segments[0].start - 1, bound), segments, bound)
            == Read(h, from, |h|, bound)
    decreases |segments|
  {
    var at := segments[0].start - 1;
    ScanReads(h, from, at, segments[0].lines, bound);
    if |segments| > 1 {
      LaidTail(segments, h);
      SegmentsRead(h, from, segments[1..], bound);
    } else {
      assert segments[1..] == [];
    }
  }

  /** Recovery of an intact directory gives exactly the records after the newest readable checkpoint,
      ending at the head of the history, and repairs a torn tail; it fails if and only if there are
      more of them than the replay bound. */
  lemma RecoverIntact(d: Disk, h: seq<Item>, acked: nat, offered: set<(nat, Image)>, bound: nat)
    requires Intact(d, h, acked, offered)
    ensures var readable := Readable(d.checkpoints);
            var from := OriginOf(readable).sequence;
            && from <= |h|
            && Recover(d, bound) ==
               if |h| - from > bound then Failed(ReplayBound)
               else Healthy(if readable == [] then None else Some(readable[|readable| - 1]),
                            h[from..], |h|, DigestAt(h, |h|), Repaired(d))
  {
    OriginIntact(d, h, acked, offered);
    var from := OriginOf(Readable(d.checkpoints));
    ScanIntact(d, h, from.sequence, bound);
    RecoverUnfolds(d, bound, from, if |h| - from.sequence > bound then Refused(ReplayBound) else Scanned(h[from.sequence..]));
  }

  lemma RecoverUnfolds(d: Disk, bound: nat, from: Origin, scan: Scan)
    requires d.checkpoints != [] ==> Readable(d.checkpoints) != []
    requires from == OriginOf(Readable(d.checkpoints)) && scan == ScanSegments(from, Scanned([]), d.segments, bound)
    requires scan.Scanned? ==>
               && d.manifest.sequence <= from.sequence + |scan.records|
               && (d.manifest.sequence == from.sequence + |scan.records| ==> d.manifest.digest == TipOf(from, scan.records, |scan.records|))
    ensures var readable := Readable(d.checkpoints);
            Recover(d, bound) ==
            if scan.Refused? then Failed(scan.reason)
            else Healthy(if readable == [] then None else Some(readable[|readable| - 1]), scan.records,
                         from.sequence + |scan.records|, TipOf(from, scan.records, |scan.records|), Repaired(d))
  {
  }

  lemma OriginIntact(d: Disk, h: seq<Item>, acked: nat, offered: set<(nat, Image)>)
    requires Intact(d, h, acked, offered)
    ensures var from := OriginOf(Readable(d.checkpoints));
            from.sequence <= |h| && from.digest == DigestAt(h, from.sequence) && Base(d.segments, h) <= from.sequence
  {
    var readable := Readable(d.checkpoints);
    ReadableMembers(d.checkpoints);
    if readable != [] {
      assert readable[|readable| - 1] in readable;
    }
  }

  lemma ScanIntact(d: Disk, h: seq<Item>, from: nat, bound: nat)
    requires Chained(h) && Laid(d.segments, h) && Base(d.segments, h) <= from <= |h|
    ensures ScanSegments(Origin(from, DigestAt(h, from)), Scanned([]), d.segments, bound) ==
            if |h| - from > bound then Refused(ReplayBound) else Scanned(h[from..])
    ensures |h[from..]| == |h| - from && TipOf(Origin(from, DigestAt(h, from)), h[from..], |h| - from) == DigestAt(h, |h|)
  {
    if d.segments == [] {
      assert h[from..] == [];
    } else {
      assert Holds(d.segments[0], h);
      assert Read(h, from, d.segments[0].start - 1, bound) == Scanned([]);
      SegmentsRead(h, from, d.segments, bound);
      assert h[from..|h|] == h[from..];
    }
  }

  // ---------------------------------------------------------------- arbitrary directories

  /** A scan that succeeds has read consecutive records chained onto its origin. */
  ghost predicate Linked(from: Origin, records: seq<Item>) {
    forall i :: 0 <= i < |records| ==> LinkedAt(from, records, i)
  }

  predicate LinkedAt(from: Origin, records: seq<Item>, i: nat)
    requires i < |records|
  {
    records[i].Sealed() && records[i].sequence == from.sequence + 1 + i && records[i].previous == TipOf(from, records, i)
  }

  lemma LineLinked(from: Origin, done: Scan, item: Item, bound: nat)
    requires done.Scanned? ==> Linked(from, done.records) && |done.records| <= bound
    ensures var next := TakeLine(from, done, item, bound);
            next.Scanned? ==> Linked(from, next.records) && |next.records| <= bound
  {
    var next := TakeLine(from, done, item, bound);
    if next.Scanned? && next != done {
      var records := done.records + [item];
      forall i | 0 <= i < |records|
        ensures LinkedAt(from, records, i)
      {
        if i < |done.records| {
          assert LinkedAt(from, done.records, i);
        }
      }
    }
  }

  lemma {:induction false} ScanLinked(from: Origin, done: Scan, lines: seq<Item>, bound: nat)
    requires done.Scanned? ==> Linked(from, done.records) && |done.records| <= bound
    ensures var scan := ScanLines(from, done, lines, bound);
            scan.Scanned? ==> Linked(from, scan.records) && |scan.records| <= bound
    decreases |lines|
  {
    if lines != [] {
      var next := TakeLine(from, done, lines[0], bound);
      LineLinked(from, done, lines[0], bound);
      ScanLinked(from, next, lines[1..], bound);
    }
  }

  lemma {:induction false} SegmentsLinked(from: Origin, done: Scan, segments: seq<Segment>, bound: nat)
    requires done.Scanned? ==> Linked(from, done.records) && |done.records| <= bound
    ensures var scan := ScanSegments(from, done, segments, bound);
            scan.Scanned? ==> Linked(from, scan.records) && |scan.records| <= bound
    decreases |segments|
  {
    if segments != [] {
      ScanLinked(from, done, segments[0].lines, bound);
      SegmentsLinked(from, ScanLines(from, done, segments[0].lines, bound), segments[1..], bound);
    }
  }

  /** Whatever the directory holds, a recovery that succeeds returns consecutive chained records within
      the bound, reaching at least the manifest. */
  lemma HealthyIsLinked(d: Disk, bound: nat)
    requires Recover(d, bound).Healthy?
    ensures var r := Recover(d, bound);
            var from := OriginOf(Readable(d.checkpoints));
            && Linked(from, r.records) && |r.records| <= bound
            && r.lastSequence == from.sequence + |r.records| && d.manifest.sequence <= r.lastSequence
            && r.lastDigest == TipOf(from, r.records, |r.records|)
  {
    SegmentsLinked(OriginOf(Readable(d.checkpoints)), Scanned([]), d.segments, bound);
  }

  /** And if its head is the head of a history, the records are that history's: a directory that was
      altered in any way cannot pass for the same head with other records. */
  lemma {:induction false} HeadFixesRecords(from: Origin, records: seq<Item>, h: seq<Item>)
    requires Linked(from, records) && Chained(h) && records != []
    requires records[|records| - 1].digest == DigestAt(h, |h|)
    ensures |h| == from.sequence + |records| && records == h[from.sequence..] && from.digest == DigestAt(h, from.sequence)
    decreases |records|
  {
    var n := |records| - 1;
    assert LinkedAt(from, records, n);
    assert Follows(h, |h| - 1) && records[n] == h[|h| - 1];
    if n > 0 {
      var shorter := h[..|h| - 1];
      PrefixChained(h, |h| - 1);
      forall i | 0 <= i < n
        ensures LinkedAt(from, records[..n], i)
      {
        assert LinkedAt(from, records, i);
      }
      HeadFixesRecords(from, records[..n], shorter);
      assert records == records[..n] + [records[n]];
      assert h[from.sequence..] == shorter[from.sequence..] + [h[|h| - 1]];
    }
  }

  // ---------------------------------------------------------------- power loss

  /** Every file keeps what was synced and any part of the rest; the newest may end in an incomplete
      line. Checkpoint files may turn unreadable, but not all of them. */
  ghost predicate PowerLoss(before: Disk, after: Disk) {
    && after.manifest == before.manifest
    && |after.checkpoints| == |before.checkpoints|
    && (forall i :: 0 <= i < |after.checkpoints| ==>
          after.checkpoints[i] == before.checkpoints[i] || after.checkpoints[i] == before.checkpoints[i].(readable := false))
    && (after.checkpoints != [] ==> Readable(after.checkpoints) != [])
    && |after.segments| == |before.segments|
    && (forall k :: 0 <= k < |after.segments| ==> Worn(before.segments[k], after.segments[k], k == |after.segments| - 1))
  }

  ghost predicate Worn(before: Segment, after: Segment, newest: bool) {
    && after.start == before.start
    && before.synced <= |after.lines| <= |before.lines|
    && after.lines == before.lines[..|after.lines|]
    && after.synced == |after.lines|
    && (after.torn ==> newest || |after.lines| < |before.lines| || before.torn)
  }

  /** How much of the history a worn directory still holds. */
  function Surviving(after: seq<Segment>, h: seq<Item>): int {
    if after == [] then |h| else Newest(after).start - 1 + |Newest(after).lines|
  }

  lemma WornLaid(before: Disk, after: Disk, h: seq<Item>)
    requires Laid(before.segments, h) && PowerLoss(before, after)
    ensures var n := Surviving(after.segments, h);
            && Durable(before.segments, h) <= n <= |h| && 0 <= n
            && Laid(after.segments, h[..n])
            && Durable(after.segments, h[..n]) == n && Base(after.segments, h[..n]) == Base(before.segments, h)
  {
    var n := Surviving(after.segments, h);
    var a, b := after.segments, before.segments;
    if a != [] {
      assert Worn(Newest(b), Newest(a), true);
      forall k | 0 <= k < |a|
        ensures Holds(a[k], h[..n])
        ensures k < |a| - 1 ==> Full(a, k)
        ensures a[k].start == b[k].start
      {
        WornSegment(b, a, h, k, n);
      }
    } else {
      assert h[..n] == h;
    }
  }

  lemma WornSegment(b: seq<Segment>, a: seq<Segment>, h: seq<Item>, k: nat, n: nat)
    requires Laid(b, h) && |a| == |b| && k < |a| && n == Surviving(a, h) <= |h|
    requires forall j :: 0 <= j < |a| ==> Worn(b[j], a[j], j == |a| - 1)
    ensures Holds(a[k], h[..n])
    ensures k < |a| - 1 ==> Full(a, k)
    ensures a[k].start == b[k].start
  {
    assert Worn(b[k], a[k], k == |a| - 1) && Worn(Newest(b), Newest(a), true);
    assert Holds(b[k], h);
    SegmentsGrow(b, h, k);
    if k < |a| - 1 {
      assert Full(b, k) && Worn(b[k + 1], a[k + 1], k + 1 == |a| - 1);
      assert a[k].lines == b[k].lines;
    }
    var from := a[k].start - 1;
    assert from + |a[k].lines| <= n;
    assert h[..n][from..from + |a[k].lines|] == h[from..from + |b[k].lines|][..|a[k].lines|];
  }

  /** Every segment before the newest ends where the newest starts, or earlier. */
  lemma {:induction false} SegmentsGrow(segments: seq<Segment>, h: seq<Item>, k: nat)
    requires Laid(segments, h) && k < |segments|
    ensures k < |segments| - 1 ==> segments[k].start + |segments[k].lines| <= Newest(segments).start
    ensures segments[0].start <= segments[k].start <= Newest(segments).start
    decreases |segments| - k
  {
    if k < |segments| - 1 {
      assert Full(segments, k);
      SegmentsGrow(segments, h, k + 1);
    }
    FirstIsLowest(segments, h, k);
  }

  lemma {:induction false} FirstIsLowest(segments: seq<Segment>, h: seq<Item>, k: nat)
    requires Laid(segments, h) && k < |segments|
    ensures segments[0].start <= segments[k].start
  {
    if k > 0 {
      FirstIsLowest(segments, h, k - 1);
      assert Full(segments, k - 1);
    }
  }

  lemma WornCovered(before: Disk, after: Disk, h: seq<Item>, offered: set<(nat, Image)>)
    requires Chained(h) && Laid(before.segments, h) && Covered(before, h, offered) && PowerLoss(before, after)
    ensures var n := Surviving(after.segments, h); 0 <= n <= |h| && Covered(after, h[..n], offered)
  {
    WornLaid(before, after, h);
    var n := Surviving(after.segments, h);
    PrefixChained(h, n);
    forall c | c in after.checkpoints
      ensures && c.sequence <= Durable(after.segments, h[..n])
              && (c.readable ==> Base(after.segments, h[..n]) <= c.sequence <= n && c.digest == DigestAt(h[..n], c.sequence)
                                 && (c.sequence, c.snapshot) in offered)
    {
      var i :| 0 <= i < |after.checkpoints| && after.checkpoints[i] == c;
      assert before.checkpoints[i] in before.checkpoints;
    }
  }

  /** A power loss leaves an intact directory that holds a prefix of the history with every acknowledged
      record, and all of it synced. */
  lemma PowerLossKeepsIntact(before: Disk, after: Disk, h: seq<Item>, acked: nat, offered: set<(nat, Image)>)
    requires Intact(before, h, acked, offered) && PowerLoss(before, after)
    ensures var n := Surviving(after.segments, h);
            && acked <= n <= |h| && Intact(after, h[..n], acked, offered) && Durable(after.segments, h[..n]) == n
  {
    WornLaid(before, after, h);
    WornCovered(before, after, h, offered);
    PrefixChained(h, Surviving(after.segments, h));
  }

  /** Durability: whatever a power loss makes of an intact directory, recovery returns a contiguous
      piece of the history that ends at or after the last acknowledged record, starting at the newest
      checkpoint that still reads; or that piece is longer than the replay bound. */
  lemma RecoveryIsDurable(before: Disk, after: Disk, h: seq<Item>, acked: nat,
                                            offered: set<(nat, Image)>, bound: nat)
    requires Intact(before, h, acked, offered) && PowerLoss(before, after)
    ensures var r := Recover(after, bound);
            var from := OriginOf(Readable(after.checkpoints)).sequence;
            exists n :: acked <= n <= |h| && from <= n
                        && (r.Healthy? <==> n - from <= bound)
                        && (if r.Healthy? then r.records == h[from..n] && r.lastSequence == n && r.lastDigest == DigestAt(h, n)
                            else r == Failed(ReplayBound))
  {
    PowerLossKeepsIntact(before, after, h, acked, offered);
    var n := Surviving(after.segments, h);
    RecoverIntact(after, h[..n], acked, offered, bound);
    PrefixChained(h, n);
    var from := OriginOf(Readable(after.checkpoints)).sequence;
    assert h[..n][from..] == h[from..n];
  }

  // ---------------------------------------------------------------- elementary changes to the directory

  /** Open the segment named after the next sequence, creating it unless it is already there. */
  function Opened(d: Disk, sequence: nat): Disk {
    if d.segments != [] && Newest(d.segments).start == sequence then d
    else d.(segments := d.segments + [Segment(sequence, [], 0, false)])
  }

  function WithNewest(d: Disk, s: Segment): Disk
    requires d.segments != []
  {
    d.(segments := d.segments[|d.segments| - 1 := s])
  }

  /** One more line in the newest segment. */
  function Written(d: Disk, item: Item): Disk
    requires d.segments != []
  {
    WithNewest(d, Newest(d.segments).(lines := Newest(d.segments).lines + [item]))
  }

  /** The newest segment after fdatasync. */
  function Synced(d: Disk): Disk {
    if d.segments == [] then d
    else WithNewest(d, Newest(d.segments).(synced := |Newest(d.segments).lines|))
  }

  /** Where a checkpoint file lands in name order, taking the place of one of the same name. */
  function Insert(cs: seq<Checkpoint>, c: Checkpoint): seq<Checkpoint> {
    if cs == [] || Before(c, cs[0]) then [c] + cs
    else if Before(cs[0], c) then [cs[0]] + Insert(cs[1..], c)
    else [c] + cs[1..]
  }

  /** The directory without one checkpoint file. */
  function Dropped(cs: seq<Checkpoint>, c: Checkpoint): seq<Checkpoint> {
    if cs == [] then [] else if cs[0] == c then cs[1..] else [cs[0]] + Dropped(cs[1..], c)
  }

  // ---------------------------------------------------------------- and what each of them keeps

  /** The open segment is clean, and everything before it is synced; a closed journal is all synced. */
  ghost predicate Writable(d: Disk, open: bool) {
    d.segments == [] || (!Newest(d.segments).torn && (open || Newest(d.segments).synced == |Newest(d.segments).lines|))
  }

  /** Laying out the same history again, with no less of it synced, keeps the directory intact. */
  lemma RelaidKeeps(d: Disk, segments: seq<Segment>, h: seq<Item>, acked: nat, offered: set<(nat, Image)>)
    requires Intact(d, h, acked, offered) && Laid(segments, h)
    requires Base(segments, h) == Base(d.segments, h) && Durable(segments, h) >= Durable(d.segments, h)
    ensures Intact(d.(segments := segments), h, acked, offered)
  {
  }

  lemma OpenLaid(segments: seq<Segment>, h: seq<Item>)
    requires Laid(segments, h)
    requires segments != [] ==> Newest(segments).lines != [] && Newest(segments).synced == |Newest(segments).lines| && !Newest(segments).torn
    ensures var after := segments + [Segment(|h| + 1, [], 0, false)];
            Laid(after, h) && Durable(after, h) == |h| && Base(after, h) == Base(segments, h)
  {
    var after := segments + [Segment(|h| + 1, [], 0, false)];
    forall k | 0 <= k < |after|
      ensures Holds(after[k], h)
      ensures k < |after| - 1 ==> Full(after, k)
    {
      if k < |segments| {
        assert Holds(segments[k], h);
        assert k < |segments| - 1 ==> Full(segments, k);
      }
    }
  }

  lemma NewestLaid(segments: seq<Segment>, h: seq<Item>, synced: nat, torn: bool)
    requires Laid(segments, h) && segments != [] && Newest(segments).synced <= synced <= |Newest(segments).lines|
    ensures var after := segments[|segments| - 1 := Newest(segments).(synced := synced, torn := torn)];
            && Laid(after, h) && Base(after, h) == Base(segments, h)
            && Durable(after, h) == Newest(segments).start - 1 + synced
  {
    var after := segments[|segments| - 1 := Newest(segments).(synced := synced, torn := torn)];
    forall k | 0 <= k < |after|
      ensures Holds(after[k], h)
      ensures k < |after| - 1 ==> Full(after, k)
    {
      assert Holds(segments[k], h);
      assert k < |segments| - 1 ==> Full(segments, k);
    }
  }

  lemma OpenKeeps(d: Disk, h: seq<Item>, acked: nat, offered: set<(nat, Image)>)
    requires Intact(d, h, acked, offered) && Writable(d, false)
    ensures Intact(Opened(d, |h| + 1), h, acked, offered) && Writable(Opened(d, |h| + 1), true)
    ensures Durable(Opened(d, |h| + 1).segments, h) == |h| == Durable(d.segments, h)
  {
    if Opened(d, |h| + 1) != d {
      assert d.segments != [] ==> Holds(Newest(d.segments), h);
      OpenLaid(d.segments, h);
      RelaidKeeps(d, Opened(d, |h| + 1).segments, h, acked, offered);
    }
  }

  lemma WriteKeepsLaid(segments: seq<Segment>, h: seq<Item>, item: Item)
    requires Laid(segments, h) && segments != []
    ensures var s := Newest(segments);
            Laid(segments[|segments| - 1 := s.(lines := s.lines + [item])], h + [item])
  {
    var s := Newest(segments);
    var after := segments[|segments| - 1 := s.(lines := s.lines + [item])];
    var longer := h + [item];
    forall k | 0 <= k < |after|
      ensures Holds(after[k], longer)
      ensures k < |after| - 1 ==> Full(after, k)
    {
      assert Holds(segments[k], h);
      var from := segments[k].start - 1;
      assert longer[from..from + |segments[k].lines|] == h[from..from + |segments[k].lines|];
      if k < |segments| - 1 {
        assert Full(segments, k);
      } else {
        assert longer[from..|longer|] == h[from..|h|] + [item];
      }
    }
  }

  lemma WriteKeeps(d: Disk, h: seq<Item>, payload: Payload, acked: nat, offered: set<(nat, Image)>)
    requires Intact(d, h, acked, offered) && Writable(d, true) && d.segments != []
    ensures var longer := Extend(h, payload);
            Intact(Written(d, longer[|h|]), longer, acked, offered) && Writable(Written(d, longer[|h|]), true)
  {
    var longer := Extend(h, payload);
    ExtendChained(h, payload);
    WriteKeepsLaid(d.segments, h, longer[|h|]);
    assert forall n :: 0 <= n <= |h| ==> DigestAt(longer, n) == DigestAt(h, n);
  }

  lemma SyncKeeps(d: Disk, h: seq<Item>, acked: nat, offered: set<(nat, Image)>, open: bool)
    requires Intact(d, h, acked, offered) && Writable(d, open)
    ensures Intact(Synced(d), h, acked, offered) && Writable(Synced(d), false) && Durable(Synced(d).segments, h) == |h|
  {
    if d.segments != [] {
      var s := Newest(d.segments);
      assert Holds(s, h);
      NewestLaid(d.segments, h, |s.lines|, s.torn);
      RelaidKeeps(d, Synced(d).segments, h, acked, offered);
    }
  }

  lemma ManifestKeeps(d: Disk, h: seq<Item>, acked: nat, offered: set<(nat, Image)>)
    requires Intact(d, h, acked, offered) && Durable(d.segments, h) == |h|
    ensures Intact(d.(manifest := Manifest(|h|, DigestAt(h, |h|))), h, |h|, offered)
    ensures Intact(d.(manifest := Manifest(|h|, DigestAt(h, |h|))), h, acked, offered)
  {
  }

  lemma RepairKeeps(d: Disk, h: seq<Item>, acked: nat, offered: set<(nat, Image)>)
    requires Intact(d, h, acked, offered)
    ensures Intact(Repaired(d), h, acked, offered)
    ensures d.segments != [] && Newest(d.segments).torn ==> Writable(Repaired(d), false)
  {
    if d.segments != [] && Newest(d.segments).torn {
      var s := Newest(d.segments);
      assert Holds(s, h);
      NewestLaid(d.segments, h, |s.lines|, false);
      RelaidKeeps(d, Repaired(d).segments, h, acked, offered);
    }
  }

  lemma {:induction false} ReadableInsert(cs: seq<Checkpoint>, c: Checkpoint)
    requires c.readable
    ensures Readable(Insert(cs, c)) != [] && c in Insert(cs, c)
    ensures forall x :: x in Insert(cs, c) ==> x == c || x in cs
  {
    if cs != [] && !Before(c, cs[0]) && Before(cs[0], c) {
      ReadableInsert(cs[1..], c);
    }
  }

  lemma {:induction false} InsertSorted(cs: seq<Checkpoint>, c: Checkpoint)
    requires Sorted(cs)
    ensures Sorted(Insert(cs, c))
  {
    if cs != [] && !Before(c, cs[0]) {
      var rest := cs[1..];
      assert Sorted(rest);
      if Before(cs[0], c) {
        InsertSorted(rest, c);
        forall x | x in Insert(rest, c)
          ensures Before(cs[0], x)
        {
          InsertedFrom(rest, c, x);
        }
      } else {
        assert forall j :: 0 <= j < |rest| ==> Before(cs[0], rest[j]);
      }
    }
  }

  lemma {:induction false} InsertedFrom(cs: seq<Checkpoint>, c: Checkpoint, x: Checkpoint)
    requires x in Insert(cs, c)
    ensures x == c || x in cs
  {
    if cs != [] && !Before(c, cs[0]) && Before(cs[0], c) && x != cs[0] {
      InsertedFrom(cs[1..], c, x);
    }
  }

  lemma InsertKeeps(d: Disk, h: seq<Item>, acked: nat, offered: set<(nat, Image)>, c: Checkpoint)
    requires Intact(d, h, acked, offered) && Durable(d.segments, h) == |h|
    requires c.sequence == |h| && c.digest == DigestAt(h, |h|) && c.readable
    ensures Intact(d.(checkpoints := Insert(d.checkpoints, c)), h, acked, offered + {(|h|, c.snapshot)})
  {
    ReadableInsert(d.checkpoints, c);
    InsertSorted(d.checkpoints, c);
    BaseWithin(d.segments, h);
  }

  lemma BaseWithin(segments: seq<Segment>, h: seq<Item>)
    requires Laid(segments, h)
    ensures 0 <= Base(segments, h) <= |h|
  {
    if segments != [] {
      assert Holds(segments[0], h);
    }
  }

  lemma {:induction false} DroppedWithin(cs: seq<Checkpoint>, c: Checkpoint)
    requires Sorted(cs)
    ensures Sorted(Dropped(cs, c)) && forall x :: x in Dropped(cs, c) ==> x in cs
    ensures c in cs ==> |Dropped(cs, c)| == |cs| - 1
  {
    if cs != [] && cs[0] != c {
      assert Sorted(cs[1..]);
      assert forall x :: x in cs[1..] ==> Before(cs[0], x);
      DroppedWithin(cs[1..], c);
    }
  }

  /** Removing the oldest readable checkpoint leaves the others. */
  lemma {:induction false} ReadableDropped(cs: seq<Checkpoint>)
    requires Readable(cs) != []
    ensures Readable(Dropped(cs, Readable(cs)[0])) == Readable(cs)[1..]
  {
    if !cs[0].readable {
      ReadableMembers(cs[1..]);
      assert Readable(cs[1..])[0] in Readable(cs[1..]);
      ReadableDropped(cs[1..]);
    }
  }

  lemma DropKeeps(d: Disk, h: seq<Item>, acked: nat, offered: set<(nat, Image)>)
    requires Intact(d, h, acked, offered) && |Readable(d.checkpoints)| > 1
    ensures Intact(d.(checkpoints := Dropped(d.checkpoints, Readable(d.checkpoints)[0])), h, acked, offered)
  {
    DroppedWithin(d.checkpoints, Readable(d.checkpoints)[0]);
    ReadableDropped(d.checkpoints);
  }

  lemma {:induction false} ReadableSorted(cs: seq<Checkpoint>)
    requires Sorted(cs)
    ensures Sorted(Readable(cs))
    ensures Readable(cs) != [] ==> forall c :: c in cs && c.readable ==> Readable(cs)[0].sequence <= c.sequence
  {
    if cs != [] {
      var rest := cs[1..];
      assert Sorted(rest);
      ReadableSorted(rest);
      ReadableMembers(rest);
      assert forall c :: c in rest ==> Before(cs[0], c);
    }
  }

  /** Deleting the oldest segment loses no record above the oldest checkpoint that still reads. */
  lemma DeleteKeeps(d: Disk, h: seq<Item>, acked: nat, offered: set<(nat, Image)>)
    requires Intact(d, h, acked, offered) && |d.segments| > 1 && Readable(d.checkpoints) != []
    requires d.segments[1].start - 1 <= Readable(d.checkpoints)[0].sequence
    ensures Intact(d.(segments := d.segments[1..]), h, acked, offered)
  {
    LaidTail(d.segments, h);
    ReadableSorted(d.checkpoints);
  }

  // ---------------------------------------------------------------- a tail that recovery did not sync

  /** The directory once the first record after opening `d` has been acknowledged. */
  function Acknowledged(d: Disk, item: Item): Disk {
    Synced(Written(Opened(d, item.sequence), item)).(manifest := Manifest(item.sequence, item.digest))
  }

  /** Recovery succeeds and ends at the given sequence, unless that is out of the replay bound. */
  predicate Reaches(d: Disk, sequence: nat, bound: nat) {
    sequence - OriginOf(Readable(d.checkpoints)).sequence <= bound ==>
      Recover(d, bound).Healthy? && Recover(d, bound).lastSequence == sequence
  }

  ghost predicate SurvivesEveryLoss(d: Disk, sequence: nat, bound: nat) {
    forall lost :: PowerLoss(d, lost) ==> Reaches(lost, sequence, bound)
  }

  /** The exact condition: after opening an intact directory without a torn line and appending one
      record, every power loss leaves that record recoverable if and only if the tail that was taken
      over had been synced. */
  lemma ReopenIsDurableIff(d: Disk, h: seq<Item>, acked: nat, offered: set<(nat, Image)>, payload: Payload, bound: nat)
    requires Intact(d, h, acked, offered) && (d.segments != [] ==> !Newest(d.segments).torn)
    requires |h| + 1 - OriginOf(Readable(d.checkpoints)).sequence <= bound
    ensures SurvivesEveryLoss(Acknowledged(d, Seal(|h| + 1, payload, DigestAt(h, |h|))), |h| + 1, bound)
            <==> Durable(d.segments, h) == |h|
  {
    var item := Seal(|h| + 1, payload, DigestAt(h, |h|));
    var after := Acknowledged(d, item);
    if Durable(d.segments, h) == |h| {
      AcknowledgedIntact(d, h, acked, offered, payload);
      forall lost | PowerLoss(after, lost)
        ensures Reaches(lost, |h| + 1, bound)
      {
        RecoveryIsDurable(after, lost, Extend(h, payload), |h| + 1, offered, bound);
      }
    } else {
      var lost := TailLost(d, item);
      TailLostIsLoss(d, h, acked, offered, item);
      TailLostFails(d, h, acked, offered, item, bound);
      assert !Reaches(lost, |h| + 1, bound);
    }
  }

  lemma AcknowledgedIntact(d: Disk, h: seq<Item>, acked: nat, offered: set<(nat, Image)>, payload: Payload)
    requires Intact(d, h, acked, offered) && Writable(d, false)
    ensures Intact(Acknowledged(d, Seal(|h| + 1, payload, DigestAt(h, |h|))), Extend(h, payload), |h| + 1, offered)
  {
    var longer := Extend(h, payload);
    var ready := Opened(d, |h| + 1);
    OpenKeeps(d, h, acked, offered);
    WriteKeeps(ready, h, payload, acked, offered);
    SyncKeeps(Written(ready, longer[|h|]), longer, acked, offered, true);
  }

  /** The directory after the tail that was never synced has gone, with the later record in place. */
  function TailLost(d: Disk, item: Item): Disk
    requires d.segments != [] && Newest(d.segments).synced <= |Newest(d.segments).lines|
  {
    var s := Newest(d.segments);
    d.(manifest := Manifest(item.sequence, item.digest),
       segments := d.segments[|d.segments| - 1 := s.(lines := s.lines[..s.synced])] + [Segment(item.sequence, [item], 1, false)])
  }

  lemma TailLostIsLoss(d: Disk, h: seq<Item>, acked: nat, offered: set<(nat, Image)>, item: Item)
    requires Intact(d, h, acked, offered) && d.segments != [] && !Newest(d.segments).torn
    requires Durable(d.segments, h) < |h| && item.sequence == |h| + 1
    ensures Newest(d.segments).synced <= |Newest(d.segments).lines|
    ensures PowerLoss(Acknowledged(d, item), TailLost(d, item))
  {
    assert Holds(Newest(d.segments), h);
    AcknowledgedShape(d, item);
    var before := d.segments + [Segment(item.sequence, [item], 1, false)];
    var lost := TailLost(d, item).segments;
    forall k | 0 <= k < |lost|
      ensures Worn(before[k], lost[k], k == |lost| - 1)
    {
      TailWorn(d.segments, h, item, k);
    }
  }

  lemma TailWorn(segments: seq<Segment>, h: seq<Item>, item: Item, k: nat)
    requires Laid(segments, h) && segments != [] && !Newest(segments).torn && k <= |segments|
    requires Newest(segments).synced < |Newest(segments).lines|
    ensures var s := Newest(segments);
            var before := segments + [Segment(item.sequence, [item], 1, false)];
            var lost := segments[|segments| - 1 := s.(lines := s.lines[..s.synced])] + [Segment(item.sequence, [item], 1, false)];
            Worn(before[k], lost[k], k == |lost| - 1)
  {
    if k < |segments| - 1 {
      assert Full(segments, k);
    }
  }

  lemma AcknowledgedShape(d: Disk, item: Item)
    requires d.segments == [] || Newest(d.segments).start != item.sequence
    ensures Acknowledged(d, item) ==
            d.(manifest := Manifest(item.sequence, item.digest), segments := d.segments + [Segment(item.sequence, [item], 1, false)])
  {
    var longer := d.segments + [Segment(item.sequence, [], 0, false)];
    assert Opened(d, item.sequence).segments == longer && Newest(longer).lines + [item] == [item];
    assert Written(Opened(d, item.sequence), item).segments == d.segments + [Segment(item.sequence, [item], 0, false)];
  }

  /** Everything a scan returns was on a line. */
  lemma {:induction false} ScanFromLines(from: Origin, done: Scan, lines: seq<Item>, bound: nat, item: Item)
    requires var scan := ScanLines(from, done, lines, bound); scan.Scanned? && item in scan.records
    ensures (done.Scanned? && item in done.records) || item in lines
    decreases |lines|
  {
    if lines != [] {
      var next := TakeLine(from, done, lines[0], bound);
      ScanFromLines(from, next, lines[1..], bound, item);
    }
  }

  lemma {:induction false} ScanFromSegments(from: Origin, done: Scan, segments: seq<Segment>, bound: nat, item: Item)
    requires var scan := ScanSegments(from, done, segments, bound); scan.Scanned? && item in scan.records
    ensures (done.Scanned? && item in done.records) || exists k :: 0 <= k < |segments| && item in segments[k].lines
    decreases |segments|
  {
    if segments != [] {
      var next := ScanLines(from, done, segments[0].lines, bound);
      ScanFromSegments(from, next, segments[1..], bound, item);
      if next.Scanned? && item in next.records {
        ScanFromLines(from, done, segments[0].lines, bound, item);
      } else {
        var k :| 0 <= k < |segments[1..]| && item in segments[1..][k].lines;
        assert segments[1..][k] == segments[k + 1];
      }
    }
  }

  /** No line of the directory carries the sequence `|h|`. */
  lemma TailMissing(d: Disk, h: seq<Item>, item: Item, k: nat, x: Item)
    requires Chained(h) && Laid(d.segments, h) && d.segments != []
    requires Durable(d.segments, h) < |h| && item.sequence == |h| + 1
    requires Newest(d.segments).synced <= |Newest(d.segments).lines|
    requires k < |TailLost(d, item).segments| && x in TailLost(d, item).segments[k].lines
    ensures x.sequence != |h|
  {
    if k < |d.segments| {
      var s := d.segments[k];
      assert Holds(s, h);
      SegmentsGrow(d.segments, h, k);
      var lines := TailLost(d, item).segments[k].lines;
      var i :| 0 <= i < |lines| && lines[i] == x;
      assert lines[i] == h[s.start - 1 + i];
      assert Follows(h, s.start - 1 + i);
    }
  }

  lemma TailLostFails(d: Disk, h: seq<Item>, acked: nat, offered: set<(nat, Image)>, item: Item, bound: nat)
    requires Intact(d, h, acked, offered) && d.segments != []
    requires Durable(d.segments, h) < |h| && item.sequence == |h| + 1
    requires Newest(d.segments).synced <= |Newest(d.segments).lines|
    ensures var r := Recover(TailLost(d, item), bound); r.Failed?
  {
    var lost := TailLost(d, item);
    var r := Recover(lost, bound);
    if r.Healthy? {
      HealthyIsLinked(lost, bound);
      var from := OriginOf(Readable(d.checkpoints));
      OriginDurable(d, h, acked, offered);
      var x := r.records[|h| - from.sequence - 1];
      assert LinkedAt(from, r.records, |h| - from.sequence - 1);
      ScanFromSegments(from, Scanned([]), lost.segments, bound, x);
      var k :| 0 <= k < |lost.segments| && x in lost.segments[k].lines;
      TailMissing(d, h, item, k, x);
      assert false;
    }
  }

  lemma OriginDurable(d: Disk, h: seq<Item>, acked: nat, offered: set<(nat, Image)>)
    requires Intact(d, h, acked, offered)
    ensures OriginOf(Readable(d.checkpoints)).sequence <= Durable(d.segments, h)
  {
    var readable := Readable(d.checkpoints);
    ReadableMembers(d.checkpoints);
    if readable != [] {
      assert readable[|readable| - 1] in readable;
    }
  }

  /** Recovery syncs the newest segment only when it has to truncate it. If the process alone died, an
      unsynced but complete tail is taken over as it is; the next append goes to a new segment and is
      acknowledged; a power loss after that can lose the old tail, and then the journal does not recover. */
  lemma TailLostAfterKill(payload: Payload, first: Item, second: Item, killed: Disk, h: seq<Item>, bound: nat)
    requires first == Seal(1, payload, Zero) && second == Seal(2, payload, first.digest)
    requires killed == Killed(first) && h == [first] && 2 <= bound
    ensures Recover(killed, bound) == Healthy(None, [first], 1, first.digest, killed)
    ensures Recover(Acknowledged(killed, second), bound) == Healthy(None, [first, second], 2, second.digest, Acknowledged(killed, second))
    ensures Recover(TailLost(killed, second), bound) == Failed(Corrupt)
  {
    KilledIntact(payload, first, killed, h);
    KilledRecovers(first, bound);
    LostFails(first, second, bound);
  }

  /** The directories of the lemma above: an intact one, and a power loss that can follow the append. */
  lemma KillThenPowerLoss(payload: Payload, first: Item, second: Item, killed: Disk, h: seq<Item>)
    requires first == Seal(1, payload, Zero) && second == Seal(2, payload, first.digest)
    requires killed == Killed(first) && h == [first]
    ensures Intact(killed, h, 0, {})
    ensures PowerLoss(Acknowledged(killed, second), TailLost(killed, second))
  {
    KilledIntact(payload, first, killed, h);
    KilledLoses(killed, h, second);
  }

  lemma KilledLoses(d: Disk, h: seq<Item>, second: Item)
    requires Intact(d, h, 0, {}) && d.segments != [] && |h| == 1 && second.sequence == 2
    requires Durable(d.segments, h) == 0 && !Newest(d.segments).torn
    ensures Newest(d.segments).synced <= |Newest(d.segments).lines|
    ensures PowerLoss(Acknowledged(d, second), TailLost(d, second))
  {
    TailLostIsLoss(d, h, 0, {}, second);
  }

  lemma LostFails(first: Item, second: Item, bound: nat)
    requires 2 <= bound
    requires first.Sealed() && second.Sealed() && first.sequence == 1 && second.sequence == 2
    requires first.previous == Zero && second.previous == first.digest
    ensures Recover(TailLost(Killed(first), second), bound) == Failed(Corrupt)
    ensures Recover(Acknowledged(Killed(first), second), bound) == Healthy(None, [first, second], 2, second.digest, Acknowledged(Killed(first), second))
  {
    ScanTwo(first, second, bound);
    AcknowledgedShape(Killed(first), second);
    assert Acknowledged(Killed(first), second).segments == [Segment(1, [first], 0, false), Segment(2, [second], 1, false)];
    assert TailLost(Killed(first), second).segments == [Segment(1, [], 0, false), Segment(2, [second], 1, false)];
  }

  /** One record written and not yet synced. */
  function Killed(first: Item): Disk { Disk(Manifest(0, Zero), [], [Segment(1, [first], 0, false)]) }

  lemma KilledIntact(payload: Payload, first: Item, killed: Disk, h: seq<Item>)
    requires first == Seal(1, payload, Zero) && killed == Killed(first) && h == [first]
    ensures Intact(killed, h, 0, {})
  {
    var s := killed.segments[0];
    assert h[0..1] == h && Holds(s, h) && Follows(h, 0);
  }

  lemma KilledRecovers(first: Item, bound: nat)
    requires 2 <= bound
    requires Intact(Killed(first), [first], 0, {})
    ensures Recover(Killed(first), bound) == Healthy(None, [first], 1, first.digest, Killed(first))
  {
    RecoverIntact(Killed(first), [first], 0, {}, bound);
    assert [first][0..] == [first];
  }

  lemma ScanTwo(first: Item, second: Item, bound: nat)
    requires 2 <= bound
    requires first.Sealed() && second.Sealed() && first.sequence == 1 && second.sequence == 2
    requires first.previous == Zero && second.previous == first.digest
    ensures var from := Origin(0, Zero);
            && ScanSegments(from, Scanned([]), [Segment(1, [first], 0, false), Segment(2, [second], 1, false)], bound) == Scanned([first, second])
            && ScanSegments(from, Scanned([]), [Segment(1, [], 0, false), Segment(2, [second], 1, false)], bound) == Refused(Corrupt)
  {
    var from := Origin(0, Zero);
    var newest := Segment(2, [second], 1, false);
    assert ScanLines(from, Scanned([]), [first], bound) == Scanned([first]);
    assert ScanLines(from, Scanned([first]), [second], bound) == Scanned([first, second]);
    assert ScanLines(from, Scanned([]), [second], bound) == Refused(Corrupt);
    assert [Segment(1, [first], 0, false), newest][1..] == [newest] && [newest][1..] == [];
    assert [Segment(1, [], 0, false), newest][1..] == [newest];
    assert ScanSegments(from, Scanned([first]), [newest], bound) == Scanned([first, second]);
    assert ScanSegments(from, Scanned([]), [newest], bound) == Refused(Corrupt);
  }
}
