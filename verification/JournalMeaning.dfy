/** What recovery accepts, for any directory whatever, and which files the journal keeps, said over the files'
    lines and names. No definition here calls the scan or the recovery of Journal. */
module JournalMeaning {
  import opened Common
  import opened Fleet
  import opened Journal

  // ---------------------------------------------------------------- the lines of a directory

  function AllLines(segments: seq<Segment>): seq<Item> { if segments == [] then [] else segments[0].lines + AllLines(segments[1..]) }

  /** The lines beyond a sequence, in order. */
  function Beyond(lines: seq<Item>, sequence: nat): seq<Item> {
    if lines == [] then [] else (if lines[0].sequence > sequence then [lines[0]] else []) + Beyond(lines[1..], sequence)
  }

  predicate Untampered(item: Item) { 1 <= item.sequence && item.digest == Of(item.sequence, item.payload, item.previous) }

  /** Consecutive records from the origin on, each naming the digest of the one before. */
  predicate Consecutive(from: Origin, records: seq<Item>) {
    forall i :: 0 <= i < |records| ==> InLine(from, records, i)
  }

  predicate InLine(from: Origin, records: seq<Item>, i: nat)
    requires i < |records|
  {
    records[i].sequence == from.sequence + i + 1 && records[i].previous == (if i == 0 then from.digest else records[i - 1].digest)
  }

  /** Every line is untampered, and those beyond the origin follow it one after the other, within the bound. */
  predicate Follow(from: Origin, done: seq<Item>, lines: seq<Item>, bound: nat) {
    && (forall x :: x in lines ==> Untampered(x))
    && Consecutive(from, done + Beyond(lines, from.sequence)) && |done + Beyond(lines, from.sequence)| <= bound
  }

  lemma FollowFirst(from: Origin, done: seq<Item>, lines: seq<Item>, bound: nat)
    requires lines != [] && Consecutive(from, done) && |done| <= bound
    ensures var x := lines[0];
            Follow(from, done, lines, bound) <==>
              if x.sequence <= from.sequence then Untampered(x) && Follow(from, done, lines[1..], bound)
              else
                && Untampered(x) && x.sequence == from.sequence + 1 + |done|
                && x.previous == (if done == [] then from.digest else done[|done| - 1].digest)
                && |done| + 1 <= bound && Follow(from, done + [x], lines[1..], bound)
  {
    var x, rest := lines[0], lines[1..];
    assert lines == [x] + rest;
    assert (forall y :: y in lines ==> Untampered(y)) <==> Untampered(x) && forall y :: y in rest ==> Untampered(y);
    if x.sequence > from.sequence {
      var all := done + Beyond(lines, from.sequence);
      assert all == (done + [x]) + Beyond(rest, from.sequence);
      if Consecutive(from, all) {
        assert InLine(from, all, |done|) && all[|done|] == x;
        assert done != [] ==> all[|done| - 1] == done[|done| - 1];
      }
    } else {
      assert Beyond(lines, from.sequence) == Beyond(rest, from.sequence);
    }
  }

  /** Taking one line. */
  lemma LineTaken(from: Origin, done: seq<Item>, x: Item, bound: nat)
    ensures TakeLine(from, Scanned(done), x, bound) ==
            if !Untampered(x) then Refused(Corrupt)
            else if x.sequence <= from.sequence then Scanned(done)
            else if x.sequence != from.sequence + 1 + |done| || x.previous != (if done == [] then from.digest else done[|done| - 1].digest)
            then Refused(Corrupt)
            else if |done| + 1 > bound then Refused(ReplayBound)
            else Scanned(done + [x])
  {
  }

  lemma {:induction false} RefusedStays(from: Origin, lines: seq<Item>, bound: nat, reason: Reason)
    ensures ScanLines(from, Refused(reason), lines, bound) == Refused(reason)
    decreases |lines|
  {
    if lines != [] {
      RefusedStays(from, lines[1..], bound, reason);
    }
  }

  lemma ConsecutiveGrows(from: Origin, done: seq<Item>, x: Item)
    requires Consecutive(from, done) && x.sequence == from.sequence + 1 + |done|
    requires x.previous == (if done == [] then from.digest else done[|done| - 1].digest)
    ensures Consecutive(from, done + [x])
  {
    forall i | 0 <= i < |done + [x]|
      ensures InLine(from, done + [x], i)
    {
      if i < |done| {
        assert InLine(from, done, i);
      }
    }
  }

  /** A scan of lines succeeds exactly if they follow, and returns those beyond the origin. */
  lemma {:induction false} LinesScanned(from: Origin, done: seq<Item>, lines: seq<Item>, bound: nat)
    requires Consecutive(from, done) && |done| <= bound
    ensures ScanLines(from, Scanned(done), lines, bound).Scanned? <==> Follow(from, done, lines, bound)
    ensures Follow(from, done, lines, bound) ==> ScanLines(from, Scanned(done), lines, bound) == Scanned(done + Beyond(lines, from.sequence))
    decreases |lines|
  {
    hide Follow, Untampered, TakeLine, Consecutive;
    if lines == [] {
      NothingFollows(from, done, bound);
    } else {
      var x := lines[0];
      FollowFirst(from, done, lines, bound);
      LineTaken(from, done, x, bound);
      var next := TakeLine(from, Scanned(done), x, bound);
      if next.Refused? {
        RefusedStays(from, lines[1..], bound, next.reason);
      } else if x.sequence <= from.sequence {
        LinesScanned(from, done, lines[1..], bound);
      } else {
        ConsecutiveGrows(from, done, x);
        LinesScanned(from, done + [x], lines[1..], bound);
        assert done + Beyond(lines, from.sequence) == (done + [x]) + Beyond(lines[1..], from.sequence);
      }
    }
  }

  lemma NothingFollows(from: Origin, done: seq<Item>, bound: nat)
    requires Consecutive(from, done) && |done| <= bound
    ensures Follow(from, done, [], bound) && done + Beyond([], from.sequence) == done
  {
    assert done + [] == done;
  }

  predicate WholeBeforeLast(segments: seq<Segment>) { forall k :: 0 <= k < |segments| - 1 ==> !segments[k].torn }

  lemma {:induction false} BeyondJoined(a: seq<Item>, b: seq<Item>, sequence: nat)
    ensures Beyond(a + b, sequence) == Beyond(a, sequence) + Beyond(b, sequence)
    decreases |a|
  {
    if a == [] {
      assert a + b == b;
    } else {
      assert (a + b)[1..] == a[1..] + b;
      BeyondJoined(a[1..], b, sequence);
    }
  }

  /** Lines follow in one stretch exactly if its two parts follow one after the other. */
  lemma FollowJoined(from: Origin, done: seq<Item>, a: seq<Item>, b: seq<Item>, bound: nat)
    ensures Follow(from, done, a + b, bound) <==>
              Follow(from, done, a, bound) && Follow(from, done + Beyond(a, from.sequence), b, bound)
    ensures (done + Beyond(a, from.sequence)) + Beyond(b, from.sequence) == done + Beyond(a + b, from.sequence)
  {
    BeyondJoined(a, b, from.sequence);
    var middle, all := done + Beyond(a, from.sequence), done + Beyond(a + b, from.sequence);
    assert middle + Beyond(b, from.sequence) == all;
    assert all[..|middle|] == middle;
    if Consecutive(from, all) {
      ConsecutivePrefix(from, all, |middle|);
    }
  }

  lemma ConsecutivePrefix(from: Origin, all: seq<Item>, n: nat)
    requires Consecutive(from, all) && n <= |all|
    ensures Consecutive(from, all[..n])
  {
    forall i | 0 <= i < n
      ensures InLine(from, all[..n], i)
    {
      assert InLine(from, all, i);
    }
  }

  lemma {:induction false} RefusedSegments(from: Origin, segments: seq<Segment>, bound: nat, reason: Reason)
    ensures ScanSegments(from, Refused(reason), segments, bound) == Refused(reason)
    decreases |segments|
  {
    if segments != [] {
      RefusedStays(from, segments[0].lines, bound, reason);
      RefusedSegments(from, segments[1..], bound, reason);
    }
  }

  lemma {:induction false} SegmentsScanned(from: Origin, done: seq<Item>, segments: seq<Segment>, bound: nat)
    requires Consecutive(from, done) && |done| <= bound
    ensures var scan := ScanSegments(from, Scanned(done), segments, bound);
            && (scan.Scanned? <==> WholeBeforeLast(segments) && Follow(from, done, AllLines(segments), bound))
            && (scan.Scanned? ==> scan == Scanned(done + Beyond(AllLines(segments), from.sequence)))
    decreases |segments|
  {
    if segments == [] {
      NothingFollows(from, done, bound);
    } else {
      var lines, rest := segments[0].lines, segments[1..];
      LinesScanned(from, done, lines, bound);
      FollowJoined(from, done, lines, AllLines(rest), bound);
      assert WholeBeforeLast(segments) <==> (|segments| > 1 ==> !segments[0].torn) && WholeBeforeLast(rest) by {
        assert forall k :: 0 <= k < |rest| ==> rest[k] == segments[k + 1];
      }
      var next := ScanLines(from, Scanned(done), lines, bound);
      hide Follow, WholeBeforeLast, ScanLines, Consecutive;
      if next.Refused? {
        RefusedSegments(from, rest, bound, next.reason);
      } else if segments[0].torn && |segments| > 1 {
        assert ScanSegments(from, Scanned(done), segments, bound) == Refused(Corrupt);
      } else {
        FollowIsConsecutive(from, done, lines, bound);
        SegmentsScanned(from, done + Beyond(lines, from.sequence), rest, bound);
      }
    }
  }

  lemma FollowIsConsecutive(from: Origin, done: seq<Item>, lines: seq<Item>, bound: nat)
    requires Follow(from, done, lines, bound)
    ensures Consecutive(from, done + Beyond(lines, from.sequence)) && |done + Beyond(lines, from.sequence)| <= bound
  {
  }

  // ---------------------------------------------------------------- what recovery accepts

  /** The newest checkpoint that reads, or the beginning. Checkpoints are listed in the order of their names. */
  predicate StartsAt(d: Disk, from: Origin, checkpoint: Option<Checkpoint>) {
    match checkpoint
    case None => (forall c :: c in d.checkpoints ==> !c.readable) && from == Origin(0, Zero)
    case Some(c) =>
      && from == Origin(c.sequence, c.digest) && c.readable
      && exists i :: 0 <= i < |d.checkpoints| && d.checkpoints[i] == c && forall k :: i < k < |d.checkpoints| ==> !d.checkpoints[k].readable
  }

  lemma {:induction false} LastReadable(cs: seq<Checkpoint>)
    ensures Readable(cs) == [] <==> forall c :: c in cs ==> !c.readable
    ensures Readable(cs) != [] ==>
              exists i :: 0 <= i < |cs| && cs[i] == Readable(cs)[|Readable(cs)| - 1] && cs[i].readable
                          && forall k :: i < k < |cs| ==> !cs[k].readable
    decreases |cs|
  {
    if cs != [] {
      LastReadable(cs[1..]);
      var rest := Readable(cs[1..]);
      if rest == [] {
        assert forall k :: 0 < k < |cs| ==> cs[k] == cs[1..][k - 1] && cs[k] in cs[1..];
        if cs[0].readable {
          assert Readable(cs) == [cs[0]] + rest && Readable(cs)[|Readable(cs)| - 1] == cs[0];
        }
      } else {
        var i :| 0 <= i < |cs[1..]| && cs[1..][i] == rest[|rest| - 1] && cs[1..][i].readable && forall k :: i < k < |cs[1..]| ==> !cs[1..][k].readable;
        assert cs[i + 1] == cs[1..][i] && forall k :: i + 1 < k < |cs| ==> cs[k] == cs[1..][k - 1];
        assert Readable(cs)[|Readable(cs)| - 1] == rest[|rest| - 1];
        assert cs[i + 1] in cs;
      }
    }
  }

  lemma OriginIs(d: Disk)
    ensures var readable := Readable(d.checkpoints);
            StartsAt(d, OriginOf(readable), if readable == [] then None else Some(readable[|readable| - 1]))
  {
    LastReadable(d.checkpoints);
  }

  /** The manifest is not ahead of what was read, and does not contradict its head. */
  predicate ManifestAgrees(d: Disk, from: Origin, records: seq<Item>) {
    var last := from.sequence + |records|;
    var head := if records == [] then from.digest else records[|records| - 1].digest;
    d.manifest.sequence < last || (d.manifest.sequence == last && d.manifest.digest == head)
  }

  /** For any directory: recovery succeeds exactly if some checkpoint reads or there is none, every line is
      untampered, the lines beyond the newest checkpoint that reads follow it without a gap and within the
      bound, nothing but the newest segment is torn, and the manifest agrees. It then returns exactly those
      lines, and a directory in which only a torn end has been cut off and synced. */
  lemma RecoverIff(d: Disk, bound: nat)
    ensures var readable := Readable(d.checkpoints); var from := OriginOf(readable);
            var records := Beyond(AllLines(d.segments), from.sequence);
            && StartsAt(d, from, if readable == [] then None else Some(readable[|readable| - 1]))
            && (Recover(d, bound).Healthy? <==>
                  && (d.checkpoints != [] ==> exists c :: c in d.checkpoints && c.readable)
                  && WholeBeforeLast(d.segments) && Follow(from, [], AllLines(d.segments), bound) && ManifestAgrees(d, from, records))
            && (Recover(d, bound).Healthy? ==>
                  var r := Recover(d, bound);
                  && r.checkpoint == (if readable == [] then None else Some(readable[|readable| - 1]))
                  && r.records == records && r.lastSequence == from.sequence + |records|
                  && r.lastDigest == (if records == [] then from.digest else records[|records| - 1].digest)
                  && Mended(d, r.disk))
  {
    hide Follow, WholeBeforeLast, ScanSegments, Repaired, AllLines, Beyond;
    OriginIs(d);
    var readable := Readable(d.checkpoints);
    LastReadable(d.checkpoints);
    var from := OriginOf(readable);
    assert [] + Beyond(AllLines(d.segments), from.sequence) == Beyond(AllLines(d.segments), from.sequence);
    SegmentsScanned(from, [], d.segments, bound);
    MendedIs(d);
  }

  /** A torn end has been cut off and what is left of its file synced; nothing else has changed. */
  predicate Mended(d: Disk, after: Disk) {
    var n := |d.segments|;
    && after.manifest == d.manifest && after.checkpoints == d.checkpoints && |after.segments| == n
    && (forall k :: 0 <= k < n - 1 ==> after.segments[k] == d.segments[k])
    && (n > 0 ==>
          var last, now := d.segments[n - 1], after.segments[n - 1];
          && now.start == last.start && now.lines == last.lines && !now.torn
          && now.synced == (if last.torn then |last.lines| else last.synced))
  }

  lemma MendedIs(d: Disk)
    ensures Mended(d, Repaired(d))
  {
  }

  // ---------------------------------------------------------------- which files are kept

  predicate SameName(a: Checkpoint, b: Checkpoint) { a.sequence == b.sequence && a.clock == b.clock && a.nonce == b.nonce }

  /** A new checkpoint takes the place of one of the same name and leaves every other. */
  lemma {:induction false} InsertIs(cs: seq<Checkpoint>, c: Checkpoint, x: Checkpoint)
    requires Sorted(cs)
    ensures x in Insert(cs, c) <==> x == c || (x in cs && !SameName(x, c))
    decreases |cs|
  {
    if cs != [] {
      assert forall i, j :: 0 <= i < j < |cs[1..]| ==> Before(cs[1..][i], cs[1..][j]) by {
        assert forall i :: 0 <= i < |cs[1..]| ==> cs[1..][i] == cs[i + 1];
      }
      InsertIs(cs[1..], c, x);
      LaterNames(cs);
    }
  }

  lemma LaterNames(cs: seq<Checkpoint>)
    requires cs != [] && Sorted(cs)
    ensures forall y :: y in cs[1..] ==> Before(cs[0], y)
  {
    forall y | y in cs[1..]
      ensures Before(cs[0], y)
    {
      var k :| 0 <= k < |cs[1..]| && cs[1..][k] == y;
      assert cs[k + 1] == y;
    }
  }
}
