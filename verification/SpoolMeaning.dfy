/** What reopening a spool accepts, for any directory whatever, what it leaves, and which files acknowledging
    keeps, said over the files, their lines and their names. */
module SpoolMeaning {
  import opened Common
  import opened Spool
  import opened SpoolWriter

  // ---------------------------------------------------------------- the files that count

  /** A staged file counts exactly if the manifest still lists it; it is then under its own name again. */
  predicate Counts(f: File, names: set<nat>) { f.staged ==> f.index in names }

  ghost predicate CountedFiles(files: seq<File>, names: set<nat>, live: seq<File>)
    decreases |files|
  {
    if files == [] then live == []
    else if Counts(files[0], names) then
      && live != [] && live[0] == File(files[0].index, files[0].lines, files[0].synced, files[0].torn, false)
      && CountedFiles(files[1..], names, live[1..])
    else CountedFiles(files[1..], names, live)
  }

  lemma {:induction false} LiveIs(files: seq<File>, names: set<nat>)
    ensures CountedFiles(files, names, Live(files, names))
    decreases |files|
  {
    if files != [] {
      LiveIs(files[1..], names);
      var rest := Live(files[1..], names);
      if Counts(files[0], names) {
        assert Live(files, names) == [files[0].(staged := false)] + rest;
        assert Live(files, names)[1..] == rest;
      } else {
        assert Live(files, names) == rest;
      }
    }
  }

  // ---------------------------------------------------------------- the chain through the files

  /** A record as it has to be: sealed, next in sequence after `before`, and of the file it is in. */
  predicate Continues(before: Tip, index: nat, r: Rec) {
    && r.sequence == before.sequence + 1 && r.segment == index && r.previous == before.digest
    && r.digest == Of(r.sequence, r.segment, r.body, r.previous)
  }

  function TipAfter(start: Tip, lines: seq<Rec>): Tip {
    if lines == [] then start else Tip(lines[|lines| - 1].sequence, lines[|lines| - 1].digest)
  }

  /** The lines of one file continue the chain. */
  predicate Unbroken(start: Tip, index: nat, lines: seq<Rec>) {
    forall i :: 0 <= i < |lines| ==> Continues(TipAfter(start, lines[..i]), index, lines[i])
  }

  lemma {:induction false} LinesAre(start: Tip, index: nat, lines: seq<Rec>)
    ensures ScanLines(start, index, lines).Some? <==> Unbroken(start, index, lines)
    ensures ScanLines(start, index, lines).Some? ==> ScanLines(start, index, lines).value == TipAfter(start, lines)
    decreases |lines|
  {
    if lines != [] {
      var r := lines[0];
      var next := Tip(r.sequence, r.digest);
      LinesAre(next, index, lines[1..]);
      assert lines[..0] == [];
      assert r == Seal(start.sequence + 1, index, r.body, start.digest) <==> Continues(start, index, r);
      if Unbroken(start, index, lines) {
        assert Continues(TipAfter(start, lines[..0]), index, lines[0]);
        forall i | 0 <= i < |lines[1..]|
          ensures Continues(TipAfter(next, lines[1..][..i]), index, lines[1..][i])
        {
          TipShift(start, next, lines, i);
          assert Continues(TipAfter(start, lines[..i + 1]), index, lines[i + 1]);
        }
      }
      if Continues(start, index, r) && Unbroken(next, index, lines[1..]) {
        forall i | 0 <= i < |lines|
          ensures Continues(TipAfter(start, lines[..i]), index, lines[i])
        {
          if i > 0 {
            TipShift(start, next, lines, i - 1);
            assert Continues(TipAfter(next, lines[1..][..i - 1]), index, lines[1..][i - 1]);
          }
        }
      }
    }
  }

  lemma TipShift(start: Tip, next: Tip, lines: seq<Rec>, i: nat)
    requires lines != [] && next == Tip(lines[0].sequence, lines[0].digest) && i < |lines|
    ensures TipAfter(next, lines[1..][..i]) == TipAfter(start, lines[..i + 1])
  {
  }

  /** File after file: unbroken, and torn at most at the very end, if that may be repaired. */
  ghost predicate Walks(start: Tip, files: seq<File>, repair: bool, end: Tip)
    decreases |files|
  {
    if files == [] then end == start
    else
      && (files[0].torn ==> repair && |files| == 1)
      && Unbroken(start, files[0].index, files[0].lines)
      && Walks(TipAfter(start, files[0].lines), files[1..], repair, end)
  }

  lemma {:induction false} FilesAre(start: Tip, files: seq<File>, repair: bool, end: Tip)
    ensures ScanFiles(start, files, repair) == Some(end) <==> Walks(start, files, repair, end)
    decreases |files|
  {
    if files != [] {
      LinesAre(start, files[0].index, files[0].lines);
      FilesAre(TipAfter(start, files[0].lines), files[1..], repair, end);
    }
  }

  // ---------------------------------------------------------------- what reopening accepts

  /** The cursor names the anchor, or a record in a file; the beginning only while nothing was deleted. */
  ghost predicate CursorThere(cursor: Cursor, anchor: Anchor, files: seq<File>) {
    if cursor.segment == 0 && cursor.sequence == 0 then anchor.segment == 0 && anchor.sequence == 0
    else
      || (cursor.segment == anchor.segment && cursor.sequence == anchor.sequence)
      || exists k :: 0 <= k < |files| && files[k].index == cursor.segment && Spans(files[k].lines, cursor.sequence)
  }

  predicate Spans(lines: seq<Rec>, sequence: nat) {
    lines != [] && lines[0].sequence <= sequence && sequence <= lines[|lines| - 1].sequence
  }

  lemma CursorIs(cursor: Cursor, anchor: Anchor, files: seq<File>)
    ensures CursorDurable(cursor, anchor.Position(), files) <==> CursorThere(cursor, anchor, files)
  {
    assert forall k :: 0 <= k < |files| ==> (Contains(files[k], cursor) <==> files[k].index == cursor.segment && Spans(files[k].lines, cursor.sequence));
  }

  ghost predicate Acceptable(d: Disk, live: seq<File>, end: Tip) {
    && (forall i, j :: 0 <= i < j < |live| ==> live[i].index < live[j].index)
    && (forall n :: n in d.manifest.names ==> exists f :: f in live && f.index == n)
    && (d.manifest.clean ==> forall f :: f in live ==> f.index in d.manifest.names)
    && Walks(Tip(d.manifest.anchor.sequence, d.manifest.anchor.digest), live, !d.manifest.clean, end)
    && CursorThere(d.ack, d.manifest.anchor, live)
  }

  /** A torn end has been cut off and its file synced; nothing else has changed. */
  predicate Trimmed(live: seq<File>, files: seq<File>) {
    var n := |live|;
    && |files| == n && (forall k :: 0 <= k < n - 1 ==> files[k] == live[k])
    && (n > 0 ==>
          var last, now := live[n - 1], files[n - 1];
          && now.index == last.index && now.lines == last.lines && !now.torn && now.staged == last.staged
          && now.synced == (if last.torn then |last.lines| else last.synced))
  }

  /** For any directory: reopening succeeds exactly if the files that count are all the listed ones (and no
      other after a clean close), the chain runs unbroken through them from the anchor, torn at most at an end
      that was not closed, and the cursor is there. */
  lemma ReopenIff(d: Disk)
    ensures var live := LiveOf(d);
            && CountedFiles(d.files, d.manifest.names, live)
            && (Spool.Reopen(d) != Corrupt <==> exists end :: Acceptable(d, live, end))
            && (forall end :: Acceptable(d, live, end) ==> Spool.Reopen(d).Opened? && Spool.Reopen(d).tip == end)
            && (Spool.Reopen(d) != Corrupt ==> Trimmed(live, Spool.Reopen(d).files))
  {
    hide Spool.Reopen, Acceptable, Trimmed, Truncated, Live, CountedFiles;
    var live := LiveOf(d);
    LiveIs(d.files, d.manifest.names);
    TruncatedIs(live);
    forall end
      ensures Acceptable(d, live, end) <==> Spool.Reopen(d) == Opened(end, Truncated(live))
    {
      AcceptedIff(d, live, end);
    }
    OpenedIsTruncated(d);
    if Spool.Reopen(d) != Corrupt {
      assert Acceptable(d, live, Spool.Reopen(d).tip);
    }
  }

  lemma OpenedIsTruncated(d: Disk)
    ensures Spool.Reopen(d) != Corrupt ==> Spool.Reopen(d).files == Truncated(LiveOf(d))
  {
    hide ScanFiles, CursorDurable, Truncated, Live, Ascending, Indexes;
  }

  lemma AcceptedIff(d: Disk, live: seq<File>, end: Tip)
    requires live == LiveOf(d)
    ensures Acceptable(d, live, end) <==> Spool.Reopen(d) == Opened(end, Truncated(live))
  {
    hide ScanFiles, CursorDurable, Walks, CursorThere, Truncated, Live, Indexes;
    var start := Tip(d.manifest.anchor.sequence, d.manifest.anchor.digest);
    CursorIs(d.ack, d.manifest.anchor, live);
    NamesAre(live, d.manifest.names);
    FilesAre(start, live, !d.manifest.clean, end);
    assert d.manifest.names <= Indexes(live) ==> (Indexes(live) == d.manifest.names <==> Indexes(live) <= d.manifest.names);
  }

  lemma NamesAre(live: seq<File>, names: set<nat>)
    ensures names <= Indexes(live) <==> forall n :: n in names ==> exists f :: f in live && f.index == n
    ensures Indexes(live) <= names <==> forall f :: f in live ==> f.index in names
  {
    if forall f :: f in live ==> f.index in names {
      forall n | n in Indexes(live) ensures n in names {
        var f :| f in live && f.index == n;
      }
    }
  }

  lemma TruncatedIs(live: seq<File>)
    ensures Trimmed(live, Truncated(live))
  {
  }

  // ---------------------------------------------------------------- what reopening leaves

  /** One new file under the next index: empty after a clean close, and otherwise with one record for the
      gap, synced. The manifest lists every file, the cursor and the anchor are as they were. */
  lemma ReopeningLeaves(d: Disk, h: seq<Rec>, now: nat)
    requires Intact(d, h)
    ensures var after, longer := AfterReopening(d, h, now), HistoryAfter(d, h, now); var n := |after.files| - 1;
            && n >= 0 && Trimmed(LiveOf(d), after.files[..n])
            && after.ack == d.ack && after.manifest.anchor == d.manifest.anchor && !after.manifest.clean
            && (forall f :: f in after.files ==> f.index in after.manifest.names)
            && (forall i :: i in after.manifest.names ==> exists f :: f in after.files && f.index == i)
            && (var f := after.files[n];
                && f.index == (if n == 0 then 1 else after.files[n - 1].index + 1) && !f.torn && !f.staged && f.synced == |f.lines|
                && (if d.manifest.clean then f.lines == [] && longer == h
                    else |f.lines| == 1 && longer == h + f.lines && f.lines[0].body == Gap(now, now)
                         && Continues(Tip(|h|, if h == [] then Zero else h[|h| - 1].digest), f.index, f.lines[0])))
  {
    hide Intact, Truncated, Live;
    TruncatedIs(LiveOf(d));
    var after := AfterReopening(d, h, now);
    var files := Truncated(LiveOf(d));
    assert after.files == files + [StartedFile(d, h, now)];
    assert after.files[..|after.files| - 1] == files;
    NamesAre(after.files, after.manifest.names);
    if files != [] {
      assert after.files[|files| - 1] == files[|files| - 1];
    }
  }

  // ---------------------------------------------------------------- which files acknowledging keeps

  /** A closed file goes exactly if it has a record and its last one lies below the cursor. */
  predicate Stays(f: File, above: nat) { f.lines == [] || above <= f.lines[|f.lines| - 1].sequence }

  ghost predicate KeptInOrder(files: seq<File>, above: nat, kept: seq<File>)
    decreases |files|
  {
    if |files| <= 1 then kept == files
    else if Stays(files[0], above) then kept != [] && kept[0] == files[0] && KeptInOrder(files[1..], above, kept[1..])
    else KeptInOrder(files[1..], above, kept)
  }

  lemma {:induction false} KeptIs(files: seq<File>, above: nat)
    ensures KeptInOrder(files, above, Kept(files, above))
    decreases |files|
  {
    if |files| > 1 {
      KeptIs(files[1..], above);
      var rest := Kept(files[1..], above);
      if Stays(files[0], above) {
        assert Kept(files, above) == [files[0]] + rest && Kept(files, above)[1..] == rest;
      } else {
        assert Kept(files, above) == rest;
      }
    }
  }

  // ---------------------------------------------------------------- replay

  function Beyond(records: seq<Rec>, above: nat): seq<Rec> {
    if records == [] then []
    else if records[0].sequence > above then [records[0]] + Beyond(records[1..], above)
    else Beyond(records[1..], above)
  }

  function Records(files: seq<File>): seq<Rec> { if files == [] then [] else files[0].lines + Records(files[1..]) }

  ghost predicate Linked(start: Tip, files: seq<File>)
    decreases |files|
  {
    files != [] ==> Unbroken(start, files[0].index, files[0].lines) && Linked(TipAfter(start, files[0].lines), files[1..])
  }

  lemma {:induction false} BeyondJoined(a: seq<Rec>, b: seq<Rec>, above: nat)
    ensures Beyond(a + b, above) == Beyond(a, above) + Beyond(b, above)
    decreases |a|
  {
    if a == [] {
      assert a + b == b;
    } else {
      BeyondJoined(a[1..], b, above);
      assert (a + b)[1..] == a[1..] + b;
    }
  }

  lemma {:induction false} LinesReplayed(start: Tip, index: nat, lines: seq<Rec>, above: nat)
    ensures ReplayLines(start, index, lines, above)
            == if ScanLines(start, index, lines).Some? then Some(Beyond(lines, above)) else None
    decreases |lines|
  {
    if lines != [] {
      LinesReplayed(Tip(lines[0].sequence, lines[0].digest), index, lines[1..], above);
      assert [] + Beyond(lines[1..], above) == Beyond(lines[1..], above);
    }
  }

  /** For any files: replay fails exactly where the chain breaks, and otherwise gives the records above the
      cursor, all of them, in order. */
  lemma {:induction false} ReplayIff(start: Tip, files: seq<File>, above: nat)
    ensures Spool.Replay(start, files, above).Some? <==> Linked(start, files)
    ensures Linked(start, files) ==> Spool.Replay(start, files, above).value == Beyond(Records(files), above)
    decreases |files|
  {
    if files != [] {
      LinesAre(start, files[0].index, files[0].lines);
      LinesReplayed(start, files[0].index, files[0].lines, above);
      ReplayIff(TipAfter(start, files[0].lines), files[1..], above);
      BeyondJoined(files[0].lines, Records(files[1..]), above);
    }
  }
}
