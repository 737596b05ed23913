/** Reopening a spool whose last segment holds records that were never synced. Reopening truncates and syncs
    an incomplete record, but it takes complete ones as they are and syncs only the segment it starts; so
    what a process kill leaves can still be lost to a later power loss. */
module SpoolReopening {
  import opened Common
  import opened Spool
  import opened SpoolWriter

  // ---------------------------------------------------------------- the exact condition

  ghost predicate ReopensTo(lost: Disk, h: seq<Rec>) {
    && Reopen(lost).Opened? && Reopen(lost).tip == TipAt(h, |h|) && lost.ack.sequence <= |h|
    && Replay(Tip(lost.manifest.anchor.sequence, lost.manifest.anchor.digest), LiveOf(lost), lost.ack.sequence) == Some(h[lost.ack.sequence..])
  }

  ghost predicate SurvivesEveryLoss(d: Disk, h: seq<Rec>) { forall lost :: PowerLoss(d, lost) ==> ReopensTo(lost, h) }

  /** After a reopening has published its manifest, and synced the gap record if it wrote one, every power
      loss leaves a directory that reopens to the same history if and only if the tail that was taken over
      had been synced. */
  lemma ReopeningIsDurableIff(d: Disk, h: seq<Rec>, now: nat)
    requires Intact(d, h)
    ensures SurvivesEveryLoss(AfterReopening(d, h, now), HistoryAfter(d, h, now)) <==> TailDurable(d)
  {
    hide AfterReopening, HistoryAfter, TailDurable, PowerLoss, Intact, ReopensTo;
    if TailDurable(d) {
      ReopenedIntact(d, h, now);
      forall lost | PowerLoss(AfterReopening(d, h, now), lost)
        ensures ReopensTo(lost, HistoryAfter(d, h, now))
      {
        DurableReopens(AfterReopening(d, h, now), lost, HistoryAfter(d, h, now));
      }
    } else {
      TailCanGo(d, h, now);
      CountsShort(d, h, now);
    }
  }

  /** Where the reopening wrote a gap record, losing the tail under it is worse than losing the tail: the gap
      record no longer continues the chain, and the spool does not open again. */
  lemma LostTailCorrupts(d: Disk, h: seq<Rec>, now: nat)
    requires Intact(d, h) && !TailDurable(d) && !d.manifest.clean
    ensures LiveOf(d) != [] && Last(LiveOf(d)).synced <= |Last(LiveOf(d)).lines|
    ensures PowerLoss(AfterReopening(d, h, now), TailGone(d, h, now)) && Reopen(TailGone(d, h, now)) == Corrupt
  {
    TailCanGo(d, h, now);
    GapBreaks(d, h, now);
  }

  // ---------------------------------------------------------------- a durable tail

  lemma DurableReopens(d: Disk, lost: Disk, h: seq<Rec>)
    requires Intact(d, h) && Durable(LiveOf(d), h) == |h| && PowerLoss(d, lost)
    ensures ReopensTo(lost, h)
  {
    hide Intact, Reopen, Replay, Truncated, Live;
    var n := PowerLossKeepsIntact(d, lost, h);
    assert h[..n] == h;
    ReopenIntact(lost, h);
  }

  lemma ReopenedIntact(d: Disk, h: seq<Rec>, now: nat)
    requires Intact(d, h) && TailDurable(d)
    ensures var after := AfterReopening(d, h, now);
            Intact(after, HistoryAfter(d, h, now)) && Durable(LiveOf(after), HistoryAfter(d, h, now)) == |HistoryAfter(d, h, now)|
  {
    hide Intact, Live, Plain, Indexes, Truncated;
    var plain := d.(files := LiveOf(d));
    LiveIsPlain(d.files, d.manifest.names);
    PlainIsLive(LiveOf(d), d.manifest.names);
    SameLive(d, LiveOf(d), h);
    LoadIntact(plain, h);
    var loaded := plain.(files := Truncated(LiveOf(d)));
    var index := FreshIndex(loaded.files);
    FreshIsAbove(loaded, h, index);
    StartKeeps(loaded, h, index);
    var begun := loaded.files + [File(index, [], 0, false, false)];
    var listed := loaded.(files := begun, manifest := Manifest(false, d.manifest.anchor, Indexes(begun)));
    PlainIsLive(begun, listed.manifest.names);
    if d.manifest.clean {
      assert AfterReopening(d, h, now) == listed;
    } else {
      var r := GapRecord(d, h, now);
      AppendKeeps(listed, h, r);
      var written := listed.(files := Appended(begun, r));
      SyncKeeps(written, h + [r]);
      var synced := SyncedFiles(written.files);
      PlainIsLive(synced, listed.manifest.names);
      OneRecordSynced(loaded.files, index, r);
      assert AfterReopening(d, h, now) == written.(files := synced);
    }
  }

  lemma FreshIsAbove(d: Disk, h: seq<Rec>, index: nat)
    requires Intact(d, h) && Plain(d.files) && index == FreshIndex(d.files)
    ensures 0 < index && forall f :: f in d.files ==> f.index < index
  {
    PlainIsLive(d.files, d.manifest.names);
  }

  // ---------------------------------------------------------------- a tail that can be lost

  function Lines(files: seq<File>): nat { if files == [] then 0 else |files[0].lines| + Lines(files[1..]) }

  lemma {:induction false} LinesJoin(a: seq<File>, b: seq<File>)
    ensures Lines(a + b) == Lines(a) + Lines(b)
    decreases |a|
  {
    if a == [] {
      assert [] + b == b;
    } else {
      assert (a + b)[1..] == a[1..] + b;
      LinesJoin(a[1..], b);
    }
  }

  lemma {:induction false} LinesCounted(tip: Tip, index: nat, lines: seq<Rec>)
    requires ScanLines(tip, index, lines).Some?
    ensures ScanLines(tip, index, lines).value.sequence == tip.sequence + |lines|
    ensures lines != [] ==> ScanLines(tip, index, lines).value.sequence == lines[|lines| - 1].sequence
    decreases |lines|
  {
    if lines != [] {
      LinesCounted(Tip(lines[0].sequence, lines[0].digest), index, lines[1..]);
    }
  }

  /** Walking the files counts their records; and the walk ends where the last record says. */
  lemma {:induction false} FilesCounted(tip: Tip, files: seq<File>, repair: bool)
    requires ScanFiles(tip, files, repair).Some?
    ensures ScanFiles(tip, files, repair).value.sequence == tip.sequence + Lines(files)
    ensures files != [] && Last(files).lines != [] ==> ScanFiles(tip, files, repair).value.sequence == Last(files).lines[|Last(files).lines| - 1].sequence
    decreases |files|
  {
    if files != [] {
      LinesCounted(tip, files[0].index, files[0].lines);
      FilesCounted(ScanLines(tip, files[0].index, files[0].lines).value, files[1..], repair);
      if |files| > 1 {
        assert Last(files[1..]) == Last(files);
      }
    }
  }

  lemma {:induction false} LaidCounted(files: seq<File>, h: seq<Rec>, from: nat)
    requires Laid(files, h, from)
    ensures from + Lines(files) == |h|
    decreases |files|
  {
    if files != [] {
      LaidCounted(files[1..], h, from + |files[0].lines|);
    }
  }

  lemma {:induction false} LaidSynced(files: seq<File>, h: seq<Rec>, from: nat, k: nat)
    requires Laid(files, h, from) && k < |files|
    ensures files[k].synced <= |files[k].lines| && (k < |files| - 1 ==> files[k].synced == |files[k].lines| && !files[k].torn)
    decreases |files|
  {
    if k > 0 {
      LaidSynced(files[1..], h, from + |files[0].lines|, k - 1);
    }
  }

  /** The directory that a power loss leaves when it takes the unsynced tail from under the new segment. */
  function TailGone(d: Disk, h: seq<Rec>, now: nat): Disk
    requires LiveOf(d) != [] && Last(LiveOf(d)).synced <= |Last(LiveOf(d)).lines|
  {
    var f := Last(LiveOf(d));
    AfterReopening(d, h, now).(files := WithLast(LiveOf(d), f.(lines := f.lines[..f.synced])) + [StartedFile(d, h, now)])
  }

  lemma TailIs(d: Disk, h: seq<Rec>)
    requires Intact(d, h) && !TailDurable(d)
    ensures LiveOf(d) != [] && Truncated(LiveOf(d)) == LiveOf(d) && Plain(LiveOf(d))
    ensures Last(LiveOf(d)).synced < |Last(LiveOf(d)).lines| && !Last(LiveOf(d)).torn
    ensures forall k :: 0 <= k < |LiveOf(d)| - 1 ==> LiveOf(d)[k].synced == |LiveOf(d)[k].lines| && !LiveOf(d)[k].torn
    ensures d.manifest.anchor.sequence + Lines(LiveOf(d)) == |h|
  {
    hide Live;
    var live := LiveOf(d);
    LiveIsPlain(d.files, d.manifest.names);
    LaidCounted(live, h, d.manifest.anchor.sequence);
    forall k | 0 <= k < |live|
      ensures live[k].synced <= |live[k].lines| && (k < |live| - 1 ==> live[k].synced == |live[k].lines| && !live[k].torn)
    {
      LaidSynced(live, h, d.manifest.anchor.sequence, k);
    }
  }

  lemma TailCanGo(d: Disk, h: seq<Rec>, now: nat)
    requires Intact(d, h) && !TailDurable(d)
    ensures LiveOf(d) != [] && Last(LiveOf(d)).synced <= |Last(LiveOf(d)).lines|
    ensures PowerLoss(AfterReopening(d, h, now), TailGone(d, h, now))
  {
    TailIs(d, h);
    hide Intact, Live, TailDurable, Truncated, Indexes;
    var before, lost := AfterReopening(d, h, now), TailGone(d, h, now);
    PlainIsLive(before.files, before.manifest.names);
    PlainIsLive(lost.files, before.manifest.names);
    ShortWorn(LiveOf(d), StartedFile(d, h, now));
  }

  lemma ShortWorn(live: seq<File>, started: File)
    requires live != [] && Last(live).synced < |Last(live).lines| && !Last(live).torn && started.synced == |started.lines| && !started.torn
    requires forall k :: 0 <= k < |live| - 1 ==> live[k].synced == |live[k].lines| && !live[k].torn
    ensures WornAll(live + [started], WithLast(live, Last(live).(lines := Last(live).lines[..Last(live).synced])) + [started])
  {
    var after := WithLast(live, Last(live).(lines := Last(live).lines[..Last(live).synced])) + [started];
    forall k | 0 <= k < |after|
      ensures Worn((live + [started])[k], after[k], k == |after| - 1)
    {
      if k < |live| - 1 {
        assert after[k] == live[k];
      }
    }
  }

  /** The tail that is gone leaves fewer records than the history has. */
  lemma CountsShort(d: Disk, h: seq<Rec>, now: nat)
    requires Intact(d, h) && !TailDurable(d)
    requires LiveOf(d) != [] && Last(LiveOf(d)).synced <= |Last(LiveOf(d)).lines|
    ensures !ReopensTo(TailGone(d, h, now), HistoryAfter(d, h, now))
  {
    TailIs(d, h);
    LostCount(d, h, now);
    hide Intact, Live, TailDurable, Lines, Ascending, Indexes;
    var lost := TailGone(d, h, now);
    if Reopen(lost).Opened? {
      FilesCounted(Tip(lost.manifest.anchor.sequence, lost.manifest.anchor.digest), LiveOf(lost), true);
    }
  }

  lemma LostCount(d: Disk, h: seq<Rec>, now: nat)
    requires LiveOf(d) != [] && Last(LiveOf(d)).synced < |Last(LiveOf(d)).lines| && Plain(LiveOf(d))
    requires d.manifest.anchor.sequence + Lines(LiveOf(d)) == |h|
    ensures var lost := TailGone(d, h, now);
            && LiveOf(lost) == lost.files && lost.files != [] && Last(lost.files) == StartedFile(d, h, now)
            && d.manifest.anchor.sequence + Lines(lost.files) < |HistoryAfter(d, h, now)|
  {
    hide Live, Truncated;
    var live, lost := LiveOf(d), TailGone(d, h, now);
    var f := Last(live);
    var short := f.(lines := f.lines[..f.synced]);
    PlainIsLive(lost.files, lost.manifest.names);
    assert live == live[..|live| - 1] + [f] && WithLast(live, short) == live[..|live| - 1] + [short];
    LinesJoin(live[..|live| - 1], [f]);
    LinesJoin(live[..|live| - 1], [short]);
    LinesJoin(WithLast(live, short), [StartedFile(d, h, now)]);
    OneFile(f);
    OneFile(short);
    OneFile(StartedFile(d, h, now));
  }

  lemma OneFile(f: File)
    ensures Lines([f]) == |f.lines|
  {
    assert [f][1..] == [];
  }

  lemma GapBreaks(d: Disk, h: seq<Rec>, now: nat)
    requires Intact(d, h) && !TailDurable(d) && !d.manifest.clean
    requires LiveOf(d) != [] && Last(LiveOf(d)).synced <= |Last(LiveOf(d)).lines|
    ensures Reopen(TailGone(d, h, now)) == Corrupt
  {
    TailIs(d, h);
    LostCount(d, h, now);
    hide Intact, Live, TailDurable, Lines, Ascending, Indexes;
    var lost := TailGone(d, h, now);
    var tip := Tip(lost.manifest.anchor.sequence, lost.manifest.anchor.digest);
    if ScanFiles(tip, LiveOf(lost), true).Some? {
      FilesCounted(tip, LiveOf(lost), true);
    }
  }
}
