/** The lifecycle spool's directory: digest-chained segment files, a manifest with a chain anchor, and an
    acknowledgement cursor. Deletion of acknowledged segments goes through a staged name, and reopening
    finishes or undoes whatever part of it a crash left. */
module Spool {
  import opened Common

  // ---------------------------------------------------------------- records

  datatype Body = Event(id: Id) | Gap(since: nat, until: nat)

  /** SHA-256 over a record's fields, idealised: the digest is the fields. */
  datatype Digest = Zero | Of(sequence: nat, segment: nat, body: Body, previous: Digest)

  datatype Rec = Rec(sequence: nat, segment: nat, body: Body, previous: Digest, digest: Digest)

  function Seal(sequence: nat, segment: nat, body: Body, previous: Digest): Rec {
    Rec(sequence, segment, body, previous, Of(sequence, segment, body, previous))
  }

  /** Where a chain stands: its last sequence and digest. */
  datatype Tip = Tip(sequence: nat, digest: Digest)

  function TipAt(h: seq<Rec>, n: nat): Tip
    requires n <= |h|
  {
    Tip(n, if n == 0 then Zero else h[n - 1].digest)
  }

  /** Record `i` continues the chain of those before it. */
  predicate Follows(h: seq<Rec>, i: nat)
    requires i < |h|
  {
    h[i] == Seal(i + 1, h[i].segment, h[i].body, TipAt(h, i).digest)
  }

  ghost predicate Chained(h: seq<Rec>) { forall i :: 0 <= i < |h| ==> Follows(h, i) }

  lemma PrefixChained(h: seq<Rec>, n: nat)
    requires Chained(h) && n <= |h|
    ensures Chained(h[..n]) && forall k :: 0 <= k <= n ==> TipAt(h[..n], k) == TipAt(h, k)
  {
    forall i | 0 <= i < n
      ensures Follows(h[..n], i)
    {
      assert Follows(h, i);
    }
  }

  lemma ExtendChained(h: seq<Rec>, segment: nat, body: Body)
    requires Chained(h)
    ensures Chained(h + [Seal(|h| + 1, segment, body, TipAt(h, |h|).digest)])
    ensures forall k :: 0 <= k <= |h| ==> TipAt(h + [Seal(|h| + 1, segment, body, TipAt(h, |h|).digest)], k) == TipAt(h, k)
  {
    var longer := h + [Seal(|h| + 1, segment, body, TipAt(h, |h|).digest)];
    forall i | 0 <= i < |longer|
      ensures Follows(longer, i)
    {
      if i < |h| {
        assert Follows(h, i);
      }
    }
  }

  // ---------------------------------------------------------------- the directory

  /** A segment file. `staged` means that it carries the suffix that marks it for deletion. */
  datatype File = File(index: nat, lines: seq<Rec>, synced: nat, torn: bool, staged: bool)

  datatype Cursor = Cursor(segment: nat, sequence: nat)

  const ORIGIN := Cursor(0, 0)

  datatype Anchor = Anchor(segment: nat, sequence: nat, digest: Digest)
  {
    function Position(): Cursor { Cursor(segment, sequence) }
  }

  datatype Manifest = Manifest(clean: bool, anchor: Anchor, names: set<nat>)

  /** The directory; files are listed in the order of their indexes. */
  datatype Disk = Disk(manifest: Manifest, ack: Cursor, files: seq<File>)

  /** The files that reopening keeps: a staged file is renamed back if the manifest still lists it and
      unlinked if it does not. */
  function Live(files: seq<File>, names: set<nat>): seq<File> {
    if files == [] then []
    else (if files[0].staged && files[0].index !in names then [] else [files[0].(staged := false)]) + Live(files[1..], names)
  }

  function Indexes(files: seq<File>): set<nat> { set f | f in files :: f.index }

  predicate Ascending(files: seq<File>) { forall i, j :: 0 <= i < j < |files| ==> files[i].index < files[j].index }

  // ---------------------------------------------------------------- reopening

  function ScanLines(tip: Tip, index: nat, lines: seq<Rec>): Option<Tip>
    decreases |lines|
  {
    if lines == [] then Some(tip)
    else
      var r := lines[0];
      if r != Seal(tip.sequence + 1, index, r.body, tip.digest) then None
      else ScanLines(Tip(r.sequence, r.digest), index, lines[1..])
  }

  /** An incomplete record is accepted only at the end of the last file of a spool that was not closed. */
  function ScanFiles(tip: Tip, files: seq<File>, repair: bool): Option<Tip>
    decreases |files|
  {
    if files == [] then Some(tip)
    else if files[0].torn && !(repair && |files| == 1) then None
    else
      var next := ScanLines(tip, files[0].index, files[0].lines);
      if next.None? then None else ScanFiles(next.value, files[1..], repair)
  }

  /** Truncating an incomplete record also syncs the file. */
  function Truncated(files: seq<File>): seq<File> {
    if files == [] || !files[|files| - 1].torn then files
    else
      var last := files[|files| - 1];
      files[|files| - 1 := last.(torn := false, synced := |last.lines|)]
  }

  /** The cursor names a durable record, the anchor, or the beginning of an untouched spool. */
  predicate CursorDurable(cursor: Cursor, anchor: Cursor, files: seq<File>) {
    if cursor == ORIGIN then anchor == ORIGIN
    else cursor == anchor || exists k :: 0 <= k < |files| && Contains(files[k], cursor)
  }

  predicate Contains(f: File, cursor: Cursor) {
    && f.lines != [] && f.index == cursor.segment
    && f.lines[0].sequence <= cursor.sequence <= f.lines[|f.lines| - 1].sequence
  }

  datatype Opening = Corrupt | Opened(tip: Tip, files: seq<File>)

  /** Reopen a directory: finish or undo staged deletions, check the listed names, walk the chain from the
      anchor, and check the cursor. */
  function Reopen(d: Disk): Opening {
    var files := Live(d.files, d.manifest.names);
    var anchor := d.manifest.anchor;
    if !Ascending(files) then Corrupt
    else if !(d.manifest.names <= Indexes(files)) then Corrupt
    else if d.manifest.clean && Indexes(files) != d.manifest.names then Corrupt
    else
      var tip := ScanFiles(Tip(anchor.sequence, anchor.digest), files, !d.manifest.clean);
      if tip.None? || !CursorDurable(d.ack, anchor.Position(), files) then Corrupt
      else Opened(tip.value, Truncated(files))
  }

  // ---------------------------------------------------------------- replay

  function ReplayLines(tip: Tip, index: nat, lines: seq<Rec>, above: nat): Option<seq<Rec>>
    decreases |lines|
  {
    if lines == [] then Some([])
    else
      var r := lines[0];
      if r != Seal(tip.sequence + 1, index, r.body, tip.digest) then None
      else
        var rest := ReplayLines(Tip(r.sequence, r.digest), index, lines[1..], above);
        if rest.None? then None else Some((if r.sequence > above then [r] else []) + rest.value)
  }

  /** The records above a cursor, each checked against the chain from the anchor on. */
  function Replay(tip: Tip, files: seq<File>, above: nat): Option<seq<Rec>>
    decreases |files|
  {
    if files == [] then Some([])
    else
      var here := ReplayLines(tip, files[0].index, files[0].lines, above);
      var next := ScanLines(tip, files[0].index, files[0].lines);
      if here.None? || next.None? then None
      else
        var rest := Replay(next.value, files[1..], above);
        if rest.None? then None else Some(here.value + rest.value)
  }

  // ---------------------------------------------------------------- intact directories

  /** The files hold the history from `from` on, and only the last of them has unsynced lines. */
  ghost predicate Laid(files: seq<File>, h: seq<Rec>, from: nat)
    decreases |files|
  {
    if files == [] then from == |h|
    else
      && Holds(files[0], h, from)
      && (|files| > 1 ==> files[0].synced == |files[0].lines| && !files[0].torn)
      && Laid(files[1..], h, from + |files[0].lines|)
  }

  ghost predicate Holds(f: File, h: seq<Rec>, from: nat) {
    && from + |f.lines| <= |h| && f.lines == h[from..from + |f.lines|] && f.synced <= |f.lines|
    && forall i :: from <= i < from + |f.lines| ==> h[i].segment == f.index
  }

  /** How many records a power loss cannot take away. */
  function Durable(files: seq<File>, h: seq<Rec>): int {
    if files == [] then |h| else |h| - |files[|files| - 1].lines| + files[|files| - 1].synced
  }

  lemma {:induction false} DurableWithin(files: seq<File>, h: seq<Rec>, from: nat)
    requires Laid(files, h, from) && from <= |h|
    ensures 0 <= Durable(files, h) <= |h|
    decreases |files|
  {
    if |files| > 1 {
      DurableWithin(files[1..], h, from + |files[0].lines|);
      assert files[1..][|files[1..]| - 1] == files[|files| - 1];
    }
  }

  /** The cursor is the anchor, or names a durable record above it by its segment. */
  ghost predicate CursorIn(cursor: Cursor, anchor: Cursor, h: seq<Rec>, durable: int) {
    || cursor == anchor
    || (anchor.sequence < cursor.sequence <= |h| && cursor.sequence <= durable && cursor.segment == h[cursor.sequence - 1].segment)
  }

  ghost predicate AnchorIn(anchor: Anchor, h: seq<Rec>) {
    && anchor.sequence <= |h| && anchor.digest == TipAt(h, anchor.sequence).digest
    && (anchor.sequence == 0 <==> anchor.segment == 0)
  }

  /** The directory holds the history above its anchor, and its cursor is within it. */
  ghost predicate Intact(d: Disk, h: seq<Rec>) {
    var files := Live(d.files, d.manifest.names);
    && Chained(h) && AnchorIn(d.manifest.anchor, h)
    && Ascending(files) && Laid(files, h, d.manifest.anchor.sequence)
    && d.manifest.names <= Indexes(files)
    && (d.manifest.clean ==> Indexes(files) == d.manifest.names && (files != [] ==> !files[|files| - 1].torn))
    && CursorIn(d.ack, d.manifest.anchor.Position(), h, Durable(files, h))
    && (forall i :: 0 <= i < |h| ==> h[i].segment > 0)
    && 0 !in Indexes(files)
  }

  // ---------------------------------------------------------------- reopening an intact directory

  lemma {:induction false} LinesScan(h: seq<Rec>, from: nat, index: nat, lines: seq<Rec>)
    requires Chained(h) && from + |lines| <= |h| && lines == h[from..from + |lines|]
    requires forall i :: from <= i < from + |lines| ==> h[i].segment == index
    ensures ScanLines(TipAt(h, from), index, lines) == Some(TipAt(h, from + |lines|))
    decreases |lines|
  {
    if lines != [] {
      assert Follows(h, from) && lines[0] == h[from];
      assert lines[1..] == h[from + 1..from + 1 + |lines[1..]|];
      LinesScan(h, from + 1, index, lines[1..]);
    }
  }

  lemma {:induction false} FilesScan(h: seq<Rec>, from: nat, files: seq<File>, repair: bool)
    requires Chained(h) && from <= |h| && Laid(files, h, from)
    requires files != [] && files[|files| - 1].torn ==> repair
    ensures ScanFiles(TipAt(h, from), files, repair) == Some(TipAt(h, |h|))
    decreases |files|
  {
    if files != [] {
      LinesScan(h, from, files[0].index, files[0].lines);
      if |files| > 1 {
        assert files[1..][|files[1..]| - 1] == files[|files| - 1];
      }
      FilesScan(h, from + |files[0].lines|, files[1..], repair);
    }
  }

  /** The stretch of the history between two positions that lies above a cursor. */
  function Above(h: seq<Rec>, from: nat, to: nat, above: nat): seq<Rec>
    requires from <= to <= |h|
  {
    if to <= above then [] else h[Max(from, above)..to]
  }

  lemma AboveJoin(h: seq<Rec>, from: nat, middle: nat, to: nat, above: nat)
    requires from <= middle <= to <= |h|
    ensures Above(h, from, middle, above) + Above(h, middle, to, above) == Above(h, from, to, above)
  {
  }

  lemma {:induction false} LinesReplay(h: seq<Rec>, from: nat, index: nat, lines: seq<Rec>, above: nat)
    requires Chained(h) && from + |lines| <= |h| && lines == h[from..from + |lines|]
    requires forall i :: from <= i < from + |lines| ==> h[i].segment == index
    ensures ReplayLines(TipAt(h, from), index, lines, above) == Some(Above(h, from, from + |lines|, above))
    decreases |lines|
  {
    hide Above, Chained;
    if lines == [] {
      AboveNothing(h, from, above);
    } else {
      FirstLine(h, from, index, lines);
      LinesReplay(h, from + 1, index, lines[1..], above);
      AboveJoin(h, from, from + 1, from + |lines|, above);
      AboveOne(h, from, above);
    }
  }

  lemma AboveNothing(h: seq<Rec>, from: nat, above: nat)
    requires from <= |h|
    ensures Above(h, from, from, above) == []
  {
  }

  lemma AboveOne(h: seq<Rec>, from: nat, above: nat)
    requires from < |h|
    ensures Above(h, from, from + 1, above) == if from + 1 > above then [h[from]] else []
  {
  }

  lemma FirstLine(h: seq<Rec>, from: nat, index: nat, lines: seq<Rec>)
    requires Chained(h) && lines != [] && from + |lines| <= |h| && lines == h[from..from + |lines|] && h[from].segment == index
    ensures lines[0] == h[from] == Seal(from + 1, index, h[from].body, TipAt(h, from).digest)
    ensures TipAt(h, from + 1) == Tip(lines[0].sequence, lines[0].digest)
    ensures lines[1..] == h[from + 1..from + 1 + |lines[1..]|]
  {
    assert Follows(h, from);
  }

  lemma ReplayCons(h: seq<Rec>, from: nat, files: seq<File>, above: nat, to: nat)
    requires Chained(h) && files != [] && Laid(files, h, from) && to == from + |files[0].lines| <= |h|
    requires Replay(TipAt(h, to), files[1..], above) == Some(Above(h, to, |h|, above))
    ensures Replay(TipAt(h, from), files, above) == Some(Above(h, from, |h|, above))
  {
    LinesScan(h, from, files[0].index, files[0].lines);
    LinesReplay(h, from, files[0].index, files[0].lines, above);
    AboveJoin(h, from, to, |h|, above);
  }

  /** Replay returns exactly the records above the cursor, in order. */
  lemma {:induction false} FilesReplay(h: seq<Rec>, from: nat, files: seq<File>, above: nat)
    requires Chained(h) && from <= |h| && Laid(files, h, from)
    ensures Replay(TipAt(h, from), files, above) == Some(Above(h, from, |h|, above))
    decreases |files|
  {
    if files == [] {
      assert Above(h, from, |h|, above) == [];
    } else {
      var to := from + |files[0].lines|;
      FilesReplay(h, to, files[1..], above);
      ReplayCons(h, from, files, above, to);
    }
  }

  /** Every record above the anchor lies in the file of its segment. */
  lemma {:induction false} RecordFile(h: seq<Rec>, from: nat, files: seq<File>, i: nat)
    requires Chained(h) && Laid(files, h, from) && from <= i < |h|
    ensures exists k :: 0 <= k < |files| && Contains(files[k], Cursor(h[i].segment, i + 1))
    decreases |files|
  {
    var to := from + |files[0].lines|;
    if i < to {
      assert files[0].lines[0] == h[from] && files[0].lines[|files[0].lines| - 1] == h[to - 1];
      assert Follows(h, from) && Follows(h, to - 1) && Follows(h, i);
      assert Contains(files[0], Cursor(h[i].segment, i + 1));
    } else {
      RecordFile(h, to, files[1..], i);
      var k :| 0 <= k < |files[1..]| && Contains(files[1..][k], Cursor(h[i].segment, i + 1));
      assert Contains(files[k + 1], Cursor(h[i].segment, i + 1));
    }
  }

  /** Reopening an intact directory succeeds, with the whole history and the cursor where it was; and
      replay then gives exactly the records above the cursor. */
  lemma ReopenIntact(d: Disk, h: seq<Rec>)
    requires Intact(d, h)
    ensures var files := Live(d.files, d.manifest.names);
            && Reopen(d) == Opened(TipAt(h, |h|), Truncated(files))
            && d.ack.sequence <= |h|
            && Replay(Tip(d.manifest.anchor.sequence, d.manifest.anchor.digest), files, d.ack.sequence) == Some(h[d.ack.sequence..])
  {
    hide ScanFiles, Replay, Laid, Live, CursorDurable, Truncated, Chained;
    var anchor := d.manifest.anchor;
    assert TipAt(h, anchor.sequence) == Tip(anchor.sequence, anchor.digest);
    FilesScan(h, anchor.sequence, Live(d.files, d.manifest.names), !d.manifest.clean);
    CursorKept(d, h);
    ReplayAboveCursor(d, h);
  }

  lemma CursorKept(d: Disk, h: seq<Rec>)
    requires Intact(d, h)
    ensures CursorDurable(d.ack, d.manifest.anchor.Position(), Live(d.files, d.manifest.names))
  {
    hide Live, Laid, Chained, Contains;
    if d.ack != d.manifest.anchor.Position() {
      RecordFile(h, d.manifest.anchor.sequence, Live(d.files, d.manifest.names), d.ack.sequence - 1);
    }
  }

  lemma ReplayAboveCursor(d: Disk, h: seq<Rec>)
    requires Intact(d, h)
    ensures d.ack.sequence <= |h|
    ensures Replay(Tip(d.manifest.anchor.sequence, d.manifest.anchor.digest), Live(d.files, d.manifest.names), d.ack.sequence)
            == Some(h[d.ack.sequence..])
  {
    hide Live, Laid, Chained, Replay;
    var from := d.manifest.anchor.sequence;
    FilesReplay(h, from, Live(d.files, d.manifest.names), d.ack.sequence);
    assert TipAt(h, from) == Tip(from, d.manifest.anchor.digest);
    assert Above(h, from, |h|, d.ack.sequence) == h[d.ack.sequence..];
  }

  // ---------------------------------------------------------------- power loss

  /** Files keep what was synced and any part of the rest; the last may end in an incomplete record. */
  ghost predicate WornAll(before: seq<File>, after: seq<File>) {
    && |after| == |before|
    && forall k :: 0 <= k < |after| ==> Worn(before[k], after[k], k == |after| - 1)
  }

  ghost predicate Worn(before: File, after: File, last: bool) {
    && after.index == before.index && before.synced <= |after.lines| <= |before.lines|
    && after.lines == before.lines[..|after.lines|] && after.synced == |after.lines|
    && (after.torn ==> last || before.torn || |after.lines| < |before.lines|)
  }

  /** A power loss keeps the manifest and the cursor file, which are replaced atomically. Renames and
      unlinks that were not yet synced may be undone, as long as the same files stay live. */
  ghost predicate PowerLoss(before: Disk, after: Disk) {
    && after.manifest == before.manifest && after.ack == before.ack
    && WornAll(Live(before.files, before.manifest.names), Live(after.files, after.manifest.names))
    && (before.manifest.clean ==> Live(after.files, after.manifest.names) == Live(before.files, before.manifest.names))
  }

  lemma {:induction false} WornLaid(before: seq<File>, after: seq<File>, h: seq<Rec>, from: nat) returns (n: nat)
    requires Laid(before, h, from) && WornAll(before, after) && from <= |h|
    ensures Durable(before, h) <= n <= |h| && from <= n && Laid(after, h[..n], from) && Durable(after, h[..n]) == n
    decreases |before|
  {
    if before == [] {
      n := |h|;
      assert h[..n] == h;
    } else {
      assert Worn(before[0], after[0], 0 == |after| - 1);
      if |before| == 1 {
        n := from + |after[0].lines|;
        assert h[..n][from..n] == after[0].lines;
        assert Laid(after[1..], h[..n], n);
      } else {
        assert after[0].lines == before[0].lines;
        forall k | 0 <= k < |after[1..]|
          ensures Worn(before[1..][k], after[1..][k], k == |after[1..]| - 1)
        {
          assert Worn(before[k + 1], after[k + 1], k + 1 == |after| - 1);
        }
        var to := from + |before[0].lines|;
        n := WornLaid(before[1..], after[1..], h, to);
        assert h[..n][from..to] == h[from..to];
      }
    }
  }

  lemma WornAscending(before: seq<File>, after: seq<File>)
    requires WornAll(before, after) && Ascending(before)
    ensures Ascending(after) && Indexes(after) == Indexes(before)
  {
    forall k | 0 <= k < |after|
      ensures after[k].index == before[k].index
    {
      assert Worn(before[k], after[k], k == |after| - 1);
    }
    forall x | x in Indexes(before)
      ensures x in Indexes(after)
    {
      var f :| f in before && f.index == x;
      var k :| 0 <= k < |before| && before[k] == f;
      assert after[k] in after;
    }
    forall x | x in Indexes(after)
      ensures x in Indexes(before)
    {
      var f :| f in after && f.index == x;
      var k :| 0 <= k < |after| && after[k] == f;
      assert before[k] in before;
    }
  }

  /** A power loss leaves an intact directory with a prefix of the history that still has every synced
      record and the cursor. */
  lemma PowerLossKeepsIntact(before: Disk, after: Disk, h: seq<Rec>) returns (n: nat)
    requires Intact(before, h) && PowerLoss(before, after)
    ensures Durable(Live(before.files, before.manifest.names), h) <= n <= |h| && Intact(after, h[..n])
    ensures before.manifest.anchor.sequence <= n && before.ack.sequence <= n
  {
    var names := before.manifest.names;
    var b, a := Live(before.files, names), Live(after.files, names);
    n := WornLaid(b, a, h, before.manifest.anchor.sequence);
    WornAscending(b, a);
    PrefixChained(h, n);
    if before.manifest.clean && a != [] {
      assert a[|a| - 1] == b[|b| - 1];
    }
  }

  // ---------------------------------------------------------------- elementary changes to the directory

  function LiveOf(d: Disk): seq<File> { Live(d.files, d.manifest.names) }

  predicate Plain(files: seq<File>) { forall f :: f in files ==> !f.staged }

  lemma {:induction false} PlainIsLive(files: seq<File>, names: set<nat>)
    requires Plain(files)
    ensures Live(files, names) == files
  {
    if files != [] {
      assert files[0] in files;
      assert Plain(files[1..]);
      PlainIsLive(files[1..], names);
    }
  }

  lemma {:induction false} LiveIsPlain(files: seq<File>, names: set<nat>)
    ensures Plain(Live(files, names))
  {
    if files != [] {
      LiveIsPlain(files[1..], names);
    }
  }

  lemma {:induction false} LiveSplit(a: seq<File>, b: seq<File>, names: set<nat>)
    ensures Live(a + b, names) == Live(a, names) + Live(b, names)
  {
    if a == [] {
      assert [] + b == b;
    } else {
      assert (a + b)[0] == a[0] && (a + b)[1..] == a[1..] + b;
      LiveSplit(a[1..], b, names);
      Regroup(if a[0].staged && a[0].index !in names then [] else [a[0].(staged := false)], Live(a[1..], names), Live(b, names));
    }
  }

  lemma Regroup(a: seq<File>, b: seq<File>, c: seq<File>)
    ensures a + (b + c) == (a + b) + c
  {
  }

  /** Renaming a listed file to or from its staged name leaves the same files live. */
  lemma StagingKeepsLive(files: seq<File>, k: nat, staged: bool, names: set<nat>)
    requires k < |files| && files[k].index in names
    ensures Live(files[k := files[k].(staged := staged)], names) == Live(files, names)
  {
    var f := files[k];
    assert files == files[..k] + ([f] + files[k + 1..]);
    assert files[k := f.(staged := staged)] == files[..k] + ([f.(staged := staged)] + files[k + 1..]);
    LiveSplit(files[..k], [f] + files[k + 1..], names);
    LiveSplit(files[..k], [f.(staged := staged)] + files[k + 1..], names);
    LiveSplit([f], files[k + 1..], names);
    LiveSplit([f.(staged := staged)], files[k + 1..], names);
  }

  /** Unlinking a staged file that is no longer listed leaves the same files live. */
  lemma UnlinkKeepsLive(files: seq<File>, k: nat, names: set<nat>)
    requires k < |files| && files[k].staged && files[k].index !in names
    ensures Live(files[..k] + files[k + 1..], names) == Live(files, names)
  {
    assert files == files[..k] + ([files[k]] + files[k + 1..]);
    LiveSplit(files[..k], [files[k]] + files[k + 1..], names);
    LiveSplit(files[..k], files[k + 1..], names);
    LiveSplit([files[k]], files[k + 1..], names);
  }

  /** Intactness depends on the live files, the manifest and the cursor only. */
  lemma SameLive(d: Disk, files: seq<File>, h: seq<Rec>)
    requires Intact(d, h) && Live(files, d.manifest.names) == LiveOf(d)
    ensures Intact(d.(files := files), h)
  {
  }

  function WithLast(files: seq<File>, f: File): seq<File>
    requires files != []
  {
    files[|files| - 1 := f]
  }

  function Last(files: seq<File>): File
    requires files != []
  {
    files[|files| - 1]
  }

  /** Changing only how much of the last file is synced, or its torn end, keeps the layout. */
  lemma {:induction false} LastLaid(files: seq<File>, h: seq<Rec>, from: nat, synced: nat, torn: bool)
    requires Laid(files, h, from) && from <= |h| && files != [] && synced <= |Last(files).lines|
    ensures Laid(WithLast(files, Last(files).(synced := synced, torn := torn)), h, from)
    decreases |files|
  {
    var after := WithLast(files, Last(files).(synced := synced, torn := torn));
    if |files| > 1 {
      assert Last(files[1..]) == Last(files);
      assert after[1..] == WithLast(files[1..], Last(files).(synced := synced, torn := torn));
      LastLaid(files[1..], h, from + |files[0].lines|, synced, torn);
    }
  }

  lemma {:induction false} AppendLaid(files: seq<File>, h: seq<Rec>, from: nat, r: Rec)
    requires Laid(files, h, from) && from <= |h| && files != [] && r.segment == Last(files).index
    ensures Laid(WithLast(files, Last(files).(lines := Last(files).lines + [r])), h + [r], from)
    decreases |files|
  {
    var after := WithLast(files, Last(files).(lines := Last(files).lines + [r]));
    var to := from + |files[0].lines|;
    if |files| > 1 {
      assert Last(files[1..]) == Last(files);
      assert after[1..] == WithLast(files[1..], Last(files).(lines := Last(files).lines + [r]));
      assert (h + [r])[from..to] == h[from..to];
      AppendLaid(files[1..], h, to, r);
    } else {
      assert to == |h|;
      assert (h + [r])[from..] == h[from..] + [r];
      assert after[1..] == [];
    }
  }

  lemma {:induction false} OpenLaid(files: seq<File>, h: seq<Rec>, from: nat, index: nat)
    requires Laid(files, h, from) && from <= |h|
    requires files != [] ==> Last(files).synced == |Last(files).lines| && !Last(files).torn
    ensures Laid(files + [File(index, [], 0, false, false)], h, from)
    decreases |files|
  {
    if files != [] {
      if |files| > 1 {
        assert Last(files[1..]) == Last(files);
      }
      OpenLaid(files[1..], h, from + |files[0].lines|, index);
      assert (files + [File(index, [], 0, false, false)])[1..] == files[1..] + [File(index, [], 0, false, false)];
    } else {
      var one := [File(index, [], 0, false, false)];
      assert one[1..] == [];
    }
  }

  lemma IndexesOfUpdate(files: seq<File>, f: File)
    requires files != [] && f.index == Last(files).index
    ensures Indexes(WithLast(files, f)) == Indexes(files)
    ensures Ascending(files) ==> Ascending(WithLast(files, f))
  {
    var after := WithLast(files, f);
    forall x | x in Indexes(files)
      ensures x in Indexes(after)
    {
      var g :| g in files && g.index == x;
      var k :| 0 <= k < |files| && files[k] == g;
      assert after[k] in after;
    }
    forall x | x in Indexes(after)
      ensures x in Indexes(files)
    {
      var g :| g in after && g.index == x;
      var k :| 0 <= k < |after| && after[k] == g;
      assert files[k] in files;
    }
  }

  // ---------------------------------------------------------------- acknowledged segments

  /** A closed segment all of whose records lie below the cursor. */
  predicate Doomed(f: File, above: nat) { f.lines != [] && f.lines[|f.lines| - 1].sequence < above }

  /** What acknowledging keeps: every file that is not doomed, and always the last. */
  function Kept(files: seq<File>, above: nat): seq<File> {
    if |files| <= 1 then files
    else (if Doomed(files[0], above) then [] else [files[0]]) + Kept(files[1..], above)
  }

  /** The newest file that acknowledging deletes. */
  function NewestDoomed(files: seq<File>, above: nat): Option<File> {
    if |files| <= 1 then None
    else
      var later := NewestDoomed(files[1..], above);
      if later.Some? then later else if Doomed(files[0], above) then Some(files[0]) else None
  }

  /** Sequences are positions: the last record of a file is the one before the next file. */
  lemma LastSequence(h: seq<Rec>, f: File, from: nat)
    requires Chained(h) && Holds(f, h, from) && f.lines != []
    ensures f.lines[|f.lines| - 1].sequence == from + |f.lines| && f.lines[0].sequence == from + 1
    ensures f.lines[|f.lines| - 1].digest == TipAt(h, from + |f.lines|).digest
  {
    assert Follows(h, from) && Follows(h, from + |f.lines| - 1);
  }

  /** Where the kept files start: at the end of the newest doomed one. */
  function CutAt(files: seq<File>, from: nat, above: nat): nat {
    var newest := NewestDoomed(files, above);
    if newest.None? || newest.value.lines == [] then from else newest.value.lines[|newest.value.lines| - 1].sequence
  }

  /** The newest doomed file ends where the chain says, below the cursor. */
  lemma {:induction false} NewestFacts(files: seq<File>, h: seq<Rec>, from: nat, above: nat)
    requires Chained(h) && Laid(files, h, from) && from <= |h| && NewestDoomed(files, above).Some?
    ensures var f := NewestDoomed(files, above).value;
            var later := CutAt(files, from, above);
            && f in files && f.lines != [] && from < later <= |h| && later < above
            && f.lines[|f.lines| - 1].digest == TipAt(h, later).digest && f.index == h[later - 1].segment
    decreases |files|
  {
    var to := from + |files[0].lines|;
    if NewestDoomed(files[1..], above).Some? {
      NewestFacts(files[1..], h, to, above);
    } else {
      LastSequence(h, files[0], from);
    }
  }

  /** Without the doomed files, the rest holds the history from the end of the newest doomed one on. */
  lemma {:induction false} KeptLaid(files: seq<File>, h: seq<Rec>, from: nat, above: nat)
    requires Chained(h) && Laid(files, h, from) && from <= |h|
    ensures CutAt(files, from, above) <= |h| && Laid(Kept(files, above), h, CutAt(files, from, above))
    decreases |files|
  {
    if NewestDoomed(files, above).Some? {
      NewestFacts(files, h, from, above);
    }
    if |files| > 1 {
      var f := files[0];
      KeptLaid(files[1..], h, from + |f.lines|, above);
      CutStep(files, h, from, above);
      if Doomed(f, above) {
        assert [] + Kept(files[1..], above) == Kept(files[1..], above);
      } else if f.lines == [] {
        EmptyAhead(f, Kept(files[1..], above), h, CutAt(files[1..], from, above));
      } else {
        NothingDoomedAbove(files[1..], h, from + |f.lines|, above);
        assert [f] + files[1..] == files;
      }
    }
  }

  lemma CutStep(files: seq<File>, h: seq<Rec>, from: nat, above: nat)
    requires Chained(h) && Laid(files, h, from) && from <= |h| && |files| > 1
    ensures var f := files[0];
            if Doomed(f, above) || f.lines == [] then CutAt(files, from, above) == CutAt(files[1..], from + |f.lines|, above)
            else above <= from + |f.lines| && CutAt(files, from, above) == from
  {
    var f := files[0];
    if f.lines != [] {
      LastSequence(h, f, from);
      if !Doomed(f, above) {
        NothingDoomedAbove(files[1..], h, from + |f.lines|, above);
      }
    }
    if NewestDoomed(files[1..], above).Some? {
      NewestFacts(files[1..], h, from + |f.lines|, above);
    }
  }

  lemma EmptyAhead(f: File, rest: seq<File>, h: seq<Rec>, at: nat)
    requires f.lines == [] && f.synced == 0 && !f.torn && at <= |h| && Laid(rest, h, at)
    ensures Laid([f] + rest, h, at)
  {
    assert ([f] + rest)[1..] == rest;
  }

  lemma {:induction false} KeptLast(files: seq<File>, above: nat)
    requires files != []
    ensures Kept(files, above) != [] && Last(Kept(files, above)) == Last(files)
    ensures NewestDoomed(files, above).None? ==> Kept(files, above) == files
    decreases |files|
  {
    if |files| > 1 {
      KeptLast(files[1..], above);
      assert Last(files[1..]) == Last(files);
    }
  }

  /** Files that start at or above the cursor are all kept. */
  lemma {:induction false} NothingDoomedAbove(files: seq<File>, h: seq<Rec>, from: nat, above: nat)
    requires Chained(h) && Laid(files, h, from) && from <= |h| && above <= from
    ensures NewestDoomed(files, above).None? && Kept(files, above) == files
    decreases |files|
  {
    if |files| > 1 {
      if files[0].lines != [] {
        LastSequence(h, files[0], from);
      }
      NothingDoomedAbove(files[1..], h, from + |files[0].lines|, above);
    }
  }

  lemma {:induction false} KeptMembers(files: seq<File>, above: nat)
    requires Ascending(files)
    ensures Ascending(Kept(files, above)) && forall f :: f in Kept(files, above) ==> f in files
    decreases |files|
  {
    if |files| > 1 {
      assert Ascending(files[1..]);
      KeptMembers(files[1..], above);
      assert forall f :: f in files[1..] ==> files[0].index < f.index;
    }
  }

  /** Once the manifest lists only the kept files, those are the live ones. */
  lemma {:induction false} StagedLive(files: seq<File>, above: nat, names: set<nat>)
    requires Ascending(files) && Plain(files) && names == Indexes(Kept(files, above))
    ensures Live(StagedDoomed(files, above), names) == Kept(files, above)
    decreases |files|
  {
    KeptMembers(files, above);
    forall f | f in files
      ensures f.index in names <==> f in Kept(files, above)
    {
      if f.index in names {
        var g :| g in Kept(files, above) && g.index == f.index;
        SameIndex(files, f, g);
      }
    }
    StagedLiveIn(files, above, names);
  }

  lemma SameIndex(files: seq<File>, f: File, g: File)
    requires Ascending(files) && f in files && g in files && f.index == g.index
    ensures f == g
  {
  }

  lemma {:induction false} StagedLiveIn(files: seq<File>, above: nat, names: set<nat>)
    requires Ascending(files) && Plain(files)
    requires forall f :: f in files ==> (f.index in names <==> f in Kept(files, above))
    ensures Live(StagedDoomed(files, above), names) == Kept(files, above)
    decreases |files|
  {
    if |files| <= 1 {
      PlainIsLive(files, names);
    } else {
      var f, rest := files[0], files[1..];
      assert f in files && Ascending(rest) && Plain(rest);
      KeptMembers(rest, above);
      assert forall g :: g in rest ==> g in files && f.index < g.index;
      forall g | g in rest
        ensures g.index in names <==> g in Kept(rest, above)
      {
        assert g != f;
      }
      StagedLiveIn(rest, above, names);
      assert StagedDoomed(files, above)[1..] == StagedDoomed(rest, above);
      if Doomed(f, above) {
        assert f !in Kept(rest, above);
      }
    }
  }

  /** The directory once every doomed file carries its staged name. */
  function StagedDoomed(files: seq<File>, above: nat): (r: seq<File>)
    ensures |r| == |files|
  {
    if |files| <= 1 then files
    else [if Doomed(files[0], above) then files[0].(staged := true) else files[0]] + StagedDoomed(files[1..], above)
  }

  lemma {:induction false} StagedAt(files: seq<File>, above: nat, k: nat)
    requires k < |files|
    ensures StagedDoomed(files, above)[k] == if k < |files| - 1 && Doomed(files[k], above) then files[k].(staged := true) else files[k]
    decreases |files|
  {
    if |files| > 1 && k > 0 {
      StagedAt(files[1..], above, k - 1);
    }
  }

  /** A durable cursor lies within the history. */
  lemma {:induction false} ContainedCursor(files: seq<File>, h: seq<Rec>, from: nat, k: nat, cursor: Cursor)
    requires Chained(h) && Laid(files, h, from) && from <= |h| && k < |files| && Contains(files[k], cursor)
    ensures from < cursor.sequence <= |h| && cursor.segment == h[cursor.sequence - 1].segment
    decreases |files|
  {
    if k == 0 {
      LastSequence(h, files[0], from);
    } else {
      ContainedCursor(files[1..], h, from + |files[0].lines|, k - 1, cursor);
    }
  }

  lemma CursorFound(cursor: Cursor, anchor: Anchor, files: seq<File>, h: seq<Rec>)
    requires Chained(h) && AnchorIn(anchor, h) && Laid(files, h, anchor.sequence)
    requires CursorDurable(cursor, anchor.Position(), files)
    ensures CursorIn(cursor, anchor.Position(), h, |h|)
  {
    if cursor != ORIGIN && cursor != anchor.Position() {
      var k :| 0 <= k < |files| && Contains(files[k], cursor);
      ContainedCursor(files, h, anchor.sequence, k, cursor);
    }
  }

  // ---------------------------------------------------------------- opening after a clean close

  /** Opening creates the new segment file before it writes the manifest. If the spool had been closed
      cleanly, a stop in between leaves a file that the clean manifest does not list, and reopening
      reports corruption; if it had not, reopening goes through. */
  lemma OpeningWindow(d: Disk, h: seq<Rec>, index: nat)
    requires Intact(d, h) && Plain(d.files) && (d.files != [] ==> !Last(d.files).torn)
    requires 0 < index && forall f :: f in d.files ==> f.index < index
    ensures Reopen(d.(files := d.files + [File(index, [], 0, false, false)])) != Corrupt <==> !d.manifest.clean
  {
    var started := d.(files := d.files + [File(index, [], 0, false, false)]);
    PlainIsLive(d.files, d.manifest.names);
    PlainWithOneMore(d.files, index);
    PlainIsLive(started.files, d.manifest.names);
    OpenIndexes(d.files, File(index, [], 0, false, false));
    if d.manifest.clean {
      assert index in Indexes(started.files) && index !in Indexes(d.files);
    } else {
      var anchor := d.manifest.anchor;
      assert TipAt(h, anchor.sequence) == Tip(anchor.sequence, anchor.digest);
      FilesScan(h, anchor.sequence, d.files, false);
      ScanWithEmpty(Tip(anchor.sequence, anchor.digest), d.files, index);
      CursorKept(d, h);
      CursorWithOneMore(d.ack, anchor.Position(), d.files, File(index, [], 0, false, false));
      hide Intact, Live, Indexes, ScanFiles, CursorDurable, Plain;
    }
  }

  lemma {:induction false} ScanWithEmpty(tip: Tip, files: seq<File>, index: nat)
    ensures ScanFiles(tip, files + [File(index, [], 0, false, false)], true) == ScanFiles(tip, files, false)
    decreases |files|
  {
    var longer := files + [File(index, [], 0, false, false)];
    if files == [] {
      assert longer[1..] == [];
    } else {
      assert longer[1..] == files[1..] + [File(index, [], 0, false, false)];
      if ScanLines(tip, files[0].index, files[0].lines).Some? {
        ScanWithEmpty(ScanLines(tip, files[0].index, files[0].lines).value, files[1..], index);
      }
    }
  }

  lemma CursorWithOneMore(cursor: Cursor, anchor: Cursor, files: seq<File>, f: File)
    requires CursorDurable(cursor, anchor, files)
    ensures CursorDurable(cursor, anchor, files + [f])
  {
    if cursor != ORIGIN && cursor != anchor {
      var k :| 0 <= k < |files| && Contains(files[k], cursor);
      assert Contains((files + [f])[k], cursor);
    }
  }

  lemma OpenKeeps(d: Disk, h: seq<Rec>, index: nat)
    requires Intact(d, h) && Plain(d.files) && !d.manifest.clean
    requires d.files != [] ==> Last(d.files).synced == |Last(d.files).lines| && !Last(d.files).torn
    requires 0 < index && forall f :: f in d.files ==> f.index < index
    ensures Intact(d.(files := d.files + [File(index, [], 0, false, false)]), h)
    ensures Durable(d.files + [File(index, [], 0, false, false)], h) == |h|
  {
    hide Laid, Chained, Live, Plain, CursorIn, Ascending, Indexes;
    var after := d.files + [File(index, [], 0, false, false)];
    PlainWithOneMore(d.files, index);
    PlainIsLive(d.files, d.manifest.names);
    PlainIsLive(after, d.manifest.names);
    OpenLaid(d.files, h, d.manifest.anchor.sequence, index);
    OpenIndexes(d.files, File(index, [], 0, false, false));
  }

  lemma PlainWithOneMore(files: seq<File>, index: nat)
    requires Plain(files)
    ensures Plain(files + [File(index, [], 0, false, false)])
  {
  }

  lemma OpenIndexes(files: seq<File>, f: File)
    requires forall g :: g in files ==> g.index < f.index
    ensures Indexes(files + [f]) == Indexes(files) + {f.index}
    ensures Ascending(files) ==> Ascending(files + [f])
  {
    assert forall g :: g in files + [f] <==> g in files || g == f;
    forall x | x in Indexes(files)
      ensures x in Indexes(files + [f])
    {
      var g :| g in files && g.index == x;
      assert g in files + [f];
    }
    assert f in files + [f];
  }

  // ---------------------------------------------------------------- what the process remembers of a segment

  /** The in-memory description of a segment; the sequences are 0 while it is empty. */
  datatype Info = Info(index: nat, first: nat, last: nat, digest: Digest)

  predicate Describes(i: Info, f: File) {
    && i.index == f.index
    && (f.lines == [] ==> i.first == 0 && i.last == 0)
    && (f.lines != [] ==> i.first == f.lines[0].sequence > 0 && i.last == f.lines[|f.lines| - 1].sequence > 0
                          && i.digest == f.lines[|f.lines| - 1].digest)
  }

  predicate Matches(infos: seq<Info>, files: seq<File>) {
    |infos| == |files| && forall k :: 0 <= k < |files| ==> Describes(infos[k], files[k])
  }

  predicate InfoDoomed(i: Info, above: nat) { i.last > 0 && i.last < above }

  function KeptInfos(infos: seq<Info>, above: nat): seq<Info> {
    if |infos| <= 1 then infos
    else (if InfoDoomed(infos[0], above) then [] else [infos[0]]) + KeptInfos(infos[1..], above)
  }

  function NewestInfo(infos: seq<Info>, above: nat): Option<Info> {
    if |infos| <= 1 then None
    else
      var later := NewestInfo(infos[1..], above);
      if later.Some? then later else if InfoDoomed(infos[0], above) then Some(infos[0]) else None
  }

  lemma {:induction false} KeptMatches(infos: seq<Info>, files: seq<File>, above: nat)
    requires Matches(infos, files)
    ensures Matches(KeptInfos(infos, above), Kept(files, above))
    ensures NewestInfo(infos, above).Some? <==> NewestDoomed(files, above).Some?
    ensures NewestDoomed(files, above).Some? ==> Describes(NewestInfo(infos, above).value, NewestDoomed(files, above).value)
    decreases |files|
  {
    if |files| > 1 {
      MatchesTail(infos, files);
      KeptMatches(infos[1..], files[1..], above);
      assert Describes(infos[0], files[0]);
    }
  }

  lemma MatchesTail(infos: seq<Info>, files: seq<File>)
    requires Matches(infos, files) && files != []
    ensures Matches(infos[1..], files[1..])
  {
    forall k | 0 <= k < |files[1..]|
      ensures Describes(infos[1..][k], files[1..][k])
    {
      assert Describes(infos[k + 1], files[k + 1]);
    }
  }

  predicate InfoContains(i: Info, cursor: Cursor) { i.first > 0 && i.index == cursor.segment && i.first <= cursor.sequence <= i.last }

  predicate CursorKnown(cursor: Cursor, anchor: Cursor, infos: seq<Info>) {
    if cursor == ORIGIN then anchor == ORIGIN
    else cursor == anchor || exists k :: 0 <= k < |infos| && InfoContains(infos[k], cursor)
  }

  lemma KnownIsDurable(cursor: Cursor, anchor: Cursor, infos: seq<Info>, files: seq<File>)
    requires Matches(infos, files)
    ensures CursorKnown(cursor, anchor, infos) <==> CursorDurable(cursor, anchor, files)
  {
    forall k | 0 <= k < |files|
      ensures InfoContains(infos[k], cursor) <==> Contains(files[k], cursor)
    {
      assert Describes(infos[k], files[k]);
    }
  }

  /** The cursors that can be acknowledged are exactly the anchor and the records above it. */
  lemma DurableIff(cursor: Cursor, anchor: Anchor, files: seq<File>, h: seq<Rec>)
    requires Chained(h) && AnchorIn(anchor, h) && Laid(files, h, anchor.sequence)
    requires forall i :: 0 <= i < |h| ==> h[i].segment > 0
    ensures CursorDurable(cursor, anchor.Position(), files) <==> CursorIn(cursor, anchor.Position(), h, |h|)
  {
    if CursorDurable(cursor, anchor.Position(), files) {
      CursorFound(cursor, anchor, files, h);
    }
    if CursorIn(cursor, anchor.Position(), h, |h|) && cursor != anchor.Position() {
      RecordFile(h, anchor.sequence, files, cursor.sequence - 1);
    }
  }
}
