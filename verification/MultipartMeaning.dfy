/** What rewriting makes of the parts, and what a part's header says, in terms of names, contents and bytes.
    No definition here calls the rewrite or the reading of Multipart. */
module MultipartMeaning {
  import opened Common
  import opened Multipart
  import opened MultipartRoundTrip

  // ---------------------------------------------------------------- the rewritten parts

  /** A reserved field is not sent on, unless it is the model's or the fence's. */
  predicate Stays(p: Part, e: Edit) { p.name !in e.reserved || p.name == e.model || p.name == e.fence }

  /** A part that stays keeps its header and its name; the model and the fence get their content. */
  predicate Carried(before: Part, e: Edit, after: Part) {
    && after.header == before.header && after.name == before.name
    && after.content == (if before.name == e.model then e.alias else if before.name == e.fence then e.fenceValue else before.content)
  }

  /** `out` holds the parts that stay, each carried, in the order in which they came, and nothing else. */
  ghost predicate InTurn(parts: seq<Part>, e: Edit, out: seq<Part>)
    decreases |parts|
  {
    if parts == [] then out == []
    else if Stays(parts[0], e) then out != [] && Carried(parts[0], e, out[0]) && InTurn(parts[1..], e, out[1..])
    else InTurn(parts[1..], e, out)
  }

  lemma {:induction false} EditKeeps(parts: seq<Part>, e: Edit)
    ensures InTurn(parts, e, EditAll(parts, e))
    decreases |parts|
  {
    if parts != [] {
      EditKeeps(parts[1..], e);
      var rest := EditAll(parts[1..], e);
      if Stays(parts[0], e) {
        assert EditAll(parts, e) == [Replaced(parts[0], e)] + rest;
        assert EditAll(parts, e)[1..] == rest;
      } else {
        assert EditAll(parts, e) == rest;
      }
    }
  }

  /** Some part is the fence's own. */
  predicate Fenced(parts: seq<Part>, e: Edit) { exists i :: 0 <= i < |parts| && parts[i].name == e.fence && parts[i].name != e.model }

  lemma AsciiJoined(s: string, t: string)
    ensures Ascii(s + t) == Ascii(s) + Ascii(t)
  {
  }

  lemma FencePieces()
    ensures Ascii("Content-Disposition:") == PREFIX
    ensures Ascii(" form-data; name=") == [SPACE] + FORM_DATA + [SEMICOLON, SPACE] + NAME[..5]
  {
  }

  lemma FenceHeaderIs(fence: Bytes)
    ensures FenceHeader(fence) == Ascii("Content-Disposition: form-data; name=") + [34] + fence + [34]
  {
    hide Ascii;
    var first, second := "Content-Disposition:", " form-data; name=";
    FencePieces();
    AsciiJoined(first, second);
    assert first + second == "Content-Disposition: form-data; name=";
    assert NAME == NAME[..5] + [QUOTE];
    assert FenceHeader(fence) == PREFIX + ([SPACE] + FORM_DATA + [SEMICOLON, SPACE] + NAME[..5]) + [34] + fence + [34];
  }

  /** The rewritten list: the parts that stay, in order, and a fence at the end if there was none. */
  lemma EditedKeeps(parts: seq<Part>, e: Edit)
    ensures var out := Edited(parts, e);
            if Fenced(parts, e) then InTurn(parts, e, out)
            else
              && out != [] && InTurn(parts, e, out[..|out| - 1])
              && out[|out| - 1] == Part(Ascii("Content-Disposition: form-data; name=") + [34] + e.fence + [34], e.fence, e.fenceValue)
  {
    FenceHeaderIs(e.fence);
    EditKeeps(parts, e);
    var all, out := EditAll(parts, e), Edited(parts, e);
    assert Fenced(parts, e) <==> HasFence(parts, e);
    if Fenced(parts, e) {
      assert out == all;
    } else {
      assert out[..|out| - 1] == all;
    }
  }

  /** Nothing reserved is sent on but the model and the fence; what is not reserved is sent on as it came. */
  lemma ReservedAreDropped(parts: seq<Part>, e: Edit)
    ensures forall q :: q in Edited(parts, e) && q.name in e.reserved ==> q.name == e.model || q.name == e.fence
    ensures forall p :: p in parts && p.name !in e.reserved && p.name != e.model && p.name != e.fence ==> p in Edited(parts, e)
    ensures forall p :: p in parts && p.name == e.model ==> Part(p.header, p.name, e.alias) in Edited(parts, e)
  {
    EditedMembers(parts, e);
    forall p | p in parts && Stays(p, e)
      ensures Replaced(p, e) in Edited(parts, e)
    {
      assert Replaced(p, e) in EditAll(parts, e);
    }
  }

  /** What is sent on reads back as the parts that stay, in order, with the model's alias and one fence, and
      without any other reserved field, provided that everything injected can be carried. */
  lemma RewriteSends(body: Bytes, boundary: Bytes, e: Edit, decodes: Bytes -> bool)
    requires IsBoundary(boundary) && FieldName(e.fence) && e.model != e.fence && Rewrite(body, boundary, e, decodes).Ok?
    requires Parse(body, boundary, decodes).Ok? && Injectable(Parse(body, boundary, decodes).value, e, boundary, decodes)
    ensures var parts := Parse(body, boundary, decodes).value;
            var sent := Parse(Rewrite(body, boundary, e, decodes).value, boundary, decodes);
            && |Rewrite(body, boundary, e, decodes).value| <= 33_554_432
            && sent.Ok? && (forall q :: q in sent.value && q.name in e.reserved ==> q.name == e.model || q.name == e.fence)
            && (if Fenced(parts, e) then InTurn(parts, e, sent.value)
                else
                  && sent.value != [] && InTurn(parts, e, sent.value[..|sent.value| - 1])
                  && sent.value[|sent.value| - 1].name == e.fence && sent.value[|sent.value| - 1].content == e.fenceValue)
  {
    hide Parse, Print, Edited, Injectable, FieldName, InTurn, Fenced;
    var parts := Parse(body, boundary, decodes).value;
    RewriteRoundTrip(body, boundary, e, decodes);
    EditedKeeps(parts, e);
    ReservedAreDropped(parts, e);
  }

  /** A rewrite is refused for what its body is refused for, or because the edited parts print to more than
      32 MiB; otherwise it is that print. */
  lemma RewriteRefuses(body: Bytes, boundary: Bytes, e: Edit, decodes: Bytes -> bool)
    ensures Parse(body, boundary, decodes).Reject? ==>
              Rewrite(body, boundary, e, decodes) == Reject(Parse(body, boundary, decodes).reason)
    ensures Parse(body, boundary, decodes).Ok? ==>
              var out := Print(Edited(Parse(body, boundary, decodes).value, e), boundary);
              Rewrite(body, boundary, e, decodes) == if |out| <= 33_554_432 then Ok(out) else Reject(BodyTooLarge)
  {
  }

  // ---------------------------------------------------------------- which bodies are read

  /** Pieces with the delimiter between them. */
  function Join(pieces: seq<Bytes>, d: Bytes): Bytes {
    if pieces == [] then [] else if |pieces| == 1 then pieces[0] else pieces[0] + d + Join(pieces[1..], d)
  }

  lemma {:induction false} JoinSplit(h: Bytes, d: Bytes)
    requires d != []
    ensures Join(Split(h, d), d) == h
    decreases |h|
  {
    var f := Find(h, d, 0);
    if f.None? {
      assert Split(h, d) == [h];
    } else {
      var first, rest := h[..f.value], h[f.value + |d|..];
      JoinSplit(rest, d);
      JoinCons(first, Split(rest, d), d);
      assert first + d + rest == h;
    }
  }

  lemma JoinCons(first: Bytes, rest: seq<Bytes>, d: Bytes)
    requires rest != []
    ensures Join([first] + rest, d) == first + d + Join(rest, d)
  {
    assert ([first] + rest)[1..] == rest;
  }

  /** A part that reads is between line breaks, with a blank line after its header. */
  lemma ReadIsSegment(raw: Bytes, names: set<Bytes>, decodes: Bytes -> bool)
    requires ReadPart(raw, names, decodes).Ok?
    ensures raw == Segment(ReadPart(raw, names, decodes).value)
  {
    hide ReadHeader;
    var inside := Inside(raw);
    var at := Find(inside, BLANK_LINE, 0).value;
    FindBounds(inside, at);
    var header, content := inside[..at], inside[at + 4..];
    assert inside == header + BLANK_LINE + content;
    assert raw == CRLF + inside + CRLF;
    assert CRLF + (header + BLANK_LINE + content) + CRLF == CRLF + header + BLANK_LINE + content + CRLF;
  }

  lemma {:induction false} ReadAreSegments(raws: seq<Bytes>, names: set<Bytes>, decodes: Bytes -> bool)
    requires ReadParts(raws, names, decodes).Ok?
    ensures raws == Segments(ReadParts(raws, names, decodes).value)
    decreases |raws|
  {
    if raws != [] {
      var first := ReadPart(raws[0], names, decodes).value;
      var rest := ReadParts(raws[1..], names + {first.name}, decodes).value;
      ReadIsSegment(raws[0], names, decodes);
      ReadAreSegments(raws[1..], names + {first.name}, decodes);
      assert ReadParts(raws, names, decodes).value == [first] + rest && ([first] + rest)[1..] == rest;
      assert raws == [raws[0]] + raws[1..];
    }
  }

  /** Joined, the pieces are the printed body up to its end. */
  lemma {:induction false} JoinIsPrint(parts: seq<Part>, boundary: Bytes, last: Bytes)
    ensures Join([[]] + Segments(parts) + [last], Delimiter(boundary)) + (if last == DASHES then CRLF else [])
            == Delimiter(boundary) + TailAfter(parts, boundary, last) + (if last == DASHES then CRLF else [])
  {
    var d := Delimiter(boundary);
    assert [[]] + Segments(parts) + [last] == [[]] + (Segments(parts) + [last]);
    JoinCons([], Segments(parts) + [last], d);
    JoinTail(parts, boundary, last);
    assert [] + d + TailAfter(parts, boundary, last) == d + TailAfter(parts, boundary, last);
  }

  /** What follows the first delimiter. */
  function TailAfter(parts: seq<Part>, boundary: Bytes, last: Bytes): Bytes {
    if parts == [] then last else Segment(parts[0]) + Delimiter(boundary) + TailAfter(parts[1..], boundary, last)
  }

  lemma {:induction false} JoinTail(parts: seq<Part>, boundary: Bytes, last: Bytes)
    ensures Join(Segments(parts) + [last], Delimiter(boundary)) == TailAfter(parts, boundary, last)
    decreases |parts|
  {
    hide Segment, Delimiter;
    if parts == [] {
      assert Segments(parts) + [last] == [last];
    } else {
      assert Segments(parts) + [last] == [Segment(parts[0])] + (Segments(parts[1..]) + [last]);
      JoinCons(Segment(parts[0]), Segments(parts[1..]) + [last], Delimiter(boundary));
      JoinTail(parts[1..], boundary, last);
    }
  }

  lemma {:induction false} TailIsPrint(parts: seq<Part>, boundary: Bytes)
    ensures Delimiter(boundary) + TailAfter(parts, boundary, DASHES + CRLF) == Print(parts, boundary)
    ensures Delimiter(boundary) + TailAfter(parts, boundary, DASHES) + CRLF == Print(parts, boundary)
    decreases |parts|
  {
    hide Segment, Delimiter;
    var d := Delimiter(boundary);
    if parts == [] {
      assert d + DASHES + CRLF == d + (DASHES + CRLF);
    } else {
      TailIsPrint(parts[1..], boundary);
      var long, short := TailAfter(parts[1..], boundary, DASHES + CRLF), TailAfter(parts[1..], boundary, DASHES);
      assert d + (Segment(parts[0]) + d + long) == d + (Segment(parts[0]) + (d + long));
      assert d + (Segment(parts[0]) + d + short) + CRLF == d + (Segment(parts[0]) + (d + short + CRLF));
    }
  }

  /** A body is read only if it is the print of the parts it is read as, its last line break being optional. */
  lemma ParsedIsPrinted(body: Bytes, boundary: Bytes, decodes: Bytes -> bool)
    requires Parse(body, boundary, decodes).Ok?
    ensures var parts := Parse(body, boundary, decodes).value;
            && 1 <= |parts| <= 1000
            && (body == Print(parts, boundary) || body + CRLF == Print(parts, boundary))
  {
    hide ReadParts, Segment, Print, Delimiter;
    var d := Delimiter(boundary);
    var segments := Split(body, d);
    var n := |segments|;
    var last, raws := segments[n - 1], segments[1..n - 1];
    var parts := Parse(body, boundary, decodes).value;
    ReadAreSegments(raws, {}, decodes);
    ReadLength(raws, {}, decodes);
    assert segments == [[]] + Segments(parts) + [last];
    JoinSplit(body, d);
    JoinIsPrint(parts, boundary, last);
    TailIsPrint(parts, boundary);
    if last == DASHES {
      assert body + CRLF == d + TailAfter(parts, boundary, DASHES) + CRLF;
    } else {
      assert body + [] == body && d + TailAfter(parts, boundary, last) + [] == d + TailAfter(parts, boundary, last);
    }
  }

  // ---------------------------------------------------------------- which bodies are read, and what else is said

  /** `pieces` are what stands between the delimiters, found from the left. */
  ghost predicate Cut(h: Bytes, d: Bytes, pieces: seq<Bytes>)
    decreases |pieces|
  {
    if pieces == [] then false
    else if |pieces| == 1 then h == pieces[0] && forall i: nat :: !Occurs(h, d, i)
    else
      && (forall i: nat :: i < |pieces[0]| ==> !Occurs(h, d, i))
      && exists rest :: h == pieces[0] + d + rest && Cut(rest, d, pieces[1..])
  }

  lemma CutCons(h: Bytes, d: Bytes, first: Bytes, rest: Bytes, pieces: seq<Bytes>)
    requires h == first + d + rest && (forall i: nat :: i < |first| ==> !Occurs(h, d, i))
    requires pieces != [] && Cut(rest, d, pieces)
    ensures Cut(h, d, [first] + pieces)
  {
    hide Occurs;
    var all := [first] + pieces;
    assert all[1..] == pieces && all[0] == first && |all| > 1;
  }

  lemma {:induction false} SplitCuts(h: Bytes, d: Bytes)
    requires d != []
    ensures Cut(h, d, Split(h, d))
    decreases |h|
  {
    var f := Find(h, d, 0);
    if f.None? {
      OccursWithin(h, d);
      assert Split(h, d) == [h];
    } else {
      hide Cut, Find;
      var first, rest := h[..f.value], h[f.value + |d|..];
      SplitCuts(rest, d);
      FirstCut(h, d, f.value);
      CutCons(h, d, first, rest, Split(rest, d));
    }
  }

  lemma FirstCut(h: Bytes, d: Bytes, at: nat)
    requires Occurs(h, d, at)
    ensures h == h[..at] + d + h[at + |d|..]
  {
  }

  lemma OccursWithin(h: Bytes, d: Bytes)
    ensures forall i: nat :: Occurs(h, d, i) ==> i <= |h|
  {
  }

  /** The header ends at the first blank line inside the line breaks. */
  ghost predicate HeaderEnds(raw: Bytes, header: Bytes, content: Bytes) {
    && raw == CRLF + (header + BLANK_LINE + content) + CRLF
    && forall i: nat :: i < |header| ==> !Occurs(header + BLANK_LINE + content, BLANK_LINE, i)
  }

  predicate Enclosed(raw: Bytes) { |raw| >= 2 && raw[..2] == CRLF && raw[|raw| - 2..] == CRLF }

  /** What is said of one part whose header and content are these. */
  predicate Judged(header: Bytes, content: Bytes, names: set<Bytes>, decodes: Bytes -> bool, r: Result<Part>) {
    match ReadHeader(header)
    case Reject(reason) => r == Reject(reason)
    case Ok(said) =>
      if said.name in names then r == Reject(DuplicateField)
      else if said.file || (|content| <= 8_388_608 && decodes(content)) then r == Ok(Part(header, said.name, content))
      else r == Reject(if |content| > 8_388_608 then FieldLimit else FieldEncoding)
  }

  ghost predicate PartIs(raw: Bytes, names: set<Bytes>, decodes: Bytes -> bool, r: Result<Part>) {
    if !Enclosed(raw) then r == Reject(Malformed)
    else if forall header, content :: !HeaderEnds(raw, header, content) then r == Reject(HeaderLimit)
    else exists header, content :: HeaderEnds(raw, header, content) && Judged(header, content, names, decodes, r)
  }

  lemma PartReads(raw: Bytes, names: set<Bytes>, decodes: Bytes -> bool)
    ensures PartIs(raw, names, decodes, ReadPart(raw, names, decodes))
  {
    hide ReadHeader, Occurs, HeaderEnds, Judged;
    if Enclosed(raw) {
      var at := Find(Inside(raw), BLANK_LINE, 0);
      if at.Some? {
        FindBounds(Inside(raw), at.value);
        var header, content := Inside(raw)[..at.value], Inside(raw)[at.value + 4..];
        HeaderFound(raw, at.value);
        PartJudged(raw, names, decodes, at.value);
        assert HeaderEnds(raw, header, content) && Judged(header, content, names, decodes, ReadPart(raw, names, decodes));
      } else {
        forall header, content ensures !HeaderEnds(raw, header, content) {
          NoBlankLine(raw, header, content);
        }
      }
    }
  }

  lemma HeaderFound(raw: Bytes, at: nat)
    requires Enclosed(raw) && Find(Inside(raw), BLANK_LINE, 0) == Some(at)
    ensures at + 4 <= |Inside(raw)| && HeaderEnds(raw, Inside(raw)[..at], Inside(raw)[at + 4..])
  {
    hide Find, Inside;
    var inside := Inside(raw);
    InsideIs(raw);
    assert inside == inside[..at] + BLANK_LINE + inside[at + 4..];
  }

  lemma PartJudged(raw: Bytes, names: set<Bytes>, decodes: Bytes -> bool, at: nat)
    requires Enclosed(raw) && Find(Inside(raw), BLANK_LINE, 0) == Some(at) && at + 4 <= |Inside(raw)|
    ensures Judged(Inside(raw)[..at], Inside(raw)[at + 4..], names, decodes, ReadPart(raw, names, decodes))
  {
    hide ReadHeader, Find, Inside, Occurs;
  }

  lemma InsideIs(raw: Bytes)
    requires Enclosed(raw)
    ensures Inside(raw) == [] || raw == CRLF + Inside(raw) + CRLF
  {
  }

  lemma NoBlankLine(raw: Bytes, header: Bytes, content: Bytes)
    requires forall j: nat :: j <= |Inside(raw)| ==> !Occurs(Inside(raw), BLANK_LINE, j)
    ensures !HeaderEnds(raw, header, content)
  {
    var inside := header + BLANK_LINE + content;
    if raw == CRLF + inside + CRLF {
      assert raw[2..|raw| - 2] == inside;
      assert inside[|header|..|header| + 4] == BLANK_LINE;
      assert Occurs(Inside(raw), BLANK_LINE, |header|);
    }
  }

  function NamesOf(parts: seq<Part>): set<Bytes> { set p | p in parts :: p.name }

  /** Every piece reads as its part, after those before it. */
  ghost predicate ReadAs(raws: seq<Bytes>, names: set<Bytes>, decodes: Bytes -> bool, parts: seq<Part>) {
    |parts| <= |raws| && forall i :: 0 <= i < |parts| ==> PartIs(raws[i], names + NamesOf(parts[..i]), decodes, Ok(parts[i]))
  }

  /** Every part, or the reason of the first one refused. */
  ghost predicate AllReadAs(raws: seq<Bytes>, names: set<Bytes>, decodes: Bytes -> bool, r: Result<seq<Part>>) {
    match r
    case Ok(parts) => |parts| == |raws| && ReadAs(raws, names, decodes, parts)
    case Reject(reason) =>
      exists parts :: |parts| < |raws| && ReadAs(raws, names, decodes, parts)
                      && PartIs(raws[|parts|], names + NamesOf(parts), decodes, Reject(reason))
  }

  lemma {:induction false} PartsRead(raws: seq<Bytes>, names: set<Bytes>, decodes: Bytes -> bool)
    ensures AllReadAs(raws, names, decodes, ReadParts(raws, names, decodes))
    decreases |raws|
  {
    hide ReadPart, PartIs;
    if raws != [] {
      PartReads(raws[0], names, decodes);
      var first := ReadPart(raws[0], names, decodes);
      if first.Reject? {
        var none: seq<Part> := [];
        assert NamesOf(none) == {} && names + NamesOf(none) == names;
        assert |none| < |raws| && ReadAs(raws, names, decodes, none);
      } else {
        var after := names + {first.value.name};
        PartsRead(raws[1..], after, decodes);
        var rest := ReadParts(raws[1..], after, decodes);
        if rest.Ok? {
          OneMoreRead(raws, names, decodes, first.value, rest.value);
        } else {
          var parts :| |parts| < |raws[1..]| && ReadAs(raws[1..], after, decodes, parts)
                       && PartIs(raws[1..][|parts|], after + NamesOf(parts), decodes, Reject(rest.reason));
          OneMoreRead(raws, names, decodes, first.value, parts);
          NamesJoined(names, first.value, parts);
          assert raws[1..][|parts|] == raws[|[first.value] + parts|];
        }
      }
    }
  }

  lemma NamesJoined(names: set<Bytes>, first: Part, parts: seq<Part>)
    ensures names + {first.name} + NamesOf(parts) == names + NamesOf([first] + parts)
  {
    var all := [first] + parts;
    assert forall p :: p in all <==> p == first || p in parts;
    forall n ensures n in NamesOf(all) <==> n == first.name || n in NamesOf(parts) {
      if n == first.name {
        assert first in all;
      }
      if n in NamesOf(parts) {
        var p :| p in parts && p.name == n;
        assert p in all;
      }
    }
  }

  lemma OneMoreRead(raws: seq<Bytes>, names: set<Bytes>, decodes: Bytes -> bool, first: Part, parts: seq<Part>)
    requires raws != [] && PartIs(raws[0], names, decodes, Ok(first))
    requires ReadAs(raws[1..], names + {first.name}, decodes, parts)
    ensures ReadAs(raws, names, decodes, [first] + parts)
  {
    hide PartIs;
    var all := [first] + parts;
    forall i | 0 <= i < |all| ensures PartIs(raws[i], names + NamesOf(all[..i]), decodes, Ok(all[i])) {
      if i == 0 {
        assert all[..0] == [] && NamesOf([]) == {} && names + {} == names;
      } else {
        assert all[..i] == [first] + parts[..i - 1];
        NamesJoined(names, first, parts[..i - 1]);
        assert PartIs(raws[1..][i - 1], names + {first.name} + NamesOf(parts[..i - 1]), decodes, Ok(parts[i - 1]));
      }
    }
  }

  /** For any body: cut at the delimiters from the left, it has to begin with one and to close with two dashes
      and at most a line break; then it is what its at most a thousand parts are, or the reason of the first
      one that is refused. */
  lemma ParseIs(body: Bytes, boundary: Bytes, decodes: Bytes -> bool) returns (pieces: seq<Bytes>)
    ensures CRLF == Ascii("\r\n") && BLANK_LINE == Ascii("\r\n\r\n")
    ensures Cut(body, Ascii("--") + boundary, pieces)
    ensures var n := |pieces|; var r := Parse(body, boundary, decodes);
            if pieces[0] != [] || (pieces[n - 1] != Ascii("--") && pieces[n - 1] != Ascii("--") + CRLF) then r == Reject(Malformed)
            else if n < 3 || n > 1002 then r == Reject(PartLimit)
            else AllReadAs(pieces[1..n - 1], {}, decodes, r)
  {
    hide ReadParts, AllReadAs;
    assert Ascii("--") == DASHES;
    pieces := Split(body, Delimiter(boundary));
    SplitCuts(body, Delimiter(boundary));
    var n := |pieces|;
    if n >= 2 {
      PartsRead(pieces[1..n - 1], {}, decodes);
    }
  }

  // ---------------------------------------------------------------- what a header says

  predicate Blank(b: Byte) { b == ' ' as int || '\t' as int <= b <= '\r' as int }

  predicate AllBlank(s: Bytes) { forall b :: b in s ==> Blank(b) }

  /** `t` is `s` without the white space around it. */
  ghost predicate Trimmed(s: Bytes, t: Bytes) {
    && (exists a, b :: s == a + t + b && AllBlank(a) && AllBlank(b))
    && (t != [] ==> !Blank(t[0]) && !Blank(t[|t| - 1]))
  }

  lemma {:induction false} LeftTrimmed(s: Bytes) returns (a: Bytes)
    ensures s == a + StripLeft(s) && AllBlank(a)
    ensures StripLeft(s) != [] ==> !Blank(StripLeft(s)[0])
    decreases |s|
  {
    if s != [] && IsSpace(s[0]) {
      var later := LeftTrimmed(s[1..]);
      a := [s[0]] + later;
      assert s == [s[0]] + s[1..];
      assert a + StripLeft(s) == [s[0]] + (later + StripLeft(s[1..]));
    } else {
      a := [];
    }
  }

  lemma {:induction false} RightTrimmed(s: Bytes) returns (b: Bytes)
    ensures s == StripRight(s) + b && AllBlank(b)
    ensures StripRight(s) != [] ==> !Blank(StripRight(s)[|StripRight(s)| - 1]) && StripRight(s)[0] == s[0]
    decreases |s|
  {
    if s != [] && IsSpace(s[|s| - 1]) {
      var n := |s| - 1;
      var sooner := RightTrimmed(s[..n]);
      b := sooner + [s[n]];
      assert s == s[..n] + [s[n]];
      assert StripRight(s) + b == (StripRight(s[..n]) + sooner) + [s[n]];
    } else {
      b := [];
    }
  }

  lemma StripTrims(s: Bytes)
    ensures Trimmed(s, Strip(s))
  {
    var a := LeftTrimmed(s);
    var b := RightTrimmed(StripLeft(s));
    hide StripLeft, StripRight;
    assert s == a + Strip(s) + b;
  }

  function CodeOf(c: char): Byte { if c < 128 as char then c as int else 0 }

  /** The bytes of an ASCII text. */
  function Ascii(s: string): Bytes { seq(|s|, i requires 0 <= i < |s| => CodeOf(s[i])) }

  /** The same letter, in either case. */
  predicate SameLetter(b: Byte, c: Byte) { b == c || ('A' as int <= b <= 'Z' as int && b + 32 == c) }

  /** The line begins with `content-disposition:`, in any case. */
  predicate IsDisposition(line: Bytes) {
    var prefix := Ascii("content-disposition:");
    |line| >= 20 && forall k :: 0 <= k < |prefix| && k < 20 ==> SameLetter(line[k], prefix[k])
  }

  lemma PrefixIs()
    ensures Ascii("content-disposition:") == DISPOSITION && Ascii("name=\"") == NAME && Ascii("filename=") == FILENAME
  {
  }

  lemma StartsIs(line: Bytes)
    ensures StartsWith(LowerAll(line), DISPOSITION) && |line| >= 20 <==> IsDisposition(line)
  {
    PrefixIs();
    if |line| >= 20 {
      assert LowerAll(line)[..20] == DISPOSITION <==> forall k :: 0 <= k < 20 ==> LowerAll(line)[k] == DISPOSITION[k];
      assert forall k :: 0 <= k < 20 ==> !('A' as int <= DISPOSITION[k] <= 'Z' as int);
      assert forall k :: 0 <= k < 20 ==> (LowerAll(line)[k] == DISPOSITION[k] <==> SameLetter(line[k], DISPOSITION[k]));
    }
  }

  /** The value of the first line that is a content disposition. */
  ghost predicate DispositionIs(lines: seq<Bytes>, value: Option<Bytes>) {
    match value
    case None => forall i :: 0 <= i < |lines| ==> !IsDisposition(lines[i])
    case Some(v) =>
      exists i :: 0 <= i < |lines| && IsDisposition(lines[i]) && |lines[i]| >= 20 && Trimmed(lines[i][20..], v)
                  && forall k :: 0 <= k < i ==> !IsDisposition(lines[k])
  }

  lemma {:induction false} DispositionFound(lines: seq<Bytes>)
    ensures DispositionIs(lines, Disposition(lines))
    decreases |lines|
  {
    if lines != [] {
      hide IsDisposition, Trimmed, Strip, StartsWith;
      StartsIs(lines[0]);
      if IsDisposition(lines[0]) {
        IsLong(lines[0]);
        StripTrims(lines[0][20..]);
      } else {
        DispositionFound(lines[1..]);
        DispositionLater(lines);
      }
    }
  }

  lemma IsLong(line: Bytes)
    requires IsDisposition(line)
    ensures |line| >= 20
  {
  }

  lemma DispositionLater(lines: seq<Bytes>)
    requires lines != [] && !IsDisposition(lines[0]) && DispositionIs(lines[1..], Disposition(lines)) && Disposition(lines) == Disposition(lines[1..])
    ensures DispositionIs(lines, Disposition(lines))
  {
    hide IsDisposition, Trimmed, Disposition;
    assert forall i :: 0 < i < |lines| ==> lines[i] == lines[1..][i - 1];
    if Disposition(lines).Some? {
      var v := Disposition(lines).value;
      var i :| 0 <= i < |lines[1..]| && IsDisposition(lines[1..][i]) && |lines[1..][i]| >= 20 && Trimmed(lines[1..][i][20..], v)
               && forall k :: 0 <= k < i ==> !IsDisposition(lines[1..][k]);
      assert IsDisposition(lines[i + 1]) && |lines[i + 1]| >= 20 && Trimmed(lines[i + 1][20..], v);
    }
  }

  /** A name attribute begins at `i`: at the start or after a semicolon, after any white space, with a quoted
      name of 1 to 128 characters, and followed by a semicolon or nothing. */
  ghost predicate NameAt(s: Bytes, i: int, name: Bytes) {
    && 0 <= i <= |s| && (i == 0 || s[i - 1] == ';' as int)
    && exists j :: i <= j <= |s| && AllBlank(s[i..j]) && Quoted(s[j..], name)
  }

  /** `name="..."`, and then the end or a semicolon. */
  predicate Quoted(t: Bytes, name: Bytes) {
    var n := |name|;
    && 1 <= n <= 128 && |t| >= n + 7
    && t[..6] == Ascii("name=\"") && t[6..6 + n] == name
    && (forall b :: b in name ==> b != '"' as int)
    && t[6 + n] == '"' as int && (|t| == n + 7 || t[n + 7] == ';' as int)
  }

  /** The leftmost one. */
  ghost predicate FirstName(s: Bytes, from: int, name: Option<Bytes>) {
    match name
    case None => forall i, n :: from <= i ==> !NameAt(s, i, n)
    case Some(n) => exists i :: from <= i && NameAt(s, i, n) && forall k, m :: from <= k < i ==> !NameAt(s, k, m)
  }

  lemma QuoteFound(s: Bytes, i: nat)
    requires i <= |s|
    ensures var e := NextQuote(s, i);
            if e.Some? then s[e.value] == QUOTE && forall k :: i <= k < e.value ==> s[k] != QUOTE
            else forall k :: i <= k < |s| ==> s[k] != QUOTE
    decreases |s| - i
  {
    if i < |s| && s[i] != QUOTE {
      QuoteFound(s, i + 1);
    }
  }

  /** At a text without leading white space the quoted name is the one that is read. */
  lemma NameHereIs(s: Bytes, name: Bytes)
    ensures NameHere(s) == Some(name) <==> Quoted(StripLeft(s), name)
  {
    hide StripLeft, NextQuote;
    PrefixIs();
    var t := StripLeft(s);
    if StartsWith(t, NAME) {
      var u := t[6..];
      QuoteFound(u, 0);
      if Quoted(t, name) {
        forall k | 0 <= k < |name|
          ensures u[k] == name[k] && name[k] != QUOTE
        {
          assert name[k] in name && t[6..6 + |name|][k] == u[k];
        }
        assert u[|name|] == QUOTE;
        var e := NextQuote(u, 0).value;
        assert e == |name| && u[..e] == name;
      }
      if NameHere(s) == Some(name) {
        var e := NextQuote(u, 0).value;
        assert u[..e] == t[6..6 + e];
      }
    }
  }

  /** White space is taken off as far as it goes. */
  lemma NameHereAt(s: Bytes, i: nat, name: Bytes)
    requires i <= |s|
    ensures NameHere(s[i..]) == Some(name) <==> exists j :: i <= j <= |s| && AllBlank(s[i..j]) && Quoted(s[j..], name)
  {
    var t := s[i..];
    var a := LeftTrimmed(t);
    NameHereIs(t, name);
    var at := i + |a|;
    assert StripLeft(t) == s[at..] && a == s[i..at] by {
      assert t == a + StripLeft(t);
      assert t[..|a|] == a && t[|a|..] == StripLeft(t);
      assert s[i..][|a|..] == s[at..] && s[i..][..|a|] == s[i..at];
    }
    hide NameHere, StripLeft, Quoted;
    forall j | i <= j <= |s| && AllBlank(s[i..j]) && Quoted(s[j..], name)
      ensures j == at
    {
      SameStart(s, i, at, j, name);
    }
  }

  lemma BlankIn(s: Bytes, i: nat, j: nat, k: nat)
    requires i <= k < j <= |s| && AllBlank(s[i..j])
    ensures Blank(s[k])
  {
    assert s[i..j][k - i] == s[k];
  }

  /** A name begins with a letter, so only one number of blanks fits. */
  lemma SameStart(s: Bytes, i: nat, at: nat, j: nat, name: Bytes)
    requires i <= at <= |s| && i <= j <= |s| && AllBlank(s[i..at]) && AllBlank(s[i..j]) && Quoted(s[j..], name)
    requires at < |s| ==> !Blank(s[at])
    ensures j == at
  {
    PrefixIs();
    assert s[j..][..6][0] == s[j] && s[j] == NAME[0] == 110;
    hide AllBlank;
    if j < at {
      BlankIn(s, i, at, j);
    } else if at < j {
      BlankIn(s, i, j, at);
    }
  }

  lemma NameAtIs(s: Bytes, i: nat)
    requires i <= |s|
    ensures forall n :: NameAt(s, i, n) <==> (i == 0 || s[i - 1] == SEMICOLON) && NameHere(s[i..]) == Some(n)
  {
    hide NameHere, Quoted, AllBlank;
    forall n
      ensures NameAt(s, i, n) <==> (i == 0 || s[i - 1] == SEMICOLON) && NameHere(s[i..]) == Some(n)
    {
      NameHereAt(s, i, n);
    }
  }

  lemma {:induction false} SearchAfter(s: Bytes, from: nat)
    requires from <= |s|
    ensures FirstName(s, from + 1, SearchName(s[from..], false))
    decreases |s| - from
  {
    hide NameHere;
    if from < |s| {
      NameAtIs(s, from + 1);
      assert s[from..][1..] == s[from + 1..];
      hide NameAt;
      if s[from] == SEMICOLON && NameHere(s[from + 1..]).Some? {
        assert NameAt(s, from + 1, NameHere(s[from + 1..]).value);
      } else {
        SearchAfter(s, from + 1);
      }
    }
  }

  /** The search finds the leftmost name attribute. */
  lemma SearchFinds(s: Bytes)
    ensures FirstName(s, 0, SearchName(s, true))
  {
    NameAtIs(s, 0);
    assert s[0..] == s;
    hide NameHere, NameAt;
    if NameHere(s).Some? {
      assert NameAt(s, 0, NameHere(s).value);
    } else {
      SearchAfter(s, 0);
      SearchTwice(s);
    }
  }

  lemma SearchTwice(s: Bytes)
    requires NameHere(s).None?
    ensures SearchName(s, true) == SearchName(s, false)
  {
    hide NameHere;
  }

  /** The lines of a header. */
  ghost predicate LinesOf(header: Bytes, lines: seq<Bytes>) {
    header == Join(lines, Ascii("\r\n")) && forall l :: l in lines ==> Free(l, Ascii("\r\n"))
  }

  /** What is read of a header: at most 16 KiB and 32 lines, the first content disposition, of that the
      leftmost name attribute, in ASCII, and a file if it says `filename=` anywhere. */
  ghost predicate Says(header: Bytes, lines: seq<Bytes>, read: Result<Label>) {
    match read
    case Ok(said) =>
      && |header| <= 16_384 && |lines| <= 32
      && exists value ::
           && DispositionIs(lines, Some(value)) && FirstName(value, 0, Some(said.name))
           && (forall b :: b in said.name ==> b < 128)
           && (said.file <==> exists i: nat :: Occurs(value, Ascii("filename="), i))
    case Reject(reason) =>
      if |header| > 16_384 || |lines| > 32 then reason == HeaderLimit
      else if DispositionIs(lines, None) then reason == NameMissing
      else
        exists value ::
          && DispositionIs(lines, Some(value))
          && (if FirstName(value, 0, None) then reason == NameMissing
              else reason == NameInvalid && exists n :: FirstName(value, 0, Some(n)) && exists b :: b in n && b >= 128)
  }

  lemma HeaderReads(header: Bytes) returns (lines: seq<Bytes>)
    ensures LinesOf(header, lines) && Says(header, lines, ReadHeader(header))
  {
    PrefixIs();
    LineBreakIs();
    hide SearchName, Disposition, FirstName, DispositionIs, Occurs;
    lines := Split(header, CRLF);
    JoinSplit(header, CRLF);
    forall l | l in lines
      ensures Free(l, CRLF)
    {
      var k :| 0 <= k < |lines| && lines[k] == l;
      PiecesFree(header, CRLF, k);
    }
    DispositionFound(lines);
    if Disposition(lines).Some? {
      var value := Disposition(lines).value;
      SearchFinds(value);
      FreeIs(value, FILENAME);
      FoundOrNot(lines, value);
    }
  }

  lemma FoundOrNot(lines: seq<Bytes>, value: Bytes)
    requires DispositionIs(lines, Some(value))
    ensures !DispositionIs(lines, None)
    ensures forall n :: FirstName(value, 0, Some(n)) ==> !FirstName(value, 0, None)
  {
  }

  lemma LineBreakIs()
    ensures Ascii("\r\n") == CRLF
  {
  }

  lemma FreeIs(h: Bytes, d: Bytes)
    requires d != []
    ensures Free(h, d) <==> !(exists i: nat :: Occurs(h, d, i))
  {
    if i: nat :| Occurs(h, d, i) {
      assert i <= |h|;
    }
  }

  /** Every part that is read has a name of its own, which its header says, and, unless it is a file, at most
      8 MiB of well-formed text. */
  lemma PartsAreAllowed(body: Bytes, boundary: Bytes, decodes: Bytes -> bool)
    requires IsBoundary(boundary) && Parse(body, boundary, decodes).Ok?
    ensures var parts := Parse(body, boundary, decodes).value;
            && (forall i, j :: 0 <= i < j < |parts| ==> parts[i].name != parts[j].name)
            && (forall p :: p in parts ==>
                  && ReadHeader(p.header).Ok? && ReadHeader(p.header).value.name == p.name
                  && (ReadHeader(p.header).value.file || (|p.content| <= 8_388_608 && decodes(p.content))))
  {
    hide Parse, ReadHeader, Free;
    ParsedParts(body, boundary, decodes);
  }
}
