/** Printing and parsing multipart bodies undo each other, and what that means for a rewritten request. */
module MultipartRoundTrip {
  import opened Common
  import opened Multipart

  /** The characters a boundary may have exclude line breaks; it is not empty. */
  predicate IsBoundary(boundary: Bytes) { boundary != [] && CR !in boundary && LF !in boundary }

  predicate Breaks(sep: Bytes, d: Bytes) { sep != [] && forall b :: b in sep ==> b !in d }

  /** No delimiter lies across bytes it does not have. */
  lemma FreeAround(a: Bytes, sep: Bytes, b: Bytes, d: Bytes)
    requires d != [] && Breaks(sep, d)
    ensures Free(a + sep + b, d) <==> Free(a, d) && Free(b, d)
  {
    var h := a + sep + b;
    forall i | 0 <= i <= |h| && Occurs(h, d, i)
      ensures (i + |d| <= |a| && Occurs(a, d, i)) || (i >= |a| + |sep| && Occurs(b, d, i - |a| - |sep|))
    {
      OccursAround(a, sep, b, d, i);
    }
    forall i | 0 <= i <= |a|
      ensures Occurs(a, d, i) ==> Occurs(h, d, i)
    {
      if Occurs(a, d, i) {
        assert h[i..i + |d|] == a[i..i + |d|];
      }
    }
    forall i | 0 <= i <= |b|
      ensures Occurs(b, d, i) ==> Occurs(h, d, |a| + |sep| + i)
    {
      if Occurs(b, d, i) {
        Aligned(a, sep, b, i, |d|);
      }
    }
  }

  lemma Aligned(a: Bytes, sep: Bytes, b: Bytes, i: nat, n: nat)
    requires i + n <= |b|
    ensures (a + sep + b)[|a| + |sep| + i..|a| + |sep| + i + n] == b[i..i + n]
  {
    var h := a + sep + b;
    assert h[|a| + |sep|..|h|] == b;
    SliceOfSlice(h, |a| + |sep|, |h|, i, i + n);
  }

  lemma OccursAround(a: Bytes, sep: Bytes, b: Bytes, d: Bytes, i: nat)
    requires d != [] && Breaks(sep, d) && Occurs(a + sep + b, d, i)
    ensures (i + |d| <= |a| && Occurs(a, d, i)) || (i >= |a| + |sep| && Occurs(b, d, i - |a| - |sep|))
  {
    var h := a + sep + b;
    if i + |d| <= |a| {
      assert h[i..i + |d|] == a[i..i + |d|];
    } else if i >= |a| + |sep| {
      Aligned(a, sep, b, i - |a| - |sep|, |d|);
    } else {
      ByteOfSeparator(a, sep, b, d, i);
    }
  }

  lemma ByteOfSeparator(a: Bytes, sep: Bytes, b: Bytes, d: Bytes, i: nat)
    requires d != [] && sep != [] && i < |a| + |sep| && |a| < i + |d| && Occurs(a + sep + b, d, i)
    ensures exists x :: x in sep && x in d
  {
    var h := a + sep + b;
    var k := if i <= |a| then |a| - i else 0;
    var x := sep[i + k - |a|];
    assert h[i..i + |d|][k] == h[i + k] == x;
    assert x in sep && x in d;
  }

  lemma DelimiterBreaks(boundary: Bytes)
    requires IsBoundary(boundary)
    ensures var d := Delimiter(boundary); d != [] && Breaks(CRLF, d) && Breaks(BLANK_LINE, d) && CR !in d && LF !in d
  {
    var d := Delimiter(boundary);
    assert forall b :: b in d ==> b in DASHES || b in boundary;
  }

  /** A printed part holds the delimiter exactly when its header or its content does. */
  lemma SegmentFree(p: Part, boundary: Bytes)
    requires IsBoundary(boundary)
    ensures Free(Segment(p), Delimiter(boundary)) <==> Free(p.header, Delimiter(boundary)) && Free(p.content, Delimiter(boundary))
  {
    var d := Delimiter(boundary);
    DelimiterBreaks(boundary);
    var tail := p.content + CRLF + [];
    var middle := p.header + BLANK_LINE + tail;
    assert Segment(p) == [] + CRLF + middle;
    FreeAround([], CRLF, middle, d);
    FreeAround(p.header, BLANK_LINE, tail, d);
    FreeAround(p.content, CRLF, [], d);
    assert Free([], d);
  }

  // ---------------------------------------------------------------- printing, then splitting

  function Tail(): Bytes { DASHES + CRLF }

  /** What follows the first delimiter of a printed body. */
  function Rest(parts: seq<Part>, boundary: Bytes): Bytes {
    if parts == [] then Tail() else Segment(parts[0]) + Print(parts[1..], boundary)
  }

  function SplitAll(parts: seq<Part>, d: Bytes): seq<Bytes>
    requires d != []
  {
    if parts == [] then [] else Split(Segment(parts[0]), d) + SplitAll(parts[1..], d)
  }

  lemma PrintIs(parts: seq<Part>, boundary: Bytes)
    ensures Print(parts, boundary) == Delimiter(boundary) + Rest(parts, boundary)
  {
  }

  lemma TailFree(boundary: Bytes)
    requires IsBoundary(boundary)
    ensures Free(Tail(), Delimiter(boundary))
  {
    var d := Delimiter(boundary);
    DelimiterBreaks(boundary);
    forall i | 0 <= i <= |Tail()|
      ensures !Occurs(Tail(), d, i)
    {
      assert boundary[0] == d[2];
    }
  }

  lemma {:induction false} RestSplit(parts: seq<Part>, boundary: Bytes)
    requires IsBoundary(boundary)
    ensures Split(Rest(parts, boundary), Delimiter(boundary)) == SplitAll(parts, Delimiter(boundary)) + [Tail()]
    decreases |parts|
  {
    var d := Delimiter(boundary);
    DelimiterBreaks(boundary);
    if parts == [] {
      TailFree(boundary);
      SplitFree(Tail(), d);
    } else {
      hide Split, Print, SplitAll;
      var s := Segment(parts[0]);
      PrintIs(parts[1..], boundary);
      RestSplit(parts[1..], boundary);
      SegmentEnds(parts[0]);
      SplitJoined(s, d, Rest(parts[1..], boundary));
      RestUnfolds(parts, boundary);
      RegroupPieces(Split(s, d), SplitAll(parts[1..], d), [Tail()]);
      SplitAllCons(parts, d);
    }
  }

  lemma SegmentEnds(p: Part)
    ensures Segment(p) != [] && Segment(p)[|Segment(p)| - 1] == LF
  {
  }

  lemma RestUnfolds(parts: seq<Part>, boundary: Bytes)
    requires parts != []
    ensures Rest(parts, boundary) == Segment(parts[0]) + Delimiter(boundary) + Rest(parts[1..], boundary)
  {
    PrintIs(parts[1..], boundary);
    var a, b, c := Segment(parts[0]), Delimiter(boundary), Rest(parts[1..], boundary);
    assert a + (b + c) == a + b + c;
  }

  lemma SplitAllCons(parts: seq<Part>, d: Bytes)
    requires d != [] && parts != []
    ensures SplitAll(parts, d) == Split(Segment(parts[0]), d) + SplitAll(parts[1..], d)
  {
  }

  lemma PrintSplit(parts: seq<Part>, boundary: Bytes)
    requires IsBoundary(boundary)
    ensures Split(Print(parts, boundary), Delimiter(boundary)) == [[]] + (SplitAll(parts, Delimiter(boundary)) + [Tail()])
  {
    hide Split, SplitAll;
    DelimiterBreaks(boundary);
    PrintIs(parts, boundary);
    RestSplit(parts, boundary);
    SplitLeading(Delimiter(boundary), Rest(parts, boundary));
  }

  // ---------------------------------------------------------------- then reading the parts back

  function Segments(parts: seq<Part>): seq<Bytes> {
    if parts == [] then [] else [Segment(parts[0])] + Segments(parts[1..])
  }

  predicate AllFree(parts: seq<Part>, d: Bytes) { forall p :: p in parts ==> Free(Segment(p), d) }

  lemma {:induction false} SplitAllFree(parts: seq<Part>, d: Bytes)
    requires d != []
    ensures |SplitAll(parts, d)| >= |parts|
    ensures AllFree(parts, d) <==> |SplitAll(parts, d)| == |parts|
    ensures AllFree(parts, d) ==> SplitAll(parts, d) == Segments(parts)
    decreases |parts|
  {
    if parts != [] {
      SplitFree(Segment(parts[0]), d);
      SplitAllFree(parts[1..], d);
      assert forall p :: p in parts <==> p == parts[0] || p in parts[1..];
    }
  }

  /** A part that reads back as itself. */
  predicate Readable(p: Part, decodes: Bytes -> bool) { ReadPart(Segment(p), {}, decodes) == Ok(p) }

  predicate DistinctNames(parts: seq<Part>) { forall i, j :: 0 <= i < j < |parts| ==> parts[i].name != parts[j].name }

  lemma ReadOne(p: Part, names: set<Bytes>, decodes: Bytes -> bool)
    ensures ReadPart(Segment(p), names, decodes) == Ok(p) <==> Readable(p, decodes) && p.name !in names
  {
    hide ReadHeader, Segment, Free, Find, Inside;
  }

  lemma {:induction false} ReadBack(parts: seq<Part>, names: set<Bytes>, decodes: Bytes -> bool)
    ensures ReadParts(Segments(parts), names, decodes) == Ok(parts) <==>
            && (forall p :: p in parts ==> Readable(p, decodes) && p.name !in names) && DistinctNames(parts)
    decreases |parts|
  {
    if parts != [] {
      hide Readable, ReadPart, Segment;
      ReadOne(parts[0], names, decodes);
      var rest := parts[1..];
      ReadBack(rest, names + {parts[0].name}, decodes);
      assert Segments(parts)[0] == Segment(parts[0]) && Segments(parts)[1..] == Segments(rest);
      assert forall p :: p in parts <==> p == parts[0] || p in rest;
      DistinctCons(parts);
      ReadCons(parts, names, decodes);
    }
  }

  lemma ReadCons(parts: seq<Part>, names: set<Bytes>, decodes: Bytes -> bool)
    requires parts != []
    ensures ReadParts(Segments(parts), names, decodes) == Ok(parts) <==>
            && ReadPart(Segment(parts[0]), names, decodes) == Ok(parts[0])
            && ReadParts(Segments(parts[1..]), names + {parts[0].name}, decodes) == Ok(parts[1..])
  {
    hide ReadPart, Segment;
    assert Segments(parts)[0] == Segment(parts[0]) && Segments(parts)[1..] == Segments(parts[1..]);
    assert parts == [parts[0]] + parts[1..];
    if ReadParts(Segments(parts), names, decodes) == Ok(parts) {
      var first := ReadPart(Segment(parts[0]), names, decodes).value;
      var rest := ReadParts(Segments(parts[1..]), names + {first.name}, decodes).value;
      assert parts == [first] + rest;
      assert ([first] + rest)[0] == first && ([first] + rest)[1..] == rest;
    }
  }

  lemma DistinctCons(parts: seq<Part>)
    requires parts != []
    ensures DistinctNames(parts) <==> DistinctNames(parts[1..]) && forall p :: p in parts[1..] ==> p.name != parts[0].name
  {
    if DistinctNames(parts[1..]) && forall p :: p in parts[1..] ==> p.name != parts[0].name {
      forall i, j | 0 <= i < j < |parts|
        ensures parts[i].name != parts[j].name
      {
        assert parts[j] == parts[1..][j - 1];
        if i > 0 {
          assert parts[i] == parts[1..][i - 1];
        }
      }
    }
    if DistinctNames(parts) {
      forall i, j | 0 <= i < j < |parts[1..]|
        ensures parts[1..][i].name != parts[1..][j].name
      {
        assert parts[i + 1].name != parts[j + 1].name;
      }
    }
  }

  /** Printing and parsing undo each other exactly for lists of at most a thousand distinctly named parts,
      each readable by itself and free of the delimiter. */
  lemma PrintParse(parts: seq<Part>, boundary: Bytes, decodes: Bytes -> bool)
    requires IsBoundary(boundary) && parts != []
    ensures Parse(Print(parts, boundary), boundary, decodes) == Ok(parts) <==>
            && |parts| <= MAX_PARTS && DistinctNames(parts)
            && forall p :: p in parts ==> Returns(p, boundary, decodes)
  {
    hide Parse, Print, Split, SplitAll, Segments, Readable, Segment, Free, DistinctNames, ReadPart, ReadParts, Delimiter;
    var d := Delimiter(boundary);
    DelimiterBreaks(boundary);
    ParsePrinted(parts, boundary, decodes, SplitAll(parts, d));
    SplitAllFree(parts, d);
    ReadBack(parts, {}, decodes);
    if ReadParts(SplitAll(parts, d), {}, decodes) == Ok(parts) {
      ReadLength(SplitAll(parts, d), {}, decodes);
    }
  }

  lemma ParsePrinted(parts: seq<Part>, boundary: Bytes, decodes: Bytes -> bool, pieces: seq<Bytes>)
    requires IsBoundary(boundary) && pieces == SplitAll(parts, Delimiter(boundary))
    ensures Parse(Print(parts, boundary), boundary, decodes) ==
            if 1 <= |pieces| <= MAX_PARTS then ReadParts(pieces, {}, decodes) else Reject(PartLimit)
  {
    PrintSplit(parts, boundary);
    hide Split, SplitAll, Print, ReadParts, Delimiter;
    var all := [[]] + (pieces + [Tail()]);
    assert all[0] == [] && all[|all| - 1] == Tail() && all[1..|all| - 1] == pieces;
  }

  lemma {:induction false} ReadLength(raws: seq<Bytes>, names: set<Bytes>, decodes: Bytes -> bool)
    requires ReadParts(raws, names, decodes).Ok?
    ensures |ReadParts(raws, names, decodes).value| == |raws|
    decreases |raws|
  {
    if raws != [] {
      ReadLength(raws[1..], names + {ReadPart(raws[0], names, decodes).value.name}, decodes);
    }
  }

  // ---------------------------------------------------------------- parts that were parsed

  /** The header ends at its first blank line. */
  predicate HeaderEnds(header: Bytes) { Find(header + BLANK_LINE, BLANK_LINE, 0) == Some(|header|) }

  lemma HeaderFound(header: Bytes, content: Bytes)
    requires HeaderEnds(header)
    ensures Find(header + BLANK_LINE + content, BLANK_LINE, 0) == Some(|header|)
  {
    var short, long := header + BLANK_LINE, header + BLANK_LINE + content;
    assert long[|header|..|header| + 4] == BLANK_LINE;
    forall i | 0 <= i < |header|
      ensures !Occurs(long, BLANK_LINE, i)
    {
      assert long[i..i + 4] == short[i..i + 4];
      assert !Occurs(short, BLANK_LINE, i);
    }
    FindIs(long, BLANK_LINE, |header|);
  }

  lemma HeaderWasFound(inside: Bytes, at: nat)
    requires Find(inside, BLANK_LINE, 0) == Some(at)
    ensures HeaderEnds(inside[..at])
  {
    var short := inside[..at] + BLANK_LINE;
    assert inside[at..at + 4] == BLANK_LINE;
    assert short == inside[..at + 4];
    forall i | 0 <= i < at
      ensures !Occurs(short, BLANK_LINE, i)
    {
      assert short[i..i + 4] == inside[i..i + 4];
      assert !Occurs(inside, BLANK_LINE, i);
    }
    FindIs(short, BLANK_LINE, at);
  }

  /** What content a part with this header may carry. */
  predicate ContentOk(header: Bytes, content: Bytes, decodes: Bytes -> bool) {
    var read := ReadHeader(header);
    read.Ok? && (read.value.file || (|content| <= MAX_STRING && decodes(content)))
  }

  predicate HeaderNames(header: Bytes, name: Bytes) {
    HeaderEnds(header) && ReadHeader(header).Ok? && ReadHeader(header).value.name == name
  }

  lemma InsideSegment(p: Part)
    ensures var raw := Segment(p);
            |raw| >= 4 && raw[..2] == CRLF && raw[|raw| - 2..] == CRLF && Inside(raw) == p.header + BLANK_LINE + p.content
  {
    var middle := p.header + BLANK_LINE + p.content;
    assert Segment(p) == CRLF + middle + CRLF;
  }

  lemma ReadableIff(p: Part, decodes: Bytes -> bool)
    requires HeaderNames(p.header, p.name)
    ensures Readable(p, decodes) <==> ContentOk(p.header, p.content, decodes)
  {
    hide ReadHeader, Segment, Find, Free;
    InsideSegment(p);
    HeaderFound(p.header, p.content);
    var inside := p.header + BLANK_LINE + p.content;
    assert inside[..|p.header|] == p.header && inside[|p.header| + 4..] == p.content;
  }

  /** What parsing guarantees of a part: its header names it and ends where it was cut, its content is
      allowed, and neither holds the delimiter. */
  ghost predicate WasParsed(p: Part, boundary: Bytes, decodes: Bytes -> bool) {
    && HeaderNames(p.header, p.name) && ContentOk(p.header, p.content, decodes)
    && Free(p.header, Delimiter(boundary)) && Free(p.content, Delimiter(boundary))
  }

  lemma ReadWasParsed(raw: Bytes, names: set<Bytes>, boundary: Bytes, decodes: Bytes -> bool)
    requires Free(raw, Delimiter(boundary)) && ReadPart(raw, names, decodes).Ok?
    ensures WasParsed(ReadPart(raw, names, decodes).value, boundary, decodes)
    ensures ReadPart(raw, names, decodes).value.name !in names
  {
    hide ReadHeader, Find, Free;
    var d := Delimiter(boundary);
    var inside := Inside(raw);
    var at := Find(inside, BLANK_LINE, 0).value;
    FindBounds(inside, at);
    HeaderWasFound(inside, at);
    assert |raw| >= 4;
    SliceFree(raw, d, 2, |raw| - 2);
    SliceFree(inside, d, 0, at);
    SliceFree(inside, d, at + 4, |inside|);
    assert raw[2..|raw| - 2] == inside && inside[0..at] == inside[..at] && inside[at + 4..|inside|] == inside[at + 4..];
  }

  lemma FindBounds(inside: Bytes, at: nat)
    requires Find(inside, BLANK_LINE, 0) == Some(at)
    ensures at + 4 <= |inside|
  {
  }

  lemma {:induction false} ReadAllParsed(raws: seq<Bytes>, names: set<Bytes>, boundary: Bytes, decodes: Bytes -> bool)
    requires (forall r :: r in raws ==> Free(r, Delimiter(boundary))) && ReadParts(raws, names, decodes).Ok?
    ensures var parts := ReadParts(raws, names, decodes).value;
            && (forall p :: p in parts ==> WasParsed(p, boundary, decodes) && p.name !in names)
            && DistinctNames(parts)
    decreases |raws|
  {
    if raws != [] {
      hide ReadPart, WasParsed, Free;
      assert raws[0] in raws;
      ReadWasParsed(raws[0], names, boundary, decodes);
      var first := ReadPart(raws[0], names, decodes).value;
      ReadAllParsed(raws[1..], names + {first.name}, boundary, decodes);
      var parts := ReadParts(raws, names, decodes).value;
      var rest := ReadParts(raws[1..], names + {first.name}, decodes).value;
      assert parts == [first] + rest && parts[1..] == rest;
      DistinctCons(parts);
    }
  }

  lemma ParsedParts(body: Bytes, boundary: Bytes, decodes: Bytes -> bool)
    requires IsBoundary(boundary) && Parse(body, boundary, decodes).Ok?
    ensures var parts := Parse(body, boundary, decodes).value;
            DistinctNames(parts) && forall p :: p in parts ==> WasParsed(p, boundary, decodes)
  {
    hide Split, ReadParts, Free, WasParsed, DistinctNames;
    var d := Delimiter(boundary);
    DelimiterBreaks(boundary);
    var segments := Split(body, d);
    var raws := segments[1..|segments| - 1];
    forall r | r in raws
      ensures Free(r, d)
    {
      var k :| 0 <= k < |raws| && raws[k] == r;
      PiecesFree(body, d, k + 1);
    }
    ReadAllParsed(raws, {}, boundary, decodes);
  }

  // ---------------------------------------------------------------- the injected header

  /** A field name that the injected header can carry. */
  predicate FieldName(f: Bytes) {
    1 <= |f| <= 128 && forall b :: b in f ==> b < 128 && b != QUOTE && b != CR && b != LF
  }

  lemma {:induction false} QuoteAt(s: Bytes, i: nat, e: nat)
    requires i <= e < |s| && s[e] == QUOTE && forall k :: i <= k < e ==> s[k] != QUOTE
    ensures NextQuote(s, i) == Some(e)
    decreases e - i
  {
    if i < e {
      QuoteAt(s, i + 1, e);
    }
  }

  lemma NameFound(fence: Bytes)
    requires FieldName(fence)
    ensures NameHere([32] + NAME + fence + [QUOTE]) == Some(fence)
  {
    var u := fence + [QUOTE];
    var t := NAME + u;
    assert [32] + NAME + fence + [QUOTE] == [32] + t;
    assert ([32] + t)[1..] == t && StripLeft([32] + t) == StripLeft(t);
    assert NAME[0] == 110 && t[0] == 110 && StripLeft(t) == t;
    assert t[..|NAME|] == NAME && t[|NAME|..] == u;
    forall k | 0 <= k < |fence|
      ensures u[k] != QUOTE
    {
      assert fence[k] in fence;
    }
    assert u[|fence|] == QUOTE;
    QuoteAt(u, 0, |fence|);
    assert u[..|fence|] == fence;
  }

  lemma {:induction false} SkipTo(prefix: Bytes, tail: Bytes, start: bool)
    requires forall b :: b in prefix ==> b != SEMICOLON
    requires start ==> NameHere(prefix + [SEMICOLON] + tail).None?
    ensures SearchName(prefix + [SEMICOLON] + tail, start) ==
            if NameHere(tail).Some? then NameHere(tail) else SearchName(tail, false)
    decreases |prefix|
  {
    var s := prefix + [SEMICOLON] + tail;
    if prefix == [] {
      assert s[1..] == tail;
    } else {
      assert prefix[0] in prefix && forall b :: b in prefix[1..] ==> b in prefix;
      assert s[0] == prefix[0] && s[1..] == prefix[1..] + [SEMICOLON] + tail;
      SkipTo(prefix[1..], tail, false);
    }
  }

  predicate Clean(s: Bytes) { forall b :: b in s ==> b != CR && b != LF && b != SEMICOLON && b < 128 }

  lemma ConstantsClean()
    ensures |PREFIX| == 20 && |FORM_DATA| == 9 && |NAME| == 6
    ensures Clean(PREFIX) && Clean(FORM_DATA) && Clean(NAME)
    ensures FORM_DATA[0] == 102 && NAME[0] == 110
  {
  }

  lemma NotAName(tail: Bytes)
    ensures NameHere(FORM_DATA + [SEMICOLON] + tail).None?
  {
    hide *;
    ConstantsClean();
    var s := FORM_DATA + [SEMICOLON] + tail;
    NotNameHere(s);
  }

  lemma NotNameHere(s: Bytes)
    requires s != [] && s[0] == 102 && |NAME| == 6 && NAME[0] == 110
    ensures NameHere(s).None?
  {
    assert StripLeft(s) == s;
  }

  /** The injected disposition names the fence field. */
  lemma DispositionNames(fence: Bytes)
    requires FieldName(fence)
    ensures SearchName(FenceDisposition(fence), true) == Some(fence)
  {
    hide SearchName, NameHere;
    var tail := [SPACE] + NAME + fence + [QUOTE];
    NotAName(tail);
    ConstantsClean();
    SkipTo(FORM_DATA, tail, true);
    NameFound(fence);
  }

  lemma LowerPrefix()
    ensures LowerAll(PREFIX) == DISPOSITION
  {
  }

  lemma LowerJoin(a: Bytes, b: Bytes)
    ensures LowerAll(a + b) == LowerAll(a) + LowerAll(b)
  {
  }

  lemma StripFence(fence: Bytes)
    ensures Strip([SPACE] + FenceDisposition(fence)) == FenceDisposition(fence)
  {
    hide FenceDisposition;
    FenceEndsMeet(fence);
    StripOne(FenceDisposition(fence));
  }

  lemma FenceEndsMeet(fence: Bytes)
    ensures var value := FenceDisposition(fence); value != [] && value[0] == 102 && value[|value| - 1] == QUOTE
  {
    ConstantsClean();
  }

  lemma StripOne(value: Bytes)
    requires value != [] && !IsSpace(value[0]) && !IsSpace(value[|value| - 1])
    ensures Strip([SPACE] + value) == value
  {
    assert ([SPACE] + value)[1..] == value;
    assert StripLeft([SPACE] + value) == StripLeft(value) == value;
  }

  lemma FenceBytes(prefix: Bytes, form: Bytes, name: Bytes, fence: Bytes)
    requires Clean(prefix) && Clean(form) && Clean(name) && FieldName(fence)
    ensures var all := prefix + ([SPACE] + (form + [SEMICOLON] + ([SPACE] + name + fence + [QUOTE])));
            CR !in all && LF !in all
  {
  }

  lemma NoBreaks(fence: Bytes)
    requires FieldName(fence)
    ensures CR !in FenceHeader(fence) && LF !in FenceHeader(fence)
  {
    ConstantsClean();
    FenceBytes(PREFIX, FORM_DATA, NAME, fence);
  }

  lemma WithoutBreak(h: Bytes, sep: Bytes)
    requires sep != [] && sep[0] == CR && CR !in h
    ensures Free(h, sep)
  {
    forall i | 0 <= i <= |h|
      ensures !Occurs(h, sep, i)
    {
      if i < |h| {
        assert h[i] in h;
      }
    }
  }

  lemma FenceLine(fence: Bytes)
    ensures Disposition([FenceHeader(fence)]) == Some(FenceDisposition(fence))
  {
    hide FenceDisposition, Strip;
    var header := FenceHeader(fence);
    var value := [SPACE] + FenceDisposition(fence);
    ConstantsClean();
    LowerJoin(PREFIX, value);
    LowerPrefix();
    StripFence(fence);
    assert LowerAll(header)[..20] == DISPOSITION;
    assert header[20..] == value;
  }

  /** The injected header reads back as the fence field. */
  lemma FenceHeaderNames(fence: Bytes)
    requires FieldName(fence)
    ensures HeaderNames(FenceHeader(fence), fence)
  {
    hide Disposition, SearchName, Free, Split, FieldName, FenceHeader, FenceDisposition, HeaderEnds, IsAscii;
    var header := FenceHeader(fence);
    NoBreaks(fence);
    WithoutBreak(header, CRLF);
    SplitFree(header, CRLF);
    FenceLine(fence);
    DispositionNames(fence);
    FenceAscii(fence);
    FenceEnds(header);
  }

  lemma FenceAscii(fence: Bytes)
    requires FieldName(fence)
    ensures IsAscii(fence) && |FenceHeader(fence)| <= MAX_HEADERS
  {
    ConstantsClean();
  }

  lemma FenceEnds(header: Bytes)
    requires CR !in header
    ensures HeaderEnds(header)
  {
    var h := header + BLANK_LINE;
    forall i | 0 <= i < |header|
      ensures !Occurs(h, BLANK_LINE, i)
    {
      assert h[i] == header[i] && header[i] in header;
    }
    assert h[|header|..|header| + 4] == BLANK_LINE;
    FindIs(h, BLANK_LINE, |header|);
  }

  // ---------------------------------------------------------------- the rewritten request

  /** What an injected content must satisfy to come back: no delimiter, and the limits of its part. */
  predicate Carries(header: Bytes, content: Bytes, boundary: Bytes, decodes: Bytes -> bool) {
    Free(content, Delimiter(boundary)) && ContentOk(header, content, decodes)
  }

  /** Everything injected comes back: the model's alias, the fence value, and the header of an appended
      fence; and the fence does not make one part too many. */
  predicate Injectable(parts: seq<Part>, e: Edit, boundary: Bytes, decodes: Bytes -> bool) {
    && |Edited(parts, e)| <= MAX_PARTS
    && (forall p :: p in parts && p.name == e.model ==> Carries(p.header, e.alias, boundary, decodes))
    && (forall p :: p in parts && p.name == e.fence ==> Carries(p.header, e.fenceValue, boundary, decodes))
    && (!HasFence(parts, e) ==> Free(FenceHeader(e.fence), Delimiter(boundary)) && Carries(FenceHeader(e.fence), e.fenceValue, boundary, decodes))
  }

  lemma {:induction false} EditedMembers(parts: seq<Part>, e: Edit)
    ensures forall q :: q in EditAll(parts, e) <==> exists p :: p in parts && !Dropped(p, e) && q == Replaced(p, e)
    ensures |EditAll(parts, e)| <= |parts|
  {
    if parts != [] {
      EditedMembers(parts[1..], e);
      assert forall p :: p in parts <==> p == parts[0] || p in parts[1..];
    }
  }

  lemma {:induction false} EditedDistinct(parts: seq<Part>, e: Edit)
    requires DistinctNames(parts)
    ensures DistinctNames(EditAll(parts, e))
    decreases |parts|
  {
    if parts != [] {
      DistinctCons(parts);
      EditedDistinct(parts[1..], e);
      EditedMembers(parts[1..], e);
      var rest := EditAll(parts[1..], e);
      forall q | q in rest
        ensures q.name != parts[0].name
      {
        var p :| p in parts[1..] && !Dropped(p, e) && q == Replaced(p, e);
      }
      if !Dropped(parts[0], e) {
        assert EditAll(parts, e)[1..] == rest;
        DistinctCons(EditAll(parts, e));
      } else {
        assert EditAll(parts, e) == rest;
      }
    }
  }

  lemma AppendDistinct(parts: seq<Part>, p: Part)
    requires DistinctNames(parts) && forall q :: q in parts ==> q.name != p.name
    ensures DistinctNames(parts + [p])
  {
  }

  /** The edited parts have distinct names, and there is always the fence among them. */
  lemma EditedShape(parts: seq<Part>, e: Edit)
    requires DistinctNames(parts) && e.model != e.fence
    ensures DistinctNames(Edited(parts, e)) && Edited(parts, e) != []
  {
    EditedDistinct(parts, e);
    EditedMembers(parts, e);
    if HasFence(parts, e) {
      var p :| p in parts && p.name == e.fence && p.name != e.model;
      assert Replaced(p, e) in EditAll(parts, e);
    } else {
      forall q | q in EditAll(parts, e)
        ensures q.name != e.fence
      {
        var p :| p in parts && !Dropped(p, e) && q == Replaced(p, e);
      }
      AppendDistinct(EditAll(parts, e), Part(FenceHeader(e.fence), e.fence, e.fenceValue));
    }
  }

  /** Whether a part of the rewritten list comes back depends only on what was injected into it. */
  lemma ComesBack(p: Part, boundary: Bytes, decodes: Bytes -> bool)
    requires IsBoundary(boundary) && HeaderNames(p.header, p.name)
    ensures Readable(p, decodes) && Free(Segment(p), Delimiter(boundary))
            <==> Free(p.header, Delimiter(boundary)) && Carries(p.header, p.content, boundary, decodes)
  {
    hide HeaderNames, ContentOk, Segment, Free, Readable;
    ReadableIff(p, decodes);
    SegmentFree(p, boundary);
  }

  lemma EditedComesBack(parts: seq<Part>, e: Edit, boundary: Bytes, decodes: Bytes -> bool)
    requires IsBoundary(boundary) && FieldName(e.fence) && e.model != e.fence
    requires forall p :: p in parts ==> WasParsed(p, boundary, decodes)
    requires |Edited(parts, e)| <= MAX_PARTS
    ensures (forall q :: q in Edited(parts, e) ==> Returns(q, boundary, decodes)) <==> Injectable(parts, e, boundary, decodes)
  {
    if Injectable(parts, e, boundary, decodes) {
      CarriedComeBack(parts, e, boundary, decodes);
    }
    if forall q :: q in Edited(parts, e) ==> Returns(q, boundary, decodes) {
      ReturnedWereCarried(parts, e, boundary, decodes);
    }
  }

  predicate Returns(q: Part, boundary: Bytes, decodes: Bytes -> bool) {
    Readable(q, decodes) && Free(Segment(q), Delimiter(boundary))
  }

  lemma CarriedComeBack(parts: seq<Part>, e: Edit, boundary: Bytes, decodes: Bytes -> bool)
    requires IsBoundary(boundary) && FieldName(e.fence) && e.model != e.fence
    requires forall p :: p in parts ==> WasParsed(p, boundary, decodes)
    requires Injectable(parts, e, boundary, decodes)
    ensures forall q :: q in Edited(parts, e) ==> Returns(q, boundary, decodes)
  {
    hide Returns, Carries, FieldName, WasParsed, FenceHeader, Free, IsBoundary;
    EditedMembers(parts, e);
    forall q | q in Edited(parts, e)
      ensures Returns(q, boundary, decodes)
    {
      if q in EditAll(parts, e) {
        var p :| p in parts && !Dropped(p, e) && q == Replaced(p, e);
        ReplacedComesBack(p, e, boundary, decodes);
      } else {
        AddedComesBack(e, boundary, decodes);
      }
    }
  }

  lemma ReturnedWereCarried(parts: seq<Part>, e: Edit, boundary: Bytes, decodes: Bytes -> bool)
    requires IsBoundary(boundary) && FieldName(e.fence) && e.model != e.fence
    requires forall p :: p in parts ==> WasParsed(p, boundary, decodes)
    requires |Edited(parts, e)| <= MAX_PARTS && forall q :: q in Edited(parts, e) ==> Returns(q, boundary, decodes)
    ensures Injectable(parts, e, boundary, decodes)
  {
    hide Returns, Carries, FieldName, WasParsed, FenceHeader, Free, IsBoundary;
    EditedMembers(parts, e);
    forall p | p in parts && (p.name == e.model || p.name == e.fence)
      ensures Carries(p.header, Replaced(p, e).content, boundary, decodes)
    {
      assert Replaced(p, e) in EditAll(parts, e);
      ReplacedComesBack(p, e, boundary, decodes);
    }
    if !HasFence(parts, e) {
      var added := Part(FenceHeader(e.fence), e.fence, e.fenceValue);
      assert added in Edited(parts, e);
      AddedComesBack(e, boundary, decodes);
    }
  }

  lemma AddedComesBack(e: Edit, boundary: Bytes, decodes: Bytes -> bool)
    requires IsBoundary(boundary) && FieldName(e.fence)
    ensures var added := Part(FenceHeader(e.fence), e.fence, e.fenceValue);
            Returns(added, boundary, decodes)
            <==> Free(added.header, Delimiter(boundary)) && Carries(added.header, added.content, boundary, decodes)
  {
    FenceHeaderNames(e.fence);
    hide Free, Readable, Segment, Carries, FenceHeader;
    ComesBack(Part(FenceHeader(e.fence), e.fence, e.fenceValue), boundary, decodes);
  }

  lemma ReplacedComesBack(p: Part, e: Edit, boundary: Bytes, decodes: Bytes -> bool)
    requires IsBoundary(boundary) && WasParsed(p, boundary, decodes)
    ensures var q := Replaced(p, e); Returns(q, boundary, decodes) <==> Carries(p.header, q.content, boundary, decodes)
    ensures Carries(p.header, p.content, boundary, decodes)
  {
    hide Free, Readable, Segment, ContentOk, HeaderNames;
    ComesBack(Replaced(p, e), boundary, decodes);
  }

  /** Rewriting, then parsing, gives exactly the edited parts (the model replaced, the fence replaced or
      appended once, reserved fields dropped, everything else byte for byte) if and only if everything
      injected can be carried. */
  lemma RewriteRoundTrip(body: Bytes, boundary: Bytes, e: Edit, decodes: Bytes -> bool)
    requires IsBoundary(boundary) && FieldName(e.fence) && e.model != e.fence
    requires Parse(body, boundary, decodes).Ok?
    ensures var parts := Parse(body, boundary, decodes).value;
            Parse(Print(Edited(parts, e), boundary), boundary, decodes) == Ok(Edited(parts, e))
            <==> Injectable(parts, e, boundary, decodes)
  {
    hide Parse, Print, Edited, DistinctNames, WasParsed, FieldName, Readable, Segment, Free, Carries, HasFence;
    var parts := Parse(body, boundary, decodes).value;
    ParsedParts(body, boundary, decodes);
    EditedShape(parts, e);
    PrintParse(Edited(parts, e), boundary, decodes);
    if |Edited(parts, e)| <= MAX_PARTS {
      EditedComesBack(parts, e, boundary, decodes);
    }
  }
}
