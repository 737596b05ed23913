/** Multipart bodies: parsing, and the rewrite that replaces the model, injects the fence and drops reserved
    fields. Parsing what was rewritten gives exactly the edited parts. */
module Multipart {
  import opened Common

  type Byte = b: int | 0 <= b < 256 witness 0

  type Bytes = seq<Byte>

  const CR: Byte := 13

  const LF: Byte := 10

  const CRLF: Bytes := [CR, LF]

  const BLANK_LINE: Bytes := [CR, LF, CR, LF]

  const DASHES: Bytes := [45, 45]

  const MAX_PARTS := 1_000

  const MAX_HEADERS := 16 * 1024

  const MAX_HEADER_LINES := 32

  const MAX_STRING := 8 * 1024 * 1024

  const MAX_BODY := 32 * 1024 * 1024

  // ---------------------------------------------------------------- searching and splitting

  predicate Occurs(h: Bytes, d: Bytes, i: nat) { i + |d| <= |h| && h[i..i + |d|] == d }

  predicate Free(h: Bytes, d: Bytes) { forall i :: 0 <= i <= |h| ==> !Occurs(h, d, i) }

  /** The first occurrence at or after `i`. */
  function Find(h: Bytes, d: Bytes, i: nat): (r: Option<nat>)
    requires i <= |h|
    ensures r.Some? ==> i <= r.value <= |h| && Occurs(h, d, r.value) && forall j :: i <= j < r.value ==> !Occurs(h, d, j)
    ensures r.None? ==> forall j :: i <= j <= |h| ==> !Occurs(h, d, j)
    decreases |h| - i
  {
    if Occurs(h, d, i) then Some(i) else if i == |h| then None else Find(h, d, i + 1)
  }

  /** The stretches between the occurrences of a delimiter, found from the left. */
  function Split(h: Bytes, d: Bytes): (r: seq<Bytes>)
    requires d != []
    ensures r != []
    decreases |h|
  {
    var f := Find(h, d, 0);
    if f.None? then [h] else [h[..f.value]] + Split(h[f.value + |d|..], d)
  }

  lemma FindIs(h: Bytes, d: Bytes, j: nat)
    requires j <= |h| && Occurs(h, d, j) && forall i :: 0 <= i < j ==> !Occurs(h, d, i)
    ensures Find(h, d, 0) == Some(j)
  {
  }

  /** An occurrence of `d` in `x + d + y` that begins inside `x` ends inside it, if `x` ends in a byte that
      `d` does not have. */
  lemma StaysInside(x: Bytes, d: Bytes, y: Bytes, i: nat)
    requires x != [] && x[|x| - 1] !in d && i < |x|
    ensures Occurs(x + d + y, d, i) <==> Occurs(x, d, i)
  {
    var h := x + d + y;
    if i + |d| > |x| {
      CrossingHasLast(x, d, y, i);
    } else {
      assert h[i..i + |d|] == x[i..i + |d|];
    }
  }

  lemma CrossingHasLast(x: Bytes, d: Bytes, y: Bytes, i: nat)
    requires i < |x| < i + |d|
    ensures Occurs(x + d + y, d, i) ==> x[|x| - 1] in d
  {
    var h := x + d + y;
    if Occurs(h, d, i) {
      assert d[|x| - 1 - i] == h[|x| - 1];
    }
  }

  lemma FindJoined(x: Bytes, d: Bytes, y: Bytes)
    requires d != [] && x != [] && x[|x| - 1] !in d
    ensures Find(x + d + y, d, 0) == if Free(x, d) then Some(|x|) else Find(x, d, 0)
  {
    var h := x + d + y;
    forall i | 0 <= i < |x|
      ensures Occurs(h, d, i) <==> Occurs(x, d, i)
    {
      StaysInside(x, d, y, i);
    }
    if Free(x, d) {
      assert h[|x|..|x| + |d|] == d;
      FindIs(h, d, |x|);
    } else {
      var j := Find(x, d, 0).value;
      FindIs(h, d, j);
    }
  }

  /** Splitting around a delimiter that stands between two pieces splits each of them. */
  lemma {:induction false} SplitJoined(x: Bytes, d: Bytes, y: Bytes)
    requires d != [] && x != [] && x[|x| - 1] !in d
    ensures Split(x + d + y, d) == Split(x, d) + Split(y, d)
    decreases |x|
  {
    hide Split, Free;
    FindJoined(x, d, y);
    if Free(x, d) {
      SplitFree(x, d);
      SplitAt(x + d + y, d, x, y);
    } else {
      FreeIff(x, d);
      var j := Find(x, d, 0).value;
      LastNotInDelimiter(x, d, j);
      var rest := x[j + |d|..];
      assert x == x[..j] + d + rest;
      SplitJoined(rest, d, y);
      SplitTwice(x[..j], d, rest, y, x);
    }
  }

  lemma FreeIff(h: Bytes, d: Bytes)
    ensures Free(h, d) <==> Find(h, d, 0).None?
  {
  }

  lemma SplitTwice(first: Bytes, d: Bytes, rest: Bytes, y: Bytes, x: Bytes)
    requires d != [] && x == first + d + rest && Find(x, d, 0) == Some(|first|) == Find(x + d + y, d, 0)
    requires Split(rest + d + y, d) == Split(rest, d) + Split(y, d)
    ensures Split(x + d + y, d) == Split(x, d) + Split(y, d)
  {
    Regroup(first, d, rest, y);
    SplitAt(x + d + y, d, first, rest + d + y);
    SplitAt(x, d, first, rest);
    RegroupPieces([first], Split(rest, d), Split(y, d));
  }

  lemma Regroup(first: Bytes, d: Bytes, rest: Bytes, y: Bytes)
    ensures (first + d + rest) + d + y == first + d + (rest + d + y)
  {
  }

  lemma RegroupPieces(a: seq<Bytes>, b: seq<Bytes>, c: seq<Bytes>)
    ensures a + (b + c) == (a + b) + c
  {
  }

  lemma SplitAt(h: Bytes, d: Bytes, first: Bytes, rest: Bytes)
    requires d != [] && h == first + d + rest && Find(h, d, 0) == Some(|first|)
    ensures Split(h, d) == [first] + Split(rest, d)
  {
    assert h[..|first|] == first && h[|first| + |d|..] == rest;
  }

  lemma LastNotInDelimiter(x: Bytes, d: Bytes, j: nat)
    requires d != [] && x != [] && x[|x| - 1] !in d && Occurs(x, d, j)
    ensures j + |d| < |x|
  {
    assert x[j..j + |d|][|d| - 1] == x[j + |d| - 1];
  }

  lemma SplitFree(h: Bytes, d: Bytes)
    requires d != []
    ensures Free(h, d) <==> |Split(h, d)| == 1
    ensures Free(h, d) ==> Split(h, d) == [h]
  {
  }

  lemma SplitLeading(d: Bytes, y: Bytes)
    requires d != []
    ensures Split(d + y, d) == [[]] + Split(y, d)
  {
    assert (d + y)[0..|d|] == d && (d + y)[|d|..] == y;
    assert Find(d + y, d, 0) == Some(0);
  }

  lemma OccursInPrefix(h: Bytes, n: nat, d: Bytes, i: nat)
    requires n <= |h|
    ensures Occurs(h[..n], d, i) <==> Occurs(h, d, i) && i + |d| <= n
  {
    if i + |d| <= n {
      assert h[..n][i..i + |d|] == h[i..i + |d|];
    }
  }

  /** What lies between delimiters contains none. */
  lemma {:induction false} PiecesFree(h: Bytes, d: Bytes, k: nat)
    requires d != [] && k < |Split(h, d)|
    ensures Free(Split(h, d)[k], d)
    decreases |h|
  {
    var f := Find(h, d, 0);
    if f.Some? {
      if k == 0 {
        var piece := h[..f.value];
        forall i | 0 <= i <= |piece|
          ensures !Occurs(piece, d, i)
        {
          OccursInPrefix(h, f.value, d, i);
        }
      } else {
        PiecesFree(h[f.value + |d|..], d, k - 1);
      }
    }
  }

  lemma SliceOfSlice(h: Bytes, from: nat, to: nat, i: nat, j: nat)
    requires from <= to <= |h| && i <= j <= to - from
    ensures h[from..to][i..j] == h[from + i..from + j]
  {
    var a, b := h[from..to][i..j], h[from + i..from + j];
    assert |a| == |b|;
    forall k | 0 <= k < |a|
      ensures a[k] == b[k]
    {
      assert a[k] == h[from..to][i + k];
    }
  }

  /** Parts of a free stretch are free. */
  lemma SliceFree(h: Bytes, d: Bytes, from: nat, to: nat)
    requires Free(h, d) && from <= to <= |h|
    ensures Free(h[from..to], d)
  {
    var part := h[from..to];
    forall i | 0 <= i <= |part|
      ensures !Occurs(part, d, i)
    {
      if Occurs(part, d, i) {
        SliceOfSlice(h, from, to, i, i + |d|);
        assert Occurs(h, d, from + i);
      }
    }
  }

  // ---------------------------------------------------------------- part headers

  function Lower(b: Byte): Byte { if 65 <= b <= 90 then b + 32 else b }

  function LowerAll(s: Bytes): (r: Bytes)
    ensures |r| == |s|
  {
    seq(|s|, i requires 0 <= i < |s| => Lower(s[i]))
  }

  predicate IsSpace(b: Byte) { b == 32 || 9 <= b <= 13 }

  function StripLeft(s: Bytes): Bytes { if s != [] && IsSpace(s[0]) then StripLeft(s[1..]) else s }

  function StripRight(s: Bytes): Bytes { if s != [] && IsSpace(s[|s| - 1]) then StripRight(s[..|s| - 1]) else s }

  function Strip(s: Bytes): Bytes { StripRight(StripLeft(s)) }

  predicate StartsWith(s: Bytes, prefix: Bytes) { |prefix| <= |s| && s[..|prefix|] == prefix }

  /** `content-disposition:` */
  const DISPOSITION: Bytes := [99, 111, 110, 116, 101, 110, 116, 45, 100, 105, 115, 112, 111, 115, 105, 116, 105, 111, 110, 58]

  /** `name="` */
  const NAME: Bytes := [110, 97, 109, 101, 61, 34]

  /** `filename=` */
  const FILENAME: Bytes := [102, 105, 108, 101, 110, 97, 109, 101, 61]

  const QUOTE: Byte := 34

  const SEMICOLON: Byte := 59

  /** The value of the first content-disposition line. */
  function Disposition(lines: seq<Bytes>): Option<Bytes> {
    if lines == [] then None
    else if StartsWith(LowerAll(lines[0]), DISPOSITION) && |lines[0]| >= 20 then Some(Strip(lines[0][20..]))
    else Disposition(lines[1..])
  }

  /** The next quote at or after `i`. */
  function NextQuote(s: Bytes, i: nat): (r: Option<nat>)
    requires i <= |s|
    ensures r.Some? ==> i <= r.value < |s|
    decreases |s| - i
  {
    if i == |s| then None else if s[i] == QUOTE then Some(i) else NextQuote(s, i + 1)
  }

  /** A quoted name attribute right here, after any white space. */
  function NameHere(s: Bytes): Option<Bytes> {
    var t := StripLeft(s);
    if !StartsWith(t, NAME) then None
    else
      var u := t[|NAME|..];
      var e := NextQuote(u, 0);
      if e.None? || !(1 <= e.value <= 128) || !(e.value + 1 == |u| || u[e.value + 1] == SEMICOLON) then None
      else Some(u[..e.value])
  }

  /** The first name attribute: at the beginning or after a semicolon. */
  function SearchName(s: Bytes, start: bool): Option<Bytes>
    decreases |s|, if start then 1 else 0
  {
    if start && NameHere(s).Some? then NameHere(s)
    else if s == [] then None
    else if s[0] == SEMICOLON && NameHere(s[1..]).Some? then NameHere(s[1..])
    else SearchName(s[1..], false)
  }

  predicate IsAscii(s: Bytes) { forall b :: b in s ==> b < 128 }

  // ---------------------------------------------------------------- parsing

  datatype Part = Part(header: Bytes, name: Bytes, content: Bytes)

  datatype Reason = Malformed | PartLimit | HeaderLimit | NameMissing | NameInvalid | DuplicateField | FieldLimit | FieldEncoding | BodyTooLarge

  datatype Result<T> = Ok(value: T) | Reject(reason: Reason)

  /** What a header says of its part: the name, and whether it is a file. */
  datatype Label = Label(name: Bytes, file: bool)

  function ReadHeader(header: Bytes): Result<Label> {
    if |header| > MAX_HEADERS then Reject(HeaderLimit)
    else
      var lines := Split(header, CRLF);
      var disposition := Disposition(lines);
      if |lines| > MAX_HEADER_LINES then Reject(HeaderLimit)
      else if disposition.None? then Reject(NameMissing)
      else
        var name := SearchName(disposition.value, true);
        if name.None? then Reject(NameMissing)
        else if !IsAscii(name.value) then Reject(NameInvalid)
        else Ok(Label(name.value, !Free(disposition.value, FILENAME)))
  }

  /** Between the line breaks that must enclose a part. */
  function Inside(raw: Bytes): Bytes { if |raw| < 4 then [] else raw[2..|raw| - 2] }

  /** One part. `decodes` says which contents are well-formed text. */
  function ReadPart(raw: Bytes, names: set<Bytes>, decodes: Bytes -> bool): Result<Part> {
    if !(|raw| >= 2 && raw[..2] == CRLF && raw[|raw| - 2..] == CRLF) then Reject(Malformed)
    else
      var inside := Inside(raw);
      var at := Find(inside, BLANK_LINE, 0);
      if at.None? then Reject(HeaderLimit)
      else
        var header, content := inside[..at.value], inside[at.value + 4..];
        var read := ReadHeader(header);
        if read.Reject? then Reject(read.reason)
        else if read.value.name in names then Reject(DuplicateField)
        else if !read.value.file && |content| > MAX_STRING then Reject(FieldLimit)
        else if !read.value.file && !decodes(content) then Reject(FieldEncoding)
        else Ok(Part(header, read.value.name, content))
  }

  function ReadParts(raws: seq<Bytes>, names: set<Bytes>, decodes: Bytes -> bool): Result<seq<Part>>
    decreases |raws|
  {
    if raws == [] then Ok([])
    else
      var first := ReadPart(raws[0], names, decodes);
      if first.Reject? then Reject(first.reason)
      else
        var rest := ReadParts(raws[1..], names + {first.value.name}, decodes);
        if rest.Reject? then rest else Ok([first.value] + rest.value)
  }

  function Delimiter(boundary: Bytes): Bytes { DASHES + boundary }

  function Parse(body: Bytes, boundary: Bytes, decodes: Bytes -> bool): Result<seq<Part>> {
    var segments := Split(body, Delimiter(boundary));
    var last := segments[|segments| - 1];
    if segments[0] != [] || (last != DASHES && last != DASHES + CRLF) then Reject(Malformed)
    else
      var raws := segments[1..|segments| - 1];
      if !(1 <= |raws| <= MAX_PARTS) then Reject(PartLimit) else ReadParts(raws, {}, decodes)
  }

  // ---------------------------------------------------------------- rewriting

  /** What is injected: the model's hidden name, and the fence under its field. */
  datatype Edit = Edit(model: Bytes, alias: Bytes, fence: Bytes, fenceValue: Bytes, reserved: set<Bytes>)

  const SPACE: Byte := 32

  /** `Content-Disposition:` */
  const PREFIX: Bytes := [67, 111, 110, 116, 101, 110, 116, 45, 68, 105, 115, 112, 111, 115, 105, 116, 105, 111, 110, 58]

  /** `form-data` */
  const FORM_DATA: Bytes := [102, 111, 114, 109, 45, 100, 97, 116, 97]

  /** The header of an appended fence: `Content-Disposition: form-data; name="..."`. */
  function FenceHeader(fence: Bytes): Bytes { PREFIX + ([SPACE] + FenceDisposition(fence)) }

  function FenceDisposition(fence: Bytes): Bytes { FORM_DATA + [SEMICOLON] + ([SPACE] + NAME + fence + [QUOTE]) }

  predicate Dropped(p: Part, e: Edit) { p.name != e.model && p.name != e.fence && p.name in e.reserved - {e.model} }

  function Replaced(p: Part, e: Edit): Part {
    if p.name == e.model then p.(content := e.alias) else if p.name == e.fence then p.(content := e.fenceValue) else p
  }

  function EditAll(parts: seq<Part>, e: Edit): seq<Part> {
    if parts == [] then []
    else (if Dropped(parts[0], e) then [] else [Replaced(parts[0], e)]) + EditAll(parts[1..], e)
  }

  predicate HasFence(parts: seq<Part>, e: Edit) { exists p :: p in parts && p.name == e.fence && p.name != e.model }

  /** The edited parts: the model replaced, the fence replaced or appended, reserved fields dropped. */
  function Edited(parts: seq<Part>, e: Edit): seq<Part> {
    EditAll(parts, e) + if HasFence(parts, e) then [] else [Part(FenceHeader(e.fence), e.fence, e.fenceValue)]
  }

  function Segment(p: Part): Bytes { CRLF + p.header + BLANK_LINE + p.content + CRLF }

  function Print(parts: seq<Part>, boundary: Bytes): Bytes {
    if parts == [] then Delimiter(boundary) + (DASHES + CRLF)
    else Delimiter(boundary) + (Segment(parts[0]) + Print(parts[1..], boundary))
  }

  function Rewrite(body: Bytes, boundary: Bytes, e: Edit, decodes: Bytes -> bool): Result<Bytes> {
    var parts := Parse(body, boundary, decodes);
    if parts.Reject? then Reject(parts.reason)
    else
      var out := Print(Edited(parts.value, e), boundary);
      if |out| > MAX_BODY then Reject(BodyTooLarge) else Ok(out)
  }

  // ---------------------------------------------------------------- the same, as loops over local lists

  /** What reading the remaining parts gives, after those already read. */
  function Joined(before: seq<Part>, rest: Result<seq<Part>>): Result<seq<Part>> {
    if rest.Reject? then rest else Ok(before + rest.value)
  }

  lemma JoinedEmpty(rest: Result<seq<Part>>)
    ensures Joined([], rest) == rest
  {
    if rest.Ok? {
      assert [] + rest.value == rest.value;
    }
  }

  lemma JoinedStep(before: seq<Part>, first: Part, rest: Result<seq<Part>>)
    ensures Joined(before, if rest.Reject? then rest else Ok([first] + rest.value)) == Joined(before + [first], rest)
  {
    if rest.Ok? {
      assert before + ([first] + rest.value) == (before + [first]) + rest.value;
    }
  }

  method ParseBody(body: Bytes, boundary: Bytes, decodes: Bytes -> bool) returns (r: Result<seq<Part>>)
    ensures r == Parse(body, boundary, decodes)
  {
    hide ReadPart;
    var segments := Split(body, Delimiter(boundary));
    var last := segments[|segments| - 1];
    if segments[0] != [] || (last != DASHES && last != DASHES + CRLF) {
      return Reject(Malformed);
    }
    var raws := segments[1..|segments| - 1];
    if !(1 <= |raws| <= MAX_PARTS) {
      return Reject(PartLimit);
    }
    var parts: seq<Part> := [];
    var names: set<Bytes> := {};
    var i := 0;
    assert raws[0..] == raws;
    JoinedEmpty(ReadParts(raws, {}, decodes));
    while i < |raws|
      invariant 0 <= i <= |raws|
      invariant ReadParts(raws, {}, decodes) == Joined(parts, ReadParts(raws[i..], names, decodes))
    {
      assert raws[i..][0] == raws[i] && raws[i..][1..] == raws[i + 1..];
      var one := ReadPart(raws[i], names, decodes);
      if one.Reject? {
        return Reject(one.reason);
      }
      JoinedStep(parts, one.value, ReadParts(raws[i + 1..], names + {one.value.name}, decodes));
      parts := parts + [one.value];
      names := names + {one.value.name};
      i := i + 1;
    }
    assert parts + [] == parts;
    return Ok(parts);
  }

  method RewriteBody(body: Bytes, boundary: Bytes, e: Edit, decodes: Bytes -> bool) returns (r: Result<Bytes>)
    ensures r == Rewrite(body, boundary, e, decodes)
  {
    hide Parse;
    var parsed := ParseBody(body, boundary, decodes);
    if parsed.Reject? {
      return Reject(parsed.reason);
    }
    var rewritten := EditParts(parsed.value, e);
    var output := PrintParts(rewritten, boundary);
    if |output| > MAX_BODY {
      return Reject(BodyTooLarge);
    }
    return Ok(output);
  }

  lemma EditEmpty(e: Edit)
    ensures !HasFence([], e) && EditAll([], e) == []
  {
  }

  lemma EditStep(parts: seq<Part>, i: nat, e: Edit)
    requires i < |parts|
    ensures EditAll(parts[i..], e) == (if Dropped(parts[i], e) then [] else [Replaced(parts[i], e)]) + EditAll(parts[i + 1..], e)
    ensures HasFence(parts[..i + 1], e) <==> HasFence(parts[..i], e) || (parts[i].name == e.fence && parts[i].name != e.model)
  {
    assert parts[i..][0] == parts[i] && parts[i..][1..] == parts[i + 1..];
    assert parts[..i + 1] == parts[..i] + [parts[i]];
  }

  method EditParts(parts: seq<Part>, e: Edit) returns (rewritten: seq<Part>)
    ensures rewritten == Edited(parts, e)
  {
    hide HasFence, EditAll;
    rewritten := [];
    var seenFence := false;
    var i := 0;
    assert parts[0..] == parts && parts[..0] == [];
    EditEmpty(e);
    while i < |parts|
      invariant 0 <= i <= |parts| && seenFence == HasFence(parts[..i], e)
      invariant EditAll(parts, e) == rewritten + EditAll(parts[i..], e)
    {
      var part := parts[i];
      EditStep(parts, i, e);
      if part.name == e.model {
        rewritten := rewritten + [part.(content := e.alias)];
      } else if part.name == e.fence {
        rewritten := rewritten + [part.(content := e.fenceValue)];
        seenFence := true;
      } else if part.name in e.reserved - {e.model} {
      } else {
        rewritten := rewritten + [part];
      }
      i := i + 1;
    }
    assert parts[..i] == parts && parts[i..] == [] && rewritten + [] == rewritten;
    EditEmpty(e);
    if !seenFence {
      rewritten := rewritten + [Part(FenceHeader(e.fence), e.fence, e.fenceValue)];
    }
  }

  method PrintParts(parts: seq<Part>, boundary: Bytes) returns (output: Bytes)
    ensures output == Print(parts, boundary)
  {
    hide Segment;
    output := [];
    var i := 0;
    while i < |parts|
      invariant 0 <= i <= |parts| && output + Print(parts[i..], boundary) == Print(parts, boundary)
    {
      assert parts[i..][0] == parts[i] && parts[i..][1..] == parts[i + 1..];
      Shift(output, Delimiter(boundary), Segment(parts[i]), Print(parts[i + 1..], boundary));
      output := output + Delimiter(boundary) + Segment(parts[i]);
      i := i + 1;
    }
    output := output + (Delimiter(boundary) + (DASHES + CRLF));
  }

  lemma Shift(a: Bytes, b: Bytes, c: Bytes, rest: Bytes)
    ensures a + (b + (c + rest)) == (a + b + c) + rest
  {
  }
}
