/** The largest bodies: a body of a thousand parts parses, and when it has no fence yet the rewritten body has
    one part too many to be parsed again. */
module MultipartLimit {
  import opened Common
  import opened Multipart
  import opened MultipartRoundTrip

  // ---------------------------------------------------------------- any body at the limit

  lemma {:induction false} NothingDropped(parts: seq<Part>, e: Edit)
    requires forall p :: p in parts ==> !Dropped(p, e)
    ensures |EditAll(parts, e)| == |parts|
    decreases |parts|
  {
    if parts != [] {
      assert parts[0] in parts && forall p :: p in parts[1..] ==> p in parts;
      NothingDropped(parts[1..], e);
    }
  }

  /** Rewriting a parsed body of a thousand parts that has no fence and loses none of its parts gives a body
      that is refused for its number of parts. */
  lemma FullBodyOutgrowsTheLimit(body: Bytes, boundary: Bytes, e: Edit, decodes: Bytes -> bool)
    requires IsBoundary(boundary) && Parse(body, boundary, decodes).Ok?
    requires |Parse(body, boundary, decodes).value| == MAX_PARTS
    requires !HasFence(Parse(body, boundary, decodes).value, e)
    requires forall p :: p in Parse(body, boundary, decodes).value ==> !Dropped(p, e)
    ensures Parse(Print(Edited(Parse(body, boundary, decodes).value, e), boundary), boundary, decodes) == Reject(PartLimit)
    ensures Rewrite(body, boundary, e, decodes).Ok? ==>
              Parse(Rewrite(body, boundary, e, decodes).value, boundary, decodes) == Reject(PartLimit)
  {
    hide Parse, Print, HasFence, Dropped, SplitAll, Split, Delimiter;
    var parts := Parse(body, boundary, decodes).value;
    NothingDropped(parts, e);
    var edited := Edited(parts, e);
    assert |edited| == MAX_PARTS + 1;
    DelimiterBreaks(boundary);
    SplitAllFree(edited, Delimiter(boundary));
    ParsePrinted(edited, boundary, decodes, SplitAll(edited, Delimiter(boundary)));
  }

  // ---------------------------------------------------------------- such bodies exist

  const TEXT: Bytes := [97]

  /** A part with the plain header of a field, and a letter for content. */
  function FieldPart(name: Bytes): Part { Part(FenceHeader(name), name, TEXT) }

  function FieldParts(names: seq<Bytes>): seq<Part> { seq(|names|, i requires 0 <= i < |names| => FieldPart(names[i])) }

  predicate Letters(s: Bytes) { 1 <= |s| <= 128 && forall b :: b in s ==> 97 <= b <= 122 }

  lemma LettersAreAName(s: Bytes)
    requires Letters(s)
    ensures FieldName(s)
  {
  }

  /** No two dashes follow each other, so no delimiter can begin. */
  predicate SingleDashes(h: Bytes) { forall i :: 0 <= i < |h| - 1 ==> h[i] != 45 || h[i + 1] != 45 }

  lemma SingleDashesFree(h: Bytes, boundary: Bytes)
    requires SingleDashes(h)
    ensures Free(h, Delimiter(boundary))
  {
    var d := Delimiter(boundary);
    assert d[0] == 45 && d[1] == 45;
    forall i | 0 <= i <= |h|
      ensures !Occurs(h, d, i)
    {
      if i + |d| <= |h| {
        assert h[i..i + |d|][0] == h[i] && h[i..i + |d|][1] == h[i + 1];
      }
    }
  }

  /** The part of the header before the name. */
  const BEFORE: Bytes := PREFIX + [SPACE] + FORM_DATA + [SEMICOLON, SPACE] + NAME

  lemma BeforeHasSingleDashes()
    ensures SingleDashes(BEFORE) && BEFORE != [] && BEFORE[|BEFORE| - 1] == QUOTE
  {
  }

  lemma HeaderIs(name: Bytes)
    ensures FenceHeader(name) == BEFORE + name + [QUOTE]
  {
  }

  lemma HeaderHasSingleDashes(name: Bytes)
    requires Letters(name)
    ensures SingleDashes(FenceHeader(name))
  {
    HeaderIs(name);
    BeforeHasSingleDashes();
    hide FenceHeader;
    var h := FenceHeader(name);
    forall i | 0 <= i < |h| - 1
      ensures h[i] != 45 || h[i + 1] != 45
    {
      if i >= |BEFORE| {
        assert h[i] == name[i - |BEFORE|] && name[i - |BEFORE|] in name;
      } else if i < |BEFORE| - 1 {
        assert h[i] == BEFORE[i] && h[i + 1] == BEFORE[i + 1];
      }
    }
  }

  lemma FieldPartReturns(name: Bytes, boundary: Bytes, decodes: Bytes -> bool)
    requires IsBoundary(boundary) && Letters(name) && decodes(TEXT)
    ensures Returns(FieldPart(name), boundary, decodes)
  {
    LettersAreAName(name);
    FenceHeaderNames(name);
    HeaderHasSingleDashes(name);
    SingleDashesFree(FenceHeader(name), boundary);
    SingleDashesFree(TEXT, boundary);
    hide FenceHeader, Free, Readable, Segment, HeaderEnds, ReadHeader;
    ComesBack(FieldPart(name), boundary, decodes);
  }

  lemma FieldPartsParse(names: seq<Bytes>, boundary: Bytes, decodes: Bytes -> bool)
    requires IsBoundary(boundary) && 1 <= |names| <= MAX_PARTS && decodes(TEXT)
    requires forall n :: n in names ==> Letters(n)
    requires forall i, j :: 0 <= i < j < |names| ==> names[i] != names[j]
    ensures Parse(Print(FieldParts(names), boundary), boundary, decodes) == Ok(FieldParts(names))
  {
    hide Parse, Print, Returns, FenceHeader, Letters;
    var parts := FieldParts(names);
    forall p | p in parts
      ensures Returns(p, boundary, decodes)
    {
      var i :| 0 <= i < |parts| && parts[i] == p;
      assert names[i] in names;
      FieldPartReturns(names[i], boundary, decodes);
    }
    assert DistinctNames(parts);
    PrintParse(parts, boundary, decodes);
  }

  /** `model`, `file`, and then three letters for every number. */
  function NameOf(i: nat): Bytes
    requires i < MAX_PARTS
  {
    if i == 0 then [109, 111, 100, 101, 108]
    else if i == 1 then [102, 105, 108, 101]
    else [97 + i / 100, 97 + i / 10 % 10, 97 + i % 10]
  }

  function ThousandNames(): seq<Bytes> { seq(MAX_PARTS, i requires 0 <= i < MAX_PARTS => NameOf(i)) }

  lemma Digits(i: nat)
    ensures i == 100 * (i / 100) + 10 * (i / 10 % 10) + i % 10
  {
    assert i / 10 / 10 == i / 100;
  }

  lemma NameIsLetters(i: nat)
    requires i < MAX_PARTS
    ensures Letters(NameOf(i))
  {
  }

  lemma NamesDiffer(i: nat, j: nat)
    requires i < j < MAX_PARTS
    ensures NameOf(i) != NameOf(j)
  {
    Digits(i);
    Digits(j);
    var a, b := NameOf(i), NameOf(j);
    if i > 1 {
      assert i / 100 != j / 100 || i / 10 % 10 != j / 10 % 10 || i % 10 != j % 10;
      assert a[0] != b[0] || a[1] != b[1] || a[2] != b[2];
    } else {
      assert |a| > |b|;
    }
  }

  lemma ThousandParse(boundary: Bytes, decodes: Bytes -> bool)
    requires IsBoundary(boundary) && decodes(TEXT)
    ensures Parse(Print(FieldParts(ThousandNames()), boundary), boundary, decodes) == Ok(FieldParts(ThousandNames()))
    ensures |FieldParts(ThousandNames())| == MAX_PARTS
  {
    hide Parse, Print, FieldParts, Letters, NameOf;
    var names := ThousandNames();
    forall n | n in names
      ensures Letters(n)
    {
      var i :| 0 <= i < |names| && names[i] == n;
      NameIsLetters(i);
    }
    forall i, j | 0 <= i < j < |names|
      ensures names[i] != names[j]
    {
      NamesDiffer(i, j);
    }
    FieldPartsParse(names, boundary, decodes);
    hide *;
    FieldPartsLength(names);
  }

  lemma FieldPartsLength(names: seq<Bytes>)
    ensures |FieldParts(names)| == |names| && forall i :: 0 <= i < |names| ==> FieldParts(names)[i].name == names[i]
  {
  }

  // ---------------------------------------------------------------- they stay below the size limit

  lemma {:induction false} PrintSize(parts: seq<Part>, boundary: Bytes, most: nat)
    requires forall p :: p in parts ==> |Segment(p)| <= most
    ensures |Print(parts, boundary)| <= (|parts| + 1) * (|boundary| + most + 6)
    decreases |parts|
  {
    hide Segment;
    if parts != [] {
      assert parts[0] in parts && forall p :: p in parts[1..] ==> p in parts;
      PrintSize(parts[1..], boundary, most);
      OneMore(|parts|, |boundary| + most + 6);
    }
  }

  lemma OneMore(n: nat, k: nat)
    ensures (n + 1) * k == n * k + k
  {
  }

  /** Content of at most ten thousand bytes under a header of at most two hundred. */
  predicate Small(p: Part) { |p.header| <= 200 && |p.content| <= 10_000 }

  lemma HeaderSize(name: Bytes)
    ensures |FenceHeader(name)| == |name| + 39
  {
    ConstantsClean();
  }

  lemma SmallSegment(p: Part)
    requires Small(p)
    ensures |Segment(p)| <= 10_208
  {
  }

  lemma EditedIsSmall(parts: seq<Part>, e: Edit)
    requires (forall p :: p in parts ==> Small(p)) && FieldName(e.fence) && |e.alias| <= 10_000 && |e.fenceValue| <= 10_000
    ensures forall p :: p in Edited(parts, e) ==> |Segment(p)| <= 10_208
  {
    hide Segment, FenceHeader, HasFence;
    EditedMembers(parts, e);
    HeaderSize(e.fence);
    forall p | p in Edited(parts, e)
      ensures Small(p)
    {
    }
    forall p | p in Edited(parts, e)
      ensures |Segment(p)| <= 10_208
    {
      SmallSegment(p);
    }
  }

  lemma NamesAreShort(i: nat)
    requires i < |FieldParts(ThousandNames())|
    ensures Small(FieldParts(ThousandNames())[i]) && FieldParts(ThousandNames())[i].name in ThousandNames()
  {
    FieldPartsLength(ThousandNames());
    HeaderSize(ThousandNames()[i]);
    hide FenceHeader;
  }

  lemma ThousandIsSmall(e: Edit, boundary: Bytes)
    requires FieldName(e.fence) && |boundary| <= 70 && |e.alias| <= 10_000 && |e.fenceValue| <= 10_000
    ensures |Print(Edited(FieldParts(ThousandNames()), e), boundary)| <= MAX_BODY
  {
    hide Print, Segment, ThousandNames, FieldParts, Edited, Small, FieldName;
    var parts := FieldParts(ThousandNames());
    forall p | p in parts
      ensures Small(p)
    {
      var i :| 0 <= i < |parts| && parts[i] == p;
      NamesAreShort(i);
    }
    EditedIsSmall(parts, e);
    EditedCount(parts, e);
    FieldPartsLength(ThousandNames());
    NamesCount();
    PrintSize(Edited(parts, e), boundary, 10_208);
    AtMost(|Edited(parts, e)| + 1, 1002, |boundary| + 10_208 + 6, 10_284);
  }

  lemma NamesCount()
    ensures |ThousandNames()| == MAX_PARTS
  {
  }

  lemma AtMost(a: nat, b: nat, c: nat, d: nat)
    requires a <= b && c <= d
    ensures a * c <= b * d
  {
    assert a * c <= b * c <= b * d;
  }

  lemma EditedCount(parts: seq<Part>, e: Edit)
    ensures |Edited(parts, e)| <= |parts| + 1
  {
    EditedMembers(parts, e);
    hide EditAll, HasFence;
  }

  /** A request of a thousand fields, `model` and `file` among them, is parsed and rewritten, and what is sent
      on cannot be parsed: for every boundary, every fence that is none of the fields, and reserved names that
      are none of them either. */
  lemma ThousandFieldsAreRewrittenAndRefused(boundary: Bytes, e: Edit, decodes: Bytes -> bool)
    requires IsBoundary(boundary) && |boundary| <= 70 && decodes(TEXT)
    requires FieldName(e.fence) && e.fence !in ThousandNames() && forall n :: n in ThousandNames() ==> n !in e.reserved
    requires |e.alias| <= 10_000 && |e.fenceValue| <= 10_000
    ensures var body := Print(FieldParts(ThousandNames()), boundary);
            && Parse(body, boundary, decodes) == Ok(FieldParts(ThousandNames()))
            && Rewrite(body, boundary, e, decodes).Ok?
            && Parse(Rewrite(body, boundary, e, decodes).value, boundary, decodes) == Reject(PartLimit)
  {
    hide Parse, Print, Edited, ThousandNames, FieldParts, FieldName;
    var parts := FieldParts(ThousandNames());
    ThousandParse(boundary, decodes);
    ThousandIsSmall(e, boundary);
    forall p | p in parts
      ensures p.name in ThousandNames()
    {
      var i :| 0 <= i < |parts| && parts[i] == p;
      NamesAreShort(i);
    }
    FullBodyOutgrowsTheLimit(Print(parts, boundary), boundary, e, decodes);
  }
}
