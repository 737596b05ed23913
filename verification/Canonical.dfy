/** Canonical JSON, section 3 of RFC 8785, without floating-point numbers, and the normalisation of arrays
    that stand for sets. Text is a sequence of Unicode scalar values; UTF-8 orders and distinguishes
    strings as their scalar values do. */
module Canonical {
  import opened Common

  type Text = seq<nat>

  /** JSON values. An object lists its fields in insertion order. */
  datatype Json = Null | Bool(b: bool) | Int(i: int) | Str(s: Text) | Arr(items: List) | Obj(fields: Fields)

  datatype List = Nil | Cons(head: Json, tail: List)

  datatype Fields = End | Field(key: Text, value: Json, rest: Fields)

  const MAX_SAFE := 9007199254740991

  predicate Scalar(c: nat) { c < 0x110000 && !(0xD800 <= c <= 0xDFFF) }

  // ---------------------------------------------------------------- orders

  /** Lexicographic order on sequences of numbers; a prefix comes first. */
  predicate Less(a: seq<int>, b: seq<int>) {
    if b == [] then false
    else if a == [] then true
    else a[0] < b[0] || (a[0] == b[0] && Less(a[1..], b[1..]))
  }

  predicate AtMost(a: seq<int>, b: seq<int>) { !Less(b, a) }

  lemma {:induction false} LessTotal(a: seq<int>, b: seq<int>)
    ensures AtMost(a, b) && AtMost(b, a) ==> a == b
    ensures AtMost(a, b) || AtMost(b, a)
  {
    if a != [] && b != [] {
      LessTotal(a[1..], b[1..]);
      assert a == [a[0]] + a[1..] && b == [b[0]] + b[1..];
    }
  }

  lemma {:induction false} AtMostTransitive(a: seq<int>, b: seq<int>, c: seq<int>)
    requires AtMost(a, b) && AtMost(b, c)
    ensures AtMost(a, c)
  {
    if a != [] && b != [] && c != [] {
      if a[0] == b[0] && b[0] == c[0] {
        AtMostTransitive(a[1..], b[1..], c[1..]);
      }
    }
  }

  /** The UTF-16 code units of a text. */
  function Utf16(t: Text): seq<int> {
    if t == [] then []
    else (if t[0] < 0x10000 then [t[0]] else [0xD800 + (t[0] - 0x10000) / 0x400, 0xDC00 + (t[0] - 0x10000) % 0x400]) + Utf16(t[1..])
  }

  predicate Scalars(t: Text) { forall c :: c in t ==> Scalar(c) }

  /** Distinct texts have distinct code units. */
  lemma {:induction false} Utf16Injective(a: Text, b: Text)
    requires Scalars(a) && Scalars(b) && Utf16(a) == Utf16(b)
    ensures a == b
  {
    if a != [] && b != [] {
      assert a[0] in a && b[0] in b;
      Utf16Head(a, b);
      assert Scalars(a[1..]) && Scalars(b[1..]);
      Utf16Injective(a[1..], b[1..]);
      assert a == [a[0]] + a[1..] && b == [b[0]] + b[1..];
    }
  }

  function Units(c: nat): seq<int> {
    if c < 0x10000 then [c] else [0xD800 + (c - 0x10000) / 0x400, 0xDC00 + (c - 0x10000) % 0x400]
  }

  lemma UnitsInjective(a: nat, b: nat)
    requires Scalar(a) && Scalar(b) && Units(a)[0] == Units(b)[0]
    ensures |Units(a)| == |Units(b)| && (Units(a) == Units(b) ==> a == b)
  {
  }

  lemma Utf16Head(a: Text, b: Text)
    requires a != [] && b != [] && Scalar(a[0]) && Scalar(b[0]) && Utf16(a) == Utf16(b)
    ensures a[0] == b[0] && Utf16(a[1..]) == Utf16(b[1..])
  {
    var u, v := Units(a[0]), Units(b[0]);
    assert Utf16(a) == u + Utf16(a[1..]) && Utf16(b) == v + Utf16(b[1..]);
    assert u[0] == Utf16(a)[0] == v[0];
    UnitsInjective(a[0], b[0]);
    assert u == Utf16(a)[..|u|] == v;
    assert Utf16(a[1..]) == Utf16(a)[|u|..];
    assert Utf16(b[1..]) == Utf16(b)[|v|..];
  }

  // ---------------------------------------------------------------- text of scalars

  const QUOTE := 34
  const BACKSLASH := 92
  const COMMA := 44
  const COLON := 58

  function Hex(n: nat): nat
    requires n < 16
  {
    if n < 10 then 48 + n else 87 + n
  }

  /** How one character is written inside a string. */
  function Escape(c: nat): Text {
    if c == QUOTE then [BACKSLASH, QUOTE]
    else if c == BACKSLASH then [BACKSLASH, BACKSLASH]
    else if c == 10 then [BACKSLASH, 110]
    else if c == 13 then [BACKSLASH, 114]
    else if c == 9 then [BACKSLASH, 116]
    else if c == 12 then [BACKSLASH, 102]
    else if c == 8 then [BACKSLASH, 98]
    else if c < 32 then [BACKSLASH, 117, 48, 48, 48 + c / 16, Hex(c % 16)]
    else [c]
  }

  /** The characters of a string and its closing quote. */
  function Chars(s: Text): Text { if s == [] then [QUOTE] else Escape(s[0]) + Chars(s[1..]) }

  function Quoted(s: Text): Text { [QUOTE] + Chars(s) }

  function Digits(n: nat): Text { if n < 10 then [48 + n] else Digits(n / 10) + [48 + n % 10] }

  function Decimal(i: int): Text { if i < 0 then [45] + Digits(-i) else Digits(i) }

  // ---------------------------------------------------------------- rendering, in the order given

  function Render(v: Json): Text {
    match v
    case Null => [110, 117, 108, 108]
    case Bool(b) => if b then [116, 114, 117, 101] else [102, 97, 108, 115, 101]
    case Int(i) => Decimal(i)
    case Str(s) => Quoted(s)
    case Arr(items) => [91] + RenderItems(items)
    case Obj(fields) => [123] + RenderFields(fields)
  }

  /** The elements and the closing bracket. */
  function RenderItems(items: List): Text {
    match items
    case Nil => [93]
    case Cons(head, tail) => Render(head) + RenderMore(tail)
  }

  function RenderMore(items: List): Text {
    match items
    case Nil => [93]
    case Cons(head, tail) => [COMMA] + (Render(head) + RenderMore(tail))
  }

  function RenderFields(fields: Fields): Text {
    match fields
    case End => [125]
    case Field(key, value, rest) => Quoted(key) + ([COLON] + (Render(value) + RenderMoreFields(rest)))
  }

  function RenderMoreFields(fields: Fields): Text {
    match fields
    case End => [125]
    case Field(key, value, rest) => [COMMA] + (Quoted(key) + ([COLON] + (Render(value) + RenderMoreFields(rest))))
  }

  // ---------------------------------------------------------------- rendering loses nothing

  /** A text that can follow a value: empty, or starting with a delimiter. */
  predicate Stops(x: Text) { x != [] ==> x[0] in {COMMA, COLON, 93, 125} }

  lemma {:induction false} DigitsAre(n: nat)
    ensures Digits(n) != [] && forall k :: 0 <= k < |Digits(n)| ==> 48 <= Digits(n)[k] <= 57
  {
    if n >= 10 {
      DigitsAre(n / 10);
    }
  }

  lemma {:induction false} DigitsInjective(m: nat, n: nat)
    requires Digits(m) == Digits(n)
    ensures m == n
    decreases m
  {
    DigitsAre(m / 10);
    DigitsAre(n / 10);
    var a, b := Digits(m), Digits(n);
    assert a[|a| - 1] == 48 + m % 10 && b[|b| - 1] == 48 + n % 10;
    if m >= 10 && n >= 10 {
      assert Digits(m / 10) == a[..|a| - 1] == b[..|b| - 1] == Digits(n / 10);
      DigitsInjective(m / 10, n / 10);
    }
  }

  /** A run of digits ends where the delimiter begins. */
  lemma RunsEnd(a: Text, b: Text, x: Text, y: Text)
    requires a + x == b + y && Stops(x) && Stops(y)
    requires (forall k :: 0 <= k < |a| ==> 48 <= a[k] <= 57) && forall k :: 0 <= k < |b| ==> 48 <= b[k] <= 57
    ensures a == b && x == y
  {
    var whole := a + x;
    assert |a| < |whole| ==> whole[|a|] == x[0];
    assert |b| < |whole| ==> whole[|b|] == y[0];
    assert a == whole[..|a|] && b == whole[..|b|] && x == whole[|a|..] && y == whole[|b|..];
  }

  lemma DecimalUnique(i: int, j: int, x: Text, y: Text)
    requires Decimal(i) + x == Decimal(j) + y && Stops(x) && Stops(y)
    ensures i == j && x == y
  {
    SignSeen(i, x);
    SignSeen(j, y);
    hide Digits, Stops;
    if i < 0 {
      NegativeTail(i, x);
      NegativeTail(j, y);
      DigitsUnique(-i, -j, x, y);
    } else {
      DigitsUnique(i, j, x, y);
    }
  }

  lemma NegativeTail(i: int, x: Text)
    requires i < 0
    ensures (Decimal(i) + x)[1..] == Digits(-i) + x
  {
    hide Digits;
  }

  lemma SignSeen(i: int, x: Text)
    ensures Decimal(i) + x != [] && ((Decimal(i) + x)[0] == 45 <==> i < 0)
  {
    var m := if i < 0 then -i else i;
    DigitsAre(m);
  }

  lemma DigitsUnique(m: nat, n: nat, x: Text, y: Text)
    requires Digits(m) + x == Digits(n) + y && Stops(x) && Stops(y)
    ensures m == n && x == y
  {
    DigitsAre(m);
    DigitsAre(n);
    RunsEnd(Digits(m), Digits(n), x, y);
    DigitsInjective(m, n);
  }

  lemma EscapeUnique(c: nat, d: nat, x: Text, y: Text)
    requires Escape(c) + x == Escape(d) + y
    ensures c == d && x == y
  {
    var whole := Escape(c) + x;
    assert whole[0] == Escape(c)[0] == Escape(d)[0];
    if Escape(c)[0] == BACKSLASH {
      assert whole[1] == Escape(c)[1] == Escape(d)[1];
      if Escape(c)[1] == 117 {
        assert whole[4] == Escape(c)[4] == Escape(d)[4] && whole[5] == Escape(c)[5] == Escape(d)[5];
      }
    }
    assert |Escape(c)| == |Escape(d)|;
    assert x == whole[|Escape(c)|..] && y == whole[|Escape(d)|..];
  }

  lemma {:induction false} CharsUnique(s: Text, t: Text, x: Text, y: Text)
    requires Chars(s) + x == Chars(t) + y
    ensures s == t && x == y
  {
    var whole := Chars(s) + x;
    CharsHead(s, x);
    CharsHead(t, y);
    if s == [] && t == [] {
      assert x == whole[1..] == y;
    } else if s != [] && t != [] {
      EscapeUnique(s[0], t[0], Chars(s[1..]) + x, Chars(t[1..]) + y);
      CharsUnique(s[1..], t[1..], x, y);
      assert s == [s[0]] + s[1..] && t == [t[0]] + t[1..];
    }
  }

  /** The closing quote is the only one that is not escaped. */
  lemma CharsHead(s: Text, x: Text)
    ensures (Chars(s) + x)[0] == QUOTE <==> s == []
    ensures s != [] ==> Chars(s) + x == Escape(s[0]) + (Chars(s[1..]) + x)
  {
  }

  lemma QuotedUnique(s: Text, t: Text, x: Text, y: Text)
    requires Quoted(s) + x == Quoted(t) + y
    ensures s == t && x == y
  {
    assert (Quoted(s) + x)[1..] == Chars(s) + x && (Quoted(t) + y)[1..] == Chars(t) + y;
    CharsUnique(s, t, x, y);
  }

  /** The first character tells the kind of value. */
  function Kind(c: nat): nat {
    if c == 110 then 0 else if c == 116 then 1 else if c == 102 then 2 else if c == QUOTE then 4 else if c == 91 then 5 else if c == 123 then 6
    else if c == 45 || 48 <= c <= 57 then 3 else 7
  }

  function KindOf(v: Json): nat {
    match v
    case Null => 0
    case Bool(b) => if b then 1 else 2
    case Int(_) => 3
    case Str(_) => 4
    case Arr(_) => 5
    case Obj(_) => 6
  }

  lemma KindSeen(v: Json, x: Text)
    ensures Render(v) != [] && Kind((Render(v) + x)[0]) == KindOf(v)
  {
    match v
    case Int(i) =>
      SignSeen(i, x);
      DigitsAre(if i < 0 then -i else i);
    case _ =>
  }

  lemma Drop(c: nat, a: Text, x: Text)
    ensures ([c] + a) + x == [c] + (a + x) && (([c] + a) + x)[1..] == a + x
  {
  }

  lemma Group(a: Text, b: Text, x: Text)
    ensures (a + b) + x == a + (b + x)
  {
  }

  /** Rendering is uniquely readable: a value and what follows it can be told apart in only one way. */
  lemma {:induction false} RenderUnique(v: Json, w: Json, x: Text, y: Text)
    requires Render(v) + x == Render(w) + y && Stops(x) && Stops(y)
    ensures v == w && x == y
    decreases v, 0
  {
    KindSeen(v, x);
    KindSeen(w, y);
    match v
    case Int(i) => DecimalUnique(i, w.i, x, y);
    case Str(s) => QuotedUnique(s, w.s, x, y);
    case Arr(items) =>
      Drop(91, RenderItems(items), x);
      Drop(91, RenderItems(w.items), y);
      ItemsUnique(items, w.items, x, y);
    case Obj(fields) =>
      Drop(123, RenderFields(fields), x);
      Drop(123, RenderFields(w.fields), y);
      FieldsUnique(fields, w.fields, x, y);
    case _ =>
      assert Render(v) == Render(w);
      assert x == (Render(v) + x)[|Render(v)|..] && y == (Render(w) + y)[|Render(w)|..];
  }

  lemma ItemsHead(items: List, x: Text)
    ensures RenderItems(items) + x != [] && ((RenderItems(items) + x)[0] == 93 <==> items.Nil?)
    ensures items.Cons? ==> RenderItems(items) + x == Render(items.head) + (RenderMore(items.tail) + x)
  {
    hide Render, RenderMore;
    if items.Cons? {
      KindSeen(items.head, RenderMore(items.tail) + x);
      Group(Render(items.head), RenderMore(items.tail), x);
    }
  }

  lemma MoreHead(items: List, x: Text)
    ensures Stops(RenderMore(items) + x)
    ensures (RenderMore(items) + x)[0] == 93 <==> items.Nil?
    ensures items.Cons? ==> (RenderMore(items) + x)[1..] == Render(items.head) + (RenderMore(items.tail) + x)
  {
    if items.Cons? {
      Drop(COMMA, Render(items.head) + RenderMore(items.tail), x);
      Group(Render(items.head), RenderMore(items.tail), x);
    }
  }

  lemma {:induction false} ItemsUnique(a: List, b: List, x: Text, y: Text)
    requires RenderItems(a) + x == RenderItems(b) + y
    ensures a == b && x == y
    decreases a, 1
  {
    ItemsHead(a, x);
    ItemsHead(b, y);
    if a.Cons? {
      MoreHead(a.tail, x);
      MoreHead(b.tail, y);
      RenderUnique(a.head, b.head, RenderMore(a.tail) + x, RenderMore(b.tail) + y);
      MoreUnique(a.tail, b.tail, x, y);
    } else {
      assert x == (RenderItems(a) + x)[1..] && y == (RenderItems(b) + y)[1..];
    }
  }

  lemma {:induction false} MoreUnique(a: List, b: List, x: Text, y: Text)
    requires RenderMore(a) + x == RenderMore(b) + y
    ensures a == b && x == y
    decreases a, 1
  {
    MoreHead(a, x);
    MoreHead(b, y);
    if a.Cons? {
      MoreHead(a.tail, x);
      MoreHead(b.tail, y);
      RenderUnique(a.head, b.head, RenderMore(a.tail) + x, RenderMore(b.tail) + y);
      MoreUnique(a.tail, b.tail, x, y);
    } else {
      assert x == (RenderMore(a) + x)[1..] && y == (RenderMore(b) + y)[1..];
    }
  }

  /** One field, after whatever precedes it. */
  function RenderField(key: Text, value: Json, rest: Fields): Text { Quoted(key) + ([COLON] + (Render(value) + RenderMoreFields(rest))) }

  lemma FieldParts(key: Text, value: Json, rest: Fields, x: Text)
    ensures RenderField(key, value, rest) + x == Quoted(key) + ([COLON] + (Render(value) + (RenderMoreFields(rest) + x)))
    ensures (RenderField(key, value, rest) + x)[0] == QUOTE
  {
    Group(Quoted(key), [COLON] + (Render(value) + RenderMoreFields(rest)), x);
    Group([COLON], Render(value) + RenderMoreFields(rest), x);
    Group(Render(value), RenderMoreFields(rest), x);
  }

  lemma MoreFieldsHead(fields: Fields, x: Text)
    ensures Stops(RenderMoreFields(fields) + x)
    ensures (RenderMoreFields(fields) + x)[0] == 125 <==> fields.End?
    ensures fields.Field? ==> (RenderMoreFields(fields) + x)[1..] == RenderField(fields.key, fields.value, fields.rest) + x
  {
    if fields.Field? {
      Drop(COMMA, RenderField(fields.key, fields.value, fields.rest), x);
    }
  }

  lemma {:induction false} FieldUnique(a: Fields, b: Fields, x: Text, y: Text)
    requires a.Field? && b.Field?
    requires RenderField(a.key, a.value, a.rest) + x == RenderField(b.key, b.value, b.rest) + y
    ensures a == b && x == y
    decreases a, 0
  {
    FieldParts(a.key, a.value, a.rest, x);
    FieldParts(b.key, b.value, b.rest, y);
    MoreFieldsHead(a.rest, x);
    MoreFieldsHead(b.rest, y);
    var p, q := Render(a.value) + (RenderMoreFields(a.rest) + x), Render(b.value) + (RenderMoreFields(b.rest) + y);
    QuotedUnique(a.key, b.key, [COLON] + p, [COLON] + q);
    assert p == ([COLON] + p)[1..] && q == ([COLON] + q)[1..];
    RenderUnique(a.value, b.value, RenderMoreFields(a.rest) + x, RenderMoreFields(b.rest) + y);
    MoreFieldsUnique(a.rest, b.rest, x, y);
  }

  lemma {:induction false} MoreFieldsUnique(a: Fields, b: Fields, x: Text, y: Text)
    requires RenderMoreFields(a) + x == RenderMoreFields(b) + y
    ensures a == b && x == y
    decreases a, 1
  {
    MoreFieldsHead(a, x);
    MoreFieldsHead(b, y);
    if a.Field? {
      FieldUnique(a, b, x, y);
    } else {
      assert x == (RenderMoreFields(a) + x)[1..] && y == (RenderMoreFields(b) + y)[1..];
    }
  }

  lemma FieldsHead(fields: Fields, x: Text)
    ensures (RenderFields(fields) + x)[0] == 125 <==> fields.End?
    ensures fields.Field? ==> RenderFields(fields) == RenderField(fields.key, fields.value, fields.rest)
  {
    if fields.Field? {
      FieldParts(fields.key, fields.value, fields.rest, x);
    }
  }

  lemma {:induction false} FieldsUnique(a: Fields, b: Fields, x: Text, y: Text)
    requires RenderFields(a) + x == RenderFields(b) + y
    ensures a == b && x == y
    decreases a, 1
  {
    FieldsHead(a, x);
    FieldsHead(b, y);
    if a.Field? {
      FieldUnique(a, b, x, y);
    } else {
      assert x == (RenderFields(a) + x)[1..] && y == (RenderFields(b) + y)[1..];
    }
  }

  /** No two values share the same rendering. */
  lemma RenderInjective(v: Json, w: Json)
    requires Render(v) == Render(w)
    ensures v == w
  {
    assert Render(v) + [] == Render(v) && Render(w) + [] == Render(w);
    RenderUnique(v, w, [], []);
  }
}
