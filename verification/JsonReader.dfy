/** A reader of JSON text (RFC 8259, without white space, fractions and exponents), written from the grammar
    alone, and the proof that it reads every rendering back. */
module JsonReader {
  import opened Common
  import opened Canonical

  // ---------------------------------------------------------------- the grammar

  /** What was read, and the text after it. */
  datatype Read<+T> = Read(value: T, rest: Text)

  predicate Digit(c: nat) { '0' as nat <= c <= '9' as nat }

  /** The number that a run of digits continues, in base ten. */
  function ReadDigits(t: Text, sofar: nat): (r: Read<nat>)
    ensures |r.rest| <= |t|
  {
    if t != [] && Digit(t[0]) then ReadDigits(t[1..], sofar * 10 + (t[0] - '0' as nat)) else Read(sofar, t)
  }

  /** Digits without a superfluous zero in front. */
  function ReadNatural(t: Text): (r: Option<Read<nat>>)
    ensures r.Some? ==> |r.value.rest| < |t|
  {
    if t == [] || !Digit(t[0]) then None
    else if t[0] == '0' as nat && |t| > 1 && Digit(t[1]) then None
    else Some(ReadDigits(t[1..], t[0] - '0' as nat))
  }

  function Negated(n: int): int { -n }

  function ReadInteger(t: Text): (r: Option<Read<int>>)
    ensures r.Some? ==> |r.value.rest| < |t|
  {
    if t != [] && t[0] == '-' as nat then
      var n := ReadNatural(t[1..]);
      if n.None? then None else Some(Read(Negated(n.value.value), n.value.rest))
    else
      var n := ReadNatural(t);
      if n.None? then None else Some(Read(n.value.value as int, n.value.rest))
  }

  function HexDigit(c: nat): Option<nat> {
    if '0' as nat <= c <= '9' as nat then Some(c - '0' as nat)
    else if 'a' as nat <= c <= 'f' as nat then Some(c - 'a' as nat + 10)
    else if 'A' as nat <= c <= 'F' as nat then Some(c - 'A' as nat + 10)
    else None
  }

  /** The character after a backslash stands for itself or for a control character. */
  function Short(c: nat): Option<nat> {
    if c == '"' as nat || c == '\\' as nat || c == '/' as nat then Some(c)
    else if c == 'b' as nat then Some(8)
    else if c == 't' as nat then Some(9)
    else if c == 'n' as nat then Some(10)
    else if c == 'f' as nat then Some(12)
    else if c == 'r' as nat then Some(13)
    else None
  }

  /** Four hexadecimal digits. */
  function ReadHex(t: Text): Option<nat> {
    if |t| < 4 then None
    else
      var a, b, c, d := HexDigit(t[0]), HexDigit(t[1]), HexDigit(t[2]), HexDigit(t[3]);
      if a.None? || b.None? || c.None? || d.None? then None
      else Some(a.value * 4096 + b.value * 256 + c.value * 16 + d.value)
  }

  /** One character of a string. Control characters and quotes have to be escaped. */
  function ReadCharacter(t: Text): (r: Option<Read<nat>>)
    ensures r.Some? ==> |r.value.rest| < |t|
  {
    if t == [] || t[0] < 32 || t[0] == '"' as nat then None
    else if t[0] != '\\' as nat then Some(Read(t[0], t[1..]))
    else if |t| < 2 then None
    else if t[1] == 'u' as nat then
      var c := ReadHex(t[2..]);
      if c.None? then None else Some(Read(c.value, t[6..]))
    else
      var c := Short(t[1]);
      if c.None? then None else Some(Read(c.value, t[2..]))
  }

  /** The characters up to the closing quote. */
  function ReadString(t: Text): (r: Option<Read<Text>>)
    ensures r.Some? ==> |r.value.rest| < |t|
    decreases |t|
  {
    if t != [] && t[0] == '"' as nat then Some(Read([], t[1..]))
    else
      var c := ReadCharacter(t);
      if c.None? then None
      else
        var later := ReadString(c.value.rest);
        if later.None? then None else Some(Read([c.value.value] + later.value.value, later.value.rest))
  }

  function Codes(s: string): Text { seq(|s|, i requires 0 <= i < |s| => s[i] as nat) }

  function ReadWord(t: Text, word: string, v: Json): Option<Read<Json>> {
    if Codes(word) <= t then Some(Read(v, t[|word|..])) else None
  }

  function ReadValue(t: Text): (r: Option<Read<Json>>)
    ensures r.Some? ==> |r.value.rest| < |t|
    decreases |t|, 0
  {
    if t == [] then None
    else if t[0] == 'n' as nat then ReadWord(t, "null", Null)
    else if t[0] == 't' as nat then ReadWord(t, "true", Bool(true))
    else if t[0] == 'f' as nat then ReadWord(t, "false", Bool(false))
    else if t[0] == '"' as nat then
      var s := ReadString(t[1..]);
      if s.None? then None else Some(Read(Str(s.value.value), s.value.rest))
    else if t[0] == '[' as nat then
      if |t| > 1 && t[1] == ']' as nat then Some(Read(Arr(Nil), t[2..]))
      else
        var items := ReadItems(t[1..]);
        if items.None? then None else Some(Read(Arr(items.value.value), items.value.rest))
    else if t[0] == '{' as nat then
      if |t| > 1 && t[1] == '}' as nat then Some(Read(Obj(End), t[2..]))
      else
        var fields := ReadFields(t[1..]);
        if fields.None? then None else Some(Read(Obj(fields.value.value), fields.value.rest))
    else
      var i := ReadInteger(t);
      if i.None? then None else Some(Read(Int(i.value.value), i.value.rest))
  }

  /** Values separated by commas, and the closing bracket. */
  function ReadItems(t: Text): (r: Option<Read<List>>)
    ensures r.Some? ==> |r.value.rest| < |t|
    decreases |t|, 1
  {
    var v := ReadValue(t);
    if v.None? || v.value.rest == [] then None
    else if v.value.rest[0] == ']' as nat then Some(Read(Cons(v.value.value, Nil), v.value.rest[1..]))
    else if v.value.rest[0] != ',' as nat then None
    else
      var more := ReadItems(v.value.rest[1..]);
      if more.None? then None else Some(Read(Cons(v.value.value, more.value.value), more.value.rest))
  }

  /** Members separated by commas, and the closing brace. */
  function ReadFields(t: Text): (r: Option<Read<Fields>>)
    ensures r.Some? ==> |r.value.rest| < |t|
    decreases |t|, 1
  {
    if t == [] || t[0] != '"' as nat then None
    else
      var key := ReadString(t[1..]);
      if key.None? || key.value.rest == [] || key.value.rest[0] != ':' as nat then None
      else
        var v := ReadValue(key.value.rest[1..]);
        if v.None? || v.value.rest == [] then None
        else if v.value.rest[0] == '}' as nat then Some(Read(Field(key.value.value, v.value.value, End), v.value.rest[1..]))
        else if v.value.rest[0] != ',' as nat then None
        else
          var more := ReadFields(v.value.rest[1..]);
          if more.None? then None else Some(Read(Field(key.value.value, v.value.value, more.value.value), more.value.rest))
  }

  /** A text that is one value and nothing else. */
  function Parse(t: Text): Option<Json> {
    var r := ReadValue(t);
    if r.Some? && r.value.rest == [] then Some(r.value.value) else None
  }

  // ---------------------------------------------------------------- numbers

  /** What a run of digits is worth, in base ten. */
  function Worth(digits: Text): int {
    if digits == [] then 0 else Worth(digits[..|digits| - 1]) * 10 + (digits[|digits| - 1] - '0' as nat)
  }

  predicate AllDigits(t: Text) { forall k :: 0 <= k < |t| ==> Digit(t[k]) }

  /** The digits of a number are worth the number, in base ten, and none is superfluous. */
  lemma {:induction false} DigitsAreDecimal(n: nat)
    ensures Digits(n) != [] && AllDigits(Digits(n)) && Worth(Digits(n)) == n
    ensures Digits(n)[0] == '0' as nat <==> n == 0
    ensures n == 0 ==> |Digits(n)| == 1
  {
    if n >= 10 {
      DigitsAreDecimal(n / 10);
      var shorter, all := Digits(n / 10), Digits(n);
      assert all[..|all| - 1] == shorter && all[0] == shorter[0];
    }
  }

  lemma WorthGoesOn(a: Text, c: nat)
    ensures Worth(a + [c]) == Worth(a) * 10 + (c - '0' as nat)
  {
    assert (a + [c])[..|a + [c]| - 1] == a;
  }

  lemma DigitsStep(digits: Text, x: Text, sofar: nat)
    requires digits != [] && Digit(digits[0])
    ensures ReadDigits(digits + x, sofar) == ReadDigits(digits[1..] + x, sofar * 10 + (digits[0] - '0' as nat))
  {
    assert (digits + x)[1..] == digits[1..] + x;
  }

  lemma Regroup(a: Text, digits: Text)
    requires digits != []
    ensures (a + [digits[0]]) + digits[1..] == a + digits
  {
  }

  /** Reading digits from the left adds up to what they are worth. */
  lemma {:induction false} DigitsRead(a: Text, digits: Text, x: Text, sofar: nat)
    requires AllDigits(digits) && (x != [] ==> !Digit(x[0])) && sofar == Worth(a)
    ensures Worth(a + digits) >= 0 && ReadDigits(digits + x, sofar) == Read(Worth(a + digits), x)
    decreases |digits|
  {
    hide Worth;
    if digits == [] {
      assert digits + x == x && a + digits == a;
    } else {
      hide ReadDigits;
      assert AllDigits(digits[1..]);
      DigitsStep(digits, x, sofar);
      WorthGoesOn(a, digits[0]);
      DigitsRead(a + [digits[0]], digits[1..], x, sofar * 10 + (digits[0] - '0' as nat));
      Regroup(a, digits);
    }
  }

  lemma NaturalRead(n: nat, x: Text)
    requires x != [] ==> !Digit(x[0])
    ensures ReadNatural(Digits(n) + x) == Some(Read(n, x))
  {
    DigitsAreDecimal(n);
    var t := Digits(n) + x;
    assert t[0] == Digits(n)[0] && Digit(t[0]);
    assert |t| > 1 ==> t[1] == if |Digits(n)| > 1 then Digits(n)[1] else x[0];
    assert t[1..] == Digits(n)[1..] + x;
    assert AllDigits(Digits(n)[1..]);
    assert [t[0]][..0] == [] && Worth([t[0]]) == t[0] - '0' as nat;
    DigitsRead([t[0]], Digits(n)[1..], x, t[0] - '0' as nat);
    assert [t[0]] + Digits(n)[1..] == Digits(n);
  }

  lemma Signed(m: nat, x: Text)
    ensures ([45] + Digits(m)) + x != [] && (([45] + Digits(m)) + x)[0] == 45 && (([45] + Digits(m)) + x)[1..] == Digits(m) + x
  {
    hide Digits;
  }

  lemma IntegerRead(i: int, x: Text)
    requires x != [] ==> !Digit(x[0])
    ensures ReadInteger(Decimal(i) + x) == Some(Read(i, x))
  {
    var m := if i < 0 then -i else i;
    NaturalRead(m, x);
    DigitsAreDecimal(m);
    hide Digits, ReadNatural, Worth, AllDigits;
    if i < 0 {
      Signed(m, x);
    } else {
      assert (Decimal(i) + x)[0] == Digits(m)[0];
      DigitAt(m);
    }
  }

  lemma DigitAt(m: nat)
    requires Digits(m) != [] && AllDigits(Digits(m))
    ensures Digits(m)[0] != '-' as nat
  {
    hide Digits;
    assert Digit(Digits(m)[0]);
  }

  // ---------------------------------------------------------------- strings

  /** Each character is written so that it is read back, whatever follows. */
  lemma CharacterRead(c: nat, x: Text)
    ensures ReadCharacter(Escape(c) + x) == Some(Read(c, x)) && Escape(c)[0] != '"' as nat
  {
    var t := Escape(c) + x;
    assert t[0] == Escape(c)[0];
    assert t[|Escape(c)|..] == x;
    if |Escape(c)| == 2 {
      assert t[1] == Escape(c)[1];
    }
    if |Escape(c)| == 6 {
      assert t[1] == 'u' as nat && t[2..][0] == '0' as nat && t[2..][1] == '0' as nat;
      assert t[2..][2] == Escape(c)[4] && t[2..][3] == Escape(c)[5];
    }
  }

  /** Nothing is escaped without need, short escapes are used where there is one, and the others have four
      digits in lower case (section 3.2.2.2 of RFC 8785). */
  lemma EscapeIsShortest(c: nat)
    ensures c >= 32 && c != '"' as nat && c != '\\' as nat ==> Escape(c) == [c]
    ensures c == '"' as nat || c == '\\' as nat ==> Escape(c) == ['\\' as nat, c]
    ensures c in {8, 9, 10, 12, 13} ==> |Escape(c)| == 2
    ensures c < 32 && c !in {8, 9, 10, 12, 13} ==>
              && |Escape(c)| == 6 && Escape(c)[..4] == Codes("\\u00")
              && forall k :: 4 <= k < 6 ==> Digit(Escape(c)[k]) || 'a' as nat <= Escape(c)[k] <= 'f' as nat
  {
    assert Codes("\\u00") == [92, 117, 48, 48];
  }

  /** A string is read character by character. */
  lemma StringStep(t: Text, c: nat, rest: Text)
    requires t != [] && t[0] != '"' as nat && ReadCharacter(t) == Some(Read(c, rest))
    ensures var later := ReadString(rest);
            ReadString(t) == if later.None? then None else Some(Read([c] + later.value.value, later.value.rest))
  {
    hide ReadCharacter;
  }

  lemma {:induction false} StringRead(s: Text, x: Text)
    ensures ReadString(Chars(s) + x) == Some(Read(s, x))
    decreases |s|
  {
    if s == [] {
      assert Chars(s) + x == [QUOTE] + x && ([QUOTE] + x)[1..] == x;
    } else {
      hide ReadCharacter, ReadString;
      CharsHead(s, x);
      CharacterRead(s[0], Chars(s[1..]) + x);
      FirstOf(Escape(s[0]), Chars(s[1..]) + x);
      StringStep(Chars(s) + x, s[0], Chars(s[1..]) + x);
      StringRead(s[1..], x);
      assert s == [s[0]] + s[1..];
    }
  }

  lemma FirstOf(a: Text, b: Text)
    requires a != []
    ensures (a + b)[0] == a[0]
  {
  }

  // ---------------------------------------------------------------- values

  predicate Ends(x: Text) { x != [] ==> !Digit(x[0]) }

  lemma WordRead(word: string, v: Json, x: Text)
    ensures ReadWord(Codes(word) + x, word, v) == Some(Read(v, x))
  {
    assert (Codes(word) + x)[..|word|] == Codes(word) && (Codes(word) + x)[|word|..] == x;
  }

  lemma Words()
    ensures Codes("null") == [110, 117, 108, 108] && Codes("true") == [116, 114, 117, 101] && Codes("false") == [102, 97, 108, 115, 101]
  {
  }

  lemma ScalarRead(v: Json, x: Text)
    requires Ends(x) && (v.Null? || v.Bool? || v.Int? || v.Str?)
    ensures ReadValue(Render(v) + x) == Some(Read(v, x))
  {
    hide ReadWord, ReadInteger, ReadString, Decimal, Chars, Codes;
    Words();
    match v
    case Null => WordRead("null", v, x);
    case Bool(b) => if b { WordRead("true", v, x); } else { WordRead("false", v, x); }
    case Int(i) =>
      IntegerRead(i, x);
      IntegerHead(i, x);
    case Str(s) =>
      StringRead(s, x);
      Drop(QUOTE, Chars(s), x);
  }

  lemma IntegerHead(i: int, x: Text)
    ensures Decimal(i) + x != [] && ((Decimal(i) + x)[0] == '-' as nat || Digit((Decimal(i) + x)[0]))
  {
    var m := if i < 0 then -i else i;
    DigitsAreDecimal(m);
    hide Digits, Worth;
    if i >= 0 {
      assert (Decimal(i) + x)[0] == Digits(m)[0];
    }
  }

  /** Every rendering is read back as the value it renders, with what follows it left over. */
  lemma {:induction false} ValueRead(v: Json, x: Text)
    requires Ends(x)
    ensures ReadValue(Render(v) + x) == Some(Read(v, x))
    decreases v, 0
  {
    match v
    case Arr(items) => ArrayRead(items, x);
    case Obj(fields) => ObjectRead(fields, x);
    case _ => ScalarRead(v, x);
  }

  lemma Brackets(items: List, fields: Fields)
    ensures Render(Arr(items)) == [91] + RenderItems(items) && Render(Obj(fields)) == [123] + RenderFields(fields)
  {
  }

  lemma {:induction false} ArrayRead(items: List, x: Text)
    requires Ends(x)
    ensures ReadValue(Render(Arr(items)) + x) == Some(Read(Arr(items), x))
    decreases items, 3
  {
    hide ReadItems, Render, RenderMore;
    Drop(91, RenderItems(items), x);
    ItemsHead(items, x);
    var t := Render(Arr(items)) + x;
    Brackets(items, End);
    if items.Cons? {
      ItemsRead(items, x);
    } else {
      assert t[2..] == t[1..][1..] == x;
    }
  }

  /** What follows an element: a bracket, or a comma and the next one. */
  lemma MoreIs(items: List, x: Text)
    ensures Ends(RenderMore(items) + x)
    ensures items.Nil? ==> RenderMore(items) + x == [93] + x
    ensures items.Cons? ==> RenderMore(items) + x == [COMMA] + (RenderItems(items) + x)
  {
    hide Render;
    if items.Cons? {
      Drop(COMMA, Render(items.head) + RenderMore(items.tail), x);
    }
  }

  lemma {:induction false} ItemsRead(items: List, x: Text)
    requires items.Cons?
    ensures ReadItems(RenderItems(items) + x) == Some(Read(items, x))
    decreases items, 2
  {
    hide ReadValue, Render;
    var after := RenderMore(items.tail) + x;
    ItemsHead(items, x);
    MoreIs(items.tail, x);
    ValueRead(items.head, after);
    if items.tail.Cons? {
      ItemsRead(items.tail, x);
      assert after[1..] == RenderItems(items.tail) + x;
    } else {
      assert after[1..] == x;
    }
  }

  lemma {:induction false} ObjectRead(fields: Fields, x: Text)
    requires Ends(x)
    ensures ReadValue(Render(Obj(fields)) + x) == Some(Read(Obj(fields), x))
    decreases fields, 3
  {
    hide ReadFields, Render, RenderMoreFields;
    Drop(123, RenderFields(fields), x);
    FieldsHead(fields, x);
    var t := Render(Obj(fields)) + x;
    Brackets(Nil, fields);
    if fields.Field? {
      FieldsRead(fields, x);
    } else {
      assert t[2..] == t[1..][1..] == x;
    }
  }

  lemma MoreFieldsAre(fields: Fields, x: Text)
    ensures Ends(RenderMoreFields(fields) + x)
    ensures fields.End? ==> RenderMoreFields(fields) + x == [125] + x
    ensures fields.Field? ==> RenderMoreFields(fields) + x == [COMMA] + (RenderFields(fields) + x)
  {
    hide Render;
    if fields.Field? {
      Drop(COMMA, RenderField(fields.key, fields.value, fields.rest), x);
    }
  }

  /** A member's parts, one after the other. */
  lemma FieldIs(fields: Fields, x: Text)
    requires fields.Field?
    ensures RenderFields(fields) + x == [QUOTE] + (Chars(fields.key) + ([COLON] + (Render(fields.value) + (RenderMoreFields(fields.rest) + x))))
  {
    FieldParts(fields.key, fields.value, fields.rest, x);
    hide Render, RenderMoreFields, Chars;
    var tail := [COLON] + (Render(fields.value) + (RenderMoreFields(fields.rest) + x));
    Drop(QUOTE, Chars(fields.key), tail);
  }

  lemma {:induction false} FieldsRead(fields: Fields, x: Text)
    requires fields.Field?
    ensures ReadFields(RenderFields(fields) + x) == Some(Read(fields, x))
    decreases fields, 2
  {
    hide ReadValue, Render, ReadString, Chars, RenderFields, RenderMoreFields;
    var after := RenderMoreFields(fields.rest) + x;
    var value := Render(fields.value) + after;
    FieldIs(fields, x);
    StringRead(fields.key, [COLON] + value);
    MoreFieldsAre(fields.rest, x);
    ValueRead(fields.value, after);
    assert ([COLON] + value)[1..] == value;
    if fields.rest.Field? {
      FieldsRead(fields.rest, x);
      assert after[1..] == RenderFields(fields.rest) + x;
    } else {
      assert after[1..] == x;
    }
  }

  /** Reading the rendering of a value gives the value. */
  lemma ReadBack(v: Json)
    ensures Parse(Render(v)) == Some(v)
  {
    ValueRead(v, []);
    assert Render(v) + [] == Render(v);
  }
}
