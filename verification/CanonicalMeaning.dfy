/** What canonical bytes say, in terms of the JSON text that a reader sees: which value they read back as, in
    which order keys and elements stand, and what the orders mean. */
module CanonicalMeaning {
  import opened Common
  import opened Canonical
  import opened CanonicalForm
  import opened JsonReader

  // ---------------------------------------------------------------- orders

  /** `a` comes before `b`: at the first difference it is smaller, or it ends there. */
  ghost predicate Precedes(a: seq<int>, b: seq<int>) {
    exists k :: PrecedesAt(a, b, k)
  }

  predicate PrecedesAt(a: seq<int>, b: seq<int>, k: int) {
    0 <= k <= |a| && k < |b| && a[..k] == b[..k] && (k == |a| || a[k] < b[k])
  }

  lemma {:induction false} LessIs(a: seq<int>, b: seq<int>)
    ensures Less(a, b) <==> Precedes(a, b)
    decreases |a|
  {
    if b == [] {
    } else if a == [] {
      assert PrecedesAt(a, b, 0);
    } else if a[0] == b[0] {
      LessIs(a[1..], b[1..]);
      if Less(a, b) {
        var k :| PrecedesAt(a[1..], b[1..], k);
        OneLater(a, b, k);
      }
      if k :| PrecedesAt(a, b, k) {
        OneSooner(a, b, k);
      }
    } else {
      if a[0] < b[0] {
        assert PrecedesAt(a, b, 0);
      }
      if k :| PrecedesAt(a, b, k) {
        NotEqual(a, b, k);
      }
    }
  }

  lemma OneLater(a: seq<int>, b: seq<int>, k: int)
    requires a != [] && b != [] && a[0] == b[0] && PrecedesAt(a[1..], b[1..], k)
    ensures PrecedesAt(a, b, k + 1)
  {
    assert a[..k + 1] == [a[0]] + a[1..][..k] && b[..k + 1] == [b[0]] + b[1..][..k];
  }

  lemma OneSooner(a: seq<int>, b: seq<int>, k: int)
    requires a != [] && b != [] && a[0] == b[0] && PrecedesAt(a, b, k)
    ensures PrecedesAt(a[1..], b[1..], k - 1)
  {
    assert a[1..][..k - 1] == a[..k][1..] && b[1..][..k - 1] == b[..k][1..];
  }

  lemma NotEqual(a: seq<int>, b: seq<int>, k: int)
    requires a != [] && b != [] && a[0] != b[0] && PrecedesAt(a, b, k)
    ensures k == 0 && a[0] < b[0]
  {
    if k > 0 {
      SameStart(a, b, k);
    }
  }

  lemma SameStart(a: seq<int>, b: seq<int>, k: int)
    requires 0 < k <= |a| && k <= |b| && a[..k] == b[..k]
    ensures a[0] == b[0]
  {
    assert a[0] == a[..k][0] == b[..k][0] == b[0];
  }

  predicate HighUnit(u: int) { 0xD800 <= u < 0xDC00 }

  predicate LowUnit(u: int) { 0xDC00 <= u < 0xE000 }

  /** Reading UTF-16: a pair of surrogates is one character, and any other unit stands for itself. */
  function FromUtf16(units: seq<int>): Option<Text> {
    if units == [] then Some([])
    else if HighUnit(units[0]) && |units| > 1 && LowUnit(units[1]) then
      var later := FromUtf16(units[2..]);
      if later.None? then None else Some([0x10000 + (units[0] - 0xD800) * 0x400 + (units[1] - 0xDC00)] + later.value)
    else if units[0] < 0 || HighUnit(units[0]) || LowUnit(units[0]) then None
    else
      var later := FromUtf16(units[1..]);
      if later.None? then None else Some([units[0]] + later.value)
  }

  /** The code units of a text are its UTF-16 encoding. */
  lemma {:induction false} Utf16Reads(t: Text)
    requires Scalars(t)
    ensures FromUtf16(Utf16(t)) == Some(t)
    decreases |t|
  {
    if t != [] {
      assert Scalar(t[0]) by { assert t[0] in t; }
      assert Scalars(t[1..]);
      Utf16Reads(t[1..]);
      UnitsRead(t[0], Utf16(t[1..]), t[1..]);
      assert Utf16(t) == Units(t[0]) + Utf16(t[1..]);
      assert t == [t[0]] + t[1..];
    }
  }

  lemma UnitsRead(c: nat, rest: seq<int>, later: Text)
    requires Scalar(c) && FromUtf16(rest) == Some(later)
    ensures FromUtf16(Units(c) + rest) == Some([c] + later)
  {
    var all := Units(c) + rest;
    if c < 0x10000 {
      assert all[0] == c && all[1..] == rest;
    } else {
      Halves(c - 0x10000);
      assert all[0] == Units(c)[0] && all[1] == Units(c)[1] && all[2..] == rest;
    }
  }

  lemma Halves(n: nat)
    requires n < 0x100000
    ensures 0 <= n / 0x400 < 0x400 && 0 <= n % 0x400 < 0x400 && n == (n / 0x400) * 0x400 + n % 0x400
  {
  }

  // ---------------------------------------------------------------- canonical bytes

  /** Every integer is one that ECMAScript represents exactly. */
  predicate InRange(v: Json) {
    match v
    case Int(i) => -0x1F_FFFF_FFFF_FFFF <= i <= 0x1F_FFFF_FFFF_FFFF
    case Arr(items) => ItemsInRange(items)
    case Obj(fields) => FieldsInRange(fields)
    case _ => true
  }

  predicate ItemsInRange(l: List) {
    match l
    case Nil => true
    case Cons(head, tail) => InRange(head) && ItemsInRange(tail)
  }

  predicate FieldsInRange(f: Fields) {
    match f
    case End => true
    case Field(_, value, rest) => InRange(value) && FieldsInRange(rest)
  }

  lemma {:induction false} RangeIs(v: Json)
    ensures Safe(v) <==> InRange(v)
    decreases v
  {
    match v
    case Arr(items) => ItemsRangeIs(items);
    case Obj(fields) => FieldsRangeIs(fields);
    case _ =>
  }

  lemma {:induction false} ItemsRangeIs(l: List)
    ensures SafeItems(l) <==> ItemsInRange(l)
    decreases l
  {
    if l.Cons? {
      RangeIs(l.head);
      ItemsRangeIs(l.tail);
    }
  }

  lemma {:induction false} FieldsRangeIs(f: Fields)
    ensures SafeFields(f) <==> FieldsInRange(f)
    decreases f
  {
    if f.Field? {
      RangeIs(f.value);
      FieldsRangeIs(f.rest);
    }
  }

  /** In every object, at any depth, each key precedes the next one in UTF-16. */
  ghost predicate KeysOrdered(v: Json) {
    match v
    case Arr(items) => ItemsOrdered(items)
    case Obj(fields) => FieldsOrdered(fields)
    case _ => true
  }

  ghost predicate ItemsOrdered(l: List) {
    match l
    case Nil => true
    case Cons(head, tail) => KeysOrdered(head) && ItemsOrdered(tail)
  }

  ghost predicate FieldsOrdered(f: Fields) {
    match f
    case End => true
    case Field(key, value, rest) =>
      KeysOrdered(value) && FieldsOrdered(rest) && (rest.Field? ==> Precedes(Utf16(key), Utf16(rest.key)))
  }

  lemma {:induction false} CanonOrdered(v: Json)
    requires Keyed(v)
    ensures KeysOrdered(Canon(v))
    decreases v
  {
    match v
    case Arr(items) => CanonItemsOrdered(items);
    case Obj(fields) =>
      CanonFieldsKeyed(fields);
      SortFieldsSorts(CanonFields(fields));
      SortKeyed(CanonFields(fields));
      ValuesCanon(fields);
      SortValues(CanonFields(fields));
      StrictlySorted(SortFields(CanonFields(fields)));
    case _ =>
  }

  lemma {:induction false} CanonItemsOrdered(l: List)
    requires KeyedItems(l)
    ensures ItemsOrdered(CanonItems(l))
    decreases l
  {
    if l.Cons? {
      CanonOrdered(l.head);
      CanonItemsOrdered(l.tail);
    }
  }

  /** Every value of the object has ordered keys. */
  ghost predicate ValuesOrdered(f: Fields) { f.Field? ==> KeysOrdered(f.value) && ValuesOrdered(f.rest) }

  lemma {:induction false} ValuesCanon(f: Fields)
    requires KeyedFields(f)
    ensures ValuesOrdered(CanonFields(f))
    decreases f
  {
    if f.Field? {
      CanonOrdered(f.value);
      ValuesCanon(f.rest);
    }
  }

  lemma {:induction false} InsertValues(key: Text, value: Json, f: Fields)
    requires ValuesOrdered(f) && KeysOrdered(value)
    ensures ValuesOrdered(InsertField(key, value, f))
    decreases f
  {
    if f.Field? {
      InsertValues(key, value, f.rest);
    }
  }

  lemma {:induction false} SortValues(f: Fields)
    requires ValuesOrdered(f)
    ensures ValuesOrdered(SortFields(f))
    decreases f
  {
    if f.Field? {
      SortValues(f.rest);
      InsertValues(f.key, f.value, SortFields(f.rest));
    }
  }

  lemma {:induction false} StrictlySorted(f: Fields)
    requires KeysSorted(f) && KeyedFields(f) && ValuesOrdered(f)
    ensures FieldsOrdered(f)
    decreases f
  {
    if f.Field? {
      StrictlySorted(f.rest);
      if f.rest.Field? {
        assert f.key != f.rest.key by { assert HasKey(f.rest, f.rest.key); }
        KeysPrecede(f.key, f.rest.key);
      }
    }
  }

  lemma KeysPrecede(a: Text, b: Text)
    requires AtMost(Utf16(a), Utf16(b)) && a != b && Scalars(a) && Scalars(b)
    ensures Precedes(Utf16(a), Utf16(b))
  {
    if !Less(Utf16(a), Utf16(b)) {
      LessTotal(Utf16(a), Utf16(b));
      Utf16Injective(a, b);
    }
    LessIs(Utf16(a), Utf16(b));
  }

  /** Canonical bytes exist exactly if every integer is in range. They are JSON text that reads back as the
      same value, with the keys of every object in UTF-16 order, each once. */
  lemma SerializedReads(v: Json)
    requires Keyed(v)
    ensures Serialize(v).Some? <==> InRange(v)
    ensures Serialize(v).Some? ==>
              && Parse(Serialize(v).value).Some?
              && Same(v, Parse(Serialize(v).value).value) && KeysOrdered(Parse(Serialize(v).value).value)
  {
    hide Render, Parse, Canon, Safe, Same, KeysOrdered, Keyed, InRange;
    RangeIs(v);
    ReadBack(Canon(v));
    CanonOrdered(v);
    CanonKeyed(v);
    CanonIdempotent(v);
    CanonSame(v, Canon(v));
  }

  // ---------------------------------------------------------------- normalised arrays

  function Name(s: string): Text { Codes(s) }

  /** The leg's `order` and `leg_id`, 0 and empty where it has none. */
  function LegOrder(v: Json): int {
    if v.Obj? && Lookup(v.fields, Name("order")).Some? && Lookup(v.fields, Name("order")).value.Int?
    then Lookup(v.fields, Name("order")).value.i else 0
  }

  function LegName(v: Json): Text {
    if v.Obj? && Lookup(v.fields, Name("leg_id")).Some? && Lookup(v.fields, Name("leg_id")).value.Str?
    then Lookup(v.fields, Name("leg_id")).value.s else []
  }

  /** `b` may stand after `a`: legs go by order and then by name, everything else by its own bytes. */
  ghost predicate MayPrecede(a: Json, b: Json, legs: bool) {
    if legs then LegOrder(a) < LegOrder(b) || (LegOrder(a) == LegOrder(b) && !Precedes(LegName(b), LegName(a)))
    else !Precedes(Render(Canon(b)), Render(Canon(a)))
  }

  ghost predicate InOrder(l: List, legs: bool) {
    l.Cons? && l.tail.Cons? ==> MayPrecede(l.head, l.tail.head, legs) && InOrder(l.tail, legs)
  }

  /** Every array is in order, at any depth; the one under `legs` as legs. */
  ghost predicate Arranged(v: Json, legs: bool) {
    match v
    case Arr(items) => InOrder(items, legs) && ItemsArranged(items)
    case Obj(fields) => FieldsArranged(fields)
    case _ => true
  }

  ghost predicate ItemsArranged(l: List) { l.Cons? ==> Arranged(l.head, false) && ItemsArranged(l.tail) }

  ghost predicate FieldsArranged(f: Fields) { f.Field? ==> Arranged(f.value, f.key == Name("legs")) && FieldsArranged(f.rest) }

  lemma NamesAre()
    ensures Name("order") == ORDER && Name("leg_id") == LEG_ID && Name("legs") == LEGS
  {
  }

  lemma OrderIs(a: Json, b: Json, legs: bool)
    ensures AtMost(KeyOf(a, legs), KeyOf(b, legs)) <==> MayPrecede(a, b, legs)
  {
    hide Render, Canon, Lookup, Name;
    NamesAre();
    if legs {
      var p, q := TextField(a, LEG_ID), TextField(b, LEG_ID);
      LessIs(q, p);
      PairLess(IntField(b, ORDER), q, IntField(a, ORDER), p);
    } else {
      LessIs(Render(Canon(b)), Render(Canon(a)));
    }
  }

  lemma PairLess(i: int, p: seq<int>, j: int, q: seq<int>)
    ensures Less([i] + p, [j] + q) <==> i < j || (i == j && Less(p, q))
  {
    assert ([i] + p)[1..] == p && ([j] + q)[1..] == q;
  }

  lemma {:induction false} SortedInOrder(l: List, legs: bool)
    requires Sorted(l, legs)
    ensures InOrder(l, legs)
    decreases l
  {
    if l.Cons? && l.tail.Cons? {
      hide KeyOf, MayPrecede;
      OrderIs(l.head, l.tail.head, legs);
      SortedInOrder(l.tail, legs);
    }
  }

  lemma {:induction false} InsertArranged(x: Json, l: List, legs: bool)
    requires Arranged(x, false) && ItemsArranged(l)
    ensures ItemsArranged(Insert(x, l, legs))
    decreases l
  {
    hide KeyOf;
    if l.Cons? {
      InsertArranged(x, l.tail, legs);
    }
  }

  lemma {:induction false} SortArranged(l: List, legs: bool)
    requires ItemsArranged(l)
    ensures ItemsArranged(CanonicalForm.Sort(l, legs))
    decreases l
  {
    if l.Cons? {
      SortArranged(l.tail, legs);
      InsertArranged(l.head, CanonicalForm.Sort(l.tail, legs), legs);
    }
  }

  lemma {:induction false} NormalArranged(v: Json, legs: bool)
    ensures Arranged(Normal(v, legs), legs)
    decreases v
  {
    match v
    case Arr(items) =>
      NormalItemsArranged(items);
      SortArranged(NormalItems(items), legs);
      SortSorts(NormalItems(items), legs);
      SortedInOrder(CanonicalForm.Sort(NormalItems(items), legs), legs);
    case Obj(fields) => NormalFieldsArranged(fields);
    case _ =>
  }

  lemma {:induction false} NormalItemsArranged(l: List)
    ensures ItemsArranged(NormalItems(l))
    decreases l
  {
    if l.Cons? {
      NormalArranged(l.head, false);
      NormalItemsArranged(l.tail);
    }
  }

  lemma {:induction false} NormalFieldsArranged(f: Fields)
    ensures FieldsArranged(NormalFields(f))
    decreases f
  {
    NamesAre();
    if f.Field? {
      NormalArranged(f.value, f.key == LEGS);
      NormalFieldsArranged(f.rest);
    }
  }

  /** An element put in anywhere. */
  lemma {:induction false} InsertAlike(x: Json, y: Json, a: List, b: List, legs: bool)
    requires Alike(x, y) && AlikeItems(a, b)
    ensures AlikeItems(Cons(x, a), Insert(y, b, legs))
  {
    hide Alike, KeyOf;
    var k := PlaceOf(y, b, legs);
  }

  lemma {:induction false} PlaceOf(y: Json, b: List, legs: bool) returns (k: nat)
    ensures k < Length(Insert(y, b, legs)) && At(Insert(y, b, legs), k) == y && RemoveAt(Insert(y, b, legs), k) == b
    decreases b
  {
    if b.Nil? || AtMost(KeyOf(y, legs), KeyOf(b.head, legs)) {
      k := 0;
    } else {
      hide KeyOf;
      var i := PlaceOf(y, b.tail, legs);
      k := i + 1;
    }
  }

  lemma {:induction false} SortAlike(a: List, b: List, legs: bool)
    requires AlikeInTurn(a, b)
    ensures AlikeItems(a, CanonicalForm.Sort(b, legs))
    decreases a
  {
    if a.Cons? {
      SortAlike(a.tail, b.tail, legs);
      InsertAlike(a.head, b.head, a.tail, CanonicalForm.Sort(b.tail, legs), legs);
    }
  }

  /** Element by element alike, in the same order. */
  ghost predicate AlikeInTurn(a: List, b: List) {
    if a.Nil? then b.Nil? else b.Cons? && Alike(a.head, b.head) && AlikeInTurn(a.tail, b.tail)
  }

  lemma {:induction false} NormalAlike(v: Json, legs: bool)
    ensures Alike(v, Normal(v, legs))
    decreases v
  {
    match v
    case Arr(items) =>
      NormalItemsAlike(items);
      SortAlike(items, NormalItems(items), legs);
    case Obj(fields) => NormalFieldsAlike(fields);
    case _ =>
  }

  lemma {:induction false} NormalItemsAlike(l: List)
    ensures AlikeInTurn(l, NormalItems(l))
    decreases l
  {
    if l.Cons? {
      NormalAlike(l.head, false);
      NormalItemsAlike(l.tail);
    }
  }

  lemma {:induction false} NormalFieldsAlike(f: Fields)
    ensures AlikeFields(f, NormalFields(f))
    decreases f
  {
    if f.Field? {
      NormalAlike(f.value, f.key == LEGS);
      NormalFieldsAlike(f.rest);
      assert FieldAt(NormalFields(f), 0) == (f.key, Normal(f.value, f.key == LEGS));
      assert RemoveField(NormalFields(f), 0) == NormalFields(f.rest);
    }
  }

  /** Normalising changes nothing but the order of array elements, and leaves every array in order: legs by
      order and name, every other array by the canonical bytes of its elements. */
  lemma NormalIs(v: Json, legs: bool)
    ensures Alike(v, Normal(v, legs)) && Arranged(Normal(v, legs), legs)
  {
    NormalAlike(v, legs);
    NormalArranged(v, legs);
  }
}
