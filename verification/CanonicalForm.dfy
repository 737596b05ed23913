/** The canonical form: object keys in UTF-16 order, and bundle arrays in an order of their own, so that the
    bytes depend on what a bundle says and not on the order in which it says it. */
module CanonicalForm {
  import opened Common
  import opened Canonical

  // ---------------------------------------------------------------- sorting elements

  /** Legs are ordered by their order and then their identifier; every other array by the elements' own
      canonical bytes. Validated legs always have both fields. */
  function KeyOf(v: Json, legs: bool): seq<int> {
    if legs then [IntField(v, ORDER)] + TextField(v, LEG_ID) else Render(Canon(v))
  }

  /** The value with every object's keys sorted: what serialisation writes. */
  function Canon(v: Json): Json {
    match v
    case Arr(items) => Arr(CanonItems(items))
    case Obj(fields) => Obj(SortFields(CanonFields(fields)))
    case _ => v
  }

  function CanonItems(l: List): List {
    match l
    case Nil => Nil
    case Cons(head, tail) => Cons(Canon(head), CanonItems(tail))
  }

  function CanonFields(f: Fields): Fields {
    match f
    case End => End
    case Field(k, v, rest) => Field(k, Canon(v), CanonFields(rest))
  }

  /** Whether every integer can be written at all. */
  predicate Safe(v: Json) {
    match v
    case Int(i) => -MAX_SAFE <= i <= MAX_SAFE
    case Arr(items) => SafeItems(items)
    case Obj(fields) => SafeFields(fields)
    case _ => true
  }

  predicate SafeItems(l: List) { l.Nil? || (Safe(l.head) && SafeItems(l.tail)) }

  predicate SafeFields(f: Fields) { f.End? || (Safe(f.value) && SafeFields(f.rest)) }

  /** Canonical bytes; `None` where an integer is out of range. */
  function Serialize(v: Json): Option<Text> { if Safe(v) then Some(Render(Canon(v))) else None }

  /** `order` */
  const ORDER: Text := [111, 114, 100, 101, 114]

  /** `leg_id` */
  const LEG_ID: Text := [108, 101, 103, 95, 105, 100]

  /** `legs` */
  const LEGS: Text := [108, 101, 103, 115]

  function Lookup(fields: Fields, key: Text): Option<Json> {
    match fields
    case End => None
    case Field(k, v, rest) => if k == key then Some(v) else Lookup(rest, key)
  }

  function IntField(v: Json, key: Text): int {
    if v.Obj? && Lookup(v.fields, key).Some? && Lookup(v.fields, key).value.Int? then Lookup(v.fields, key).value.i else 0
  }

  function TextField(v: Json, key: Text): seq<int> {
    if v.Obj? && Lookup(v.fields, key).Some? && Lookup(v.fields, key).value.Str? then Lookup(v.fields, key).value.s else []
  }

  function Insert(x: Json, l: List, legs: bool): List {
    match l
    case Nil => Cons(x, Nil)
    case Cons(head, tail) => if AtMost(KeyOf(x, legs), KeyOf(head, legs)) then Cons(x, l) else Cons(head, Insert(x, tail, legs))
  }

  function Sort(l: List, legs: bool): List {
    match l
    case Nil => Nil
    case Cons(head, tail) => Insert(head, Sort(tail, legs), legs)
  }

  predicate Sorted(l: List, legs: bool) {
    l.Nil? || ((l.tail.Nil? || AtMost(KeyOf(l.head, legs), KeyOf(l.tail.head, legs))) && Sorted(l.tail, legs))
  }

  function Bag(l: List): multiset<Json> {
    match l
    case Nil => multiset{}
    case Cons(head, tail) => multiset{head} + Bag(tail)
  }

  lemma {:induction false} InsertSorted(x: Json, l: List, legs: bool)
    requires Sorted(l, legs)
    ensures Sorted(Insert(x, l, legs), legs) && Bag(Insert(x, l, legs)) == multiset{x} + Bag(l)
    ensures Insert(x, l, legs).head == x || (l.Cons? && Insert(x, l, legs).head == l.head)
  {
    hide KeyOf, AtMost;
    if l.Cons? && !AtMost(KeyOf(x, legs), KeyOf(l.head, legs)) {
      LessTotal(KeyOf(x, legs), KeyOf(l.head, legs));
      InsertSorted(x, l.tail, legs);
      SortedCons(l.head, Insert(x, l.tail, legs), legs);
      assert Bag(Insert(x, l, legs)) == multiset{l.head} + (multiset{x} + Bag(l.tail));
    }
  }

  lemma SortedCons(x: Json, l: List, legs: bool)
    requires Sorted(l, legs) && l.Cons? && AtMost(KeyOf(x, legs), KeyOf(l.head, legs))
    ensures Sorted(Cons(x, l), legs)
  {
  }

  lemma {:induction false} SortSorts(l: List, legs: bool)
    ensures Sorted(Sort(l, legs), legs) && Bag(Sort(l, legs)) == Bag(l)
  {
    if l.Cons? {
      SortSorts(l.tail, legs);
      InsertSorted(l.head, Sort(l.tail, legs), legs);
    }
  }

  /** Sorting what is sorted changes nothing. */
  lemma {:induction false} SortStable(l: List, legs: bool)
    requires Sorted(l, legs)
    ensures Sort(l, legs) == l
  {
    hide KeyOf, AtMost;
    if l.Cons? {
      SortStable(l.tail, legs);
    }
  }

  /** The keys of the elements tell them apart. */
  ghost predicate Apart(bag: multiset<Json>, legs: bool) {
    forall a, b :: a in bag && b in bag && KeyOf(a, legs) == KeyOf(b, legs) ==> a == b
  }

  lemma {:induction false} HeadIsLeast(l: List, legs: bool, x: Json)
    requires Sorted(l, legs) && x in Bag(l)
    ensures l.Cons? && AtMost(KeyOf(l.head, legs), KeyOf(x, legs))
  {
    hide KeyOf;
    if x != l.head {
      assert x in Bag(l.tail);
      HeadIsLeast(l.tail, legs, x);
      AtMostTransitive(KeyOf(l.head, legs), KeyOf(l.tail.head, legs), KeyOf(x, legs));
    } else {
      LessTotal(KeyOf(x, legs), KeyOf(x, legs));
    }
  }

  /** A sorted list is determined by what it contains. */
  lemma {:induction false} SortedUnique(a: List, b: List, legs: bool)
    requires Sorted(a, legs) && Sorted(b, legs) && Bag(a) == Bag(b) && Apart(Bag(a), legs)
    ensures a == b
  {
    hide KeyOf, AtMost, Less;
    if a.Cons? {
      assert a.head in Bag(a);
      HeadIsLeast(b, legs, a.head);
      assert b.head in Bag(b);
      HeadIsLeast(a, legs, b.head);
      LessTotal(KeyOf(a.head, legs), KeyOf(b.head, legs));
      assert a.head == b.head;
      assert Bag(a.tail) == Bag(a) - multiset{a.head} && Bag(b.tail) == Bag(b) - multiset{b.head};
      assert forall x :: x in Bag(a.tail) ==> x in Bag(a);
      SortedUnique(a.tail, b.tail, legs);
    }
  }

  // ---------------------------------------------------------------- sorting keys

  function InsertField(key: Text, value: Json, f: Fields): Fields {
    match f
    case End => Field(key, value, End)
    case Field(k, v, rest) => if AtMost(Utf16(key), Utf16(k)) then Field(key, value, f) else Field(k, v, InsertField(key, value, rest))
  }

  function SortFields(f: Fields): Fields {
    match f
    case End => End
    case Field(k, v, rest) => InsertField(k, v, SortFields(rest))
  }

  /** Keys in UTF-16 code-unit order. */
  predicate KeysSorted(f: Fields) {
    f.End? || ((f.rest.End? || AtMost(Utf16(f.key), Utf16(f.rest.key))) && KeysSorted(f.rest))
  }

  function FieldBag(f: Fields): multiset<(Text, Json)> {
    match f
    case End => multiset{}
    case Field(k, v, rest) => multiset{(k, v)} + FieldBag(rest)
  }

  lemma {:induction false} InsertFieldSorted(key: Text, value: Json, f: Fields)
    requires KeysSorted(f)
    ensures KeysSorted(InsertField(key, value, f)) && FieldBag(InsertField(key, value, f)) == multiset{(key, value)} + FieldBag(f)
    ensures InsertField(key, value, f).key == key || (f.Field? && InsertField(key, value, f).key == f.key)
  {
    hide Utf16, AtMost;
    if f.Field? && !AtMost(Utf16(key), Utf16(f.key)) {
      LessTotal(Utf16(key), Utf16(f.key));
      InsertFieldSorted(key, value, f.rest);
    }
  }

  lemma {:induction false} SortFieldsSorts(f: Fields)
    ensures KeysSorted(SortFields(f)) && FieldBag(SortFields(f)) == FieldBag(f)
  {
    if f.Field? {
      SortFieldsSorts(f.rest);
      InsertFieldSorted(f.key, f.value, SortFields(f.rest));
    }
  }

  lemma {:induction false} SortFieldsStable(f: Fields)
    requires KeysSorted(f)
    ensures SortFields(f) == f
  {
    hide Utf16, AtMost;
    if f.Field? {
      SortFieldsStable(f.rest);
    }
  }

  /** An object has each key once, and keys are text of scalar values. */
  ghost predicate KeysApart(bag: multiset<(Text, Json)>) {
    && (forall a, b :: a in bag && b in bag && a.0 == b.0 ==> a == b && bag[a] == 1)
    && (forall a :: a in bag ==> Scalars(a.0))
  }

  lemma {:induction false} FirstKeyIsLeast(f: Fields, x: (Text, Json))
    requires KeysSorted(f) && x in FieldBag(f)
    ensures f.Field? && AtMost(Utf16(f.key), Utf16(x.0))
  {
    hide Utf16;
    if x != (f.key, f.value) {
      assert x in FieldBag(f.rest);
      FirstKeyIsLeast(f.rest, x);
      AtMostTransitive(Utf16(f.key), Utf16(f.rest.key), Utf16(x.0));
    } else {
      LessTotal(Utf16(x.0), Utf16(x.0));
    }
  }

  lemma SameField(bag: multiset<(Text, Json)>, x: (Text, Json), y: (Text, Json))
    requires KeysApart(bag) && x in bag && y in bag && Utf16(x.0) == Utf16(y.0)
    ensures x == y
  {
    Utf16Injective(x.0, y.0);
  }

  lemma FewerApart(bag: multiset<(Text, Json)>, x: (Text, Json))
    requires KeysApart(multiset{x} + bag)
    ensures KeysApart(bag)
  {
    var more := multiset{x} + bag;
    assert forall z :: z in bag ==> z in more && bag[z] <= more[z];
  }

  lemma {:induction false} SortedFieldsUnique(a: Fields, b: Fields)
    requires KeysSorted(a) && KeysSorted(b) && FieldBag(a) == FieldBag(b) && KeysApart(FieldBag(a))
    ensures a == b
  {
    hide Utf16, AtMost, Less, Scalars, KeysApart;
    if a.Field? {
      var x, y := (a.key, a.value), (b.key, b.value);
      assert x in FieldBag(a);
      FirstKeyIsLeast(b, x);
      assert y in FieldBag(b);
      FirstKeyIsLeast(a, y);
      LessTotal(Utf16(a.key), Utf16(b.key));
      SameField(FieldBag(a), x, y);
      assert FieldBag(a.rest) == FieldBag(a) - multiset{x} && FieldBag(b.rest) == FieldBag(b) - multiset{x};
      FewerApart(FieldBag(a.rest), x);
      SortedFieldsUnique(a.rest, b.rest);
    }
  }

  // ---------------------------------------------------------------- normalising arrays

  /** Every array sorted: legs by their own order, every other array as a set. */
  function Normal(v: Json, legs: bool): Json {
    match v
    case Arr(items) => Arr(Sort(NormalItems(items), legs))
    case Obj(fields) => Obj(NormalFields(fields))
    case _ => v
  }

  function NormalItems(l: List): List {
    match l
    case Nil => Nil
    case Cons(head, tail) => Cons(Normal(head, false), NormalItems(tail))
  }

  function NormalFields(f: Fields): Fields {
    match f
    case End => End
    case Field(k, v, rest) => Field(k, Normal(v, k == LEGS), NormalFields(rest))
  }

  predicate Fixed(l: List) { l.Nil? || (Normal(l.head, false) == l.head && Fixed(l.tail)) }

  lemma {:induction false} InsertFixed(x: Json, l: List, legs: bool)
    requires Fixed(l) && Normal(x, false) == x
    ensures Fixed(Insert(x, l, legs))
  {
    hide KeyOf, AtMost, Normal;
    if l.Cons? {
      InsertFixed(x, l.tail, legs);
    }
  }

  lemma {:induction false} SortFixed(l: List, legs: bool)
    requires Fixed(l)
    ensures Fixed(Sort(l, legs))
  {
    if l.Cons? {
      SortFixed(l.tail, legs);
      InsertFixed(l.head, Sort(l.tail, legs), legs);
    }
  }

  lemma {:induction false} FixedItems(l: List)
    requires Fixed(l)
    ensures NormalItems(l) == l
  {
    if l.Cons? {
      FixedItems(l.tail);
    }
  }

  /** Normalising twice is normalising once. */
  lemma {:induction false} NormalIdempotent(v: Json, legs: bool)
    ensures Normal(Normal(v, legs), legs) == Normal(v, legs)
    decreases v
  {
    match v
    case Arr(items) =>
      ItemsBecomeFixed(items);
      var sorted := Sort(NormalItems(items), legs);
      SortFixed(NormalItems(items), legs);
      FixedItems(sorted);
      SortSorts(NormalItems(items), legs);
      SortStable(sorted, legs);
    case Obj(fields) => FieldsIdempotent(fields);
    case _ =>
  }

  lemma {:induction false} ItemsBecomeFixed(l: List)
    ensures Fixed(NormalItems(l))
    decreases l
  {
    if l.Cons? {
      NormalIdempotent(l.head, false);
      ItemsBecomeFixed(l.tail);
    }
  }

  lemma {:induction false} FieldsIdempotent(f: Fields)
    ensures NormalFields(NormalFields(f)) == NormalFields(f)
    decreases f
  {
    if f.Field? {
      NormalIdempotent(f.value, f.key == LEGS);
      FieldsIdempotent(f.rest);
    }
  }

  // ---------------------------------------------------------------- the canonical form

  /** Sorted keys and sorted arrays, in one pass. */
  function Full(v: Json, legs: bool): Json {
    match v
    case Arr(items) => Arr(Sort(FullItems(items), legs))
    case Obj(fields) => Obj(SortFields(FullFields(fields)))
    case _ => v
  }

  function FullItems(l: List): List {
    match l
    case Nil => Nil
    case Cons(head, tail) => Cons(Full(head, false), FullItems(tail))
  }

  function FullFields(f: Fields): Fields {
    match f
    case End => End
    case Field(k, v, rest) => Field(k, Full(v, k == LEGS), FullFields(rest))
  }

  predicate HasKey(f: Fields, key: Text) { f.Field? && (f.key == key || HasKey(f.rest, key)) }

  /** Every object has each key once, and keys are text of scalar values. */
  predicate Keyed(v: Json) {
    match v
    case Arr(items) => KeyedItems(items)
    case Obj(fields) => KeyedFields(fields)
    case _ => true
  }

  predicate KeyedItems(l: List) { l.Nil? || (Keyed(l.head) && KeyedItems(l.tail)) }

  predicate KeyedFields(f: Fields) {
    f.End? || (Keyed(f.value) && Scalars(f.key) && !HasKey(f.rest, f.key) && KeyedFields(f.rest))
  }

  lemma {:induction false} LookupInsert(key: Text, value: Json, f: Fields, wanted: Text)
    requires !HasKey(f, key)
    ensures Lookup(InsertField(key, value, f), wanted) == if wanted == key then Some(value) else Lookup(f, wanted)
    ensures HasKey(InsertField(key, value, f), wanted) <==> wanted == key || HasKey(f, wanted)
  {
    hide Utf16, AtMost;
    if f.Field? {
      LookupInsert(key, value, f.rest, wanted);
    }
  }

  /** Sorting an object's keys does not change what they name. */
  lemma {:induction false} LookupSorted(f: Fields, wanted: Text)
    requires KeyedFields(f)
    ensures Lookup(SortFields(f), wanted) == Lookup(f, wanted)
    ensures HasKey(SortFields(f), wanted) <==> HasKey(f, wanted)
  {
    if f.Field? {
      LookupSorted(f.rest, wanted);
      LookupSorted(f.rest, f.key);
      LookupInsert(f.key, f.value, SortFields(f.rest), wanted);
    }
  }

  lemma {:induction false} CanonInsertField(key: Text, value: Json, f: Fields)
    ensures CanonFields(InsertField(key, value, f)) == InsertField(key, Canon(value), CanonFields(f))
  {
    hide Utf16, AtMost, Canon;
    if f.Field? {
      CanonInsertField(key, value, f.rest);
    }
  }

  lemma {:induction false} CanonSortFields(f: Fields)
    ensures CanonFields(SortFields(f)) == SortFields(CanonFields(f))
  {
    if f.Field? {
      CanonSortFields(f.rest);
      CanonInsertField(f.key, f.value, SortFields(f.rest));
    }
  }

  /** Sorting keys twice is sorting them once. */
  lemma {:induction false} CanonIdempotent(v: Json)
    ensures Canon(Canon(v)) == Canon(v)
    decreases v
  {
    match v
    case Arr(items) => CanonItemsIdempotent(items);
    case Obj(fields) =>
      CanonFieldsIdempotent(fields);
      CanonSortFields(CanonFields(fields));
      SortFieldsSorts(CanonFields(fields));
      SortFieldsStable(SortFields(CanonFields(fields)));
    case _ =>
  }

  lemma {:induction false} CanonItemsIdempotent(l: List)
    ensures CanonItems(CanonItems(l)) == CanonItems(l)
    decreases l
  {
    if l.Cons? {
      CanonIdempotent(l.head);
      CanonItemsIdempotent(l.tail);
    }
  }

  lemma {:induction false} CanonFieldsIdempotent(f: Fields)
    ensures CanonFields(CanonFields(f)) == CanonFields(f)
    decreases f
  {
    if f.Field? {
      CanonIdempotent(f.value);
      CanonFieldsIdempotent(f.rest);
    }
  }

  lemma {:induction false} LookupCanon(f: Fields, wanted: Text)
    ensures Lookup(CanonFields(f), wanted) == (if Lookup(f, wanted).Some? then Some(Canon(Lookup(f, wanted).value)) else None)
    ensures HasKey(CanonFields(f), wanted) <==> HasKey(f, wanted)
  {
    if f.Field? {
      LookupCanon(f.rest, wanted);
    }
  }

  lemma {:induction false} InsertKeyed(key: Text, value: Json, f: Fields)
    requires KeyedFields(f) && Keyed(value) && Scalars(key) && !HasKey(f, key)
    ensures KeyedFields(InsertField(key, value, f))
  {
    hide Utf16, AtMost, Keyed, Scalars;
    if f.Field? && !AtMost(Utf16(key), Utf16(f.key)) {
      InsertKeyed(key, value, f.rest);
      LookupInsert(key, value, f.rest, f.key);
    }
  }

  lemma {:induction false} SortKeyed(f: Fields)
    requires KeyedFields(f)
    ensures KeyedFields(SortFields(f))
  {
    if f.Field? {
      SortKeyed(f.rest);
      LookupSorted(f.rest, f.key);
      InsertKeyed(f.key, f.value, SortFields(f.rest));
    }
  }

  lemma {:induction false} CanonKeyed(v: Json)
    requires Keyed(v)
    ensures Keyed(Canon(v))
    decreases v
  {
    match v
    case Arr(items) => CanonItemsKeyed(items);
    case Obj(fields) =>
      CanonFieldsKeyed(fields);
      SortKeyed(CanonFields(fields));
    case _ =>
  }

  lemma {:induction false} CanonItemsKeyed(l: List)
    requires KeyedItems(l)
    ensures KeyedItems(CanonItems(l))
    decreases l
  {
    if l.Cons? {
      CanonKeyed(l.head);
      CanonItemsKeyed(l.tail);
    }
  }

  lemma {:induction false} CanonFieldsKeyed(f: Fields)
    requires KeyedFields(f)
    ensures KeyedFields(CanonFields(f))
    decreases f
  {
    if f.Field? {
      CanonKeyed(f.value);
      CanonFieldsKeyed(f.rest);
      LookupCanon(f.rest, f.key);
    }
  }

  /** An element is sorted by the same key before and after its own keys are sorted. */
  lemma KeyOfCanon(v: Json, legs: bool)
    requires Keyed(v)
    ensures KeyOf(Canon(v), legs) == KeyOf(v, legs)
  {
    CanonIdempotent(v);
    if v.Obj? {
      CanonFieldsKeyed(v.fields);
      LookupSorted(CanonFields(v.fields), ORDER);
      LookupSorted(CanonFields(v.fields), LEG_ID);
      LookupCanon(v.fields, ORDER);
      LookupCanon(v.fields, LEG_ID);
    }
  }

  lemma {:induction false} CanonInsert(x: Json, l: List, legs: bool)
    requires Keyed(x) && KeyedItems(l)
    ensures CanonItems(Insert(x, l, legs)) == Insert(Canon(x), CanonItems(l), legs)
    ensures KeyedItems(Insert(x, l, legs))
  {
    hide KeyOf, AtMost, Canon, Keyed;
    if l.Cons? {
      KeyOfCanon(x, legs);
      KeyOfCanon(l.head, legs);
      CanonInsert(x, l.tail, legs);
    }
  }

  lemma {:induction false} CanonSort(l: List, legs: bool)
    requires KeyedItems(l)
    ensures CanonItems(Sort(l, legs)) == Sort(CanonItems(l), legs) && KeyedItems(Sort(l, legs))
  {
    if l.Cons? {
      CanonSort(l.tail, legs);
      CanonInsert(l.head, Sort(l.tail, legs), legs);
    }
  }

  /** Normalising and then sorting keys gives the one-pass form. */
  lemma {:induction false} FullIs(v: Json, legs: bool)
    requires Keyed(v)
    ensures Canon(Normal(v, legs)) == Full(v, legs) && Keyed(Normal(v, legs))
    decreases v
  {
    match v
    case Arr(items) =>
      FullItemsIs(items);
      CanonSort(NormalItems(items), legs);
    case Obj(fields) => FullFieldsIs(fields);
    case _ =>
  }

  lemma {:induction false} FullItemsIs(l: List)
    requires KeyedItems(l)
    ensures CanonItems(NormalItems(l)) == FullItems(l) && KeyedItems(NormalItems(l))
    decreases l
  {
    if l.Cons? {
      FullIs(l.head, false);
      FullItemsIs(l.tail);
    }
  }

  lemma {:induction false} FullFieldsIs(f: Fields)
    requires KeyedFields(f)
    ensures CanonFields(NormalFields(f)) == FullFields(f) && KeyedFields(NormalFields(f))
    ensures forall key :: HasKey(NormalFields(f), key) <==> HasKey(f, key)
    decreases f
  {
    if f.Field? {
      FullIs(f.value, f.key == LEGS);
      FullFieldsIs(f.rest);
    }
  }

  /** The canonical form has canonical elements: its own keys are sorted already. */
  lemma FullIsCanonical(v: Json, legs: bool)
    requires Keyed(v)
    ensures Canon(Full(v, legs)) == Full(v, legs)
  {
    FullIs(v, legs);
    CanonIdempotent(Normal(v, legs));
  }

  // ---------------------------------------------------------------- what does not matter

  function Length(l: List): nat { if l.Nil? then 0 else 1 + Length(l.tail) }

  function At(l: List, k: nat): Json
    requires k < Length(l)
  {
    if k == 0 then l.head else At(l.tail, k - 1)
  }

  function RemoveAt(l: List, k: nat): (r: List)
    requires k < Length(l)
    ensures Length(r) == Length(l) - 1
  {
    if k == 0 then l.tail else Cons(l.head, RemoveAt(l.tail, k - 1))
  }

  function Count(f: Fields): nat { if f.End? then 0 else 1 + Count(f.rest) }

  function FieldAt(f: Fields, k: nat): (Text, Json)
    requires k < Count(f)
  {
    if k == 0 then (f.key, f.value) else FieldAt(f.rest, k - 1)
  }

  function RemoveField(f: Fields, k: nat): (r: Fields)
    requires k < Count(f)
    ensures Count(r) == Count(f) - 1
  {
    if k == 0 then f.rest else Field(f.key, f.value, RemoveField(f.rest, k - 1))
  }

  /** The same value up to the order of array elements and of object fields, at any depth. */
  ghost predicate Alike(a: Json, b: Json)
    decreases a, 0
  {
    match a
    case Arr(items) => b.Arr? && AlikeItems(items, b.items)
    case Obj(fields) => b.Obj? && AlikeFields(fields, b.fields)
    case _ => a == b
  }

  ghost predicate AlikeItems(a: List, b: List)
    decreases a, 1
  {
    if a.Nil? then b.Nil?
    else exists k :: 0 <= k < Length(b) && Alike(a.head, At(b, k)) && AlikeItems(a.tail, RemoveAt(b, k))
  }

  ghost predicate AlikeFields(a: Fields, b: Fields)
    decreases a, 1
  {
    if a.End? then b.End?
    else exists k :: 0 <= k < Count(b) && FieldAt(b, k).0 == a.key && Alike(a.value, FieldAt(b, k).1) && AlikeFields(a.rest, RemoveField(b, k))
  }

  /** No two legs of a legs array share order and identifier, at any depth. */
  ghost predicate LegsApart(v: Json, legs: bool) {
    match v
    case Arr(items) => LegsApartItems(items) && (legs ==> Apart(Bag(FullItems(items)), true))
    case Obj(fields) => LegsApartFields(fields)
    case _ => true
  }

  ghost predicate LegsApartItems(l: List) { l.Nil? || (LegsApart(l.head, false) && LegsApartItems(l.tail)) }

  ghost predicate LegsApartFields(f: Fields) { f.End? || (LegsApart(f.value, f.key == LEGS) && LegsApartFields(f.rest)) }

  lemma {:induction false} BagRemove(l: List, k: nat)
    requires k < Length(l)
    ensures Bag(FullItems(l)) == multiset{Full(At(l, k), false)} + Bag(FullItems(RemoveAt(l, k)))
    ensures KeyedItems(l) ==> Keyed(At(l, k)) && KeyedItems(RemoveAt(l, k))
  {
    hide Full, Keyed;
    if k > 0 {
      BagRemove(l.tail, k - 1);
    }
  }

  lemma {:induction false} FieldBagRemove(f: Fields, k: nat)
    requires k < Count(f)
    ensures var x := FieldAt(f, k);
            FieldBag(FullFields(f)) == multiset{(x.0, Full(x.1, x.0 == LEGS))} + FieldBag(FullFields(RemoveField(f, k)))
    ensures KeyedFields(f) ==> Keyed(FieldAt(f, k).1) && KeyedFields(RemoveField(f, k))
    ensures forall key :: HasKey(RemoveField(f, k), key) ==> HasKey(f, key)
  {
    hide Full, Keyed, Scalars;
    if k > 0 {
      FieldBagRemove(f.rest, k - 1);
    }
  }

  /** Set elements are told apart by their bytes. */
  lemma {:induction false} ItemsApart(l: List)
    requires KeyedItems(l)
    ensures Apart(Bag(FullItems(l)), false)
  {
    forall a, b | a in Bag(FullItems(l)) && b in Bag(FullItems(l)) && KeyOf(a, false) == KeyOf(b, false)
      ensures a == b
    {
      BagCanonical(l, a);
      BagCanonical(l, b);
      RenderInjective(a, b);
    }
  }

  lemma {:induction false} BagCanonical(l: List, x: Json)
    requires KeyedItems(l) && x in Bag(FullItems(l))
    ensures Canon(x) == x
  {
    if x == Full(l.head, false) {
      FullIsCanonical(l.head, false);
    } else {
      BagCanonical(l.tail, x);
    }
  }

  lemma {:induction false} FieldsApart(f: Fields)
    requires KeyedFields(f)
    ensures KeysApart(FieldBag(FullFields(f)))
    ensures forall x :: x in FieldBag(FullFields(f)) ==> HasKey(f, x.0)
  {
    hide Full, Keyed, Scalars;
    if f.Field? {
      FieldsApart(f.rest);
    }
  }

  /** Values alike have the same canonical form. */
  lemma {:induction false} AlikeFull(a: Json, b: Json, legs: bool)
    requires Alike(a, b) && Keyed(a) && Keyed(b) && LegsApart(a, legs)
    ensures Full(a, legs) == Full(b, legs)
    decreases a, 0
  {
    match a
    case Arr(items) =>
      AlikeBags(items, b.items);
      ItemsApart(items);
      SortSorts(FullItems(items), legs);
      SortSorts(FullItems(b.items), legs);
      SortedUnique(Sort(FullItems(items), legs), Sort(FullItems(b.items), legs), legs);
    case Obj(fields) =>
      AlikeFieldBags(fields, b.fields);
      FieldsApart(fields);
      SortFieldsSorts(FullFields(fields));
      SortFieldsSorts(FullFields(b.fields));
      SortedFieldsUnique(SortFields(FullFields(fields)), SortFields(FullFields(b.fields)));
    case _ =>
  }

  lemma {:induction false} AlikeBags(a: List, b: List)
    requires AlikeItems(a, b) && KeyedItems(a) && KeyedItems(b) && LegsApartItems(a)
    ensures Bag(FullItems(a)) == Bag(FullItems(b))
    decreases a, 1
  {
    if a.Cons? {
      var k :| 0 <= k < Length(b) && Alike(a.head, At(b, k)) && AlikeItems(a.tail, RemoveAt(b, k));
      BagRemove(b, k);
      AlikeFull(a.head, At(b, k), false);
      AlikeBags(a.tail, RemoveAt(b, k));
    }
  }

  lemma {:induction false} AlikeFieldBags(a: Fields, b: Fields)
    requires AlikeFields(a, b) && KeyedFields(a) && KeyedFields(b) && LegsApartFields(a)
    ensures FieldBag(FullFields(a)) == FieldBag(FullFields(b))
    decreases a, 1
  {
    if a.Field? {
      var k :| 0 <= k < Count(b) && FieldAt(b, k).0 == a.key && Alike(a.value, FieldAt(b, k).1) && AlikeFields(a.rest, RemoveField(b, k));
      FieldBagRemove(b, k);
      AlikeFull(a.value, FieldAt(b, k).1, a.key == LEGS);
      AlikeFieldBags(a.rest, RemoveField(b, k));
    }
  }

  // ---------------------------------------------------------------- the theorems

  /** The bytes of a normalised value do not depend on the order of array elements or object fields at any
      depth, provided that legs differ in order or identifier; and normalising again changes nothing. */
  lemma BytesAreOrderFree(a: Json, b: Json)
    requires Alike(a, b) && Keyed(a) && Keyed(b) && LegsApart(a, false)
    ensures Canon(Normal(a, false)) == Canon(Normal(b, false))
    ensures Render(Canon(Normal(a, false))) == Render(Canon(Normal(b, false)))
    ensures Normal(Normal(a, false), false) == Normal(a, false)
  {
    FullIs(a, false);
    FullIs(b, false);
    AlikeFull(a, b, false);
    NormalIdempotent(a, false);
  }

  /** The same value: arrays element by element, objects by what every key names. */
  ghost predicate Same(a: Json, b: Json)
    decreases a
  {
    match a
    case Arr(items) => b.Arr? && SameItems(items, b.items)
    case Obj(fields) => b.Obj? && SameFields(fields, b.fields) && forall key :: HasKey(b.fields, key) ==> HasKey(fields, key)
    case _ => a == b
  }

  ghost predicate SameItems(a: List, b: List)
    decreases a
  {
    if a.Nil? then b.Nil? else b.Cons? && Same(a.head, b.head) && SameItems(a.tail, b.tail)
  }

  ghost predicate SameFields(a: Fields, b: Fields)
    decreases a
  {
    a.End? || (Lookup(b, a.key).Some? && Same(a.value, Lookup(b, a.key).value) && SameFields(a.rest, b))
  }

  lemma {:induction false} LookupHas(f: Fields, key: Text)
    ensures Lookup(f, key).Some? <==> HasKey(f, key)
    ensures KeyedFields(f) && HasKey(f, key) ==> Keyed(Lookup(f, key).value)
  {
    hide Keyed, Scalars;
    if f.Field? {
      LookupHas(f.rest, key);
    }
  }

  /** What an object holds is what its keys name. */
  lemma {:induction false} BagIsLookup(f: Fields, k: Text, v: Json)
    requires KeyedFields(f)
    ensures FieldBag(f)[(k, v)] == if Lookup(f, k) == Some(v) then 1 else 0
  {
    hide Keyed, Scalars;
    if f.Field? {
      BagIsLookup(f.rest, k, v);
      LookupHas(f.rest, f.key);
    }
  }

  lemma {:induction false} BagKeysApart(f: Fields)
    requires KeyedFields(f)
    ensures KeysApart(FieldBag(f))
  {
    forall x | x in FieldBag(f)
      ensures Scalars(x.0)
    {
      BagHasScalars(f, x);
    }
    forall x, y | x in FieldBag(f) && y in FieldBag(f) && x.0 == y.0
      ensures x == y && FieldBag(f)[x] == 1
    {
      BagIsLookup(f, x.0, x.1);
      BagIsLookup(f, y.0, y.1);
    }
  }

  lemma {:induction false} BagHasScalars(f: Fields, x: (Text, Json))
    requires KeyedFields(f) && x in FieldBag(f)
    ensures Scalars(x.0)
  {
    hide Keyed, Scalars;
    if x != (f.key, f.value) {
      BagHasScalars(f.rest, x);
    }
  }

  /** Objects whose keys name the same have the same sorted fields. */
  lemma SameLookups(a: Fields, b: Fields)
    requires KeyedFields(a) && KeyedFields(b) && forall key :: Lookup(a, key) == Lookup(b, key)
    ensures SortFields(a) == SortFields(b)
  {
    forall x: (Text, Json)
      ensures FieldBag(a)[x] == FieldBag(b)[x]
    {
      BagIsLookup(a, x.0, x.1);
      BagIsLookup(b, x.0, x.1);
    }
    assert FieldBag(a) == FieldBag(b);
    BagKeysApart(a);
    SortFieldsSorts(a);
    SortFieldsSorts(b);
    SortedFieldsUnique(SortFields(a), SortFields(b));
  }

  lemma {:induction false} SameCanon(a: Json, b: Json)
    requires Keyed(a) && Keyed(b) && Same(a, b)
    ensures Canon(a) == Canon(b)
    decreases a
  {
    match a
    case Arr(items) => SameCanonItems(items, b.items);
    case Obj(fields) =>
      forall key
        ensures Lookup(CanonFields(fields), key) == Lookup(CanonFields(b.fields), key)
      {
        LookupCanon(fields, key);
        LookupCanon(b.fields, key);
        LookupHas(fields, key);
        LookupHas(b.fields, key);
        if HasKey(fields, key) {
          SameCanonAt(fields, b.fields, key);
        }
      }
      CanonFieldsKeyed(fields);
      CanonFieldsKeyed(b.fields);
      SameLookups(CanonFields(fields), CanonFields(b.fields));
    case _ =>
  }

  lemma {:induction false} SameCanonItems(a: List, b: List)
    requires KeyedItems(a) && KeyedItems(b) && SameItems(a, b)
    ensures CanonItems(a) == CanonItems(b)
    decreases a
  {
    if a.Cons? {
      SameCanon(a.head, b.head);
      SameCanonItems(a.tail, b.tail);
    }
  }

  lemma {:induction false} SameCanonAt(a: Fields, b: Fields, key: Text)
    requires KeyedFields(a) && KeyedFields(b) && SameFields(a, b) && HasKey(a, key)
    ensures Lookup(a, key).Some? && Lookup(b, key).Some? && Canon(Lookup(a, key).value) == Canon(Lookup(b, key).value)
    decreases a
  {
    if a.key == key {
      LookupHas(b, key);
      SameCanon(a.value, Lookup(b, key).value);
    } else {
      SameCanonAt(a.rest, b, key);
    }
  }

  lemma {:induction false} CanonSame(a: Json, b: Json)
    requires Keyed(a) && Keyed(b) && Canon(a) == Canon(b)
    ensures Same(a, b)
    decreases a
  {
    match a
    case Arr(items) => CanonSameItems(items, b.items);
    case Obj(fields) =>
      forall key
        ensures Lookup(CanonFields(fields), key) == Lookup(CanonFields(b.fields), key)
        ensures HasKey(b.fields, key) ==> HasKey(fields, key)
      {
        SortedSame(fields, b.fields, key);
      }
      CanonSameFields(fields, b.fields);
    case _ =>
  }

  lemma SortedSame(a: Fields, b: Fields, key: Text)
    requires KeyedFields(a) && KeyedFields(b) && SortFields(CanonFields(a)) == SortFields(CanonFields(b))
    ensures Lookup(CanonFields(a), key) == Lookup(CanonFields(b), key)
    ensures HasKey(b, key) ==> HasKey(a, key)
  {
    CanonFieldsKeyed(a);
    CanonFieldsKeyed(b);
    LookupSorted(CanonFields(a), key);
    LookupSorted(CanonFields(b), key);
    LookupCanon(a, key);
    LookupCanon(b, key);
  }

  lemma {:induction false} CanonSameItems(a: List, b: List)
    requires KeyedItems(a) && KeyedItems(b) && CanonItems(a) == CanonItems(b)
    ensures SameItems(a, b)
    decreases a
  {
    if a.Cons? {
      CanonSame(a.head, b.head);
      CanonSameItems(a.tail, b.tail);
    }
  }

  lemma {:induction false} CanonSameFields(a: Fields, b: Fields)
    requires KeyedFields(a) && KeyedFields(b)
    requires forall key :: HasKey(a, key) ==> Lookup(CanonFields(a), key) == Lookup(CanonFields(b), key)
    ensures SameFields(a, b)
    decreases a
  {
    if a.Field? {
      assert HasKey(a, a.key);
      LookupCanon(b, a.key);
      LookupHas(b, a.key);
      CanonSame(a.value, Lookup(b, a.key).value);
      forall key | HasKey(a.rest, key)
        ensures Lookup(CanonFields(a.rest), key) == Lookup(CanonFields(b), key)
      {
        assert HasKey(a, key) && key != a.key;
      }
      CanonSameFields(a.rest, b);
    }
  }

  /** Two values have the same bytes if and only if they are the same value: the same elements in the same
      order in every array, and the same value under every key of every object. */
  lemma SameBytesSameValue(a: Json, b: Json)
    requires Safe(a) && Safe(b) && Keyed(a) && Keyed(b)
    ensures Serialize(a) == Serialize(b) <==> Same(a, b)
  {
    if Same(a, b) {
      SameCanon(a, b);
    }
    if Render(Canon(a)) == Render(Canon(b)) {
      RenderInjective(Canon(a), Canon(b));
      CanonSame(a, b);
    }
  }

  /** Serialised objects list their keys in UTF-16 code-unit order, each key once. */
  lemma KeysInOrder(fields: Fields)
    requires KeyedFields(fields)
    ensures Canon(Obj(fields)).Obj? && KeysSorted(Canon(Obj(fields)).fields) && KeyedFields(Canon(Obj(fields)).fields)
  {
    SortFieldsSorts(CanonFields(fields));
    CanonFieldsKeyed(fields);
    SortKeyed(CanonFields(fields));
  }
}
