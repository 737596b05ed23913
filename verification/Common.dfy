/** Shared vocabulary: options, identifiers, and sums and orderings over finite maps. */
module Common {

  datatype Option<+T> = None | Some(value: T)

  /** An opaque identifier. The source compares identifiers only by equality and by string
      order, so an identifier is represented by its rank in that order. */
  type Id = nat

  function Max(a: int, b: int): int { if a >= b then a else b }

  function Min(a: int, b: int): int { if a <= b then a else b }

  /** `m` without key `k`. */
  function Without<V>(m: map<Id, V>, k: Id): (rest: map<Id, V>)
    ensures k in m ==> |rest| == |m| - 1
    ensures rest.Keys == m.Keys - {k}
  {
    assert (m - {k}).Keys == m.Keys - {k};
    m - {k}
  }

  // ---------------------------------------------------------------- sums

  ghost function Pick<V(!new)>(m: map<Id, V>): (k: Id)
    requires m != map[]
    ensures k in m
  {
    var k :| k in m;
    k
  }

  /** The sum of `f` over all values of a finite map. */
  ghost function Total<V(!new)>(m: map<Id, V>, f: V -> nat): nat
    decreases |m|
  {
    if m == map[] then 0 else f(m[Pick(m)]) + Total(Without(m, Pick(m)), f)
  }

  /** A sum does not depend on the order in which it is taken. */
  lemma {:induction false} TotalSplit<V(!new)>(m: map<Id, V>, f: V -> nat, k: Id)
    requires k in m
    ensures Total(m, f) == f(m[k]) + Total(Without(m, k), f)
    decreases |m|
  {
    var j := Pick(m);
    if j != k {
      var a, b := Without(m, j), Without(m, k);
      TotalSplit(a, f, k);
      TotalSplit(b, f, j);
      assert Without(a, k) == Without(b, j);
    }
  }

  lemma TotalInsert<V(!new)>(m: map<Id, V>, f: V -> nat, k: Id, v: V)
    requires k !in m
    ensures Total(m[k := v], f) == Total(m, f) + f(v)
  {
    TotalSplit(m[k := v], f, k);
    assert Without(m[k := v], k) == m;
  }

  lemma TotalReplace<V(!new)>(m: map<Id, V>, f: V -> nat, k: Id, v: V)
    requires k in m
    ensures Total(m[k := v], f) == Total(m, f) - f(m[k]) + f(v)
  {
    TotalSplit(m, f, k);
    TotalSplit(m[k := v], f, k);
    assert Without(m[k := v], k) == Without(m, k);
  }

  /** A map with fewer entries, each weighing no more, has no larger sum. */
  lemma {:induction false} TotalMonotone<V(!new)>(a: map<Id, V>, b: map<Id, V>, f: V -> nat)
    requires forall k :: k in a ==> k in b && f(a[k]) <= f(b[k])
    ensures Total(a, f) <= Total(b, f)
    decreases |a|
  {
    if a != map[] {
      var k :| k in a;
      TotalSplit(a, f, k);
      TotalSplit(b, f, k);
      TotalMonotone(Without(a, k), Without(b, k), f);
    }
  }

  // ---------------------------------------------------------------- orderings

  /** `k` comes first in `m` by weight and then by identifier. */
  ghost predicate IsFirst<V(!new)>(m: map<Id, V>, f: V -> nat, k: Id)
  {
    k in m && forall j :: j in m ==> f(m[k]) < f(m[j]) || (f(m[k]) == f(m[j]) && k <= j)
  }

  lemma {:induction false} FirstExists<V(!new)>(m: map<Id, V>, f: V -> nat)
    requires m != map[]
    ensures exists k :: IsFirst(m, f, k)
    decreases |m|
  {
    var k :| k in m;
    var rest := Without(m, k);
    assert forall j :: j in m ==> j == k || j in rest;
    if rest == map[] {
      assert IsFirst(m, f, k);
    } else {
      FirstExists(rest, f);
      var b :| IsFirst(rest, f, b);
      var best := if f(m[k]) < f(m[b]) || (f(m[k]) == f(m[b]) && k <= b) then k else b;
      assert IsFirst(m, f, best);
    }
  }

  ghost function First<V(!new)>(m: map<Id, V>, f: V -> nat): (k: Id)
    requires m != map[]
    ensures IsFirst(m, f, k)
  {
    FirstExists(m, f);
    var k :| IsFirst(m, f, k);
    k
  }

  /** The keys of `m` sorted by weight and then by identifier. */
  ghost function Ordered<V(!new)>(m: map<Id, V>, f: V -> nat): (s: seq<Id>)
    ensures |s| == |m|
    ensures forall k :: k in s <==> k in m
    decreases |m|
  {
    if m == map[] then [] else [First(m, f)] + Ordered(Without(m, First(m, f)), f)
  }

  /** Scan for the first key. */
  method FindFirst<V(!new)>(m: map<Id, V>, f: V -> nat) returns (k: Id)
    requires m != map[]
    ensures k == First(m, f)
  {
    k :| k in m;
    var todo := m.Keys - {k};
    while todo != {}
      invariant k in m && todo <= m.Keys
      invariant forall j :: j in m && j !in todo ==> f(m[k]) < f(m[j]) || (f(m[k]) == f(m[j]) && k <= j)
      decreases |todo|
    {
      var j :| j in todo;
      if f(m[j]) < f(m[k]) || (f(m[j]) == f(m[k]) && j < k) {
        k := j;
      }
      todo := todo - {j};
    }
    assert IsFirst(m, f, k) && IsFirst(m, f, First(m, f));
  }

  lemma OrderedStep<V(!new)>(m: map<Id, V>, f: V -> nat, prefix: seq<Id>)
    requires m != map[]
    ensures prefix + Ordered(m, f) == prefix + [First(m, f)] + Ordered(Without(m, First(m, f)), f)
  {
    var k := First(m, f);
    SplitAfter(prefix, k, Ordered(Without(m, k), f));
    assert Ordered(m, f) == [k] + Ordered(Without(m, k), f);
  }

  lemma SplitAfter(prefix: seq<Id>, k: Id, later: seq<Id>)
    ensures prefix + ([k] + later) == prefix + [k] + later
  {
  }

  lemma OrderedAt<V(!new)>(m: map<Id, V>, f: V -> nat, k: Id, j: nat)
    requires m != map[] && k == First(m, f) && j < |m|
    ensures |Ordered(Without(m, k), f)| == |m| - 1
    ensures Ordered(m, f)[j] == if j == 0 then k else Ordered(Without(m, k), f)[j - 1]
  {
    hide Ordered;
    OrderedStep(m, f, []);
    HeadAndRest(Ordered(m, f), k, Ordered(Without(m, k), f), j);
  }

  lemma HeadAndRest(s: seq<Id>, k: Id, later: seq<Id>, j: nat)
    requires [] + s == [] + [k] + later && j < |s|
    ensures |later| == |s| - 1 && s[j] == if j == 0 then k else later[j - 1]
  {
    assert [] + s == s;
    assert [] + [k] + later == [k] + later;
  }

  /** In the sorted order a key comes before those after it, by weight and then by identifier. */
  lemma {:induction false} OrderedSorted<V(!new)>(m: map<Id, V>, f: V -> nat, i: nat, j: nat)
    requires i < j < |m|
    ensures var s := Ordered(m, f);
            s[i] in m && s[j] in m && (f(m[s[i]]) < f(m[s[j]]) || (f(m[s[i]]) == f(m[s[j]]) && s[i] < s[j]))
    decreases |m|
  {
    hide Ordered;
    assert m != map[];
    var k := First(m, f);
    var rest := Without(m, k);
    OrderedAt(m, f, k, i);
    OrderedAt(m, f, k, j);
    if i == 0 {
      assert Ordered(m, f)[j] in Ordered(rest, f);
    } else {
      OrderedSorted(rest, f, i - 1, j - 1);
    }
  }

  /** Sort the keys of `m` by weight and then by identifier. */
  method Sort<V(!new)>(m: map<Id, V>, f: V -> nat) returns (s: seq<Id>)
    ensures s == Ordered(m, f)
  {
    s := [];
    var rest := m;
    while rest != map[]
      invariant s + Ordered(rest, f) == Ordered(m, f)
      decreases |rest|
    {
      var k := FindFirst(rest, f);
      OrderedStep(rest, f, s);
      s := s + [k];
      rest := Without(rest, k);
    }
  }

  /** Add up the weights of `m`. */
  method Sum<V(!new)>(m: map<Id, V>, f: V -> nat) returns (total: nat)
    ensures total == Total(m, f)
  {
    total := 0;
    var rest := m;
    while rest != map[]
      invariant total + Total(rest, f) == Total(m, f)
      decreases |rest|
    {
      var k :| k in rest;
      TotalSplit(rest, f, k);
      total := total + f(rest[k]);
      rest := Without(rest, k);
    }
  }

  // ---------------------------------------------------------------- sorted objects

  /** A JSON object with sorted keys: the entries of `m` by identifier, each value rendered by `f`. */
  ghost function Encode<V(!new), W>(m: map<Id, V>, f: V -> W): (items: seq<(Id, W)>)
    ensures |items| == |m|
    decreases |m|
  {
    if m == map[] then []
    else
      var k := First(m, (_: V) => 0);
      [(k, f(m[k]))] + Encode(Without(m, k), f)
  }

  /** Read an object back, parsing each value with `g`. */
  function Decode<V, W>(items: seq<(Id, W)>, g: W -> V): map<Id, V>
    decreases |items|
  {
    if items == [] then map[] else Decode(items[1..], g)[items[0].0 := g(items[0].1)]
  }

  /** Reading back what was written gives the same map, whenever `g` inverts `f` on its values. */
  lemma {:induction false} DecodeEncode<V(!new), W(!new)>(m: map<Id, V>, f: V -> W, g: W -> V)
    requires forall k :: k in m ==> g(f(m[k])) == m[k]
    ensures Decode(Encode(m, f), g) == m
    decreases |m|
  {
    if m != map[] {
      var k := First(m, (_: V) => 0);
      var items := Encode(m, f);
      assert items == [(k, f(m[k]))] + Encode(Without(m, k), f);
      assert items[1..] == Encode(Without(m, k), f);
      DecodeEncode(Without(m, k), f, g);
      assert Without(m, k)[k := m[k]] == m;
    }
  }

  /** Every entry written comes from the map. */
  lemma {:induction false} EncodeAll<V(!new), W(!new)>(m: map<Id, V>, f: V -> W, p: W -> bool)
    requires forall k :: k in m ==> p(f(m[k]))
    ensures forall i :: 0 <= i < |Encode(m, f)| ==> p(Encode(m, f)[i].1)
    decreases |m|
  {
    if m != map[] {
      EncodeAll(Without(m, First(m, (_: V) => 0)), f, p);
    }
  }
}
