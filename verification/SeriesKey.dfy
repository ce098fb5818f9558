/** The order of label keys and the identity of a series. */
module SeriesKey {
  import opened Words
  import opened Model
  import opened Binary

  // ---- byte-wise string order ----

  predicate AtMost(a: Str, b: Str) {
    a == [] || (b != [] && (a[0] < b[0] || (a[0] == b[0] && AtMost(a[1..], b[1..]))))
  }

  lemma {:induction false} AtMostTotal(a: Str, b: Str)
    ensures AtMost(a, b) || AtMost(b, a)
    ensures AtMost(a, b) && AtMost(b, a) ==> a == b
  {
    if a != [] && b != [] {
      AtMostTotal(a[1..], b[1..]);
    }
  }

  lemma {:induction false} AtMostTransitive(a: Str, b: Str, c: Str)
    requires AtMost(a, b) && AtMost(b, c)
    ensures AtMost(a, c)
  {
    if a != [] && a[0] == b[0] == c[0] {
      AtMostTransitive(a[1..], b[1..], c[1..]);
    }
  }

  ghost predicate Sorted(keys: seq<Str>) {
    forall i, j :: 0 <= i < j < |keys| ==> AtMost(keys[i], keys[j])
  }

  /** sort.Strings */
  method SortStrings(keys: seq<Str>) returns (sorted: seq<Str>)
    ensures Sorted(sorted) && multiset(sorted) == multiset(keys)
  {
    sorted := [];
    for i := 0 to |keys|
      invariant Sorted(sorted) && multiset(sorted) == multiset(keys[..i])
    {
      assert keys[..i + 1] == keys[..i] + [keys[i]];
      sorted := InsertString(sorted, keys[i]);
    }
    assert keys[..|keys|] == keys;
  }

  method InsertString(sorted: seq<Str>, key: Str) returns (r: seq<Str>)
    requires Sorted(sorted)
    ensures Sorted(r) && multiset(r) == multiset(sorted) + multiset{key}
  {
    hide AtMost;
    var i := |sorted|;
    AtMostTotal(key, key);
    while i > 0 && !AtMost(sorted[i - 1], key)
      invariant 0 <= i <= |sorted|
      invariant forall j :: i <= j < |sorted| ==> AtMost(key, sorted[j])
    {
      AtMostTotal(sorted[i - 1], key);
      i := i - 1;
    }
    forall j | 0 <= j < i ensures AtMost(sorted[j], key) {
      if j < i - 1 {
        AtMostTransitive(sorted[j], sorted[i - 1], key);
      }
    }
    r := sorted[..i] + [key] + sorted[i..];
    assert sorted == sorted[..i] + sorted[i..];
  }

  lemma {:induction false} TailMultiset(a: seq<Str>)
    requires a != []
    ensures a == [a[0]] + a[1..] && multiset(a[1..]) == multiset(a) - multiset{a[0]}
  {
    assert a == [a[0]] + a[1..];
  }

  lemma {:induction false} SameHead(a: seq<Str>, b: seq<Str>)
    requires a != [] && b != [] && Sorted(a) && Sorted(b)
    requires multiset(a) == multiset(b)
    ensures a[0] == b[0]
  {
    hide AtMost;
    assert a[0] in multiset(b) && b[0] in multiset(a);
    var i :| 0 <= i < |b| && b[i] == a[0];
    var j :| 0 <= j < |a| && a[j] == b[0];
    AtMostTotal(a[0], b[0]);
  }

  /** A sorted list is determined by its elements. */
  lemma {:induction false} SortedUnique(a: seq<Str>, b: seq<Str>)
    requires Sorted(a) && Sorted(b)
    requires multiset(a) == multiset(b)
    ensures a == b
  {
    if a == [] {
      assert |multiset(b)| == 0;
    } else {
      assert |multiset(a)| == |a| && |multiset(b)| == |b|;
      SameHead(a, b);
      TailMultiset(a);
      TailMultiset(b);
      SortedUnique(a[1..], b[1..]);
    }
  }

  lemma {:induction false} LeastKey(keys: set<Str>) returns (least: Str)
    requires keys != {}
    ensures least in keys && forall k :: k in keys ==> AtMost(least, k)
    decreases keys
  {
    var k :| k in keys;
    AtMostTotal(k, k);
    if keys == {k} {
      return k;
    }
    var other := LeastKey(keys - {k});
    AtMostTotal(k, other);
    if AtMost(k, other) {
      forall q | q in keys ensures AtMost(k, q) {
        if q != k {
          AtMostTransitive(k, other, q);
        }
      }
      return k;
    }
    return other;
  }

  /** The keys of a label set, sorted. */
  ghost function SortedKeys(keys: set<Str>): (order: seq<Str>)
    ensures Sorted(order) && |order| == |keys|
    ensures forall k :: k in order <==> k in keys
    ensures forall i, j :: 0 <= i < j < |order| ==> order[i] != order[j]
  {
    if keys == {} then []
    else
      assert exists k :: k in keys && forall q :: q in keys ==> AtMost(k, q) by {
        var _ := LeastKey(keys);
      }
      var k :| k in keys && forall q :: q in keys ==> AtMost(k, q);
      [k] + SortedKeys(keys - {k})
  }

  lemma {:induction false} NoRepetition(a: seq<Str>)
    requires forall i, j :: 0 <= i < j < |a| ==> a[i] != a[j]
    ensures forall k :: multiset(a)[k] == if k in a then 1 else 0
  {
    if a != [] {
      NoRepetition(a[1..]);
      assert a == [a[0]] + a[1..];
    }
  }

  lemma {:induction false} SameElements(a: seq<Str>, b: seq<Str>)
    requires forall i, j :: 0 <= i < j < |a| ==> a[i] != a[j]
    requires forall i, j :: 0 <= i < j < |b| ==> b[i] != b[j]
    requires forall k :: k in a <==> k in b
    ensures multiset(a) == multiset(b)
  {
    NoRepetition(a);
    NoRepetition(b);
  }

  /** Whatever order the keys were collected in, sorting gives the canonical list. */
  lemma {:induction false} CanonicalOrder(order: seq<Str>, labels: Labels, sorted: seq<Str>)
    requires IsOrder(order, labels) && Sorted(sorted) && multiset(sorted) == multiset(order)
    ensures sorted == SortedKeys(labels.Keys)
  {
    hide Sorted;
    var canonical := SortedKeys(labels.Keys);
    SameElements(order, canonical);
    SortedUnique(sorted, canonical);
  }

  lemma {:induction false} CanonicalIsOrder(labels: Labels)
    ensures IsOrder(SortedKeys(labels.Keys), labels)
  {
  }

  // ---- the size of a label block ----

  /** The label block in canonical order. */
  ghost function BlockBytes(labels: Labels): seq<byte> {
    LabelsBytes(labels, SortedKeys(labels.Keys))
  }

  lemma {:induction false} PairsSplit(labels: Labels, a: seq<Str>, b: seq<Str>)
    requires forall k :: k in a + b ==> k in labels
    ensures (forall k :: k in a ==> k in labels) && (forall k :: k in b ==> k in labels)
    ensures PairsBytes(labels, a + b) == PairsBytes(labels, a) + PairsBytes(labels, b)
    decreases a
  {
    hide StrBytes;
    assert forall k :: k in a || k in b ==> k in a + b;
    if a == [] {
      assert a + b == b;
    } else {
      assert (a + b)[1..] == a[1..] + b;
      PairsSplit(labels, a[1..], b);
    }
  }

  lemma {:induction false} RemoveAt(a: seq<Str>, i: nat)
    requires i < |a|
    ensures a == a[..i] + ([a[i]] + a[i + 1..])
    ensures multiset(a[..i] + a[i + 1..]) == multiset(a) - multiset{a[i]}
  {
    assert a == a[..i] + ([a[i]] + a[i + 1..]);
    assert multiset(a) == multiset(a[..i]) + (multiset{a[i]} + multiset(a[i + 1..]));
  }

  lemma {:induction false} PairsRemove(labels: Labels, a: seq<Str>, i: nat)
    requires i < |a| && forall k :: k in a ==> k in labels
    ensures forall k :: k in a[..i] + a[i + 1..] ==> k in labels
    ensures |PairsBytes(labels, a)|
         == |StrBytes(a[i])| + |StrBytes(labels[a[i]])| + |PairsBytes(labels, a[..i] + a[i + 1..])|
  {
    hide StrBytes;
    RemoveAt(a, i);
    PairsSplit(labels, a[..i], [a[i]] + a[i + 1..]);
    PairsSplit(labels, a[..i], a[i + 1..]);
    assert ([a[i]] + a[i + 1..])[1..] == a[i + 1..];
  }

  /** Two lists with the same elements have the same without the first of one of them. */
  lemma {:induction false} SameRest(a: seq<Str>, b: seq<Str>) returns (i: nat)
    requires multiset(a) == multiset(b) && a != []
    ensures i < |b| && b[i] == a[0] && multiset(a[1..]) == multiset(b[..i] + b[i + 1..])
  {
    assert a[0] in multiset(b);
    i :| 0 <= i < |b| && b[i] == a[0];
    RemoveAt(b, i);
    TailMultiset(a);
  }

  lemma {:induction false} PairsSize(labels: Labels, a: seq<Str>, b: seq<Str>)
    requires multiset(a) == multiset(b) && forall k :: k in a ==> k in labels
    ensures (forall k :: k in b ==> k in labels) && |PairsBytes(labels, a)| == |PairsBytes(labels, b)|
    decreases a
  {
    hide StrBytes, PairsBytes;
    forall k | k in b ensures k in labels {
      assert k in multiset(a);
    }
    if a == [] {
      assert |multiset(b)| == 0;
    } else {
      var i := SameRest(a, b);
      PairsSize(labels, a[1..], b[..i] + b[i + 1..]);
      assert a[..0] + a[1..] == a[1..];
      PairsRemove(labels, a, 0);
      PairsRemove(labels, b, i);
    }
  }

  /** A label block has the same size in every order. */
  lemma {:induction false} BlockSize(labels: Labels, order: seq<Str>)
    requires IsOrder(order, labels)
    ensures |LabelsBytes(labels, order)| == |BlockBytes(labels)|
  {
    hide PairsBytes, Sorted;
    CanonicalIsOrder(labels);
    SameElements(order, SortedKeys(labels.Keys));
    PairsSize(labels, order, SortedKeys(labels.Keys));
  }

  /** The keys of a map in an order the caller does not control. */
  method CollectKeys(labels: Labels) returns (keys: seq<Str>)
    ensures IsOrder(keys, labels)
  {
    keys := [];
    var left := labels.Keys;
    while left != {}
      invariant left <= labels.Keys
      invariant forall i, j :: 0 <= i < j < |keys| ==> keys[i] != keys[j]
      invariant forall k :: k in keys <==> k in labels && k !in left
      decreases left
    {
      var k :| k in left;
      keys := keys + [k];
      left := left - {k};
    }
  }

  // ---- identity ----

  const NUL: byte := 0
  const EQUALS: byte := 61

  ghost function EntryBytes(labels: Labels, order: seq<Str>): seq<byte>
    requires forall k :: k in order ==> k in labels
  {
    if order == [] then []
    else order[0] + [EQUALS] + labels[order[0]] + [NUL] + EntryBytes(labels, order[1..])
  }

  /** The bytes that identify a series. */
  ghost function IdentityBytes(s: Series): seq<byte> {
    s.metric + [NUL] + EntryBytes(s.labels, SortedKeys(s.labels.Keys))
  }

  const FNV_OFFSET: uint64 := 0xCBF2_9CE4_8422_2325
  const FNV_PRIME: nat := 0x100_0000_01B3

  /** FNV-1a, 64 bits, continued from h. */
  function Fnv(h: uint64, data: seq<byte>): uint64
    decreases data
  {
    if data == [] then h else FnvByte(data[0]); Fnv(Xor64(h, data[0]) * FNV_PRIME % TWO_64, data[1..])
  }

  lemma {:induction false} FnvByte(b: byte)
    ensures b < TWO_64
  {
  }

  lemma {:induction false} FnvAppend(h: uint64, a: seq<byte>, b: seq<byte>)
    ensures Fnv(h, a + b) == Fnv(Fnv(h, a), b)
    decreases a
  {
    if a == [] {
      assert a + b == b;
    } else {
      FnvAppend(Xor64(h, a[0]) * FNV_PRIME % TWO_64, a[1..], b);
      assert (a + b)[1..] == a[1..] + b;
    }
  }

  ghost function Hash(s: Series): uint64 {
    Fnv(FNV_OFFSET, IdentityBytes(s))
  }

  /** Collects the keys, sorts them and feeds the hash; the result depends on the series only. */
  method HashSeries(metric: Str, labels: Labels) returns (h: uint64)
    ensures h == Hash(Series(metric, labels))
  {
    hide Fnv, Sorted, EntryBytes, SortedKeys;
    NoEntries(labels);
    var keys := CollectKeys(labels);
    var sorted := SortStrings(keys);
    CanonicalOrder(keys, labels, sorted);
    h := Fnv(FNV_OFFSET, metric);
    h := Fnv(h, [NUL]);
    FnvAppend(FNV_OFFSET, metric, [NUL]);
    CanonicalIsOrder(labels);
    ghost var fed := metric + [NUL];
    var i := 0;
    while i < |sorted|
      invariant 0 <= i <= |sorted|
      invariant h == Fnv(FNV_OFFSET, fed)
      invariant fed + EntryBytes(labels, sorted[i..]) == IdentityBytes(Series(metric, labels))
    {
      hide IdentityBytes;
      var k := sorted[i];
      ghost var entry := k + [EQUALS] + labels[k] + [NUL];
      EntryStep(labels, sorted, i, fed);
      FnvAppend(FNV_OFFSET, fed, entry);
      FnvPieces(h, k, labels[k]);
      h := Fnv(h, k);
      h := Fnv(h, [EQUALS]);
      h := Fnv(h, labels[k]);
      h := Fnv(h, [NUL]);
      fed := fed + entry;
      i := i + 1;
    }
    assert sorted[i..] == [];
    assert fed == IdentityBytes(Series(metric, labels));
  }

  lemma {:induction false} NoEntries(labels: Labels)
    ensures EntryBytes(labels, []) == []
  {
  }

  lemma {:induction false} EntryStep(labels: Labels, sorted: seq<Str>, i: nat, fed: seq<byte>)
    requires i < |sorted| && forall k :: k in sorted ==> k in labels
    ensures
      var k := sorted[i];
      fed + EntryBytes(labels, sorted[i..])
        == fed + (k + [EQUALS] + labels[k] + [NUL]) + EntryBytes(labels, sorted[i + 1..])
  {
    assert sorted[i..][0] == sorted[i] && sorted[i..][1..] == sorted[i + 1..];
  }

  lemma {:induction false} FnvPieces(h: uint64, k: Str, v: Str)
    ensures Fnv(Fnv(Fnv(Fnv(h, k), [EQUALS]), v), [NUL]) == Fnv(h, k + [EQUALS] + v + [NUL])
  {
    FnvAppend(h, k, [EQUALS]);
    FnvAppend(h, k + [EQUALS], v);
    FnvAppend(h, k + [EQUALS] + v, [NUL]);
  }

  // ---- the identity is injective ----

  ghost predicate Plain(s: Series) {
    && NUL !in s.metric
    && forall k :: k in s.labels ==> NUL !in k && EQUALS !in k && NUL !in s.labels[k]
  }

  /** A separator that does not occur before it splits a string in one way only. */
  lemma {:induction false} SplitOnce(a: Str, b: Str, c: byte, ra: seq<byte>, rb: seq<byte>)
    requires c !in a && c !in b
    requires a + [c] + ra == b + [c] + rb
    ensures a == b && ra == rb
  {
    SeparatorAt(a, c, ra);
    SeparatorAt(b, c, rb);
    if |a| < |b| {
      assert false;
    }
    if |b| < |a| {
      assert false;
    }
  }

  lemma {:induction false} SeparatorAt(a: Str, c: byte, r: seq<byte>)
    ensures
      var x := a + [c] + r;
      x[|a|] == c && x[..|a|] == a && x[|a| + 1..] == r
    ensures forall i :: 0 <= i < |a| ==> (a + [c] + r)[i] == a[i]
  {
  }

  lemma {:induction false} EntriesInjective(p: Labels, op: seq<Str>, q: Labels, oq: seq<Str>)
    requires forall k :: k in op ==> k in p && NUL !in k && EQUALS !in k && NUL !in p[k]
    requires forall k :: k in oq ==> k in q && NUL !in k && EQUALS !in k && NUL !in q[k]
    requires EntryBytes(p, op) == EntryBytes(q, oq)
    ensures op == oq && forall k :: k in op ==> p[k] == q[k]
    decreases op
  {
    if op != [] && oq != [] {
      var k, l := op[0], oq[0];
      var rp, rq := EntryBytes(p, op[1..]), EntryBytes(q, oq[1..]);
      assert EntryBytes(p, op) == k + [EQUALS] + (p[k] + [NUL] + rp);
      assert EntryBytes(q, oq) == l + [EQUALS] + (q[l] + [NUL] + rq);
      SplitOnce(k, l, EQUALS, p[k] + [NUL] + rp, q[l] + [NUL] + rq);
      SplitOnce(p[k], q[l], NUL, rp, rq);
      EntriesInjective(p, op[1..], q, oq[1..]);
      assert op == [k] + op[1..] && oq == [l] + oq[1..];
    }
  }

  /** Different series without NUL, and without '=' in a key, feed different bytes to the
      hash: they share an id only through a collision of FNV itself. */
  lemma {:induction false} IdentityInjective(s: Series, t: Series)
    requires Plain(s) && Plain(t) && IdentityBytes(s) == IdentityBytes(t)
    ensures s == t
  {
    hide Sorted, EntryBytes, SortedKeys;
    var os, ot := SortedKeys(s.labels.Keys), SortedKeys(t.labels.Keys);
    SplitOnce(s.metric, t.metric, NUL, EntryBytes(s.labels, os), EntryBytes(t.labels, ot));
    EntriesInjective(s.labels, os, t.labels, ot);
    SameOrder(s.labels, t.labels, os);
  }

  lemma {:induction false} SameOrder(p: Labels, q: Labels, order: seq<Str>)
    requires forall k :: k in order <==> k in p
    requires forall k :: k in order <==> k in q
    requires forall k :: k in order ==> p[k] == q[k]
    ensures p == q
  {
    assert forall k :: k in p <==> k in q;
  }

  /** Without the condition on keys the identity is not injective: moving '=' from the value
      into the key gives another series with the same bytes, whatever the three parts are. */
  lemma {:induction false} EqualsInKeyCollides(metric: Str, a: Str, b: Str, c: Str)
    ensures
      var s, t := Series(metric, map[a + [EQUALS] + b := c]), Series(metric, map[a := b + [EQUALS] + c]);
      s != t && IdentityBytes(s) == IdentityBytes(t)
  {
    OneEntry(a + [EQUALS] + b, c);
    OneEntry(a, b + [EQUALS] + c);
    var s, t := Series(metric, map[a + [EQUALS] + b := c]), Series(metric, map[a := b + [EQUALS] + c]);
    assert a + [EQUALS] + b in s.labels && |a + [EQUALS] + b| > |a|;
    assert (a + [EQUALS] + b) + [EQUALS] + c == a + [EQUALS] + (b + [EQUALS] + c);
  }

  lemma {:induction false} OneEntry(k: Str, v: Str)
    ensures EntryBytes(map[k := v], SortedKeys(map[k := v].Keys)) == k + [EQUALS] + v + [NUL]
  {
    var order := SortedKeys(map[k := v].Keys);
    assert |order| == |{k}| == 1;
    assert order[0] in order;
    assert order == [k] && order[1..] == [];
  }
}
