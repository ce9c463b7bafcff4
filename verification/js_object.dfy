/**
 * Plain JavaScript objects used as string-keyed tables: the assignment
 * `o[k] = v` and the listing `Object.entries(o)`. An object lists its own
 * keys in the order of section 10.1.11.1 (OrdinaryOwnPropertyKeys) of
 * ECMA-262: first the keys that are array indices, in ascending numeric
 * order, then the other string keys in the order they were created.
 */
module JsObject {
  import opened Wrappers
  import opened JsText
  import opened Sorting

  /** An object's own properties, each key with its value, in creation order. */
  type Props<V> = seq<(string, V)>

  /** No key is listed twice. */
  predicate UniqueKeys<V>(o: Props<V>) {
    forall a, b | 0 <= a < b < |o| :: o[a].0 != o[b].0
  }

  /** An array index: a canonical decimal integer (no sign, no leading zero) below 2^32 - 1. */
  predicate IsArrayIndex(k: string) {
    && k != [] && AllDigits(k)
    && (k[0] == '0' ==> k == "0")
    && DigitsValue(k) < 0xFFFF_FFFF
  }

  /** The numeric value of an array-index key; 0 for any other key. */
  function IndexValue<V>(e: (string, V)): int {
    if IsArrayIndex(e.0) then DigitsValue(e.0) else 0
  }

  /** The position of property `k`, or `|o|` when the object has none. */
  function Find<V>(o: Props<V>, k: string): (j: nat)
    ensures j <= |o|
    ensures j < |o| ==> o[j].0 == k
    ensures forall i | 0 <= i < j :: o[i].0 != k
  {
    if o == [] then 0 else if o[0].0 == k then 0 else 1 + Find(o[1..], k)
  }

  /** `o[k]`: the value of property `k`, if there is one. */
  function Get<V>(o: Props<V>, k: string): (r: Option<V>)
    requires UniqueKeys(o)
    ensures r.None? <==> forall j | 0 <= j < |o| :: o[j].0 != k
    ensures forall j | 0 <= j < |o| && o[j].0 == k :: r == Some(o[j].1)
  {
    var j := Find(o, k);
    if j < |o| then Some(o[j].1) else None
  }

  /**
   * `o[k] = v`: property `k` reads `v` afterwards and every other property
   * reads as before; an existing property keeps its place, a new one is
   * created last.
   */
  function Assign<V>(o: Props<V>, k: string, v: V): (r: Props<V>)
    requires UniqueKeys(o)
    ensures UniqueKeys(r)
    ensures Get(r, k) == Some(v)
    ensures forall k' | k' != k :: Get(r, k') == Get(o, k')
    ensures Get(o, k).Some? ==> |r| == |o| && forall j | 0 <= j < |o| :: r[j].0 == o[j].0
    ensures Get(o, k).None? ==> r == o + [(k, v)]
    ensures forall e | e in r :: e in o || e == (k, v)
  {
    var j := Find(o, k);
    var r := if j < |o| then o[j := (k, v)] else o + [(k, v)];
    AssignReads(o, k, v, j, r);
    r
  }

  /** What the properties read after `o[k] = v`, where `k` sits at `j` (`|o|` for a new key). */
  lemma AssignReads<V>(o: Props<V>, k: string, v: V, j: nat, r: Props<V>)
    requires UniqueKeys(o) && j == Find(o, k)
    requires r == if j < |o| then o[j := (k, v)] else o + [(k, v)]
    ensures UniqueKeys(r)
    ensures Get(r, k) == Some(v)
    ensures forall k' | k' != k :: Get(r, k') == Get(o, k')
  {
    assert forall i | 0 <= i < |r| && i != j :: r[i] == o[i];
    assert r[j] == (k, v);
    assert UniqueKeys(r);
    forall k' | k' != k ensures Get(r, k') == Get(o, k') {
      if i :| 0 <= i < |o| && o[i].0 == k' {
        assert r[i] == o[i];
      }
    }
  }

  /** The object that the assignments `o[k] = v` for the pairs of `es`, in order, make from `{}`. */
  function Build<V>(es: seq<(string, V)>): (r: Props<V>)
    ensures UniqueKeys(r) && |r| <= |es|
    ensures forall e | e in r :: e in es
    ensures forall j | 0 <= j < |es| :: Get(r, es[j].0).Some?
    decreases |es|
  {
    if es == [] then []
    else
      var init := es[..|es| - 1];
      var r := Assign(Build(init), es[|es| - 1].0, es[|es| - 1].1);
      assert forall j | 0 <= j < |es| - 1 :: es[j] == init[j];
      r
  }

  /** The property's value is the one its last assignment gave. */
  lemma {:induction false} BuildLastWins<V>(es: seq<(string, V)>, j: nat)
    requires j < |es| && forall i | j < i < |es| :: es[i].0 != es[j].0
    ensures Get(Build(es), es[j].0) == Some(es[j].1)
    decreases |es|
  {
    if j < |es| - 1 {
      var init := es[..|es| - 1];
      BuildLastWins(init, j);
    }
  }

  /** Assigning distinct keys creates the properties in assignment order. */
  lemma {:induction false} BuildDistinct<V>(es: seq<(string, V)>)
    requires UniqueKeys(es)
    ensures Build(es) == es
    decreases |es|
  {
    if es != [] {
      var init := es[..|es| - 1];
      var last := es[|es| - 1];
      assert UniqueKeys(init) by {
        forall a, b | 0 <= a < b < |init| ensures init[a].0 != init[b].0 {
          assert init[a] == es[a] && init[b] == es[b];
        }
      }
      BuildDistinct(init);
      assert Get(init, last.0).None? by {
        forall j | 0 <= j < |init| ensures init[j].0 != last.0 {
          assert init[j] == es[j];
        }
      }
      assert es == init + [last];
    }
  }

  /** The object has property `k`. */
  predicate HasKey<V>(o: Props<V>, k: string) {
    exists j | 0 <= j < |o| :: o[j].0 == k
  }

  /**
   * `Object.entries` of the object a loop of assignments builds: every
   * listed pair was assigned, every assigned key is listed, and with
   * distinct keys the listing is that of the pairs themselves.
   */
  lemma EntriesOfBuild<V>(es: seq<(string, V)>)
    ensures forall e | e in Entries(Build(es)) :: e in es
    ensures forall k | 0 <= k < |es| :: HasKey(Entries(Build(es)), es[k].0)
    ensures UniqueKeys(es) ==> Entries(Build(es)) == Entries(es)
  {
    BuildListed(es);
    if UniqueKeys(es) {
      BuildDistinct(es);
    }
  }

  lemma BuildListed<V>(es: seq<(string, V)>)
    ensures forall e | e in Entries(Build(es)) :: e in es
    ensures forall k | 0 <= k < |es| :: HasKey(Entries(Build(es)), es[k].0)
  {
    var o := Build(es);
    var r := Entries(o);
    forall e | e in r ensures e in es {
      assert e in multiset(r);
      assert e in o;
    }
    forall k | 0 <= k < |es| ensures HasKey(r, es[k].0) {
      ListedKey(o, es[k].0);
    }
  }

  /** A key the object has is listed by `Object.entries`. */
  lemma ListedKey<V>(o: Props<V>, k: string)
    requires UniqueKeys(o) && Get(o, k).Some?
    ensures HasKey(Entries(o), k)
  {
    var r := Entries(o);
    var i := Find(o, k);
    assert i < |o|;
    assert o[i] in multiset(r);
    var j :| 0 <= j < |r| && r[j] == o[i];
    assert r[j].0 == k;
  }

  /** The properties with array-index keys, in creation order. */
  function IndexKeyed<V>(o: Props<V>): (r: Props<V>)
    ensures forall j | 0 <= j < |r| :: IsArrayIndex(r[j].0)
    ensures (forall j | 0 <= j < |o| :: !IsArrayIndex(o[j].0)) ==> r == []
    decreases |o|
  {
    if o == [] then []
    else (if IsArrayIndex(o[0].0) then [o[0]] else []) + IndexKeyed(o[1..])
  }

  /** The properties with other keys, in creation order. */
  function NameKeyed<V>(o: Props<V>): (r: Props<V>)
    ensures forall j | 0 <= j < |r| :: !IsArrayIndex(r[j].0)
    ensures (forall j | 0 <= j < |o| :: !IsArrayIndex(o[j].0)) ==> r == o
    decreases |o|
  {
    if o == [] then []
    else (if IsArrayIndex(o[0].0) then [] else [o[0]]) + NameKeyed(o[1..])
  }

  /** The two kinds of key together are all the properties. */
  lemma {:induction false} KeyedSplit<V>(o: Props<V>)
    ensures multiset(IndexKeyed(o)) + multiset(NameKeyed(o)) == multiset(o)
    decreases |o|
  {
    if o != [] {
      var rest := o[1..];
      KeyedSplit(rest);
      if IsArrayIndex(o[0].0) {
        assert IndexKeyed(o) == [o[0]] + IndexKeyed(rest);
        assert NameKeyed(o) == [] + NameKeyed(rest) == NameKeyed(rest);
      } else {
        assert IndexKeyed(o) == [] + IndexKeyed(rest) == IndexKeyed(rest);
        assert NameKeyed(o) == [o[0]] + NameKeyed(rest);
      }
      assert o == [o[0]] + rest;
      assert multiset(o) == multiset{o[0]} + multiset(rest);
    }
  }

  lemma {:induction false} NameKeyedAppend<V>(a: Props<V>, b: Props<V>)
    ensures NameKeyed(a + b) == NameKeyed(a) + NameKeyed(b)
    decreases |a|
  {
    if a != [] {
      var head := if IsArrayIndex(a[0].0) then [] else [a[0]];
      assert (a + b)[0] == a[0];
      assert (a + b)[1..] == a[1..] + b;
      NameKeyedAppend(a[1..], b);
      assert NameKeyed(a + b) == head + NameKeyed(a[1..] + b);
      assert NameKeyed(a) == head + NameKeyed(a[1..]);
    } else {
      assert a + b == b;
    }
  }

  /**
   * `Object.entries(o)`: the same properties, array-index keys first in
   * ascending numeric order, then the other keys in creation order.
   */
  function Entries<V>(o: Props<V>): (r: Props<V>)
    ensures |r| == |o| && multiset(r) == multiset(o)
    ensures forall a, b | 0 <= a < b < |r| && IsArrayIndex(r[b].0) :: IsArrayIndex(r[a].0)
    ensures forall a, b | 0 <= a < b < |r| && IsArrayIndex(r[b].0) :: IndexValue(r[a]) <= IndexValue(r[b])
    ensures NameKeyed(r) == NameKeyed(o)
    ensures (forall j | 0 <= j < |o| :: !IsArrayIndex(o[j].0)) ==> r == o
  {
    var s := SortBy(IndexKeyed(o), IndexValue);
    var n := NameKeyed(o);
    IndexKeyedSorted(o, s);
    IndicesFirst(s, n);
    EntriesKeep(o, s, n);
    s + n
  }

  /** The sorted array-index properties and then the others are the object's properties, the others in order. */
  lemma EntriesKeep<V>(o: Props<V>, s: Props<V>, n: Props<V>)
    requires s == SortBy(IndexKeyed(o), IndexValue) && n == NameKeyed(o)
    requires forall j | 0 <= j < |s| :: IsArrayIndex(s[j].0)
    ensures |s + n| == |o| && multiset(s + n) == multiset(o)
    ensures NameKeyed(s + n) == n
    ensures (forall j | 0 <= j < |o| :: !IsArrayIndex(o[j].0)) ==> s + n == o
  {
    KeyedSplit(o);
    assert |multiset(s + n)| == |multiset(o)|;
    NameKeyedAppend(s, n);
    NoNameKeyed(s);
    if forall j | 0 <= j < |o| :: !IsArrayIndex(o[j].0) {
      assert |s| == 0;
    }
  }

  /** The sorted array-index properties all have array-index keys. */
  lemma IndexKeyedSorted<V>(o: Props<V>, s: Props<V>)
    requires s == SortBy(IndexKeyed(o), IndexValue)
    ensures forall j | 0 <= j < |s| :: IsArrayIndex(s[j].0)
  {
    forall j | 0 <= j < |s| ensures IsArrayIndex(s[j].0) {
      assert s[j] in multiset(IndexKeyed(o));
    }
  }

  /** Sorted array-index properties followed by the others: indices come first and ascend. */
  lemma IndicesFirst<V>(s: Props<V>, n: Props<V>)
    requires SortedBy(s, IndexValue) && forall j | 0 <= j < |s| :: IsArrayIndex(s[j].0)
    requires forall j | 0 <= j < |n| :: !IsArrayIndex(n[j].0)
    ensures forall a, b | 0 <= a < b < |s + n| && IsArrayIndex((s + n)[b].0) :: IsArrayIndex((s + n)[a].0)
    ensures forall a, b | 0 <= a < b < |s + n| && IsArrayIndex((s + n)[b].0) :: IndexValue((s + n)[a]) <= IndexValue((s + n)[b])
  {
    var r := s + n;
    forall a, b | 0 <= a < b < |r| && IsArrayIndex(r[b].0)
      ensures IsArrayIndex(r[a].0) && IndexValue(r[a]) <= IndexValue(r[b])
    {
      assert b < |s|;
      assert r[a] == s[a] && r[b] == s[b];
    }
  }

  lemma {:induction false} NoNameKeyed<V>(o: Props<V>)
    requires forall j | 0 <= j < |o| :: IsArrayIndex(o[j].0)
    ensures NameKeyed(o) == []
    decreases |o|
  {
    if o != [] {
      NoNameKeyed(o[1..]);
    }
  }
}
