/** The metric value store and lazy-initialisation flag shared by every metric
    (GMAbstractMetric). The store is a TreeMap from metric key to metric value;
    it is modelled as its ascending sequence of entries, which is exactly what
    a TreeMap iterates over. */
module MetricStore {
  import opened Wrappers

  /** A metric key: a stable name and the rank by which keys sort. */
  datatype MetricKey = MetricKey(name: string, rank: int)

  /** The typed payload of a metric value (McCabe counts are BigDecimal integers). */
  datatype Value =
    | IntValue(i: int)
    | TextValue(text: string)
    | NullValue

  /** An immutable (key, value) pair (GMMetricValue). */
  datatype MetricValue = MetricValue(key: MetricKey, value: Value)

  /** What an exporter reads of a metric: getName() and getMetrics(). */
  datatype MetricView = MetricView(name: string, values: seq<MetricValue>)

  // ---------------------------------------------------------------------------
  // Key order: rank first, then the name in lexicographic character order.

  predicate StringLess(a: string, b: string)
  {
    if |a| == 0 then |b| > 0
    else if |b| == 0 then false
    else a[0] < b[0] || (a[0] == b[0] && StringLess(a[1..], b[1..]))
  }

  predicate KeyLess(a: MetricKey, b: MetricKey)
  {
    a.rank < b.rank || (a.rank == b.rank && StringLess(a.name, b.name))
  }

  lemma {:induction false} StringLessIrreflexive(a: string)
    ensures !StringLess(a, a)
  {
    if |a| > 0 {
      StringLessIrreflexive(a[1..]);
    }
  }

  lemma {:induction false} StringLessTransitive(a: string, b: string, c: string)
    requires StringLess(a, b) && StringLess(b, c)
    ensures StringLess(a, c)
  {
    if |a| > 0 && |b| > 0 && |c| > 0 && a[0] == b[0] == c[0] {
      StringLessTransitive(a[1..], b[1..], c[1..]);
    }
  }

  lemma {:induction false} StringLessTotal(a: string, b: string)
    requires a != b
    ensures StringLess(a, b) || StringLess(b, a)
  {
    if |a| > 0 && |b| > 0 && a[0] == b[0] {
      assert a == [a[0]] + a[1..] && b == [b[0]] + b[1..];
      StringLessTotal(a[1..], b[1..]);
    }
  }

  /** KeyLess is a strict total order on keys, so a TreeMap over it holds one entry per key. */
  lemma KeyLessStrictTotalOrder(a: MetricKey, b: MetricKey, c: MetricKey)
    ensures !KeyLess(a, a)
    ensures KeyLess(a, b) && KeyLess(b, c) ==> KeyLess(a, c)
    ensures a != b ==> KeyLess(a, b) || KeyLess(b, a)
  {
    StringLessIrreflexive(a.name);
    if KeyLess(a, b) && KeyLess(b, c) && a.rank == b.rank == c.rank {
      StringLessTransitive(a.name, b.name, c.name);
    }
    if a != b && a.rank == b.rank {
      StringLessTotal(a.name, b.name);
    }
  }

  // ---------------------------------------------------------------------------
  // The TreeMap as its ascending entry sequence.

  /** Entries are in strictly ascending key order. */
  ghost predicate Ascending(s: seq<MetricValue>)
  {
    forall i, j :: 0 <= i < j < |s| ==> KeyLess(s[i].key, s[j].key)
  }

  /** The entry stored for key `k` (TreeMap.get). */
  function Lookup(s: seq<MetricValue>, k: MetricKey): (r: Option<MetricValue>)
    ensures r.Some? ==> r.value in s && r.value.key == k
    ensures r.None? ==> forall i :: 0 <= i < |s| ==> s[i].key != k
  {
    if s == [] then None
    else if s[0].key == k then Some(s[0])
    else Lookup(s[1..], k)
  }

  /** TreeMap.put: insert at the key's place, or overwrite the entry with the same key. */
  function Put(s: seq<MetricValue>, v: MetricValue): (r: seq<MetricValue>)
    ensures |s| <= |r| <= |s| + 1
  {
    if s == [] then [v]
    else if s[0].key == v.key then [v] + s[1..]
    else if KeyLess(v.key, s[0].key) then [v] + s
    else [s[0]] + Put(s[1..], v)
  }

  /** The put entry is in the store afterwards. */
  lemma {:induction false} PutContains(s: seq<MetricValue>, v: MetricValue)
    ensures v in Put(s, v)
  {
    if s != [] && s[0].key != v.key && !KeyLess(v.key, s[0].key) {
      PutContains(s[1..], v);
    }
  }

  /** Putting a key greater than every stored key appends its entry. */
  lemma {:induction false} PutGreatest(s: seq<MetricValue>, v: MetricValue)
    requires forall i :: 0 <= i < |s| ==> KeyLess(s[i].key, v.key)
    ensures Put(s, v) == s + [v]
  {
    if s != [] {
      assert s[0].key != v.key && !KeyLess(v.key, s[0].key) by {
        KeyLessStrictTotalOrder(s[0].key, v.key, s[0].key);
      }
      PutGreatest(s[1..], v);
      assert s == [s[0]] + s[1..];
    }
  }

  /** Putting values that already come in ascending key order into an empty store gives them back. */
  lemma {:induction false} PutAllSorted(vs: seq<MetricValue>)
    requires Ascending(vs)
    ensures PutAll([], vs) == vs
  {
    if vs != [] {
      var front := vs[..|vs| - 1];
      var last := vs[|vs| - 1];
      assert Ascending(front);
      PutAllSorted(front);
      assert forall i :: 0 <= i < |front| ==> KeyLess(front[i].key, last.key) by {
        forall i | 0 <= i < |front| ensures KeyLess(front[i].key, last.key) {
          assert front[i] == vs[i];
        }
      }
      PutGreatest(front, last);
      assert front + [last] == vs;
    }
  }

  /** TreeMap.put of every value in order; a later value wins over an earlier one with the same key. */
  function PutAll(s: seq<MetricValue>, vs: seq<MetricValue>): seq<MetricValue>
  {
    if vs == [] then s else Put(PutAll(s, vs[..|vs| - 1]), vs[|vs| - 1])
  }

  /** The last value in `vs` with key `k`: the one that a sequence of puts leaves behind. */
  function LastWithKey(vs: seq<MetricValue>, k: MetricKey): (r: Option<MetricValue>)
    ensures r.Some? ==> r.value in vs && r.value.key == k
    ensures r.None? <==> forall i :: 0 <= i < |vs| ==> vs[i].key != k
  {
    if vs == [] then None
    else if vs[|vs| - 1].key == k then Some(vs[|vs| - 1])
    else LastWithKey(vs[..|vs| - 1], k)
  }

  /** In an ascending store no key occurs twice. */
  lemma AscendingKeysUnique(s: seq<MetricValue>, i: int, j: int)
    requires Ascending(s)
    requires 0 <= i < |s| && 0 <= j < |s| && i != j
    ensures s[i].key != s[j].key
  {
    if i < j {
      KeyLessStrictTotalOrder(s[i].key, s[j].key, s[j].key);
    } else {
      KeyLessStrictTotalOrder(s[j].key, s[i].key, s[i].key);
    }
  }

  lemma {:induction false} AscendingTail(s: seq<MetricValue>)
    requires Ascending(s) && s != []
    ensures Ascending(s[1..])
  {
    forall i, j | 0 <= i < j < |s| - 1
      ensures KeyLess(s[1..][i].key, s[1..][j].key)
    {
      assert s[1..][i] == s[i + 1] && s[1..][j] == s[j + 1];
    }
  }

  lemma {:induction false} AscendingCons(v: MetricValue, s: seq<MetricValue>)
    requires Ascending(s)
    requires forall j :: 0 <= j < |s| ==> KeyLess(v.key, s[j].key)
    ensures Ascending([v] + s)
  {
    var t := [v] + s;
    forall i, j | 0 <= i < j < |t|
      ensures KeyLess(t[i].key, t[j].key)
    {
      if i == 0 {
        assert t[j] == s[j - 1];
      } else {
        assert t[i] == s[i - 1] && t[j] == s[j - 1];
      }
    }
  }

  /** Every key in `Put(s, v)` is the key of `v` or a key of `s`. */
  lemma {:induction false} PutKeys(s: seq<MetricValue>, v: MetricValue, i: int)
    requires 0 <= i < |Put(s, v)|
    ensures Put(s, v)[i].key == v.key || exists j :: 0 <= j < |s| && s[j].key == Put(s, v)[i].key
  {
    if s == [] || s[0].key == v.key || KeyLess(v.key, s[0].key) {
      if i > 0 {
        if s != [] && s[0].key == v.key {
          assert Put(s, v)[i] == s[i];
        } else {
          assert Put(s, v)[i] == s[i - 1];
        }
      }
    } else if i > 0 {
      assert Put(s, v)[i] == Put(s[1..], v)[i - 1];
      PutKeys(s[1..], v, i - 1);
      if Put(s, v)[i].key != v.key {
        var j :| 0 <= j < |s[1..]| && s[1..][j].key == Put(s, v)[i].key;
        assert s[j + 1] == s[1..][j];
      }
    }
  }

  /** Put keeps the store ascending. */
  lemma {:induction false} PutAscending(s: seq<MetricValue>, v: MetricValue)
    requires Ascending(s)
    ensures Ascending(Put(s, v))
  {
    if s == [] {
    } else if s[0].key == v.key {
      AscendingTail(s);
      forall j | 0 <= j < |s[1..]| ensures KeyLess(v.key, s[1..][j].key) {
        assert s[1..][j] == s[j + 1];
      }
      AscendingCons(v, s[1..]);
    } else if KeyLess(v.key, s[0].key) {
      forall j | 0 <= j < |s| ensures KeyLess(v.key, s[j].key) {
        if j > 0 {
          KeyLessStrictTotalOrder(v.key, s[0].key, s[j].key);
        }
      }
      AscendingCons(v, s);
    } else {
      AscendingTail(s);
      PutAscending(s[1..], v);
      KeyLessStrictTotalOrder(s[0].key, v.key, v.key);
      forall j | 0 <= j < |Put(s[1..], v)| ensures KeyLess(s[0].key, Put(s[1..], v)[j].key) {
        PutKeys(s[1..], v, j);
        if Put(s[1..], v)[j].key != v.key {
          var m :| 0 <= m < |s[1..]| && s[1..][m].key == Put(s[1..], v)[j].key;
          assert s[1..][m] == s[m + 1];
        }
      }
      AscendingCons(s[0], Put(s[1..], v));
    }
  }

  /** After a put, the key holds the new value and every other key is unchanged. */
  lemma {:induction false} PutLookup(s: seq<MetricValue>, v: MetricValue, k: MetricKey)
    ensures Lookup(Put(s, v), k) == if k == v.key then Some(v) else Lookup(s, k)
  {
    if s == [] || s[0].key == v.key || KeyLess(v.key, s[0].key) {
      if s != [] && s[0].key == v.key && k != v.key {
        assert Put(s, v)[1..] == s[1..];
      } else if s != [] && k != v.key {
        assert Put(s, v)[1..] == s;
      }
    } else {
      assert Put(s, v)[1..] == Put(s[1..], v);
      PutLookup(s[1..], v, k);
    }
  }

  lemma PutAllSnoc(s: seq<MetricValue>, vs: seq<MetricValue>, v: MetricValue)
    ensures PutAll(s, vs + [v]) == Put(PutAll(s, vs), v)
  {
    assert (vs + [v])[..|vs|] == vs;
  }

  /** After a sequence of puts, a key holds the last value put under it, or else what it held before. */
  lemma {:induction false} PutAllLookup(s: seq<MetricValue>, vs: seq<MetricValue>, k: MetricKey)
    ensures Lookup(PutAll(s, vs), k) == if LastWithKey(vs, k).Some? then LastWithKey(vs, k) else Lookup(s, k)
  {
    if vs != [] {
      PutAllLookup(s, vs[..|vs| - 1], k);
      PutLookup(PutAll(s, vs[..|vs| - 1]), vs[|vs| - 1], k);
    }
  }

  /** In an ascending store, Lookup finds exactly the stored entries. */
  lemma {:induction false} LookupStored(s: seq<MetricValue>, v: MetricValue)
    requires Ascending(s)
    ensures v in s <==> Lookup(s, v.key) == Some(v)
  {
    if s != [] {
      AscendingTail(s);
      LookupStored(s[1..], v);
      if v in s[1..] && s[0].key == v.key {
        var j :| 0 <= j < |s[1..]| && s[1..][j] == v;
        assert s[j + 1] == v;
        AscendingKeysUnique(s, 0, j + 1);
      }
      assert s == [s[0]] + s[1..];
    }
  }

  // ---------------------------------------------------------------------------

  /** The state every metric shares: its name, the key-ordered value store and
      the `initialized` flag of the lazy `_init`. */
  class Metric {
    const name: string
    var initialized: bool
    var store: seq<MetricValue>

    ghost predicate Valid()
      reads this
    {
      Ascending(store)
    }

    constructor (name: string)
      ensures Valid()
      ensures this.name == name && !initialized && store == []
    {
      this.name := name;
      initialized := false;
      store := [];
    }

    /** getName: the name fixed at construction. */
    function GetName(): (r: string)
      reads this
      ensures r == name
    {
      name
    }

    /** getMetricValue: a null key gives null; otherwise the entry stored for that key. */
    function GetMetricValue(key: Option<MetricKey>): (r: Option<MetricValue>)
      reads this
      ensures key.None? ==> r.None?
      ensures key.Some? && r.Some? ==> r.value in store && r.value.key == key.value
      ensures key.Some? && r.None? ==> forall i :: 0 <= i < |store| ==> store[i].key != key.value
    {
      if key.None? then None else Lookup(store, key.value)
    }

    /** getMetrics: the stored values, in ascending key order, each found under its own key. */
    function GetMetrics(): (r: seq<MetricValue>)
      reads this
      requires Valid()
      ensures Ascending(r)
      ensures forall i :: 0 <= i < |r| ==> GetMetricValue(Some(r[i].key)) == Some(r[i])
      ensures forall k :: GetMetricValue(Some(k)).Some? ==> GetMetricValue(Some(k)).value in r
    {
      forall i | 0 <= i < |store| ensures Lookup(store, store[i].key) == Some(store[i]) {
        LookupStored(store, store[i]);
      }
      store
    }

    /** clearMetrics: the store becomes empty. */
    method ClearMetrics()
      modifies this
      ensures Valid()
      ensures store == [] && initialized == old(initialized)
    {
      store := [];
    }

    /** createMetricValue(key, value) through addMetricValue: a put into the TreeMap. */
    method CreateMetricValue(key: MetricKey, value: Value)
      requires Valid()
      modifies this
      ensures Valid()
      ensures store == Put(old(store), MetricValue(key, value))
      ensures GetMetricValue(Some(key)) == Some(MetricValue(key, value))
      ensures forall k :: k != key ==> GetMetricValue(Some(k)) == old(GetMetricValue(Some(k)))
      ensures initialized == old(initialized)
    {
      PutAscending(store, MetricValue(key, value));
      forall k ensures Lookup(Put(store, MetricValue(key, value)), k)
        == if k == key then Some(MetricValue(key, value)) else Lookup(store, k)
      {
        PutLookup(store, MetricValue(key, value), k);
      }
      store := Put(store, MetricValue(key, value));
    }
  }
}
