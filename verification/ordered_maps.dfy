/**
 Insertion-ordered dictionaries keyed by strings, the model of the Python
 `dict` objects the summarizer accumulates into. Iteration order is the order
 in which keys were first inserted; overwriting a key keeps its position.
 A dict used as a set (`d[x] = True`) is modelled as a duplicate-free
 sequence, again in first-insertion order.
 */
module OrderedMaps {
  import opened Wrappers

  /** `keys` lists the keys in first-insertion order, `vals` holds the entries. */
  datatype OMap<V> = OMap(keys: seq<string>, vals: map<string, V>)

  ghost predicate Distinct(s: seq<string>) {
    forall i, j :: 0 <= i < j < |s| ==> s[i] != s[j]
  }

  /** The key sequence is duplicate-free and lists exactly the keys of the map. */
  ghost predicate Valid<V>(m: OMap<V>) {
    && Distinct(m.keys)
    && (forall k :: k in m.vals <==> k in m.keys)
  }

  function Empty<V>(): (m: OMap<V>)
    ensures Valid(m)
    ensures m.keys == [] && m.vals == map[]
  {
    OMap([], map[])
  }

  function Lookup<V>(m: OMap<V>, k: string): (r: Option<V>)
    ensures r.Some? <==> k in m.vals
    ensures r.Some? ==> r.value == m.vals[k]
  {
    if k in m.vals then Some(m.vals[k]) else None
  }

  /** `m.get(k, default)` */
  function Get<V>(m: OMap<V>, k: string, default: V): V {
    if k in m.vals then m.vals[k] else default
  }

  /** `m[k] = v`: a new key goes to the end, an existing key keeps its place. */
  function Put<V>(m: OMap<V>, k: string, v: V): (r: OMap<V>)
    ensures r.vals == m.vals[k := v]
    ensures k in m.vals ==> r.keys == m.keys
    ensures k !in m.vals ==> r.keys == m.keys + [k]
    ensures Valid(m) ==> Valid(r)
  {
    if k in m.vals then OMap(m.keys, m.vals[k := v]) else OMap(m.keys + [k], m.vals[k := v])
  }

  /** `if k not in m: m[k] = v` */
  function PutIfAbsent<V>(m: OMap<V>, k: string, v: V): (r: OMap<V>)
    ensures k in r.vals && r.vals[k] == Get(m, k, v)
    ensures forall j :: j != k ==> (j in r.vals <==> j in m.vals) && (j in m.vals ==> r.vals[j] == m.vals[j])
    ensures k in m.vals ==> r.keys == m.keys
    ensures k !in m.vals ==> r.keys == m.keys + [k]
    ensures Valid(m) ==> Valid(r)
  {
    if k in m.vals then m else Put(m, k, v)
  }

  /** The sum of all counts, in key order. */
  function SumOver(keys: seq<string>, vals: map<string, nat>): nat {
    if |keys| == 0 then 0
    else SumOver(keys[..|keys| - 1], vals) + (if keys[|keys| - 1] in vals then vals[keys[|keys| - 1]] else 0)
  }

  function Sum(m: OMap<nat>): nat {
    SumOver(m.keys, m.vals)
  }

  lemma {:induction false} SumOverFrame(keys: seq<string>, vals: map<string, nat>, k: string, v: nat)
    requires k !in keys
    ensures SumOver(keys, vals[k := v]) == SumOver(keys, vals)
  {
    if |keys| > 0 {
      SumOverFrame(keys[..|keys| - 1], vals, k, v);
    }
  }

  lemma {:induction false} SumOverBump(keys: seq<string>, vals: map<string, nat>, k: string)
    requires Distinct(keys)
    requires k in keys && k in vals
    ensures SumOver(keys, vals[k := vals[k] + 1]) == SumOver(keys, vals) + 1
  {
    var n := |keys|;
    var init := keys[..n - 1];
    assert Distinct(init);
    if keys[n - 1] == k {
      assert k !in init;
      SumOverFrame(init, vals, k, vals[k] + 1);
    } else {
      assert k in init by {
        var i :| 0 <= i < n && keys[i] == k;
        assert i < n - 1 && init[i] == k;
      }
      SumOverBump(init, vals, k);
    }
  }

  /** `m[k] = 1 + m.get(k, 0)`: one more hit for bucket `k`. */
  function Incr(m: OMap<nat>, k: string): (r: OMap<nat>)
    ensures r.vals == m.vals[k := Get(m, k, 0) + 1]
    ensures k in m.vals ==> r.keys == m.keys
    ensures k !in m.vals ==> r.keys == m.keys + [k]
    ensures Valid(m) ==> Valid(r)
  {
    Put(m, k, Get(m, k, 0) + 1)
  }

  /** Every increment adds exactly one to the sum of the counts. */
  lemma IncrSum(m: OMap<nat>, k: string)
    requires Valid(m)
    ensures Sum(Incr(m, k)) == Sum(m) + 1
  {
    var r := Incr(m, k);
    if k in m.vals {
      assert r.keys == m.keys && r.vals == m.vals[k := m.vals[k] + 1];
      assert k in m.keys;
      SumOverBump(m.keys, m.vals, k);
    } else {
      assert k !in m.keys;
      assert r.keys == m.keys + [k] && r.vals == m.vals[k := 1];
      SumOverFrame(m.keys, m.vals, k, 1);
      assert r.keys[..|r.keys| - 1] == m.keys && r.keys[|r.keys| - 1] == k;
      assert SumOver(r.keys, r.vals) == SumOver(m.keys, r.vals) + 1;
    }
  }

  /** `s[x] = True` on a dict used as an ordered set. */
  function Insert(s: seq<string>, x: string): (r: seq<string>)
    ensures Distinct(s) ==> Distinct(r)
    ensures forall y :: y in r <==> y in s || y == x
    ensures x in s ==> r == s
  {
    if x in s then s else s + [x]
  }

  /** `m.setdefault(k, {})[x] = True` */
  function AddTo(m: OMap<seq<string>>, k: string, x: string): (r: OMap<seq<string>>)
    ensures k in r.vals
    ensures x in Get(m, k, []) ==> r.vals[k] == Get(m, k, [])
    ensures x !in Get(m, k, []) ==> r.vals[k] == Get(m, k, []) + [x]
    ensures forall j :: j != k ==> (j in r.vals <==> j in m.vals) && (j in m.vals ==> r.vals[j] == m.vals[j])
    ensures k in m.vals ==> r.keys == m.keys
    ensures k !in m.vals ==> r.keys == m.keys + [k]
    ensures Valid(m) ==> Valid(r)
    ensures Distinct(Get(m, k, [])) ==> Distinct(r.vals[k])
  {
    Put(m, k, Insert(Get(m, k, []), x))
  }

  /** The elements of a list, as a set. */
  function ToSet(s: seq<string>): (r: set<string>)
    ensures forall x :: x in r <==> x in s
  {
    set x | x in s
  }

  lemma {:induction false} DistinctCard(s: seq<string>)
    requires Distinct(s)
    ensures |ToSet(s)| == |s|
  {
    if |s| > 0 {
      var init := s[..|s| - 1];
      DistinctCard(init);
      assert ToSet(s) == ToSet(init) + {s[|s| - 1]};
      assert s[|s| - 1] !in init;
    }
  }

  /**
   A duplicate-free list whose elements all occur in another duplicate-free list
   is no longer than it.
   */
  lemma DistinctSubsetLength(a: seq<string>, b: seq<string>)
    requires Distinct(a) && Distinct(b)
    requires forall x :: x in a ==> x in b
    ensures |a| <= |b|
  {
    DistinctCard(a);
    DistinctCard(b);
    assert ToSet(a) <= ToSet(b);
    SubsetCard(ToSet(a), ToSet(b));
  }

  lemma SubsetCard(x: set<string>, y: set<string>)
    requires x <= y
    ensures |x| <= |y|
  {
    assert y == x + (y - x);
  }

  /** A dict has as many entries as its key list. */
  lemma ValidSize<V>(m: OMap<V>)
    requires Valid(m)
    ensures |m.vals| == |m.keys|
  {
    DistinctCard(m.keys);
    assert m.vals.Keys == ToSet(m.keys);
  }
}
