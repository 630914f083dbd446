/**
 `sorted(d.items(), key=lambda item: item[1], reverse=True)`: the keys of a
 dictionary ordered by decreasing value. Python's sort is stable even when
 reversed, so keys of equal value keep their dictionary (insertion) order.
 The dictionary is passed as its key list and a value function.
 */
module Sorting {
  /** `value(k)` is the value `k` is sorted by. */
  type Value = string -> int

  ghost predicate Descending(ks: seq<string>, value: Value) {
    forall i, j :: 0 <= i < j < |ks| ==> value(ks[i]) >= value(ks[j])
  }

  /** The keys of value `v`, in order. */
  function WithValue(ks: seq<string>, value: Value, v: int): seq<string> {
    if |ks| == 0 then [] else (if value(ks[0]) == v then [ks[0]] else []) + WithValue(ks[1..], value, v)
  }

  /** Places `x` after every key of strictly greater value and before the rest. */
  function InsertDesc(x: string, ks: seq<string>, value: Value): (r: seq<string>)
    ensures |r| == |ks| + 1
    ensures multiset(r) == multiset(ks) + multiset{x}
  {
    if |ks| == 0 then [x]
    else if value(ks[0]) > value(x) then
      var rest := InsertDesc(x, ks[1..], value);
      assert ks == [ks[0]] + ks[1..];
      [ks[0]] + rest
    else [x] + ks
  }

  /** Insertion adds `x` and nothing else. */
  lemma {:induction false} InsertDescMembers(x: string, ks: seq<string>, value: Value)
    ensures forall y :: y in InsertDesc(x, ks, value) ==> y in ks || y == x
  {
    if |ks| > 0 && value(ks[0]) > value(x) {
      InsertDescMembers(x, ks[1..], value);
      assert InsertDesc(x, ks, value) == [ks[0]] + InsertDesc(x, ks[1..], value);
    }
  }

  lemma {:induction false} InsertDescSorted(x: string, ks: seq<string>, value: Value)
    requires Descending(ks, value)
    ensures Descending(InsertDesc(x, ks, value), value)
  {
    if |ks| > 0 && value(ks[0]) > value(x) {
      var rest := InsertDesc(x, ks[1..], value);
      InsertDescSorted(x, ks[1..], value);
      InsertDescMembers(x, ks[1..], value);
      var r := [ks[0]] + rest;
      assert InsertDesc(x, ks, value) == r;
      forall i, j | 0 <= i < j < |r| ensures value(r[i]) >= value(r[j]) {
        if i == 0 {
          assert r[j] == rest[j - 1];
          assert r[j] in rest;
          if r[j] != x {
            var k :| 0 <= k < |ks[1..]| && ks[1..][k] == r[j];
            assert ks[k + 1] == r[j];
          }
        }
      }
    }
  }

  /** The stable descending sort, as insertion sort from the back of the list. */
  function SortDesc(ks: seq<string>, value: Value): (r: seq<string>)
    ensures |r| == |ks|
    ensures multiset(r) == multiset(ks)
    ensures Descending(r, value)
  {
    if |ks| == 0 then []
    else
      var rest := SortDesc(ks[1..], value);
      InsertDescSorted(ks[0], rest, value);
      assert ks == [ks[0]] + ks[1..];
      InsertDesc(ks[0], rest, value)
  }

  /** `WithValue` of a list with a known head. */
  lemma WithValueCons(x: string, rest: seq<string>, value: Value, v: int)
    ensures WithValue([x] + rest, value, v) == (if value(x) == v then [x] else []) + WithValue(rest, value, v)
  {
    assert ([x] + rest)[0] == x;
    assert ([x] + rest)[1..] == rest;
  }

  /** Where `x` is inserted past the head, the head keeps its place in front. */
  lemma InsertDescPastHead(x: string, ks: seq<string>, value: Value, v: int)
    requires |ks| > 0 && value(ks[0]) > value(x)
    requires WithValue(InsertDesc(x, ks[1..], value), value, v)
          == (if value(x) == v then [x] else []) + WithValue(ks[1..], value, v)
    ensures WithValue(InsertDesc(x, ks, value), value, v)
         == (if value(x) == v then [x] else []) + WithValue(ks, value, v)
  {
    var rest := InsertDesc(x, ks[1..], value);
    InsertDescUnfold(x, ks, value);
    WithValueCons(ks[0], rest, value, v);
    WithValueCons(ks[0], ks[1..], value, v);
    assert ks == [ks[0]] + ks[1..];
    if value(x) == v {
      assert WithValue([ks[0]] + rest, value, v) == WithValue(rest, value, v);
      assert WithValue(ks, value, v) == WithValue(ks[1..], value, v);
    } else {
      assert WithValue(rest, value, v) == WithValue(ks[1..], value, v);
    }
  }

  /** One step of `InsertDesc` past a head of greater value. */
  lemma InsertDescUnfold(x: string, ks: seq<string>, value: Value)
    requires |ks| > 0 && value(ks[0]) > value(x)
    ensures InsertDesc(x, ks, value) == [ks[0]] + InsertDesc(x, ks[1..], value)
  {
  }

  /** Inserting `x` puts it in front of every key of equal value. */
  lemma {:induction false} InsertDescStable(x: string, ks: seq<string>, value: Value, v: int)
    ensures WithValue(InsertDesc(x, ks, value), value, v)
         == (if value(x) == v then [x] else []) + WithValue(ks, value, v)
  {
    if |ks| == 0 {
      WithValueCons(x, [], value, v);
    } else if value(ks[0]) > value(x) {
      InsertDescStable(x, ks[1..], value, v);
      InsertDescPastHead(x, ks, value, v);
    } else {
      assert InsertDesc(x, ks, value) == [x] + ks;
      WithValueCons(x, ks, value, v);
    }
  }

  /** Stability: among keys of equal value, the sort keeps the original order. */
  lemma {:induction false} SortDescStable(ks: seq<string>, value: Value, v: int)
    ensures WithValue(SortDesc(ks, value), value, v) == WithValue(ks, value, v)
  {
    if |ks| > 0 {
      SortDescStable(ks[1..], value, v);
      InsertDescStable(ks[0], SortDesc(ks[1..], value), value, v);
    }
  }

  /** What the sort promises: the same keys, most valuable first, ties in their original order. */
  lemma SortDescKeys(ks: seq<string>, value: Value)
    ensures forall k :: k in SortDesc(ks, value) <==> k in ks
    ensures Descending(SortDesc(ks, value), value)
    ensures forall v :: WithValue(SortDesc(ks, value), value, v) == WithValue(ks, value, v)
  {
    var r := SortDesc(ks, value);
    forall k ensures k in r <==> k in ks {
      assert k in r <==> k in multiset(r);
      assert k in ks <==> k in multiset(ks);
    }
    forall v ensures WithValue(r, value, v) == WithValue(ks, value, v) {
      SortDescStable(ks, value, v);
    }
  }

  /** `a` stands somewhere before `b` in `ks`. */
  ghost predicate Before(ks: seq<string>, a: string, b: string) {
    exists i, j :: 0 <= i < j < |ks| && ks[i] == a && ks[j] == b
  }

  lemma {:induction false} WithValueMembers(ks: seq<string>, value: Value, v: int)
    ensures forall y :: y in WithValue(ks, value, v) <==> y in ks && value(y) == v
  {
    if |ks| > 0 {
      WithValueMembers(ks[1..], value, v);
      assert ks == [ks[0]] + ks[1..];
    }
  }

  lemma BeforeCons(x: string, rest: seq<string>, a: string, b: string)
    requires Before(rest, a, b) || (x == a && b in rest)
    ensures Before([x] + rest, a, b)
  {
    var s := [x] + rest;
    if Before(rest, a, b) {
      var i, j :| 0 <= i < j < |rest| && rest[i] == a && rest[j] == b;
      assert s[i + 1] == a && s[j + 1] == b;
    } else {
      var j :| 0 <= j < |rest| && rest[j] == b;
      assert s[0] == a && s[j + 1] == b;
    }
  }

  lemma BeforeUncons(ks: seq<string>, a: string, b: string)
    requires |ks| > 0 && Before(ks, a, b)
    ensures Before(ks[1..], a, b) || (ks[0] == a && b in ks[1..])
  {
    var i, j :| 0 <= i < j < |ks| && ks[i] == a && ks[j] == b;
    assert ks[1..][j - 1] == b;
    if i > 0 {
      assert ks[1..][i - 1] == a;
    }
  }

  /** Picking out the keys of one value keeps their order. */
  lemma {:induction false} WithValueKeepsBefore(ks: seq<string>, value: Value, v: int, a: string, b: string)
    requires value(a) == v && value(b) == v && Before(ks, a, b)
    ensures Before(WithValue(ks, value, v), a, b)
  {
    BeforeUncons(ks, a, b);
    var rest := ks[1..];
    assert ks == [ks[0]] + rest;
    WithValueCons(ks[0], rest, value, v);
    if Before(rest, a, b) {
      WithValueKeepsBefore(rest, value, v, a, b);
      if value(ks[0]) == v {
        BeforeCons(ks[0], WithValue(rest, value, v), a, b);
      } else {
        assert WithValue(ks, value, v) == WithValue(rest, value, v);
      }
    } else {
      WithValueMembers(rest, value, v);
      BeforeCons(ks[0], WithValue(rest, value, v), a, b);
    }
  }

  /** The keys of one value stand in the order they have in the whole list. */
  lemma {:induction false} WithValueBefore(ks: seq<string>, value: Value, v: int, a: string, b: string)
    requires Before(WithValue(ks, value, v), a, b)
    ensures Before(ks, a, b)
  {
    var rest := ks[1..];
    assert ks == [ks[0]] + rest;
    WithValueCons(ks[0], rest, value, v);
    var w := WithValue(rest, value, v);
    if value(ks[0]) == v {
      BeforeUncons([ks[0]] + w, a, b);
      assert ([ks[0]] + w)[1..] == w;
      if Before(w, a, b) {
        WithValueBefore(rest, value, v, a, b);
      } else {
        WithValueMembers(rest, value, v);
      }
    } else {
      WithValueBefore(rest, value, v, a, b);
    }
    BeforeCons(ks[0], rest, a, b);
  }

  /** Two keys of equal value come out of the sort in the order they went in. */
  lemma SortDescTies(ks: seq<string>, value: Value, a: string, b: string)
    requires value(a) == value(b) && Before(SortDesc(ks, value), a, b)
    ensures Before(ks, a, b)
  {
    WithValueKeepsBefore(SortDesc(ks, value), value, value(a), a, b);
    SortDescStable(ks, value, value(a));
    WithValueBefore(ks, value, value(a), a, b);
  }
}
