/** The three collection idioms the store and the client build on:
    iterating a JavaScript `Map` (`Array.from(m.values())`), `Array.prototype.filter`
    and `Array.prototype.find`.

    A JavaScript `Map` iterates in insertion order. In the store every key is an id
    drawn from an increasing counter, `set` on a key that is already present keeps
    that key's place, and a deleted id is never drawn again; so insertion order is
    ascending key order, and `Values` lists a map's values by ascending key. */
module Collections {
  import opened Wrappers

  /** `k` is the least element of `s`. */
  predicate IsMin(s: set<int>, k: int) {
    k in s && forall j :: j in s ==> k <= j
  }

  /** Every non-empty set of ids has a least element. */
  lemma {:induction false} MinExists(s: set<int>)
    requires s != {}
    ensures exists k :: IsMin(s, k)
  {
    // Pick an element: a set without one would be {}, which s is not.
    if forall y :: y !in s {
      assert false;
    }
    var x :| x in s;
    var rest := s - {x};
    if rest != {} {
      MinExists(rest);
      var m :| IsMin(rest, m);
      var k := if x < m then x else m;
      forall j | j in s ensures k <= j {
        if j != x { assert j in rest; }
      }
      assert IsMin(s, k);
    } else {
      forall j | j in s ensures x <= j {
        assert j !in rest;
      }
      assert IsMin(s, x);
    }
  }

  /** The least element of a non-empty set of ids. */
  function MinKey(s: set<int>): (k: int)
    requires s != {}
    ensures IsMin(s, k)
  {
    MinExists(s);
    var k :| IsMin(s, k);
    k
  }

  /** The keys of a map in the order a JavaScript `Map` would visit them. */
  function SortedKeys(s: set<int>): (r: seq<int>)
    ensures |r| == |s|
    ensures forall k :: k in r <==> k in s
    decreases |s|
  {
    if s == {} then []
    else
      var k := MinKey(s);
      [k] + SortedKeys(s - {k})
  }

  /** The keys come out strictly increasing. */
  lemma {:induction false} SortedKeysIncreasing(s: set<int>)
    ensures forall i, j :: 0 <= i < j < |SortedKeys(s)| ==> SortedKeys(s)[i] < SortedKeys(s)[j]
    decreases |s|
  {
    if s != {} {
      var k := MinKey(s);
      SortedKeysIncreasing(s - {k});
      var r, rest := SortedKeys(s), SortedKeys(s - {k});
      assert r == [k] + rest;
      forall i, j | 0 <= i < j < |r| ensures r[i] < r[j] {
        if i == 0 {
          assert r[j] == rest[j - 1] && rest[j - 1] in s - {k};
        } else {
          assert r[i] == rest[i - 1] && r[j] == rest[j - 1];
        }
      }
    }
  }

  /** Adding a key larger than every present key puts it last. */
  lemma {:induction false} SortedKeysAppend(s: set<int>, k: int)
    requires forall j :: j in s ==> j < k
    ensures SortedKeys(s + {k}) == SortedKeys(s) + [k]
    decreases |s|
  {
    var t := s + {k};
    if s == {} {
      assert t == {k};
      forall j | j in t ensures k <= j { assert j == k; }
      assert MinKey(t) == k;
      assert t - {k} == {};
    } else {
      var m := MinKey(s);
      forall j | j in t ensures m <= j {
        if j != k { assert j in s; }
      }
      assert IsMin(t, m);
      assert MinKey(t) == m;
      assert t - {m} == (s - {m}) + {k};
      SortedKeysAppend(s - {m}, k);
      calc {
        SortedKeys(t);
        [m] + SortedKeys((s - {m}) + {k});
        [m] + (SortedKeys(s - {m}) + [k]);
        ([m] + SortedKeys(s - {m})) + [k];
        SortedKeys(s) + [k];
      }
    }
  }

  /** `Array.from(m.values())`: the values of `m`, by ascending key. */
  function Values<V>(m: map<int, V>): (r: seq<V>)
    ensures |r| == |SortedKeys(m.Keys)|
    ensures forall i :: 0 <= i < |r| ==> r[i] == m[SortedKeys(m.Keys)[i]]
  {
    var ks := SortedKeys(m.Keys);
    seq(|ks|, i requires 0 <= i < |ks| => m[ks[i]])
  }

  /** The listing holds exactly the values of the map. */
  lemma ValuesMembership<V(!new)>(m: map<int, V>)
    ensures forall v :: v in Values(m) <==> exists k :: k in m && m[k] == v
  {
    var r, ks := Values(m), SortedKeys(m.Keys);
    forall v | exists k :: k in m && m[k] == v
      ensures v in r
    {
      var k :| k in m && m[k] == v;
      var i :| 0 <= i < |ks| && ks[i] == k;
      assert r[i] == v;
    }
    forall v | v in r
      ensures exists k :: k in m && m[k] == v
    {
      var i :| 0 <= i < |r| && r[i] == v;
      var k := ks[i];
      assert k in m && m[k] == v;
    }
  }

  /** Inserting under a key larger than every present key appends the value:
      a created record shows up last in its table's listing. */
  lemma {:induction false} ValuesAppend<V>(m: map<int, V>, k: int, v: V)
    requires forall j :: j in m ==> j < k
    ensures Values(m[k := v]) == Values(m) + [v]
  {
    var m' := m[k := v];
    assert m'.Keys == m.Keys + {k};
    SortedKeysAppend(m.Keys, k);
    var ks, ks' := SortedKeys(m.Keys), SortedKeys(m'.Keys);
    assert ks' == ks + [k];
    var r, r' := Values(m), Values(m');
    assert |r'| == |r| + 1;
    forall i | 0 <= i < |r'| ensures r'[i] == (r + [v])[i] {
      if i < |r| {
        assert ks'[i] == ks[i] && ks[i] in m && ks[i] != k;
        calc {
          r'[i];
          m'[ks[i]];
          m[ks[i]];
          r[i];
        }
      } else {
        assert ks'[i] == k;
      }
    }
    assert r' == r + [v];
  }

  /** `s.filter(p)`: the elements satisfying `p`, in their order in `s`. */
  function Filter<V>(s: seq<V>, p: V -> bool): (r: seq<V>)
    ensures |r| <= |s|
  {
    if s == [] then []
    else (if p(s[0]) then [s[0]] else []) + Filter(s[1..], p)
  }

  /** A filter keeps every element satisfying `p` as often as it occurs in
      `s`, and nothing else. */
  lemma {:induction false} FilterExact<V(!new)>(s: seq<V>, p: V -> bool)
    ensures forall x :: multiset(Filter(s, p))[x] == if p(x) then multiset(s)[x] else 0
    ensures forall x :: x in Filter(s, p) <==> x in s && p(x)
  {
    if s != [] {
      FilterExact(s[1..], p);
      assert s == [s[0]] + s[1..];
      var head := if p(s[0]) then [s[0]] else [];
      assert Filter(s, p) == head + Filter(s[1..], p);
      assert multiset(Filter(s, p)) == multiset(head) + multiset(Filter(s[1..], p));
      assert multiset(s) == multiset{s[0]} + multiset(s[1..]);
      forall x ensures x in Filter(s, p) <==> x in s && p(x) {
        assert x in Filter(s, p) <==> multiset(Filter(s, p))[x] > 0;
        assert x in s <==> multiset(s)[x] > 0;
      }
    }
  }

  /** `less` holds between every earlier and every later element of `s`. */
  ghost predicate Ordered<V>(s: seq<V>, less: (V, V) -> bool) {
    forall i, j :: 0 <= i < j < |s| ==> less(s[i], s[j])
  }

  /** A filter keeps the order of what it keeps. */
  lemma {:induction false} FilterOrdered<V(!new)>(s: seq<V>, p: V -> bool, less: (V, V) -> bool)
    requires Ordered(s, less)
    ensures Ordered(Filter(s, p), less)
  {
    if s != [] {
      var tail := s[1..];
      forall i, j | 0 <= i < j < |tail| ensures less(tail[i], tail[j]) {
        assert tail[i] == s[i + 1] && tail[j] == s[j + 1];
      }
      FilterOrdered(tail, p, less);
      FilterExact(tail, p);
      var rest := Filter(tail, p);
      forall x | x in rest ensures less(s[0], x) {
        var k :| 0 <= k < |tail| && tail[k] == x;
        assert x == s[k + 1];
      }
      if p(s[0]) {
        var r := Filter(s, p);
        assert r == [s[0]] + rest;
        forall i, j | 0 <= i < j < |r| ensures less(r[i], r[j]) {
          assert r[j] == rest[j - 1];
          if 0 < i {
            assert r[i] == rest[i - 1];
          }
        }
      }
    }
  }

  /** `FilterOrdered` for a list that may or may not be ordered. */
  lemma FilterKeepsOrder<V(!new)>(s: seq<V>, p: V -> bool, less: (V, V) -> bool)
    ensures Ordered(s, less) ==> Ordered(Filter(s, p), less)
  {
    if Ordered(s, less) {
      FilterOrdered(s, p, less);
    }
  }

  /** Filtering distributes over appending one element. */
  lemma {:induction false} FilterAppend<V(!new)>(s: seq<V>, x: V, p: V -> bool)
    ensures Filter(s + [x], p) == Filter(s, p) + (if p(x) then [x] else [])
  {
    var tail := if p(x) then [x] else [];
    if s == [] {
      assert [x][1..] == [];
      assert Filter([x], p) == tail + Filter([], p);
    } else {
      var head := if p(s[0]) then [s[0]] else [];
      assert (s + [x])[0] == s[0];
      assert (s + [x])[1..] == s[1..] + [x];
      FilterAppend(s[1..], x, p);
      calc {
        Filter(s + [x], p);
        head + Filter(s[1..] + [x], p);
        head + (Filter(s[1..], p) + tail);
        (head + Filter(s[1..], p)) + tail;
        Filter(s, p) + tail;
      }
    }
  }

  /** Index `i` holds the first element of `s` satisfying `p`. */
  ghost predicate IsFirst<V>(s: seq<V>, p: V -> bool, i: int) {
    0 <= i < |s| && p(s[i]) && forall j :: 0 <= j < i ==> !p(s[j])
  }

  /** `s.findIndex(p)`, with -1 as `None`. */
  function FindIndex<V>(s: seq<V>, p: V -> bool): (r: Option<nat>)
    ensures r.Some? ==> IsFirst(s, p, r.value)
    ensures r.None? <==> forall j :: 0 <= j < |s| ==> !p(s[j])
  {
    if s == [] then None
    else if p(s[0]) then Some(0)
    else match FindIndex(s[1..], p)
      case None => None
      case Some(i) => Some(i + 1)
  }

  /** `s.find(p)`: the first element satisfying `p`, or `undefined`. */
  function Find<V(!new)>(s: seq<V>, p: V -> bool): (r: Option<V>)
    ensures r.None? <==> forall x :: x in s ==> !p(x)
    ensures r.Some? ==> exists i :: IsFirst(s, p, i) && s[i] == r.value
  {
    match FindIndex(s, p)
    case None => None
    case Some(i) => Some(s[i])
  }
}
