/** Absent values: JavaScript's `undefined` for a missing property. */
module Wrappers {

  datatype Option<+T> = None | Some(value: T) {

    /** `x || default` for a property that is either absent or a truthy value. */
    function GetOr(default: T): T {
      if Some? then value else default
    }
  }
}

/**
 * Sequence and map helpers standing for the JavaScript array library calls the
 * components use: `reduce` (sums), `filter`, `Array.prototype.sort` with a
 * numeric comparator, `Math.max(...xs)` and `Object.entries` over a counter map.
 */
module Collections {

  function Max(a: int, b: int): int { if a >= b then a else b }

  function Min(a: int, b: int): int { if a <= b then a else b }

  /** `s.reduce((a, b) => a + b, 0)`. */
  function Sum(s: seq<int>): int {
    if s == [] then 0 else s[0] + Sum(s[1..])
  }

  /** The sum of five numbers, written out. */
  lemma Sum5(s: seq<int>)
    requires |s| == 5
    ensures Sum(s) == s[0] + s[1] + s[2] + s[3] + s[4]
  {
    assert Sum(s[4..]) == s[4] by { assert s[4..][1..] == []; }
    assert Sum(s[3..]) == s[3] + Sum(s[4..]) by { assert s[3..][1..] == s[4..]; }
    assert Sum(s[2..]) == s[2] + Sum(s[3..]) by { assert s[2..][1..] == s[3..]; }
    assert Sum(s[1..]) == s[1] + Sum(s[2..]) by { assert s[1..][1..] == s[2..]; }
  }

  /** `s.reduce((acc, x) => acc + f(x), 0)`. */
  function SumBy<T(!new)>(s: seq<T>, f: T -> int): int {
    if s == [] then 0 else f(s[0]) + SumBy(s[1..], f)
  }

  lemma {:induction false} SumAppend(a: seq<int>, b: seq<int>)
    ensures Sum(a + b) == Sum(a) + Sum(b)
  {
    if a == [] {
      assert a + b == b;
    } else {
      assert (a + b)[1..] == a[1..] + b;
      SumAppend(a[1..], b);
    }
  }

  /** Overwriting one slot changes the sum by exactly the difference. */
  lemma {:induction false} SumUpdate(s: seq<int>, i: int, v: int)
    requires 0 <= i < |s|
    ensures Sum(s[i := v]) == Sum(s) - s[i] + v
  {
    if i > 0 {
      assert s[i := v][1..] == s[1..][i - 1 := v];
      SumUpdate(s[1..], i - 1, v);
    }
  }

  /** `s.filter(p)`: the elements satisfying `p`, in their original order. */
  function Filter<T(!new)>(s: seq<T>, p: T -> bool): (r: seq<T>)
    ensures |r| <= |s|
    ensures forall x :: x in r <==> x in s && p(x)
  {
    if s == [] then []
    else if p(s[0]) then [s[0]] + Filter(s[1..], p)
    else Filter(s[1..], p)
  }

  lemma {:induction false} FilterAppend<T(!new)>(a: seq<T>, b: seq<T>, p: T -> bool)
    ensures Filter(a + b, p) == Filter(a, p) + Filter(b, p)
  {
    if a == [] {
      assert a + b == b;
    } else {
      assert (a + b)[1..] == a[1..] + b;
      FilterAppend(a[1..], b, p);
    }
  }

  /** Two filters in a row are one filter by the conjunction. */
  lemma {:induction false} FilterFilter<T(!new)>(s: seq<T>, p: T -> bool, q: T -> bool, both: T -> bool)
    requires forall x :: both(x) == (p(x) && q(x))
    ensures Filter(Filter(s, p), q) == Filter(s, both)
  {
    if s != [] {
      FilterFilter(s[1..], p, q, both);
    }
  }

  /** A filter every element passes keeps the sequence. */
  lemma {:induction false} FilterAll<T(!new)>(s: seq<T>, p: T -> bool)
    requires forall k :: 0 <= k < |s| ==> p(s[k])
    ensures Filter(s, p) == s
  {
    if s != [] {
      FilterAll(s[1..], p);
    }
  }

  /** A filter no element passes leaves nothing. */
  lemma {:induction false} FilterNone<T(!new)>(s: seq<T>, p: T -> bool)
    requires forall k :: 0 <= k < |s| ==> !p(s[k])
    ensures Filter(s, p) == []
  {
    if s != [] {
      FilterNone(s[1..], p);
    }
  }

  /** A filter keeps each element's multiplicity, or drops it entirely. */
  lemma {:induction false} FilterMultiset<T(!new)>(s: seq<T>, p: T -> bool, x: T)
    ensures multiset(Filter(s, p))[x] == if p(x) then multiset(s)[x] else 0
  {
    if s != [] {
      FilterMultiset(s[1..], p, x);
      assert s == [s[0]] + s[1..];
    }
  }

  /** Permutations of one another stay permutations of one another once filtered. */
  lemma FilterPermutation<T(!new)>(a: seq<T>, b: seq<T>, p: T -> bool)
    requires multiset(a) == multiset(b)
    ensures multiset(Filter(a, p)) == multiset(Filter(b, p))
  {
    forall x ensures multiset(Filter(a, p))[x] == multiset(Filter(b, p))[x] {
      FilterMultiset(a, p, x);
      FilterMultiset(b, p, x);
    }
  }

  /** `s.slice(0, k)` for k >= 0. */
  function Take<T(!new)>(s: seq<T>, k: nat): (r: seq<T>)
    ensures |r| == Min(k, |s|) && r == s[..|r|]
  {
    if k < |s| then s[..k] else s
  }

  // ---------------------------------------------------------------------
  // Sorting. ECMA-262 (since its 2019 edition) requires Array.prototype.sort
  // to be stable. With a comparator `(a, b) => key(a) - key(b)` a stable sort
  // has exactly one possible result, which the insertion sort below computes:
  // each element goes after every earlier element whose key is not larger.
  // ---------------------------------------------------------------------

  ghost predicate SortedBy<T(!new)>(s: seq<T>, key: T -> int) {
    forall i, j :: 0 <= i < j < |s| ==> key(s[i]) <= key(s[j])
  }

  ghost predicate StrictlySortedBy<T(!new)>(s: seq<T>, key: T -> int) {
    forall i, j :: 0 <= i < j < |s| ==> key(s[i]) < key(s[j])
  }

  /** Ordered by `key`, and by `tag` among equal keys. */
  ghost predicate LexSortedBy<T(!new)>(s: seq<T>, key: T -> int, tag: T -> int) {
    forall i, j :: 0 <= i < j < |s| ==>
      key(s[i]) < key(s[j]) || (key(s[i]) == key(s[j]) && tag(s[i]) < tag(s[j]))
  }

  function Insert<T(!new)>(x: T, s: seq<T>, key: T -> int): (r: seq<T>)
    ensures |r| == |s| + 1
    ensures multiset(r) == multiset(s) + multiset{x}
  {
    if s == [] then [x]
    else if key(x) < key(s[0]) then [x] + s
    else
      assert s == [s[0]] + s[1..];
      [s[0]] + Insert(x, s[1..], key)
  }

  lemma {:induction false} InsertSorted<T(!new)>(x: T, s: seq<T>, key: T -> int)
    requires SortedBy(s, key)
    ensures SortedBy(Insert(x, s, key), key)
  {
    if s != [] && key(x) >= key(s[0]) {
      InsertSorted(x, s[1..], key);
      var rest := Insert(x, s[1..], key);
      forall j | 0 <= j < |rest| ensures key(s[0]) <= key(rest[j]) {
        assert rest[j] in multiset(rest);
        if rest[j] != x {
          assert rest[j] in multiset(s[1..]);
          var k :| 0 <= k < |s[1..]| && s[1..][k] == rest[j];
          assert s[k + 1] == rest[j];
        }
      }
    }
  }

  /** `s.slice().sort((a, b) => key(a) - key(b))`. */
  function SortBy<T(!new)>(s: seq<T>, key: T -> int): (r: seq<T>)
    ensures |r| == |s|
    ensures multiset(r) == multiset(s)
    ensures SortedBy(r, key)
  {
    if s == [] then []
    else
      assert s == s[..|s| - 1] + [s[|s| - 1]];
      InsertSorted(s[|s| - 1], SortBy(s[..|s| - 1], key), key);
      Insert(s[|s| - 1], SortBy(s[..|s| - 1], key), key)
  }

  /** Sorting one more element inserts it into the sorted rest. */
  lemma SortBySnoc<T(!new)>(s: seq<T>, x: T, key: T -> int)
    ensures SortBy(s + [x], key) == Insert(x, SortBy(s, key), key)
  {
    var t := s + [x];
    assert t[..|t| - 1] == s;
  }

  /** Sorting keeps exactly the elements it was given. */
  lemma SortByMembers<T(!new)>(s: seq<T>, key: T -> int)
    ensures forall x :: x in SortBy(s, key) <==> x in s
  {
    var r := SortBy(s, key);
    forall x ensures x in r <==> x in s {
      assert x in r <==> x in multiset(r);
      assert x in s <==> x in multiset(s);
    }
  }

  lemma {:induction false} InsertAtEnd<T(!new)>(x: T, s: seq<T>, key: T -> int)
    requires forall y :: y in s ==> key(y) <= key(x)
    ensures Insert(x, s, key) == s + [x]
  {
    if s != [] {
      assert s[0] in s;
      InsertAtEnd(x, s[1..], key);
    }
  }

  /** Sorting an already sorted sequence changes nothing. */
  lemma {:induction false} SortBySorted<T(!new)>(s: seq<T>, key: T -> int)
    requires SortedBy(s, key)
    ensures SortBy(s, key) == s
  {
    if s != [] {
      var n := |s| - 1;
      SortBySorted(s[..n], key);
      forall y | y in s[..n] ensures key(y) <= key(s[n]) {
        var i :| 0 <= i < n && s[..n][i] == y;
      }
      InsertAtEnd(s[n], s[..n], key);
      assert s[..n] + [s[n]] == s;
    }
  }

  lemma {:induction false} InsertFilter<T(!new)>(x: T, s: seq<T>, key: T -> int, p: T -> bool)
    requires SortedBy(s, key)
    ensures Filter(Insert(x, s, key), p) == if p(x) then Insert(x, Filter(s, p), key) else Filter(s, p)
  {
    if s == [] {
    } else if key(x) < key(s[0]) {
      assert Insert(x, s, key) == [x] + s;
      if p(x) {
        var f := Filter(s, p);
        if f != [] {
          assert f[0] in s;
          var i :| 0 <= i < |s| && s[i] == f[0];
          assert key(s[0]) <= key(s[i]);
        }
      }
    } else {
      assert Insert(x, s, key) == [s[0]] + Insert(x, s[1..], key);
      InsertFilter(x, s[1..], key, p);
    }
  }

  /** A stable sort commutes with a filter. */
  lemma {:induction false} SortByFilter<T(!new)>(s: seq<T>, key: T -> int, p: T -> bool)
    ensures SortBy(Filter(s, p), key) == Filter(SortBy(s, key), p)
  {
    if s != [] {
      var n := |s| - 1;
      var x := s[n];
      var init := s[..n];
      assert s == init + [x];
      SortByFilter(init, key, p);
      SortBySnoc(init, x, key);
      InsertFilter(x, SortBy(init, key), key, p);
      FilterSnoc(init, x, p);
      if p(x) {
        SortBySnoc(Filter(init, p), x, key);
      }
    }
  }

  lemma FilterSnoc<T(!new)>(s: seq<T>, x: T, p: T -> bool)
    ensures Filter(s + [x], p) == if p(x) then Filter(s, p) + [x] else Filter(s, p)
  {
    FilterAppend(s, [x], p);
    assert [x][1..] == [];
    assert Filter([x], p) == if p(x) then [x] else [];
  }

  /**
   * Stability: the elements sharing one key come out in the order they went in.
   */
  lemma SortByStable<T(!new)>(s: seq<T>, key: T -> int, v: int, hasKey: T -> bool)
    requires forall y :: hasKey(y) == (key(y) == v)
    ensures Filter(SortBy(s, key), hasKey) == Filter(s, hasKey)
  {
    SortByFilter(s, key, hasKey);
    SortBySorted(Filter(s, hasKey), key);
  }

  lemma {:induction false} InsertLex<T(!new)>(x: T, s: seq<T>, key: T -> int, tag: T -> int)
    requires LexSortedBy(s, key, tag)
    requires forall y :: y in s ==> tag(y) < tag(x)
    ensures LexSortedBy(Insert(x, s, key), key, tag)
  {
    if s != [] && key(x) >= key(s[0]) {
      assert s[0] in s;
      InsertLex(x, s[1..], key, tag);
      var r := Insert(x, s, key);
      assert r == [s[0]] + Insert(x, s[1..], key);
      forall j | 0 < j < |r|
        ensures key(r[0]) < key(r[j]) || (key(r[0]) == key(r[j]) && tag(r[0]) < tag(r[j]))
      {
        assert r[j] in multiset(Insert(x, s[1..], key));
        if r[j] != x {
          assert r[j] in multiset(s[1..]);
          var k :| 0 <= k < |s[1..]| && s[1..][k] == r[j];
          assert s[k + 1] == r[j];
        }
      }
    }
  }

  /**
   * A stable sort by `key` of a sequence listed in increasing `tag` order puts
   * equal keys in increasing `tag` order: it agrees with the comparator
   * `key(a) - key(b) || tag(a) - tag(b)`.
   */
  lemma {:induction false} SortByLex<T(!new)>(s: seq<T>, key: T -> int, tag: T -> int)
    requires StrictlySortedBy(s, tag)
    ensures LexSortedBy(SortBy(s, key), key, tag)
  {
    if s != [] {
      var n := |s| - 1;
      SortByLex(s[..n], key, tag);
      forall y | y in SortBy(s[..n], key) ensures tag(y) < tag(s[n]) {
        assert y in multiset(SortBy(s[..n], key));
        var i :| 0 <= i < n && s[..n][i] == y;
      }
      InsertLex(s[n], SortBy(s[..n], key), key, tag);
    }
  }

  /**
   * Uniqueness of sorting: a sorted permutation of a strictly sorted sequence
   * is that sequence.
   */
  lemma {:induction false} SortedUnique<T(!new)>(a: seq<T>, b: seq<T>, key: T -> int)
    requires SortedBy(a, key) && StrictlySortedBy(b, key)
    requires multiset(a) == multiset(b)
    ensures a == b
  {
    assert |a| == |multiset(a)| == |b|;
    if a != [] {
      SameHead(a, b, key);
      TailMultiset(a, b);
      SortedUnique(a[1..], b[1..], key);
      assert a == [a[0]] + a[1..] && b == [b[0]] + b[1..];
    }
  }

  lemma SameHead<T(!new)>(a: seq<T>, b: seq<T>, key: T -> int)
    requires SortedBy(a, key) && StrictlySortedBy(b, key)
    requires multiset(a) == multiset(b) && a != []
    ensures b != [] && a[0] == b[0]
  {
    assert a[0] in multiset(b);
    assert b != [] && b[0] in multiset(a);
    var i :| 0 <= i < |b| && b[i] == a[0];
    var j :| 0 <= j < |a| && a[j] == b[0];
    assert key(a[0]) <= key(a[j]);
  }

  lemma TailMultiset<T>(a: seq<T>, b: seq<T>)
    requires multiset(a) == multiset(b) && a != [] && b != [] && a[0] == b[0]
    ensures multiset(a[1..]) == multiset(b[1..])
  {
    assert a == [a[0]] + a[1..];
    assert b == [b[0]] + b[1..];
    assert multiset(a) == multiset{a[0]} + multiset(a[1..]);
    assert multiset(b) == multiset{a[0]} + multiset(b[1..]);
    forall z ensures multiset(a[1..])[z] == multiset(b[1..])[z] {
      assert multiset(a)[z] == multiset(b)[z];
    }
  }

  /** A filter keeps a strictly ordered sequence strictly ordered. */
  lemma {:induction false} FilterStrictlySorted<T(!new)>(s: seq<T>, key: T -> int, p: T -> bool)
    requires StrictlySortedBy(s, key)
    ensures StrictlySortedBy(Filter(s, p), key)
  {
    if s != [] {
      FilterStrictlySorted(s[1..], key, p);
      var t := Filter(s[1..], p);
      forall j | 0 <= j < |t| ensures key(s[0]) < key(t[j]) {
        assert t[j] in s[1..];
        var k :| 0 <= k < |s[1..]| && s[1..][k] == t[j];
        assert s[k + 1] == t[j];
      }
    }
  }

  /** A filter keeps a sorted sequence sorted. */
  lemma {:induction false} FilterSorted<T(!new)>(s: seq<T>, key: T -> int, p: T -> bool)
    requires SortedBy(s, key)
    ensures SortedBy(Filter(s, p), key)
  {
    if s != [] {
      FilterSorted(s[1..], key, p);
      var t := Filter(s[1..], p);
      forall j | 0 <= j < |t| ensures key(s[0]) <= key(t[j]) {
        assert t[j] in s[1..];
        var k :| 0 <= k < |s[1..]| && s[1..][k] == t[j];
        assert s[k + 1] == t[j];
      }
    }
  }

  lemma {:induction false} InsertSum<T(!new)>(x: T, s: seq<T>, key: T -> int, f: T -> int)
    ensures SumBy(Insert(x, s, key), f) == SumBy(s, f) + f(x)
  {
    if s != [] && key(x) >= key(s[0]) {
      InsertSum(x, s[1..], key, f);
      assert Insert(x, s, key)[1..] == Insert(x, s[1..], key);
    } else if s != [] {
      assert ([x] + s)[1..] == s;
    }
  }

  lemma {:induction false} SumByAppend<T(!new)>(a: seq<T>, b: seq<T>, f: T -> int)
    ensures SumBy(a + b, f) == SumBy(a, f) + SumBy(b, f)
  {
    if a == [] {
      assert a + b == b;
    } else {
      assert (a + b)[1..] == a[1..] + b;
      SumByAppend(a[1..], b, f);
    }
  }

  /** Sorting does not change a total. */
  lemma {:induction false} SortBySum<T(!new)>(s: seq<T>, key: T -> int, f: T -> int)
    ensures SumBy(SortBy(s, key), f) == SumBy(s, f)
  {
    if s != [] {
      var n := |s| - 1;
      var init := s[..n];
      assert s == init + [s[n]];
      SortBySum(init, key, f);
      SortBySnoc(init, s[n], key);
      InsertSum(s[n], SortBy(init, key), key, f);
      SumByAppend(init, [s[n]], f);
      assert SumBy([s[n]], f) == f(s[n]) + SumBy([s[n]][1..], f);
      assert [s[n]][1..] == [];
    }
  }

  // ---------------------------------------------------------------------
  // Counter maps. The components key their counters by stringified problem
  // numbers; the model keys them by the numbers themselves. Object.entries
  // lists integer-like keys in ascending numeric order (ECMA-262,
  // OrdinaryOwnPropertyKeys), which Entries reproduces.
  // ---------------------------------------------------------------------

  predicate IsLeast(k: int, keys: set<int>) {
    k in keys && forall j :: j in keys ==> k <= j
  }

  lemma {:induction false} LeastKeyExists(keys: set<int>)
    requires keys != {}
    ensures exists k :: IsLeast(k, keys)
    decreases |keys|
  {
    assert (forall j :: j !in keys) ==> keys == {};
    var x :| x in keys;
    var rest := keys - {x};
    if rest == {} {
      assert keys == {x};
      assert IsLeast(x, keys);
    } else {
      LeastKeyExists(rest);
      var m :| IsLeast(m, rest);
      var k := if x < m then x else m;
      forall j | j in keys ensures k <= j {
        if j != x { assert j in rest; }
      }
      assert IsLeast(k, keys);
    }
  }

  /** The least key of a non-empty key set. */
  function LeastKey(keys: set<int>): (k: int)
    requires keys != {}
    ensures IsLeast(k, keys)
  {
    LeastKeyExists(keys);
    var k :| IsLeast(k, keys);
    k
  }

  function EntryKey(e: (int, int)): int { e.0 }

  function EntryCount(e: (int, int)): int { e.1 }

  /** The sort key of a count-descending order. */
  function NegEntryCount(e: (int, int)): int { -e.1 }

  /** `Object.entries(m)`: the (key, value) pairs in ascending key order. */
  function Entries(m: map<int, int>): (r: seq<(int, int)>)
    ensures |r| == |m|
    ensures forall i :: 0 <= i < |r| ==> r[i].0 in m && m[r[i].0] == r[i].1
    ensures forall i, j :: 0 <= i < j < |r| ==> r[i].0 < r[j].0
    decreases |m|
  {
    if |m| == 0 then []
    else
      assert (forall j :: j !in m) ==> |m| == 0;
      var k := LeastKey(m.Keys);
      var rest := m - {k};
      assert rest.Keys == m.Keys - {k};
      assert |rest.Keys| == |m.Keys| - 1;
      var tail := Entries(rest);
      assert forall i :: 0 <= i < |tail| ==> k < tail[i].0;
      [(k, m[k])] + tail
  }

  /** Every key of the map is listed. */
  lemma {:induction false} EntriesComplete(m: map<int, int>, key: int)
    requires key in m
    ensures (key, m[key]) in Entries(m)
    decreases |m|
  {
    assert (forall j :: j !in m) ==> |m| == 0;
    var k := LeastKey(m.Keys);
    var rest := m - {k};
    assert rest.Keys == m.Keys - {k};
    assert |rest.Keys| == |m.Keys| - 1;
    assert Entries(m) == [(k, m[k])] + Entries(rest);
    if key != k {
      EntriesComplete(rest, key);
    }
  }

  lemma EntriesStrictlySorted(m: map<int, int>)
    ensures StrictlySortedBy(Entries(m), EntryKey)
  {
  }

  /** The listed pairs are exactly the map's entries. */
  lemma EntriesMembers(m: map<int, int>)
    ensures forall e :: e in Entries(m) <==> e.0 in m && m[e.0] == e.1
  {
    forall e: (int, int) | e.0 in m && m[e.0] == e.1 ensures e in Entries(m) {
      EntriesComplete(m, e.0);
    }
  }
}
