/**
 * Generic operations on database tables, modelled as sequences of rows in
 * insertion order: `where` filters, `orderBy` sorting, lookups by primary key
 * and the "max + 1" position rule.
 */
module Tables {
  import opened Wrappers

  // ---------------------------------------------------------------------------
  // where
  // ---------------------------------------------------------------------------

  /** The rows of `s` that satisfy `p`, in table order. */
  function Filter<T(!new)>(s: seq<T>, p: T -> bool): (r: seq<T>)
    ensures |r| <= |s|
    ensures forall x :: x in r <==> x in s && p(x)
    ensures forall i :: 0 <= i < |r| ==> p(r[i])
  {
    if s == [] then []
    else
      var rest := Filter(s[1..], p);
      if p(s[0]) then [s[0]] + rest else rest
  }

  /** Each row satisfying `p` is kept as often as it occurs, and no other row is. */
  lemma {:induction false} FilterMultiset<T(!new)>(s: seq<T>, p: T -> bool, x: T)
    ensures multiset(Filter(s, p))[x] == if p(x) then multiset(s)[x] else 0
  {
    if s != [] {
      FilterMultiset(s[1..], p, x);
      assert s == [s[0]] + s[1..];
      assert multiset(s) == multiset{s[0]} + multiset(s[1..]);
      var rest := Filter(s[1..], p);
      if p(s[0]) {
        assert multiset(Filter(s, p)) == multiset{s[0]} + multiset(rest);
      } else {
        assert Filter(s, p) == rest;
      }
    }
  }

  lemma {:induction false} FilterAppend<T(!new)>(a: seq<T>, b: seq<T>, p: T -> bool)
    ensures Filter(a + b, p) == Filter(a, p) + Filter(b, p)
  {
    if a == [] {
      assert a + b == b;
    } else {
      assert (a + b)[1..] == a[1..] + b;
      FilterAppend(a[1..], b, p);
    }
  }

  /** Filtering with a predicate that holds of every row keeps the table. */
  lemma {:induction false} FilterAll<T(!new)>(s: seq<T>, p: T -> bool)
    requires forall i :: 0 <= i < |s| ==> p(s[i])
    ensures Filter(s, p) == s
  {
    if s != [] {
      FilterAll(s[1..], p);
    }
  }

  /** Filtering with a predicate that holds of no row gives the empty table. */
  lemma {:induction false} FilterNone<T(!new)>(s: seq<T>, p: T -> bool)
    requires forall i :: 0 <= i < |s| ==> !p(s[i])
    ensures Filter(s, p) == []
  {
    if s != [] {
      FilterNone(s[1..], p);
    }
  }

  /** The number of rows satisfying `p` (a `_count` with a `where`). */
  function Count<T(!new)>(s: seq<T>, p: T -> bool): nat {
    |Filter(s, p)|
  }

  // ---------------------------------------------------------------------------
  // orderBy
  // ---------------------------------------------------------------------------

  /** Every two rows are comparable under `leq`. */
  ghost predicate Total<T(!new)>(leq: (T, T) -> bool) {
    forall a, b :: leq(a, b) || leq(b, a)
  }

  ghost predicate Transitive<T(!new)>(leq: (T, T) -> bool) {
    forall a, b, c :: leq(a, b) && leq(b, c) ==> leq(a, c)
  }

  /** Each row is `leq` its successor. */
  predicate Sorted<T>(s: seq<T>, leq: (T, T) -> bool) {
    forall i :: 0 < i < |s| ==> leq(s[i - 1], s[i])
  }

  /** For a transitive `leq`, sorted means every earlier row is `leq` every later one. */
  lemma {:induction false} SortedPairwise<T(!new)>(s: seq<T>, leq: (T, T) -> bool, i: nat, j: nat)
    requires Transitive(leq) && Sorted(s, leq)
    requires i < j < |s|
    ensures leq(s[i], s[j])
    decreases j - i
  {
    if i + 1 < j {
      SortedPairwise(s, leq, i + 1, j);
      assert leq(s[i], s[i + 1]);
    }
  }

  function Insert<T(!new)>(x: T, s: seq<T>, leq: (T, T) -> bool): (r: seq<T>)
    requires Total(leq) && Sorted(s, leq)
    ensures Sorted(r, leq)
    ensures multiset(r) == multiset(s) + multiset{x}
    ensures |r| == |s| + 1 && (r[0] == x || (s != [] && r[0] == s[0]))
  {
    if s == [] then [x]
    else if leq(x, s[0]) then [x] + s
    else
      var rest := Insert(x, s[1..], leq);
      assert s == [s[0]] + s[1..];
      assert leq(s[0], x);
      [s[0]] + rest
  }

  /** Insertion sort: a sorted permutation of `s` (ties keep table order). */
  function SortBy<T(!new)>(s: seq<T>, leq: (T, T) -> bool): (r: seq<T>)
    requires Total(leq)
    ensures Sorted(r, leq)
    ensures multiset(r) == multiset(s)
    ensures |r| == |s|
  {
    if s == [] then []
    else
      assert s == [s[0]] + s[1..];
      Insert(s[0], SortBy(s[1..], leq), leq)
  }

  /** `leq` by an integer key, ascending. */
  function ByKey<T(!new)>(key: T -> int): (T, T) -> bool {
    (a: T, b: T) => key(a) <= key(b)
  }

  lemma ByKeyIsTotalOrder<T(!new)>(key: T -> int)
    ensures Total(ByKey(key)) && Transitive(ByKey(key))
  {
  }

  // ---------------------------------------------------------------------------
  // primary keys
  // ---------------------------------------------------------------------------

  predicate UniqueKeys<T, K(==)>(s: seq<T>, key: T -> K) {
    forall i, j :: 0 <= i < |s| && 0 <= j < |s| && i != j ==> key(s[i]) != key(s[j])
  }

  function Keys<T, K>(s: seq<T>, key: T -> K): set<K> {
    set i | 0 <= i < |s| :: key(s[i])
  }

  /** The position of the row whose key is `k` (a `findUnique`). */
  function IndexOf<T, K(==)>(s: seq<T>, key: T -> K, k: K): (r: Option<nat>)
    ensures r.Some? ==> r.value < |s| && key(s[r.value]) == k
    ensures r.Some? ==> forall j :: 0 <= j < r.value ==> key(s[j]) != k
    ensures r.None? <==> k !in Keys(s, key)
  {
    if s == [] then None
    else if key(s[0]) == k then Some(0)
    else
      var rest := IndexOf(s[1..], key, k);
      assert s == [s[0]] + s[1..];
      if rest.None? then None else Some(rest.value + 1)
  }

  /** The row whose key is `k`, if there is one. */
  function Find<T, K(==)>(s: seq<T>, key: T -> K, k: K): (r: Option<T>)
    ensures r.Some? ==> r.value in s && key(r.value) == k
    ensures r.None? <==> k !in Keys(s, key)
  {
    var i := IndexOf(s, key, k);
    if i.None? then None else Some(s[i.value])
  }

  /** Under unique keys, the row found for `k` is the only row with that key. */
  lemma FindUnique<T, K>(s: seq<T>, key: T -> K, i: nat)
    requires UniqueKeys(s, key) && i < |s|
    ensures IndexOf(s, key, key(s[i])) == Some(i)
    ensures Find(s, key, key(s[i])) == Some(s[i])
  {
  }

  /** Under unique keys, every row is the row found for its own key. */
  lemma FindEvery<T, K>(s: seq<T>, key: T -> K)
    ensures UniqueKeys(s, key) ==> forall x :: x in s ==> Find(s, key, key(x)) == Some(x)
  {
    if UniqueKeys(s, key) {
      forall x | x in s ensures Find(s, key, key(x)) == Some(x) {
        var i :| 0 <= i < |s| && s[i] == x;
        FindUnique(s, key, i);
      }
    }
  }

  /** Replacing the row at `i` by one with the same key keeps keys unique. */
  lemma UpdateKeepsKeys<T, K>(s: seq<T>, key: T -> K, i: nat, x: T)
    requires UniqueKeys(s, key) && i < |s| && key(x) == key(s[i])
    ensures UniqueKeys(s[i := x], key) && Keys(s[i := x], key) == Keys(s, key)
  {
    var s' := s[i := x];
    forall k | k in Keys(s, key) ensures k in Keys(s', key) {
      var j :| 0 <= j < |s| && key(s[j]) == k;
      assert key(s'[j]) == k;
    }
  }

  /** Appending a row with a fresh key keeps keys unique. */
  lemma AppendKeepsKeys<T, K>(s: seq<T>, key: T -> K, x: T)
    requires UniqueKeys(s, key) && key(x) !in Keys(s, key)
    ensures UniqueKeys(s + [x], key) && Keys(s + [x], key) == Keys(s, key) + {key(x)}
  {
    var s' := s + [x];
    forall k | k in Keys(s, key) + {key(x)} ensures k in Keys(s', key) {
      if k == key(x) {
        assert key(s'[|s|]) == k;
      } else {
        var j :| 0 <= j < |s| && key(s[j]) == k;
        assert key(s'[j]) == k;
      }
    }
  }

  lemma TailKeys<T, K>(s: seq<T>, key: T -> K)
    requires s != []
    ensures Keys(s, key) == {key(s[0])} + Keys(s[1..], key)
    ensures UniqueKeys(s, key) ==> UniqueKeys(s[1..], key) && key(s[0]) !in Keys(s[1..], key)
  {
    var tail := s[1..];
    forall k | k in Keys(tail, key) ensures k in Keys(s, key) {
      var m :| 0 <= m < |tail| && key(tail[m]) == k;
      assert key(s[m + 1]) == k;
    }
    if UniqueKeys(s, key) {
      forall i, j | 0 <= i < |tail| && 0 <= j < |tail| && i != j
        ensures key(tail[i]) != key(tail[j])
      {
        assert tail[i] == s[i + 1] && tail[j] == s[j + 1];
      }
      forall m | 0 <= m < |tail| ensures key(tail[m]) != key(s[0]) {
        assert tail[m] == s[m + 1];
      }
    }
  }

  lemma ConsKeys<T, K>(x: T, s: seq<T>, key: T -> K)
    requires UniqueKeys(s, key) && key(x) !in Keys(s, key)
    ensures UniqueKeys([x] + s, key)
  {
    var r := [x] + s;
    forall i, j | 0 <= i < |r| && 0 <= j < |r| && i != j ensures key(r[i]) != key(r[j]) {
      if i == 0 {
        assert r[j] == s[j - 1];
      } else if j == 0 {
        assert r[i] == s[i - 1];
      } else {
        assert r[i] == s[i - 1] && r[j] == s[j - 1];
      }
    }
  }

  /** Dropping rows keeps keys unique and introduces no key. */
  lemma {:induction false} FilterKeepsKeys<T(!new), K>(s: seq<T>, key: T -> K, p: T -> bool)
    requires UniqueKeys(s, key)
    ensures UniqueKeys(Filter(s, p), key)
    ensures Keys(Filter(s, p), key) <= Keys(s, key)
  {
    if s != [] {
      TailKeys(s, key);
      FilterKeepsKeys(s[1..], key, p);
      var rest := Filter(s[1..], p);
      if p(s[0]) {
        ConsKeys(s[0], rest, key);
        TailKeys([s[0]] + rest, key);
        assert ([s[0]] + rest)[1..] == rest;
      }
    }
  }

  /** Rewriting every row with a key-preserving `f` keeps keys unique. */
  lemma MapKeepsKeys<T, K>(s: seq<T>, key: T -> K, f: T -> T)
    requires UniqueKeys(s, key)
    requires forall x :: key(f(x)) == key(x)
    ensures UniqueKeys(MapRows(s, f), key)
    ensures Keys(MapRows(s, f), key) == Keys(s, key)
  {
    var s' := MapRows(s, f);
    forall k | k in Keys(s, key) ensures k in Keys(s', key) {
      var j :| 0 <= j < |s| && key(s[j]) == k;
      assert key(s'[j]) == k;
    }
  }

  /** `f` applied to every row (an `updateMany`). */
  function MapRows<T, U>(s: seq<T>, f: T -> U): (r: seq<U>)
    ensures |r| == |s| && forall i :: 0 <= i < |s| ==> r[i] == f(s[i])
  {
    seq(|s|, i requires 0 <= i < |s| => f(s[i]))
  }

  // ---------------------------------------------------------------------------
  // position of a new row: findFirst orderBy desc, then max + 1 (or 0)
  // ---------------------------------------------------------------------------

  /** The largest position among the rows satisfying `inGroup`, if any. */
  function MaxPosition<T>(s: seq<T>, inGroup: T -> bool, pos: T -> int): (r: Option<int>)
    ensures r.None? <==> forall x :: x in s ==> !inGroup(x)
    ensures r.Some? ==> exists x :: x in s && inGroup(x) && pos(x) == r.value
    ensures r.Some? ==> forall x :: x in s && inGroup(x) ==> pos(x) <= r.value
  {
    if s == [] then None
    else
      var rest := MaxPosition(s[1..], inGroup, pos);
      assert s == [s[0]] + s[1..];
      if !inGroup(s[0]) then rest
      else if rest.None? || rest.value < pos(s[0]) then Some(pos(s[0]))
      else rest
  }

  /** The position given to a new row appended to its group. */
  function NextPosition<T>(s: seq<T>, inGroup: T -> bool, pos: T -> int): int {
    var last := MaxPosition(s, inGroup, pos);
    if last.Some? then last.value + 1 else 0
  }

  /** The next position is above every position in the group, is 0 for an
      empty group, and otherwise is one more than some member's position. */
  lemma NextPositionIsAppend<T>(s: seq<T>, inGroup: T -> bool, pos: T -> int)
    ensures forall x :: x in s && inGroup(x) ==> pos(x) < NextPosition(s, inGroup, pos)
    ensures (forall x :: x in s ==> !inGroup(x)) ==> NextPosition(s, inGroup, pos) == 0
    ensures (exists x :: x in s && inGroup(x)) ==>
              exists x :: x in s && inGroup(x) && pos(x) == NextPosition(s, inGroup, pos) - 1
  {
  }
}
