/**
 * The array operations the client and the server apply to lists of records:
 * `find`/`findIndex` (first match), `filter`, replacing the first match, and a
 * stable sort by a two-part key (the comparators of the source all compare
 * one or two integer fields).
 */
module Lists {
  import opened Wrappers

  /** Index of the first element satisfying `p`, as `Array.prototype.findIndex` (None for -1). */
  function FindFirst<T>(s: seq<T>, p: T -> bool): (r: Option<nat>)
    ensures r.Some? ==> r.value < |s| && p(s[r.value])
    ensures r.Some? ==> forall j :: 0 <= j < r.value ==> !p(s[j])
    ensures r.None? <==> forall j :: 0 <= j < |s| ==> !p(s[j])
  {
    if s == [] then None
    else if p(s[0]) then Some(0)
    else match FindFirst(s[1..], p)
      case None => None
      case Some(i) => Some(i + 1)
  }

  /** The first element satisfying `p`, as `Array.prototype.find` (None for undefined). */
  function Find<T>(s: seq<T>, p: T -> bool): (r: Option<T>)
    ensures r.Some? ==> r.value in s && p(r.value)
    ensures r.None? <==> forall x :: x in s ==> !p(x)
  {
    match FindFirst(s, p)
    case None => None
    case Some(i) => Some(s[i])
  }

  /**
   * `s[findIndex(p)] = x` guarded by `index !== -1`: the first element
   * satisfying `p` becomes `x`; every other position keeps its element.
   */
  function ReplaceFirst<T>(s: seq<T>, p: T -> bool, x: T): (r: seq<T>)
    ensures |r| == |s|
    ensures (forall j :: 0 <= j < |s| ==> !p(s[j])) ==> r == s
    ensures forall i :: 0 <= i < |s| && p(s[i]) && (forall j :: 0 <= j < i ==> !p(s[j])) ==>
              r[i] == x && forall j :: 0 <= j < |s| && j != i ==> r[j] == s[j]
  {
    match FindFirst(s, p)
    case None => s
    case Some(i) => s[i := x]
  }

  /** `Array.prototype.filter`: the elements satisfying `p`, in their original order. */
  function Filter<T(!new)>(s: seq<T>, p: T -> bool): (r: seq<T>)
    ensures |r| <= |s|
    ensures forall i :: 0 <= i < |r| ==> p(r[i])
    ensures forall x :: x in r <==> x in s && p(x)
  {
    if s == [] then []
    else
      var rest := Filter(s[1..], p);
      assert s == [s[0]] + s[1..];
      if p(s[0]) then [s[0]] + rest else rest
  }

  /** Filtering keeps every occurrence of a kept element and none of a dropped one. */
  lemma {:induction false} FilterMultiset<T(!new)>(s: seq<T>, p: T -> bool)
    ensures forall x :: multiset(Filter(s, p))[x] == if p(x) then multiset(s)[x] else 0
  {
    if s != [] {
      FilterMultiset(s[1..], p);
      assert s == [s[0]] + s[1..];
    }
  }

  /** Filtering distributes over concatenation: relative order is kept. */
  lemma {:induction false} FilterAppend<T(!new)>(a: seq<T>, b: seq<T>, p: T -> bool)
    ensures Filter(a + b, p) == Filter(a, p) + Filter(b, p)
  {
    if a == [] {
      assert a + b == b;
    } else {
      assert (a + b)[1..] == a[1..] + b;
      FilterAppend(a[1..], b, p);
    }
  }

  /** Filtering with a predicate every element satisfies changes nothing. */
  lemma {:induction false} FilterKeepsAll<T(!new)>(s: seq<T>, p: T -> bool)
    requires forall x :: x in s ==> p(x)
    ensures Filter(s, p) == s
  {
    if s != [] {
      FilterKeepsAll(s[1..], p);
    }
  }

  /** Filtering out the one element that fails `p` shortens the list by exactly one. */
  lemma {:induction false} FilterDropsOne<T(!new)>(s: seq<T>, p: T -> bool, k: int)
    requires 0 <= k < |s| && !p(s[k])
    requires forall i :: 0 <= i < |s| && i != k ==> p(s[i])
    ensures |Filter(s, p)| == |s| - 1
  {
    if k == 0 {
      FilterKeepsAll(s[1..], p);
    } else {
      FilterDropsOne(s[1..], p, k - 1);
    }
  }

  /** Filtering keeps relative order: two kept elements come from positions `a < b` of the input. */
  lemma {:induction false} FilterKeepsOrder<T(!new)>(s: seq<T>, p: T -> bool, i: int, j: int) returns (a: nat, b: nat)
    requires 0 <= i < j < |Filter(s, p)|
    ensures a < b < |s| && Filter(s, p)[i] == s[a] && Filter(s, p)[j] == s[b]
  {
    var r := Filter(s, p);
    var tail := s[1..];
    var rest := Filter(tail, p);
    if p(s[0]) {
      assert r == [s[0]] + rest;
      assert r[j] == rest[j - 1];
      if i == 0 {
        assert rest[j - 1] in tail;
        var k :| 0 <= k < |tail| && tail[k] == rest[j - 1];
        assert tail[k] == s[k + 1];
        a, b := 0, k + 1;
      } else {
        assert r[i] == rest[i - 1];
        var a', b' := FilterKeepsOrder(tail, p, i - 1, j - 1);
        assert rest[i - 1] == tail[a'] && rest[j - 1] == tail[b'];
        assert tail[a'] == s[a' + 1] && tail[b'] == s[b' + 1];
        a, b := a' + 1, b' + 1;
      }
    } else {
      assert r == rest;
      var a', b' := FilterKeepsOrder(tail, p, i, j);
      assert rest[i] == tail[a'] && rest[j] == tail[b'];
      assert tail[a'] == s[a' + 1] && tail[b'] == s[b' + 1];
      a, b := a' + 1, b' + 1;
    }
  }

  /** Filtering keeps a list's ids strictly increasing. */
  lemma FilterKeepsIncreasing<T(!new)>(s: seq<T>, p: T -> bool, id: T -> int)
    requires forall i, j :: 0 <= i < j < |s| ==> id(s[i]) < id(s[j])
    ensures forall i, j :: 0 <= i < j < |Filter(s, p)| ==> id(Filter(s, p)[i]) < id(Filter(s, p)[j])
  {
    forall i, j | 0 <= i < j < |Filter(s, p)|
      ensures id(Filter(s, p)[i]) < id(Filter(s, p)[j])
    {
      var a, b := FilterKeepsOrder(s, p, i, j);
    }
  }

  /** Filtering twice is filtering once by the conjunction. */
  lemma {:induction false} FilterTwice<T(!new)>(s: seq<T>, p: T -> bool, q: T -> bool, both: T -> bool)
    requires forall x :: both(x) == (p(x) && q(x))
    ensures Filter(Filter(s, p), q) == Filter(s, both)
  {
    if s != [] {
      FilterTwice(s[1..], p, q, both);
      if p(s[0]) {
        assert Filter(s, p) == [s[0]] + Filter(s[1..], p);
        assert Filter(s, p)[1..] == Filter(s[1..], p);
      }
    }
  }

  /** A weaker predicate keeps at least as many elements. */
  lemma {:induction false} FilterCountMonotonic<T(!new)>(s: seq<T>, p: T -> bool, q: T -> bool)
    requires forall x :: p(x) ==> q(x)
    ensures |Filter(s, p)| <= |Filter(s, q)|
  {
    if s != [] {
      FilterCountMonotonic(s[1..], p, q);
    }
  }

  /** Filtering with two predicates that agree everywhere gives the same list. */
  lemma {:induction false} FilterCongruent<T(!new)>(s: seq<T>, p: T -> bool, q: T -> bool)
    requires forall x :: p(x) == q(x)
    ensures Filter(s, p) == Filter(s, q)
  {
    if s != [] {
      FilterCongruent(s[1..], p, q);
    }
  }

  // Records identified by an integer `id` (the slices' lists of server rows).

  /** `x => id(x) === k`. */
  function WithId<T>(id: T -> int, k: int): T -> bool {
    (x: T) => id(x) == k
  }

  /** `x => id(x) !== k`. */
  function WithoutId<T>(id: T -> int, k: int): T -> bool {
    (x: T) => id(x) != k
  }

  /** The ids of a list of records, in list order. */
  function Ids<T>(s: seq<T>, id: T -> int): (ids: seq<int>)
    ensures |ids| == |s| && forall i :: 0 <= i < |s| ==> ids[i] == id(s[i])
  {
    seq(|s|, i requires 0 <= i < |s| => id(s[i]))
  }

  /**
   * `findIndex(r => r.id === x.id)` then `list[index] = x` when found: the
   * server's copy of a record replaces the first stored record with its id.
   */
  function ReplaceById<T>(s: seq<T>, id: T -> int, x: T): (r: seq<T>)
    ensures Ids(r, id) == Ids(s, id)
    ensures id(x) !in Ids(s, id) ==> r == s
    ensures forall i :: 0 <= i < |s| && id(s[i]) != id(x) ==> r[i] == s[i]
  {
    var r := ReplaceFirst(s, WithId(id, id(x)), x);
    assert forall i :: 0 <= i < |s| ==> (WithId(id, id(x))(s[i]) <==> id(s[i]) == id(x));
    r
  }

  /** After the replacement, looking the id up finds the server's copy. */
  lemma {:induction false} ReplaceByIdThenFind<T>(s: seq<T>, id: T -> int, x: T)
    requires id(x) in Ids(s, id)
    ensures Find(ReplaceById(s, id, x), WithId(id, id(x))) == Some(x)
  {
    var r := ReplaceById(s, id, x);
    var i := FindFirst(s, WithId(id, id(x))).value;
    assert r == s[i := x];
    assert forall j :: 0 <= j < i ==> r[j] == s[j];
    assert FindFirst(r, WithId(id, id(x))) == Some(i);
  }

  /** Applying the same server answer twice changes nothing more. */
  lemma {:induction false} ReplaceByIdIdempotent<T>(s: seq<T>, id: T -> int, x: T)
    ensures ReplaceById(ReplaceById(s, id, x), id, x) == ReplaceById(s, id, x)
  {
    var r := ReplaceById(s, id, x);
    if id(x) in Ids(s, id) {
      var i := FindFirst(s, WithId(id, id(x))).value;
      assert r == s[i := x];
      assert forall j :: 0 <= j < i ==> r[j] == s[j];
      assert FindFirst(r, WithId(id, id(x))) == Some(i);
    }
  }

  /** `filter(r => r.id !== k)`: every record with id `k` is gone, every other one stays, in order. */
  function RemoveById<T(!new)>(s: seq<T>, id: T -> int, k: int): (r: seq<T>)
    ensures k !in Ids(r, id)
    ensures forall x :: x in r <==> x in s && id(x) != k
    ensures k !in Ids(s, id) ==> r == s
  {
    var r := Filter(s, WithoutId(id, k));
    assert k !in Ids(s, id) ==> r == s by {
      if k !in Ids(s, id) {
        FilterKeepsAll(s, WithoutId(id, k));
      }
    }
    assert forall i :: 0 <= i < |r| ==> WithoutId(id, k)(r[i]);
    r
  }

  /** Sort key: compared on `major` first, then on `minor`. */
  datatype Key = Key(major: int, minor: int)

  predicate KeyLe(a: Key, b: Key) {
    a.major < b.major || (a.major == b.major && a.minor <= b.minor)
  }

  ghost predicate SortedBy<T>(s: seq<T>, key: T -> Key) {
    forall i, j :: 0 <= i < j < |s| ==> KeyLe(key(s[i]), key(s[j]))
  }

  /** Inserts `x` before the first element whose key is not smaller than its own. */
  function InsertBy<T>(x: T, s: seq<T>, key: T -> Key): (r: seq<T>)
    ensures multiset(r) == multiset(s) + multiset{x}
    ensures |r| == |s| + 1
  {
    if s == [] then [x]
    else if KeyLe(key(x), key(s[0])) then [x] + s
    else
      assert s == [s[0]] + s[1..];
      [s[0]] + InsertBy(x, s[1..], key)
  }

  /**
   * Insertion sort by `key`. Equal keys keep their original order, as the
   * stable `Array.prototype.sort` does with a comparator that returns 0.
   */
  function SortBy<T>(s: seq<T>, key: T -> Key): (r: seq<T>)
    ensures multiset(r) == multiset(s)
    ensures |r| == |s|
  {
    if s == [] then []
    else
      assert s == [s[0]] + s[1..];
      InsertBy(s[0], SortBy(s[1..], key), key)
  }

  /** Sorting neither adds nor loses elements. */
  lemma SortByMembers<T>(s: seq<T>, key: T -> Key)
    ensures forall x :: x in SortBy(s, key) <==> x in s
  {
    var r := SortBy(s, key);
    assert forall x :: x in r <==> x in multiset(r);
    assert forall x :: x in s <==> x in multiset(s);
  }

  /** Inserting into a list bounded below by `lo` an element bounded by `lo` keeps the bound. */
  lemma InsertByBounded<T>(x: T, s: seq<T>, key: T -> Key, lo: Key)
    requires KeyLe(lo, key(x))
    requires forall k :: 0 <= k < |s| ==> KeyLe(lo, key(s[k]))
    ensures forall j :: 0 <= j < |InsertBy(x, s, key)| ==> KeyLe(lo, key(InsertBy(x, s, key)[j]))
  {
    var r := InsertBy(x, s, key);
    forall j | 0 <= j < |r|
      ensures KeyLe(lo, key(r[j]))
    {
      var y := r[j];
      assert y in multiset(r);
      if y != x {
        assert y in multiset(s);
        var k :| 0 <= k < |s| && s[k] == y;
      }
    }
  }

  lemma {:induction false} InsertBySorted<T>(x: T, s: seq<T>, key: T -> Key)
    requires SortedBy(s, key)
    ensures SortedBy(InsertBy(x, s, key), key)
  {
    if s != [] && !KeyLe(key(x), key(s[0])) {
      var tail := s[1..];
      var r' := InsertBy(x, tail, key);
      InsertBySorted(x, tail, key);
      assert forall k :: 0 <= k < |tail| ==> KeyLe(key(s[0]), key(tail[k])) by {
        assert forall k :: 0 <= k < |tail| ==> tail[k] == s[k + 1];
      }
      InsertByBounded(x, tail, key, key(s[0]));
      var r := InsertBy(x, s, key);
      assert r == [s[0]] + r';
      forall i, j | 0 <= i < j < |r|
        ensures KeyLe(key(r[i]), key(r[j]))
      {
        if i > 0 {
          assert r[i] == r'[i - 1] && r[j] == r'[j - 1];
        } else {
          assert r[j] == r'[j - 1];
        }
      }
    }
  }

  /** The result of `SortBy` is ordered by `key` (and, by its contract, a permutation). */
  lemma {:induction false} SortBySorted<T>(s: seq<T>, key: T -> Key)
    ensures SortedBy(SortBy(s, key), key)
  {
    if s != [] {
      SortBySorted(s[1..], key);
      InsertBySorted(s[0], SortBy(s[1..], key), key);
    }
  }
}
