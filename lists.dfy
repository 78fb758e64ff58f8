/** Sequence operations the viewer and the overlays apply to their arrays:
    `filter`, `indexOf`, `includes`, `splice`, and the sorted set of hidden pages. */
module Lists {

  datatype Option<T> = None | Some(value: T)

  /** `s.filter(p)`: the elements of `s` that satisfy `p`, in their original order. */
  function Filter<T(!new)>(s: seq<T>, p: T -> bool): (r: seq<T>)
    ensures |r| <= |s|
    ensures forall x :: x in r <==> x in s && p(x)
  {
    if s == [] then []
    else if p(s[0]) then [s[0]] + Filter(s[1..], p)
    else Filter(s[1..], p)
  }

  /** `s.map(f)` */
  function Map<T, U>(s: seq<T>, f: T -> U): (r: seq<U>)
    ensures |r| == |s| && forall i :: 0 <= i < |s| ==> r[i] == f(s[i])
  {
    if s == [] then [] else [f(s[0])] + Map(s[1..], f)
  }

  /** A map whose function keeps what a filter tests can be done before or after the filter. */
  lemma {:induction false} MapFilter<T(!new), U(!new)>(s: seq<T>, f: T -> U, p: T -> bool, q: U -> bool)
    requires forall x :: q(f(x)) == p(x)
    ensures Filter(Map(s, f), q) == Map(Filter(s, p), f)
  {
    if s != [] {
      assert Map(s, f) == [f(s[0])] + Map(s[1..], f);
      assert Map(s, f)[1..] == Map(s[1..], f);
      MapFilter(s[1..], f, p, q);
    }
  }

  /** `s.find(p)`: the first element satisfying `p`. */
  function Find<T>(s: seq<T>, p: T -> bool): (r: Option<T>)
    ensures r.None? <==> forall i :: 0 <= i < |s| ==> !p(s[i])
    ensures r.Some? ==> exists i :: 0 <= i < |s| && s[i] == r.value && p(r.value) && forall j :: 0 <= j < i ==> !p(s[j])
  {
    if s == [] then None
    else if p(s[0]) then Some(s[0])
    else
      var r := Find(s[1..], p);
      assert forall i :: 1 <= i < |s| ==> s[i] == s[1..][i - 1];
      r
  }

  /** `s.findIndex(p)`: the index of the first element satisfying `p`, or -1. */
  function FindIndex<T>(s: seq<T>, p: T -> bool): (r: int)
    ensures -1 <= r < |s|
    ensures r == -1 <==> forall i :: 0 <= i < |s| ==> !p(s[i])
    ensures 0 <= r ==> p(s[r]) && forall j :: 0 <= j < r ==> !p(s[j])
  {
    if s == [] then -1
    else if p(s[0]) then 0
    else
      var k := FindIndex(s[1..], p);
      if k == -1 then -1 else k + 1
  }

  /** A filter keeps every occurrence of an accepted element and none of a rejected one. */
  lemma {:induction false} FilterCount<T(!new)>(s: seq<T>, p: T -> bool, x: T)
    ensures multiset(Filter(s, p))[x] == if p(x) then multiset(s)[x] else 0
  {
    if s != [] {
      assert s == [s[0]] + s[1..];
      FilterCount(s[1..], p, x);
    }
  }

  /** `r` is `s` with some elements left out and the rest in their original order. */
  predicate IsSubsequence<T(==)>(r: seq<T>, s: seq<T>)
    decreases |s|
  {
    if r == [] then true
    else if s == [] then false
    else IsSubsequence(r, s[1..]) || (r[0] == s[0] && IsSubsequence(r[1..], s[1..]))
  }

  /** A filter keeps the accepted elements in the order they had. */
  lemma {:induction false} FilterOrder<T(!new)>(s: seq<T>, p: T -> bool)
    ensures IsSubsequence(Filter(s, p), s)
  {
    if s != [] {
      FilterOrder(s[1..], p);
      if p(s[0]) {
        assert Filter(s, p)[1..] == Filter(s[1..], p);
      }
    }
  }

  /** How many elements of `s` pass `p`. */
  function Count<T>(s: seq<T>, p: T -> bool): (n: nat)
    ensures n <= |s|
  {
    if s == [] then 0 else (if p(s[0]) then 1 else 0) + Count(s[1..], p)
  }

  /** `r` holds exactly the elements of `s` that pass `p`, in the order of `s`: it is drawn
      from `s` in order, takes only passing elements, and takes as many as there are. */
  ghost predicate Selects<T(!new)>(r: seq<T>, s: seq<T>, p: T -> bool)
  {
    IsSubsequence(r, s) && (forall x :: x in r ==> p(x)) && |r| == Count(s, p)
  }

  lemma {:induction false} FilterLength<T(!new)>(s: seq<T>, p: T -> bool)
    ensures |Filter(s, p)| == Count(s, p)
  {
    if s != [] {
      FilterLength(s[1..], p);
    }
  }

  /** What a filter gives, in full. */
  lemma FilterExact<T(!new)>(s: seq<T>, p: T -> bool)
    ensures Selects(Filter(s, p), s, p)
  {
    FilterOrder(s, p);
    FilterLength(s, p);
  }

  /** Drawing only passing elements from `s` takes at most as many as `s` has. */
  lemma {:induction false} SubsequenceCount<T(!new)>(r: seq<T>, s: seq<T>, p: T -> bool)
    requires IsSubsequence(r, s) && forall x :: x in r ==> p(x)
    ensures |r| <= Count(s, p)
    decreases |s|
  {
    if r != [] {
      if IsSubsequence(r, s[1..]) {
        SubsequenceCount(r, s[1..], p);
      } else {
        assert r[0] in r;
        assert forall x :: x in r[1..] ==> x in r;
        SubsequenceCount(r[1..], s[1..], p);
      }
    }
  }

  /** How a selection from a non-empty sequence starts: with its head when the head passes,
      and otherwise as a selection from the tail. */
  lemma SelectsFirst<T(!new)>(r: seq<T>, s: seq<T>, p: T -> bool)
    requires s != [] && Selects(r, s, p)
    ensures p(s[0]) ==> r != [] && r[0] == s[0] && Selects(r[1..], s[1..], p)
    ensures !p(s[0]) ==> Selects(r, s[1..], p)
  {
    if p(s[0]) {
      if IsSubsequence(r, s[1..]) {
        SubsequenceCount(r, s[1..], p);
        assert false;
      }
      assert forall x :: x in r[1..] ==> x in r;
    } else if r != [] {
      assert r[0] in r;
    }
  }

  /** A selection is determined by the sequence and the test: `Selects` pins down the result
      completely. */
  lemma {:induction false} SelectsUnique<T(!new)>(r1: seq<T>, r2: seq<T>, s: seq<T>, p: T -> bool)
    requires Selects(r1, s, p) && Selects(r2, s, p)
    ensures r1 == r2
    decreases |s|
  {
    if s != [] {
      SelectsFirst(r1, s, p);
      SelectsFirst(r2, s, p);
      if p(s[0]) {
        SelectsUnique(r1[1..], r2[1..], s[1..], p);
        assert r1 == [s[0]] + r1[1..];
        assert r2 == [s[0]] + r2[1..];
      } else {
        SelectsUnique(r1, r2, s[1..], p);
      }
    }
  }

  /** Filtering distributes over concatenation, so a filter keeps store order. */
  lemma {:induction false} FilterAppend<T(!new)>(a: seq<T>, b: seq<T>, p: T -> bool)
    ensures Filter(a + b, p) == Filter(a, p) + Filter(b, p)
  {
    if a == [] {
      assert a + b == b;
    } else {
      assert (a + b)[1..] == a[1..] + b;
      FilterAppend(a[1..], b, p);
    }
  }

  lemma {:induction false} FilterKeepsAll<T(!new)>(s: seq<T>, p: T -> bool)
    requires forall x :: x in s ==> p(x)
    ensures Filter(s, p) == s
  {
    if s != [] {
      FilterKeepsAll(s[1..], p);
    }
  }

  lemma FilterDropsAll<T(!new)>(s: seq<T>, p: T -> bool)
    requires forall x :: x in s ==> !p(x)
    ensures Filter(s, p) == []
  {
    if Filter(s, p) != [] {
      assert Filter(s, p)[0] in Filter(s, p);
    }
  }

  /** The elements a filter keeps and the ones it drops together make up the whole sequence. */
  lemma FilterPartition<T(!new)>(s: seq<T>, p: T -> bool, q: T -> bool)
    requires forall x :: q(x) == !p(x)
    ensures multiset(Filter(s, p)) + multiset(Filter(s, q)) == multiset(s)
  {
    forall x
      ensures (multiset(Filter(s, p)) + multiset(Filter(s, q)))[x] == multiset(s)[x]
    {
      FilterCount(s, p, x);
      FilterCount(s, q, x);
    }
  }

  /** The predicates the source passes to `filter`. */
  function Differs<T(==,!new)>(x: T): T -> bool { y => y != x }
  function NotIn<T(==,!new)>(t: seq<T>): T -> bool { y => y !in t }

  /** `s.filter(p => p !== x)` */
  function RemoveAll<T(==,!new)>(s: seq<T>, x: T): seq<T> { Filter(s, Differs(x)) }

  /** `s.filter(p => !t.includes(p))` */
  function Without<T(==,!new)>(s: seq<T>, t: seq<T>): seq<T> { Filter(s, NotIn(t)) }

  /** `s.indexOf(x)`: the first index holding `x`, or -1. */
  function IndexOf<T(==,!new)>(s: seq<T>, x: T): (r: int)
    ensures -1 <= r < |s|
    ensures r == -1 <==> x !in s
    ensures 0 <= r ==> s[r] == x && forall j :: 0 <= j < r ==> s[j] != x
  {
    if s == [] then -1
    else if s[0] == x then 0
    else
      var k := IndexOf(s[1..], x);
      if k == -1 then -1 else k + 1
  }

  predicate Distinct<T(==,!new)>(s: seq<T>)
  {
    forall i, j :: 0 <= i < j < |s| ==> s[i] != s[j]
  }

  /** In a list without repeats every element is found where it is. */
  lemma IndexOfDistinct<T(!new)>(s: seq<T>, i: int)
    requires Distinct(s) && 0 <= i < |s|
    ensures IndexOf(s, s[i]) == i
  {
    assert s[i] in s;
  }

  /** Appending never changes where an element already present is first found. */
  lemma IndexOfPrefix<T(!new)>(s: seq<T>, t: seq<T>, x: T)
    requires x in s
    ensures IndexOf(s + t, x) == IndexOf(s, x)
  {
    var i, k := IndexOf(s, x), IndexOf(s + t, x);
    assert (s + t)[i] == x;
    assert x in s + t;
  }

  predicate StrictlySorted(s: seq<int>)
  {
    forall i, j :: 0 <= i < j < |s| ==> s[i] < s[j]
  }

  /** Inserts `x` into a strictly increasing sequence, keeping it strictly increasing;
      an `x` already present is not inserted twice. */
  function InsertSorted(s: seq<int>, x: int): (r: seq<int>)
    requires StrictlySorted(s)
    ensures StrictlySorted(r)
    ensures forall y :: y in r <==> y in s || y == x
  {
    if s == [] then [x]
    else if x < s[0] then [x] + s
    else if x == s[0] then s
    else
      var t := InsertSorted(s[1..], x);
      assert forall y :: y in s <==> y == s[0] || y in s[1..] by {
        assert s == [s[0]] + s[1..];
      }
      assert forall i :: 0 <= i < |t| ==> s[0] < t[i] by {
        forall i | 0 <= i < |t| ensures s[0] < t[i] {
          assert t[i] in t;
        }
      }
      [s[0]] + t
  }

  /** `Array.from(new Set(s)).sort((a, b) => a - b)`: the distinct elements of `s`, ascending. */
  function SortedDistinct(s: seq<int>): (r: seq<int>)
    ensures StrictlySorted(r)
    ensures forall y :: y in r <==> y in s
  {
    if s == [] then []
    else
      var r := InsertSorted(SortedDistinct(s[..|s| - 1]), s[|s| - 1]);
      assert forall y :: y in s <==> y in s[..|s| - 1] || y == s[|s| - 1] by {
        assert s == s[..|s| - 1] + [s[|s| - 1]];
      }
      r
  }

  lemma HeadIsMember<T>(s: seq<T>)
    ensures |s| > 0 ==> s[0] in s
  {
  }

  lemma SortedHeadIsLeast(s: seq<int>, y: int)
    requires StrictlySorted(s) && y in s
    ensures s[0] <= y
  {
    var j :| 0 <= j < |s| && s[j] == y;
    assert j == 0 || s[0] < s[j];
  }

  /** A strictly increasing sequence is determined by its elements. */
  lemma {:induction false} SortedUnique(a: seq<int>, b: seq<int>)
    requires StrictlySorted(a) && StrictlySorted(b)
    requires forall y :: y in a <==> y in b
    ensures a == b
  {
    HeadIsMember(a);
    HeadIsMember(b);
    if a != [] && b != [] {
      SortedHeadIsLeast(a, b[0]);
      SortedHeadIsLeast(b, a[0]);
      assert a == [a[0]] + a[1..] && b == [b[0]] + b[1..];
      forall y ensures y in a[1..] <==> y in b[1..] {
        if y in a[1..] {
          var i :| 0 <= i < |a[1..]| && a[1..][i] == y;
          assert a[0] < a[i + 1];
          assert y in b && y != b[0];
        }
        if y in b[1..] {
          var i :| 0 <= i < |b[1..]| && b[1..][i] == y;
          assert b[0] < b[i + 1];
          assert y in a && y != a[0];
        }
      }
      SortedUnique(a[1..], b[1..]);
    }
  }

  /** Sorting and deduplicating an already strictly increasing sequence changes nothing. */
  lemma SortedDistinctOfSorted(s: seq<int>)
    requires StrictlySorted(s)
    ensures SortedDistinct(s) == s
  {
    SortedUnique(SortedDistinct(s), s);
  }

  /** A filter of a strictly increasing sequence is strictly increasing. */
  lemma {:induction false} FilterSorted(s: seq<int>, p: int -> bool)
    requires StrictlySorted(s)
    ensures StrictlySorted(Filter(s, p))
  {
    if s != [] {
      FilterSorted(s[1..], p);
      var t := Filter(s[1..], p);
      forall i | 0 <= i < |t| ensures s[0] < t[i] {
        assert t[i] in t;
      }
    }
  }

  /** Where `splice(position, 0, ...)` inserts into an array of length `len`:
      a negative position counts from the end, and both ends are clamped. */
  function SpliceStart(position: int, len: nat): (k: nat)
    ensures k <= len
    ensures 0 <= position <= len ==> k == position
    ensures position > len ==> k == len
    ensures -(len as int) <= position < 0 ==> k == len + position
    ensures position < -(len as int) ==> k == 0
  {
    if position < 0 then (if len + position < 0 then 0 else len + position)
    else if position > len then len
    else position
  }

  /** `s.splice(position, 0, ...t)` on a copy of `s`. */
  function InsertAt<T>(s: seq<T>, position: int, t: seq<T>): (r: seq<T>)
    ensures |r| == |s| + |t|
    ensures r[..SpliceStart(position, |s|)] == s[..SpliceStart(position, |s|)]
    ensures r[SpliceStart(position, |s|)..SpliceStart(position, |s|) + |t|] == t
    ensures r[SpliceStart(position, |s|) + |t|..] == s[SpliceStart(position, |s|)..]
  {
    var k := SpliceStart(position, |s|);
    s[..k] + t + s[k..]
  }

  /** Removing again the elements that were inserted restores the original sequence. */
  lemma InsertAtWithout<T(!new)>(s: seq<T>, position: int, t: seq<T>)
    requires forall x :: x in s ==> x !in t
    ensures Without(InsertAt(s, position, t), t) == s
  {
    var k := SpliceStart(position, |s|);
    var p := NotIn(t);
    var a, b := s[..k], s[k..];
    assert s == a + b;
    assert InsertAt(s, position, t) == (a + t) + b;
    calc {
      Filter((a + t) + b, p);
      { FilterAppend(a + t, b, p); }
      Filter(a + t, p) + Filter(b, p);
      { FilterAppend(a, t, p); }
      Filter(a, p) + Filter(t, p) + Filter(b, p);
      { KeepsAllOf(s, a, t); KeepsAllOf(s, b, t); FilterDropsAll(t, p); }
      a + [] + b;
    }
  }

  /** Appending `t` to a list that holds none of it and then removing `t` gives the list back. */
  lemma AppendWithout<T(!new)>(s: seq<T>, t: seq<T>)
    requires forall x :: x in s ==> x !in t
    ensures Without(s + t, t) == s
  {
    FilterAppend(s, t, NotIn(t));
    KeepsAllOf(s, s, t);
    FilterDropsAll(t, NotIn(t));
  }

  lemma KeepsAllOf<T(!new)>(s: seq<T>, part: seq<T>, t: seq<T>)
    requires forall x :: x in s ==> x !in t
    requires forall x :: x in part ==> x in s
    ensures Filter(part, NotIn(t)) == part
  {
    FilterKeepsAll(part, NotIn(t));
  }

  /** `arr.splice(i, 1)` followed by `arr.push(it)`. */
  function MoveToBack<T>(s: seq<T>, i: nat): (r: seq<T>)
    requires i < |s|
    ensures |r| == |s| && r[|s| - 1] == s[i]
    ensures r[..|s| - 1] == s[..i] + s[i + 1..]
    ensures multiset(r) == multiset(s)
  {
    assert s == s[..i] + [s[i]] + s[i + 1..];
    s[..i] + s[i + 1..] + [s[i]]
  }

  /** `arr.splice(i, 1)` followed by `arr.unshift(it)`. */
  function MoveToFront<T>(s: seq<T>, i: nat): (r: seq<T>)
    requires i < |s|
    ensures |r| == |s| && r[0] == s[i]
    ensures r[1..] == s[..i] + s[i + 1..]
    ensures multiset(r) == multiset(s)
  {
    assert s == s[..i] + [s[i]] + s[i + 1..];
    [s[i]] + s[..i] + s[i + 1..]
  }

  /** `Array.from({ length: n }, (_, i) => i + 1)` */
  function Range(n: nat): (r: seq<int>)
    ensures |r| == n && forall i :: 0 <= i < n ==> r[i] == i + 1
  {
    seq(n, i => i + 1)
  }
}
