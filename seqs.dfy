/** The query shapes the persistence layer offers the route handlers, stated over
    in-memory tables: `where` (Filter), `orderBy: { createdAt: 'desc' }` (SortDesc),
    `take` (Take) and `count`. */
module Seqs {

  /** The elements of `s` that satisfy `p`, in their original order. */
  function Filter<T(!new)>(s: seq<T>, p: T -> bool): (r: seq<T>)
    ensures |r| <= |s|
    ensures forall x :: x in r <==> x in s && p(x)
    ensures forall i :: 0 <= i < |r| ==> p(r[i])
  {
    if |s| == 0 then []
    else if p(s[0]) then [s[0]] + Filter(s[1..], p)
    else Filter(s[1..], p)
  }

  /** Every row that satisfies the filter is kept as often as it occurs, and no other row
      is kept. */
  lemma {:induction false} FilterCounts<T(!new)>(s: seq<T>, p: T -> bool)
    ensures forall x :: multiset(Filter(s, p))[x] == if p(x) then multiset(s)[x] else 0
  {
    if |s| > 0 {
      FilterCounts(s[1..], p);
      assert s == [s[0]] + s[1..];
    }
  }

  /** Filtering a concatenation filters each part and keeps them in order, so the kept
      elements stay in their original order. */
  lemma {:induction false} FilterConcat<T(!new)>(a: seq<T>, b: seq<T>, p: T -> bool)
    ensures Filter(a + b, p) == Filter(a, p) + Filter(b, p)
  {
    if |a| > 0 {
      assert (a + b)[1..] == a[1..] + b;
      FilterConcat(a[1..], b, p);
    } else {
      assert a + b == b;
    }
  }

  /** `count({ where })`. */
  function CountWhere<T(!new)>(s: seq<T>, p: T -> bool): nat {
    |Filter(s, p)|
  }

  /** A stronger filter never counts more. */
  lemma {:induction false} CountMonotone<T(!new)>(s: seq<T>, p: T -> bool, q: T -> bool)
    requires forall x :: p(x) ==> q(x)
    ensures CountWhere(s, p) <= CountWhere(s, q)
  {
    if |s| > 0 {
      CountMonotone(s[1..], p, q);
    }
  }

  /** Two disjoint filters that both imply a third count together at most as much as it. */
  lemma {:induction false} CountDisjoint<T(!new)>(s: seq<T>, p: T -> bool, q: T -> bool, r: T -> bool)
    requires forall x :: !(p(x) && q(x))
    requires forall x :: p(x) || q(x) ==> r(x)
    ensures CountWhere(s, p) + CountWhere(s, q) <= CountWhere(s, r)
  {
    if |s| > 0 {
      CountDisjoint(s[1..], p, q, r);
    }
  }

  /** The filtered count splits along a predicate. */
  lemma {:induction false} CountSplit<T(!new)>(s: seq<T>, p: T -> bool, q: T -> bool)
    ensures CountWhere(s, p) == CountWhere(s, x => p(x) && q(x)) + CountWhere(s, x => p(x) && !q(x))
  {
    if |s| > 0 {
      CountSplit(s[1..], p, q);
    }
  }

  /** `take: n`. */
  function Take<T>(s: seq<T>, n: nat): (r: seq<T>)
    ensures |r| <= n && |r| <= |s|
    ensures r == s[..|r|]
    ensures |r| == n || r == s
  {
    if |s| <= n then s else s[..n]
  }

  /** `skip: k, take: n`: the window of `s` starting at `k`. */
  function Window<T>(s: seq<T>, k: nat, n: nat): (r: seq<T>)
    ensures |r| == if k >= |s| then 0 else if n <= |s| - k then n else |s| - k
    ensures k <= |s| ==> k + |r| <= |s| && r == s[k..k + |r|]
    ensures k >= |s| ==> r == []
    ensures forall x :: x in r ==> x in s
  {
    if k >= |s| then []
    else
      var r := Take(s[k..], n);
      assert forall i :: 0 <= i < |r| ==> r[i] == s[k + i];
      r
  }

  /** `skip: k, take: -n`: a negative take reads the list from its end, so this is the up
      to `n` elements just before the last `k`, in the list's own order. */
  function WindowFromEnd<T>(s: seq<T>, k: nat, n: nat): (r: seq<T>)
    ensures |r| == if k >= |s| then 0 else if n <= |s| - k then n else |s| - k
    ensures k <= |s| ==> r == s[|s| - k - |r|..|s| - k]
  {
    if k >= |s| then []
    else if n <= |s| - k then s[|s| - k - n..|s| - k]
    else s[..|s| - k]
  }

  function Reverse<T>(s: seq<T>): (r: seq<T>)
    ensures |r| == |s|
    ensures forall i :: 0 <= i < |s| ==> r[i] == s[|s| - 1 - i]
  {
    seq(|s|, i requires 0 <= i < |s| => s[|s| - 1 - i])
  }

  /** Reading from the end is reversing the list, taking the window, and reversing the
      result back. */
  lemma WindowFromEndReversed<T>(s: seq<T>, k: nat, n: nat)
    ensures WindowFromEnd(s, k, n) == Reverse(Window(Reverse(s), k, n))
  {
    var r := WindowFromEnd(s, k, n);
    var w := Window(Reverse(s), k, n);
    var rw := Reverse(w);
    assert |r| == |rw|;
    forall i | 0 <= i < |r| ensures r[i] == rw[i] {
      assert rw[i] == w[|w| - 1 - i] == Reverse(s)[k + |w| - 1 - i];
    }
  }

  /** The first `pages` windows of `n` elements, one after the other. */
  function Windows<T>(s: seq<T>, n: nat, pages: nat): seq<T> {
    if pages == 0 then [] else Windows(s, n, pages - 1) + Window(s, (pages - 1) * n, n)
  }

  /** Paging through a list lists its first `pages * n` elements exactly once, in order. */
  lemma {:induction false} WindowsPrefix<T>(s: seq<T>, n: nat, pages: nat)
    ensures Windows(s, n, pages) == s[..if pages * n <= |s| then pages * n else |s|]
  {
    if pages > 0 {
      WindowsPrefix(s, n, pages - 1);
      var k := (pages - 1) * n;
      assert pages * n == k + n;
      WindowExtends(s, k, n);
    }
  }

  /** The window at `k` continues the prefix of length `k`. */
  lemma WindowExtends<T>(s: seq<T>, k: nat, n: nat)
    ensures var a := if k <= |s| then k else |s|;
            var b := if k + n <= |s| then k + n else |s|;
      s[..a] + Window(s, k, n) == s[..b]
  {
    if k < |s| {
      var b := if k + n <= |s| then k + n else |s|;
      assert Window(s, k, n) == s[k..b];
      assert s[..k] + s[k..b] == s[..b];
    }
  }

  predicate SortedDesc<T>(s: seq<T>, key: T -> int) {
    forall i, j :: 0 <= i < j < |s| ==> key(s[i]) >= key(s[j])
  }

  /** Insert `x` into a list sorted by descending key, after every element whose key is
      at least `x`'s (so among equal keys, earlier insertions stay first). */
  function Insert<T>(x: T, s: seq<T>, key: T -> int): (r: seq<T>)
    requires SortedDesc(s, key)
    ensures |r| == |s| + 1
    ensures key(r[0]) == if |s| == 0 || key(x) > key(s[0]) then key(x) else key(s[0])
    ensures SortedDesc(r, key)
    ensures multiset(r) == multiset(s) + multiset{x}
  {
    if |s| == 0 then [x]
    else if key(s[0]) >= key(x) then
      assert s == [s[0]] + s[1..];
      var rest := Insert(x, s[1..], key);
      SortedCons(s[0], rest, key);
      [s[0]] + rest
    else
      SortedCons(x, s, key);
      [x] + s
  }

  /** An element whose key is at least the head's may go in front of a sorted list. */
  lemma SortedCons<T>(a: T, s: seq<T>, key: T -> int)
    requires SortedDesc(s, key)
    requires |s| > 0 ==> key(a) >= key(s[0])
    ensures SortedDesc([a] + s, key)
  {
    var r := [a] + s;
    forall i, j | 0 <= i < j < |r| ensures key(r[i]) >= key(r[j]) {
      if i == 0 && j > 1 {
        assert key(s[0]) >= key(s[j - 1]);
      }
    }
  }

  /** `orderBy: { key: 'desc' }`: a permutation of `s` sorted by descending key. */
  function SortDesc<T>(s: seq<T>, key: T -> int): (r: seq<T>)
    ensures SortedDesc(r, key)
    ensures multiset(r) == multiset(s)
    ensures |r| == |s|
  {
    if |s| == 0 then []
    else
      assert s == [s[0]] + s[1..];
      Insert(s[0], SortDesc(s[1..], key), key)
  }

  lemma SortedMembers<T>(s: seq<T>, key: T -> int, x: T)
    ensures x in SortDesc(s, key) <==> x in s
  {
    var r := SortDesc(s, key);
    assert x in r <==> x in multiset(r);
    assert x in s <==> x in multiset(s);
  }

  /** Sum of a real-valued measure over a table. */
  function Sum<T>(s: seq<T>, f: T -> real): real {
    if |s| == 0 then 0.0 else f(s[0]) + Sum(s[1..], f)
  }

  /** A sum of non-negative terms is non-negative. */
  lemma {:induction false} SumNonNegative<T>(s: seq<T>, f: T -> real)
    requires forall x :: x in s ==> f(x) >= 0.0
    ensures Sum(s, f) >= 0.0
  {
    if |s| > 0 {
      SumNonNegative(s[1..], f);
    }
  }
}
