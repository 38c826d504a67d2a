/** Sequence operations the source performs through `Array.prototype.filter`
    and the (stable, since ECMAScript 2019) `Array.prototype.sort`. */
module Seqs {

  /** `s.filter(p)`: the elements of `s` that satisfy `p`, in their original order. */
  function Filter<T(!new)>(s: seq<T>, p: T -> bool): (r: seq<T>)
    ensures |r| <= |s|
    ensures forall i :: 0 <= i < |r| ==> p(r[i])
  {
    if |s| == 0 then []
    else
      assert s == [s[0]] + s[1..];
      (if p(s[0]) then [s[0]] else []) + Filter(s[1..], p)
  }

  /** The predicate "differs from `v`", used for `filter((x) => x !== v)`. */
  function Other<T(==)>(v: T): T -> bool {
    x => x != v
  }

  /** Conjunction of two predicates. */
  function Both<T>(p: T -> bool, q: T -> bool): T -> bool {
    x => p(x) && q(x)
  }

  /** The predicate "has sort key `k`". */
  function HasKey<T>(key: T -> int, k: int): T -> bool {
    x => key(x) == k
  }

  /** `a` occurs in `b` as a (not necessarily contiguous) subsequence. Greedy
      matching of `a[0]` against the first equal element of `b` is complete. */
  ghost predicate Subseq<T>(a: seq<T>, b: seq<T>)
    decreases |b|
  {
    |a| == 0 || (|b| > 0 && if a[0] == b[0] then Subseq(a[1..], b[1..]) else Subseq(a, b[1..]))
  }

  /** Non-decreasing by `key`. */
  ghost predicate SortedBy<T>(s: seq<T>, key: T -> int) {
    forall i, j :: 0 <= i < j < |s| ==> key(s[i]) <= key(s[j])
  }

  /** Stability: every group of equal keys keeps the order it has in `s`. */
  ghost predicate SameTies<T(!new)>(r: seq<T>, s: seq<T>, key: T -> int) {
    forall k :: Filter(r, HasKey(key, k)) == Filter(s, HasKey(key, k))
  }

  /** Inserts `x` in front of the first element whose key is not smaller. */
  function Insert<T(!new)>(x: T, s: seq<T>, key: T -> int): (r: seq<T>)
    ensures multiset(r) == multiset(s) + multiset{x}
    ensures |r| == |s| + 1
  {
    if |s| == 0 || key(x) <= key(s[0]) then [x] + s
    else
      assert s == [s[0]] + s[1..];
      [s[0]] + Insert(x, s[1..], key)
  }

  /** `[...s].sort((a, b) => key(a) - key(b))` with a stable sort: insertion sort,
      each element placed in front of the later ones with an equal key. */
  function SortBy<T(!new)>(s: seq<T>, key: T -> int): (r: seq<T>)
    ensures multiset(r) == multiset(s)
    ensures |r| == |s|
    ensures SortedBy(r, key)
    ensures SameTies(r, s, key)
  {
    if |s| == 0 then []
    else
      var t := SortBy(s[1..], key);
      InsertSorted(s[0], t, key);
      assert s == [s[0]] + s[1..];
      forall k ensures Filter(Insert(s[0], t, key), HasKey(key, k)) == Filter(s, HasKey(key, k)) {
        InsertTies(s[0], t, key, k);
        FilterAppend([s[0]], t, HasKey(key, k));
        FilterAppend([s[0]], s[1..], HasKey(key, k));
      }
      Insert(s[0], t, key)
  }

  lemma {:induction false} InsertSorted<T(!new)>(x: T, s: seq<T>, key: T -> int)
    requires SortedBy(s, key)
    ensures SortedBy(Insert(x, s, key), key)
    decreases |s|
  {
    if |s| == 0 || key(x) <= key(s[0]) {
    } else {
      InsertSorted(x, s[1..], key);
      var r := Insert(x, s, key);
      var r' := Insert(x, s[1..], key);
      assert r == [s[0]] + r';
      forall j | 0 < j < |r| ensures key(s[0]) <= key(r[j]) {
        assert r[j] in multiset(r');
        assert r[j] in multiset(s[1..]) + multiset{x};
        if r[j] != x {
          assert r[j] in s[1..];
        }
      }
    }
  }

  /** Inserting `x` puts it first among the elements with its key. */
  lemma {:induction false} InsertTies<T(!new)>(x: T, s: seq<T>, key: T -> int, k: int)
    ensures Filter(Insert(x, s, key), HasKey(key, k)) == Filter([x] + s, HasKey(key, k))
    decreases |s|
  {
    var p := HasKey(key, k);
    if |s| == 0 || key(x) <= key(s[0]) {
    } else {
      var r' := Insert(x, s[1..], key);
      var a, b := Filter([s[0]], p), Filter([x], p);
      assert a == [] || b == [] by {
        FilterSingle(s[0], p);
        FilterSingle(x, p);
      }
      calc {
        Filter(Insert(x, s, key), p);
        { assert Insert(x, s, key) == [s[0]] + r'; }
        Filter([s[0]] + r', p);
        { FilterAppend([s[0]], r', p); }
        a + Filter(r', p);
        { InsertTies(x, s[1..], key, k); }
        a + Filter([x] + s[1..], p);
        { FilterAppend([x], s[1..], p); }
        a + (b + Filter(s[1..], p));
        b + (a + Filter(s[1..], p));
        { FilterAppend([s[0]], s[1..], p); assert s == [s[0]] + s[1..]; }
        b + Filter(s, p);
        { FilterAppend([x], s, p); }
        Filter([x] + s, p);
      }
    }
  }

  lemma FilterSingle<T(!new)>(x: T, p: T -> bool)
    ensures Filter([x], p) == if p(x) then [x] else []
  {
    assert [x][1..] == [];
  }

  /** Exactly the elements of `s` that satisfy `p` survive the filter. */
  lemma {:induction false} FilterMembers<T(!new)>(s: seq<T>, p: T -> bool)
    ensures forall x :: x in Filter(s, p) <==> x in s && p(x)
    decreases |s|
  {
    if |s| > 0 {
      FilterMembers(s[1..], p);
      assert s == [s[0]] + s[1..];
    }
  }

  /** Each element that satisfies `p` survives as often as it occurs in `s`;
      the others are gone. */
  lemma {:induction false} FilterCount<T(!new)>(s: seq<T>, p: T -> bool)
    ensures forall x :: multiset(Filter(s, p))[x] == if p(x) then multiset(s)[x] else 0
    decreases |s|
  {
    if |s| > 0 {
      FilterCount(s[1..], p);
      assert s == [s[0]] + s[1..];
      assert multiset(s) == multiset{s[0]} + multiset(s[1..]);
    }
  }

  lemma {:induction false} FilterAppend<T(!new)>(a: seq<T>, b: seq<T>, p: T -> bool)
    ensures Filter(a + b, p) == Filter(a, p) + Filter(b, p)
    decreases |a|
  {
    if |a| == 0 {
      assert a + b == b;
    } else {
      assert (a + b)[0] == a[0];
      assert (a + b)[1..] == a[1..] + b;
      FilterAppend(a[1..], b, p);
    }
  }

  /** A filter that every element passes is the identity. */
  lemma {:induction false} FilterAll<T(!new)>(s: seq<T>, p: T -> bool)
    requires forall i :: 0 <= i < |s| ==> p(s[i])
    ensures Filter(s, p) == s
    decreases |s|
  {
    if |s| > 0 {
      FilterAll(s[1..], p);
      assert s == [s[0]] + s[1..];
    }
  }

  /** The positions below `n` whose element passes `p`. */
  ghost function Positions<T>(s: seq<T>, p: T -> bool, n: nat): set<int>
    requires n <= |s|
  {
    set i | 0 <= i < n && p(s[i])
  }

  /** The length of a filtered prefix is the number of positions in it
      whose element passes. */
  lemma {:induction false} FilterLength<T(!new)>(s: seq<T>, p: T -> bool, n: nat)
    requires n <= |s|
    ensures |Filter(s[..n], p)| == |Positions(s, p, n)|
    decreases n
  {
    if n == 0 {
      assert s[..0] == [];
      assert Positions(s, p, 0) == {};
    } else {
      FilterLength(s, p, n - 1);
      FilterPrefixStep(s, p, n);
      PositionsStep(s, p, n);
    }
  }

  /** Extending the prefix by one element extends its filter by that element when it passes. */
  lemma FilterPrefixStep<T(!new)>(s: seq<T>, p: T -> bool, n: nat)
    requires 0 < n <= |s|
    ensures |Filter(s[..n], p)| == |Filter(s[..n - 1], p)| + (if p(s[n - 1]) then 1 else 0)
  {
    assert s[..n] == s[..n - 1] + [s[n - 1]];
    FilterAppend(s[..n - 1], [s[n - 1]], p);
    FilterSingle(s[n - 1], p);
  }

  /** Extending the prefix by one position adds that position when its element passes. */
  lemma PositionsStep<T>(s: seq<T>, p: T -> bool, n: nat)
    requires 0 < n <= |s|
    ensures |Positions(s, p, n)| == |Positions(s, p, n - 1)| + (if p(s[n - 1]) then 1 else 0)
  {
    if p(s[n - 1]) {
      assert Positions(s, p, n) == Positions(s, p, n - 1) + {n - 1};
    } else {
      assert Positions(s, p, n) == Positions(s, p, n - 1);
    }
  }

  /** The filter keeps everything exactly when everything passes it. */
  lemma {:induction false} FilterKeepsAll<T(!new)>(s: seq<T>, p: T -> bool)
    ensures |Filter(s, p)| == |s| <==> forall i :: 0 <= i < |s| ==> p(s[i])
    decreases |s|
  {
    if |s| > 0 {
      FilterKeepsAll(s[1..], p);
      assert |Filter(s[1..], p)| <= |s[1..]|;
      if |Filter(s, p)| == |s| {
        forall i | 0 <= i < |s| ensures p(s[i]) {
          if i > 0 { assert s[i] == s[1..][i - 1]; }
        }
      }
      if forall i :: 0 <= i < |s| ==> p(s[i]) {
        assert forall i :: 0 <= i < |s[1..]| ==> p(s[1..][i]) by {
          forall i | 0 <= i < |s[1..]| ensures p(s[1..][i]) { assert s[1..][i] == s[i + 1]; }
        }
      }
    }
  }

  /** A filter that no element passes yields nothing. */
  lemma {:induction false} FilterNone<T(!new)>(s: seq<T>, p: T -> bool)
    requires forall i :: 0 <= i < |s| ==> !p(s[i])
    ensures Filter(s, p) == []
    decreases |s|
  {
    if |s| > 0 {
      FilterNone(s[1..], p);
    }
  }

  /** Filtering twice is filtering once by the conjunction. */
  lemma {:induction false} FilterFilter<T(!new)>(s: seq<T>, p: T -> bool, q: T -> bool)
    ensures Filter(Filter(s, p), q) == Filter(s, Both(p, q))
    decreases |s|
  {
    if |s| > 0 {
      FilterFilter(s[1..], p, q);
      if p(s[0]) {
        assert Filter(s, p) == [s[0]] + Filter(s[1..], p);
        FilterAppend([s[0]], Filter(s[1..], p), q);
        FilterSingle(s[0], q);
      } else {
        assert Filter(s, p) == Filter(s[1..], p);
      }
    }
  }

  /** Predicates that agree on every element of `s` filter it alike. */
  lemma {:induction false} FilterExt<T(!new)>(s: seq<T>, p: T -> bool, q: T -> bool)
    requires forall i :: 0 <= i < |s| ==> p(s[i]) == q(s[i])
    ensures Filter(s, p) == Filter(s, q)
    decreases |s|
  {
    if |s| > 0 {
      FilterExt(s[1..], p, q);
    }
  }

  /** The head of a filter is the first element of `s` that passes it. */
  lemma {:induction false} FilterFirst<T(!new)>(s: seq<T>, p: T -> bool) returns (i: nat)
    requires Filter(s, p) != []
    ensures i < |s| && s[i] == Filter(s, p)[0] && p(s[i])
    ensures forall j :: 0 <= j < i ==> !p(s[j])
    decreases |s|
  {
    if p(s[0]) {
      i := 0;
    } else {
      var i' := FilterFirst(s[1..], p);
      i := i' + 1;
    }
  }

  /** When `h` and `s` agree on what passes their filters and the head of `h`
      passes, that head is the first element of `s` that passes. */
  lemma {:induction false} FirstOfGroup<T(!new)>(h: seq<T>, s: seq<T>, p: T -> bool, q: T -> bool) returns (i: nat)
    requires |h| > 0 && p(h[0]) && Filter(h, p) == Filter(s, q)
    ensures i < |s| && s[i] == h[0]
    ensures forall j :: 0 <= j < i ==> !q(s[j])
  {
    assert Filter(h, p)[0] == h[0];
    i := FilterFirst(s, q);
  }

  /** A filter keeps the order of the elements it keeps. */
  lemma {:induction false} FilterSubseq<T(!new)>(s: seq<T>, p: T -> bool)
    ensures Subseq(Filter(s, p), s)
    decreases |s|
  {
    if |s| > 0 {
      FilterSubseq(s[1..], p);
      var r := Filter(s, p);
      if p(s[0]) {
        assert r == [s[0]] + Filter(s[1..], p);
        assert r[1..] == Filter(s[1..], p);
      } else if |r| > 0 {
        assert r == Filter(s[1..], p);
        assert r[0] != s[0];
      }
    }
  }

  /** No element occurs twice. */
  predicate Distinct<T(==)>(s: seq<T>) {
    forall i, j :: 0 <= i < j < |s| ==> s[i] != s[j]
  }

  /** A filter of a sequence without repeats has no repeats. */
  lemma {:induction false} FilterDistinct<T(!new)>(s: seq<T>, p: T -> bool)
    ensures Distinct(s) ==> Distinct(Filter(s, p))
    decreases |s|
  {
    if |s| > 0 && Distinct(s) {
      FilterDistinct(s[1..], p);
      FilterMembers(s[1..], p);
      var t := Filter(s[1..], p);
      if p(s[0]) {
        assert s[0] !in s[1..];
        assert s[0] !in t;
        assert Filter(s, p) == [s[0]] + t;
      }
    }
  }

  /** A filter of a sorted sequence is sorted. */
  lemma {:induction false} FilterSorted<T(!new)>(s: seq<T>, p: T -> bool, key: T -> int)
    requires SortedBy(s, key)
    ensures SortedBy(Filter(s, p), key)
    decreases |s|
  {
    if |s| > 0 {
      FilterSorted(s[1..], p, key);
      var t := Filter(s[1..], p);
      FilterMembers(s[1..], p);
      if p(s[0]) {
        forall j | 0 <= j < |t| ensures key(s[0]) <= key(t[j]) {
          assert t[j] in s[1..];
        }
      }
    }
  }

  /** Sorting what is already sorted changes nothing. */
  lemma {:induction false} SortSorted<T(!new)>(s: seq<T>, key: T -> int)
    requires SortedBy(s, key)
    ensures SortBy(s, key) == s
    decreases |s|
  {
    if |s| > 0 {
      SortSorted(s[1..], key);
      assert s == [s[0]] + s[1..];
    }
  }
}
