/**
 * A MongoDB collection read as a sequence of documents: `find` is `Filter`,
 * `sort` on descending keys is `SortDesc`, and `limit` is `Limit`. The same
 * `Filter` is JavaScript's `Array.prototype.filter`.
 */
module Seqs {

  /** `s.filter(p)`: the elements of `s` that satisfy `p`, in their order. */
  function Filter<T(!new)>(s: seq<T>, p: T -> bool): (r: seq<T>)
    ensures |r| <= |s|
    ensures forall x :: x in r <==> x in s && p(x)
    ensures (forall x :: x in s ==> !p(x)) ==> r == []
  {
    if s == [] then []
    else if p(s[0]) then [s[0]] + Filter(s[1..], p)
    else Filter(s[1..], p)
  }

  /** Filtering a sequence with one element appended. */
  lemma {:induction false} FilterSnoc<T(!new)>(s: seq<T>, x: T, p: T -> bool)
    ensures Filter(s + [x], p) == Filter(s, p) + (if p(x) then [x] else [])
  {
    if s == [] {
      assert Filter([x], p) == (if p(x) then [x] else []) + Filter([], p);
    } else {
      assert (s + [x])[1..] == s[1..] + [x];
      FilterSnoc(s[1..], x, p);
    }
  }

  /** `a` is `b` with some elements deleted and the rest left in order. */
  predicate IsSubsequence<T(==)>(a: seq<T>, b: seq<T>)
    decreases |b|
  {
    if a == [] then true
    else if b == [] then false
    else if a[0] == b[0] then IsSubsequence(a[1..], b[1..])
    else IsSubsequence(a, b[1..])
  }

  lemma {:induction false} FilterIsSubsequence<T(!new)>(s: seq<T>, p: T -> bool)
    ensures IsSubsequence(Filter(s, p), s)
  {
    if s != [] {
      FilterIsSubsequence(s[1..], p);
      if !p(s[0]) {
        var r := Filter(s, p);
        assert r != [] ==> r[0] in r;
      }
    }
  }

  /** Every sequence is a subsequence of itself. */
  lemma {:induction false} SubsequenceRefl<T>(s: seq<T>)
    ensures IsSubsequence(s, s)
  {
    if s != [] {
      SubsequenceRefl(s[1..]);
    }
  }

  /** Dropping the first element of a subsequence keeps it a subsequence. */
  lemma {:induction false} SubsequenceTail<T>(a: seq<T>, b: seq<T>)
    requires a != [] && IsSubsequence(a, b)
    ensures IsSubsequence(a[1..], b)
    decreases |b|, 1
  {
    assert b == [b[0]] + b[1..];
    if a[0] == b[0] {
      SubsequenceGrow(a[1..], b[1..], b[0]);
    } else {
      SubsequenceTail(a, b[1..]);
      SubsequenceGrow(a[1..], b[1..], b[0]);
    }
  }

  /** A subsequence of `b` is one of `[x] + b` too. */
  lemma {:induction false} SubsequenceGrow<T>(a: seq<T>, b: seq<T>, x: T)
    requires IsSubsequence(a, b)
    ensures IsSubsequence(a, [x] + b)
    decreases |b| + 1, 0
  {
    assert ([x] + b)[1..] == b;
    if a != [] && a[0] == x {
      SubsequenceTail(a, b);
    }
  }

  lemma {:induction false} SubsequenceTrans<T>(a: seq<T>, b: seq<T>, c: seq<T>)
    requires IsSubsequence(a, b) && IsSubsequence(b, c)
    ensures IsSubsequence(a, c)
    decreases |c|
  {
    if a != [] {
      if b[0] == c[0] {
        if a[0] == b[0] {
          SubsequenceTrans(a[1..], b[1..], c[1..]);
        } else {
          SubsequenceTrans(a, b[1..], c[1..]);
          assert c == [c[0]] + c[1..];
          SubsequenceGrow(a, c[1..], c[0]);
        }
      } else {
        SubsequenceTrans(a, b, c[1..]);
        assert c == [c[0]] + c[1..];
        SubsequenceGrow(a, c[1..], c[0]);
      }
    }
  }

  /** `cursor.limit(n)`: the first `n` elements; MongoDB reads a limit of 0 as no limit. */
  function Limit<T>(s: seq<T>, n: nat): (r: seq<T>)
    ensures n == 0 ==> r == s
    ensures n > 0 ==> |r| == if |s| < n then |s| else n
    ensures r == s[..|r|]
  {
    if n == 0 || |s| <= n then s else s[..n]
  }

  /** A sort key compared lexicographically: first `major`, then `minor`. */
  datatype SortKey = SortKey(major: int, minor: int)

  predicate KeyLe(a: SortKey, b: SortKey) {
    a.major < b.major || (a.major == b.major && a.minor <= b.minor)
  }

  /** Every element's key is at least that of every later element. */
  predicate SortedDesc<T>(s: seq<T>, key: T -> SortKey) {
    forall i, j :: 0 <= i < j < |s| ==> KeyLe(key(s[j]), key(s[i]))
  }

  /** An element whose key is at least every key of a sorted `s` can go in front of it. */
  lemma SortedCons<T>(h: T, s: seq<T>, key: T -> SortKey)
    requires SortedDesc(s, key)
    requires forall k :: 0 <= k < |s| ==> KeyLe(key(s[k]), key(h))
    ensures SortedDesc([h] + s, key)
  {
    var r := [h] + s;
    forall i, j | 0 <= i < j < |r| ensures KeyLe(key(r[j]), key(r[i])) {
      if i == 0 {
        assert r[j] == s[j - 1];
      } else {
        assert r[i] == s[i - 1] && r[j] == s[j - 1];
      }
    }
  }

  /** The head of a sorted sequence has the largest key. */
  lemma BelowHead<T>(s: seq<T>, key: T -> SortKey, y: T)
    requires SortedDesc(s, key) && y in s
    ensures KeyLe(key(y), key(s[0]))
  {
    var k :| 0 <= k < |s| && s[k] == y;
    if k > 0 {
      assert KeyLe(key(s[k]), key(s[0]));
    }
  }

  /** `x` placed into the sorted `s` after every element whose key is at least its own. */
  function InsertDesc<T>(x: T, s: seq<T>, key: T -> SortKey): (r: seq<T>)
    requires SortedDesc(s, key)
    ensures SortedDesc(r, key)
    ensures multiset(r) == multiset(s) + multiset{x}
    ensures forall y :: y in r ==> y == x || y in s
  {
    if s == [] then [x]
    else if KeyLe(key(x), key(s[0])) then
      var rest := InsertDesc(x, s[1..], key);
      assert s == [s[0]] + s[1..];
      assert forall k :: 0 <= k < |rest| ==> KeyLe(key(rest[k]), key(s[0])) by {
        forall k | 0 <= k < |rest| ensures KeyLe(key(rest[k]), key(s[0])) {
          if rest[k] != x {
            assert rest[k] in s;
            BelowHead(s, key, rest[k]);
          }
        }
      }
      SortedCons(s[0], rest, key);
      [s[0]] + rest
    else
      assert forall k :: 0 <= k < |s| ==> KeyLe(key(s[k]), key(x)) by {
        forall k | 0 <= k < |s| ensures KeyLe(key(s[k]), key(x)) {
          if k > 0 {
            assert KeyLe(key(s[k]), key(s[0]));
          }
        }
      }
      SortedCons(x, s, key);
      [x] + s
  }

  /** `cursor.sort({k: -1})`: a permutation of `s` in descending key order. */
  function SortDesc<T>(s: seq<T>, key: T -> SortKey): (r: seq<T>)
    ensures SortedDesc(r, key)
    ensures multiset(r) == multiset(s)
  {
    if s == [] then []
    else
      assert s == [s[0]] + s[1..];
      InsertDesc(s[0], SortDesc(s[1..], key), key)
  }

  /**
   * `cursor.sort({k: -1}).limit(n)`: the first `n` elements of `s` in
   * descending key order (all of them when `n` is 0).
   */
  function TopN<T>(s: seq<T>, key: T -> SortKey, n: nat): (r: seq<T>)
    ensures SortedDesc(r, key)
    ensures multiset(r) <= multiset(s)
    ensures forall x :: x in r ==> x in s
    ensures |r| == if n == 0 || |s| < n then |s| else n
  {
    var sorted := SortDesc(s, key);
    var r := Limit(sorted, n);
    assert sorted == r + sorted[|r|..];
    assert forall x :: x in r ==> x in s by {
      forall x | x in r ensures x in s {
        assert x in multiset(r);
        assert x in multiset(s);
      }
    }
    r
  }

  /**
   * The limit keeps the top elements: an element of `s` that was cut off
   * means the limit was reached, and its key is no greater than that of any
   * element kept.
   */
  lemma TopNKeepsBest<T>(s: seq<T>, key: T -> SortKey, n: nat, x: T)
    requires x in s && x !in TopN(s, key, n)
    ensures n > 0 && |TopN(s, key, n)| == n
    ensures forall y :: y in TopN(s, key, n) ==> KeyLe(key(x), key(y))
  {
    var sorted := SortDesc(s, key);
    assert x in multiset(s);
    assert x in sorted;
    var j :| 0 <= j < |sorted| && sorted[j] == x;
    var kept := Limit(sorted, n);
    assert kept == TopN(s, key, n);
    assert j >= |kept|;
    forall y | y in kept ensures KeyLe(key(x), key(y)) {
      var i :| 0 <= i < |kept| && kept[i] == y;
      assert sorted[i] == y;
    }
  }

  /** When the limit is not reached nothing is cut: every element of `s` is kept. */
  lemma TopNKeepsAllWhenFew<T>(s: seq<T>, key: T -> SortKey, n: nat, x: T)
    requires x in s && (n == 0 || |s| <= n)
    ensures x in TopN(s, key, n)
  {
    var sorted := SortDesc(s, key);
    assert |sorted| == |multiset(sorted)| == |multiset(s)| == |s|;
    assert x in multiset(s);
    assert x in sorted;
    assert TopN(s, key, n) == Limit(sorted, n) == sorted;
  }

  /** `s.map(f)` */
  function Map<T, U>(s: seq<T>, f: T -> U): (r: seq<U>)
    ensures |r| == |s|
    ensures forall i :: 0 <= i < |s| ==> r[i] == f(s[i])
  {
    if s == [] then [] else [f(s[0])] + Map(s[1..], f)
  }

  lemma MapHas<T, U>(s: seq<T>, f: T -> U, x: T)
    requires x in s
    ensures f(x) in Map(s, f)
  {
    var k :| 0 <= k < |s| && s[k] == x;
    assert Map(s, f)[k] == f(x);
  }

  lemma {:induction false} MapConcat<T, U>(x: seq<T>, y: seq<T>, f: T -> U)
    ensures Map(x + y, f) == Map(x, f) + Map(y, f)
  {
    if x == [] {
      assert x + y == y;
    } else {
      assert (x + y)[1..] == x[1..] + y;
      MapConcat(x[1..], y, f);
    }
  }

  /** Mapping a sequence split around position `k`. */
  lemma MapAround<T, U>(b: seq<T>, f: T -> U, k: nat)
    requires k < |b|
    ensures Map(b, f) == Map(b[..k], f) + [f(b[k])] + Map(b[k + 1..], f)
  {
    var left, right := b[..k], b[k + 1..];
    assert b == (left + [b[k]]) + right;
    MapConcat(left + [b[k]], right, f);
    MapConcat(left, [b[k]], f);
    assert Map([b[k]], f) == [f(b[k])];
  }

  /** Dropping the element at `k` drops its image from the mapped sequence. */
  lemma MapRemove<T, U>(b: seq<T>, f: T -> U, k: nat)
    requires k < |b|
    ensures multiset(Map(b, f)) == multiset(Map(b[..k] + b[k + 1..], f)) + multiset{f(b[k])}
  {
    MapAround(b, f, k);
    MapConcat(b[..k], b[k + 1..], f);
  }

  /** Mapping keeps one sequence's elements a sub-multiset of another's. */
  lemma {:induction false} MapSubMultiset<T, U>(a: seq<T>, b: seq<T>, f: T -> U)
    requires multiset(a) <= multiset(b)
    ensures multiset(Map(a, f)) <= multiset(Map(b, f))
    decreases |a|
  {
    if a != [] {
      var x := a[0];
      assert x in multiset(a);
      var k :| 0 <= k < |b| && b[k] == x;
      var rest := b[..k] + b[k + 1..];
      assert b == b[..k] + [x] + b[k + 1..];
      assert multiset(rest) == multiset(b) - multiset{x};
      assert a == [x] + a[1..];
      MapSubMultiset(a[1..], rest, f);
      MapRemove(b, f, k);
      assert Map(a, f) == [f(x)] + Map(a[1..], f);
    }
  }
}
