/**
 * The array operations the components use on fetched rows: `filter`,
 * `filter(...).length`, and the built-in `sort` with a numeric comparator,
 * which is stable (ECMAScript 2019 on). Sorting is modelled as a stable
 * insertion sort on an integer key; a comparator `(a, b) => key(a) - key(b)`
 * sorts ascending by `key`, and `(a, b) => key(b) - key(a)` ascending by `-key`.
 */
module Seqs {

  // ---------------------------------------------------------------------------
  // filter and count

  /** `s.filter(p)` */
  function Filter<T>(s: seq<T>, p: T -> bool): (r: seq<T>)
    ensures |r| <= |s|
    ensures forall i :: 0 <= i < |r| ==> r[i] in s && p(r[i])
    ensures forall i :: 0 <= i < |s| && p(s[i]) ==> s[i] in r
  {
    if s == [] then [] else (if p(s[0]) then [s[0]] else []) + Filter(s[1..], p)
  }

  /** `s.filter(p).length` */
  function Count<T>(s: seq<T>, p: T -> bool): (n: nat)
    ensures n <= |s|
  {
    if s == [] then 0 else (if p(s[0]) then 1 else 0) + Count(s[1..], p)
  }

  lemma {:induction false} CountIsFilterLength<T>(s: seq<T>, p: T -> bool)
    ensures Count(s, p) == |Filter(s, p)|
  {
    if s != [] {
      CountIsFilterLength(s[1..], p);
    }
  }

  /** Filtering a sequence extended by one element (the shape of a `forEach` loop step). */
  lemma {:induction false} FilterAppend<T>(s: seq<T>, x: T, p: T -> bool)
    ensures Filter(s + [x], p) == Filter(s, p) + (if p(x) then [x] else [])
  {
    if s == [] {
      assert s + [x] == [x];
    } else {
      assert (s + [x])[1..] == s[1..] + [x];
      FilterAppend(s[1..], x, p);
    }
  }

  lemma {:induction false} CountAppend<T>(s: seq<T>, x: T, p: T -> bool)
    ensures Count(s + [x], p) == Count(s, p) + (if p(x) then 1 else 0)
  {
    if s == [] {
      assert s + [x] == [x];
    } else {
      assert (s + [x])[1..] == s[1..] + [x];
      CountAppend(s[1..], x, p);
    }
  }

  /** Filtering a second time with the same predicate changes nothing. */
  lemma {:induction false} FilterIdempotent<T>(s: seq<T>, p: T -> bool)
    ensures Filter(Filter(s, p), p) == Filter(s, p)
  {
    if s != [] {
      var f := Filter(s[1..], p);
      FilterIdempotent(s[1..], p);
      if p(s[0]) {
        assert Filter(s, p) == [s[0]] + f;
        assert ([s[0]] + f)[1..] == f;
      } else {
        assert Filter(s, p) == f;
      }
    }
  }

  /** Predicates that agree on the elements filter alike. */
  lemma {:induction false} FilterCongruent<T>(s: seq<T>, p: T -> bool, q: T -> bool)
    requires forall x :: x in s ==> p(x) == q(x)
    ensures Filter(s, p) == Filter(s, q)
  {
    if s != [] {
      FilterCongruent(s[1..], p, q);
    }
  }

  /** A predicate that holds everywhere keeps every element. */
  lemma {:induction false} FilterAll<T>(s: seq<T>, p: T -> bool)
    requires forall x :: x in s ==> p(x)
    ensures Filter(s, p) == s
  {
    if s != [] {
      FilterAll(s[1..], p);
    }
  }

  /** Elements of two kinds that exclude each other are together at most the whole. */
  lemma {:induction false} CountDisjoint<T>(s: seq<T>, p: T -> bool, q: T -> bool)
    requires forall x :: x in s ==> !(p(x) && q(x))
    ensures Count(s, p) + Count(s, q) <= |s|
  {
    if s != [] {
      CountDisjoint(s[1..], p, q);
    }
  }

  /** Every element is of a kind or not: the two counts add up to the length. */
  lemma {:induction false} CountComplement<T>(s: seq<T>, p: T -> bool, q: T -> bool)
    requires forall x :: x in s ==> (q(x) <==> !p(x))
    ensures Count(s, p) + Count(s, q) == |s|
  {
    if s != [] {
      CountComplement(s[1..], p, q);
    }
  }

  /** Counting with either of two exclusive predicates adds up the two counts. */
  lemma {:induction false} CountOr<T>(s: seq<T>, p: T -> bool, q: T -> bool)
    requires forall x :: x in s ==> !(p(x) && q(x))
    ensures Count(s, x => p(x) || q(x)) == Count(s, p) + Count(s, q)
  {
    if s != [] {
      CountOr(s[1..], p, q);
    }
  }

  /** Three predicates that together hold once exactly where `q` holds count, together, what `q` counts. */
  lemma {:induction false} CountSum3<T>(s: seq<T>, p1: T -> bool, p2: T -> bool, p3: T -> bool, q: T -> bool)
    requires forall x :: x in s ==>
      (if p1(x) then 1 else 0) + (if p2(x) then 1 else 0) + (if p3(x) then 1 else 0) == (if q(x) then 1 else 0)
    ensures Count(s, p1) + Count(s, p2) + Count(s, p3) == Count(s, q)
  {
    if s != [] {
      CountSum3(s[1..], p1, p2, p3, q);
    }
  }

  /** Predicates that agree on the elements count the same. */
  lemma {:induction false} CountCongruent<T>(s: seq<T>, p: T -> bool, q: T -> bool)
    requires forall x :: x in s ==> (p(x) <==> q(x))
    ensures Count(s, p) == Count(s, q)
  {
    if s != [] {
      CountCongruent(s[1..], p, q);
    }
  }

  /** The count is the whole length exactly when every element satisfies the predicate. */
  lemma {:induction false} CountAll<T>(s: seq<T>, p: T -> bool)
    ensures Count(s, p) == |s| <==> forall i :: 0 <= i < |s| ==> p(s[i])
  {
    if s != [] {
      CountAll(s[1..], p);
      if forall i :: 0 <= i < |s[1..]| ==> p(s[1..][i]) {
        if p(s[0]) {
          forall i | 0 <= i < |s| ensures p(s[i]) {
            if i > 0 {
              assert s[i] == s[1..][i - 1];
            }
          }
        }
      }
      if forall i :: 0 <= i < |s| ==> p(s[i]) {
        forall i | 0 <= i < |s[1..]| ensures p(s[1..][i]) {
          assert s[1..][i] == s[i + 1];
        }
      }
    }
  }

  /** An element at two positions occurs at least twice. */
  lemma TwiceInSeq<T>(s: seq<T>, i: nat, j: nat)
    requires i < j < |s|
    ensures s[i] == s[j] ==> multiset(s)[s[i]] >= 2
  {
    assert s == s[..j] + [s[j]] + s[j + 1..];
    assert s[..j][i] == s[i];
  }

  /** The count is positive exactly when some element satisfies the predicate. */
  lemma {:induction false} CountPositive<T>(s: seq<T>, p: T -> bool)
    ensures Count(s, p) > 0 <==> exists i :: 0 <= i < |s| && p(s[i])
  {
    if s != [] {
      CountPositive(s[1..], p);
      if i :| 0 <= i < |s[1..]| && p(s[1..][i]) {
        assert p(s[i + 1]);
      }
      if i :| 0 <= i < |s| && p(s[i]) && i > 0 {
        assert p(s[1..][i - 1]);
      }
    }
  }

  /** Counting over a concatenation adds the counts of the parts. */
  lemma {:induction false} CountConcat<T>(s: seq<T>, t: seq<T>, p: T -> bool)
    ensures Count(s + t, p) == Count(s, p) + Count(t, p)
  {
    if s == [] {
      assert s + t == t;
    } else {
      assert (s + t)[0] == s[0] && (s + t)[1..] == s[1..] + t;
      CountConcat(s[1..], t, p);
    }
  }

  /** Reordering a sequence does not change how many of its elements satisfy a predicate. */
  lemma {:induction false} CountPermutation<T>(a: seq<T>, b: seq<T>, p: T -> bool)
    requires multiset(a) == multiset(b)
    ensures Count(a, p) == Count(b, p)
    decreases |a|
  {
    if a != [] {
      var x := a[0];
      assert x in multiset(b);
      var i :| 0 <= i < |b| && b[i] == x;
      var rest := b[..i] + b[i + 1..];
      assert b == b[..i] + [x] + b[i + 1..];
      assert a == [x] + a[1..];
      assert multiset(b) == multiset(b[..i]) + multiset{x} + multiset(b[i + 1..]);
      assert multiset(a) == multiset{x} + multiset(a[1..]);
      assert multiset(rest) == multiset(b[..i]) + multiset(b[i + 1..]);
      forall y ensures multiset(rest)[y] == multiset(a[1..])[y] {
        assert multiset(a)[y] == multiset(b)[y];
      }
      assert multiset(rest) == multiset(a[1..]);
      CountPermutation(a[1..], rest, p);
      CountConcat(b[..i], b[i + 1..], p);
      CountConcat(b[..i] + [x], b[i + 1..], p);
      CountAppend(b[..i], x, p);
    }
  }

  /** `s.map(f)` */
  function Map<T, U>(s: seq<T>, f: T -> U): (r: seq<U>)
    ensures |r| == |s|
    ensures forall i :: 0 <= i < |s| ==> r[i] == f(s[i])
  {
    seq(|s|, i requires 0 <= i < |s| => f(s[i]))
  }

  lemma MapAppend<T, U>(s: seq<T>, t: seq<T>, f: T -> U)
    ensures Map(s + t, f) == Map(s, f) + Map(t, f)
  {
  }

  /** Counting over a mapped sequence is counting the originals with the composed predicate. */
  lemma {:induction false} CountMap<T, U>(s: seq<T>, f: T -> U, p: U -> bool)
    ensures Count(Map(s, f), p) == Count(s, x => p(f(x)))
  {
    if s != [] {
      assert Map(s, f)[1..] == Map(s[1..], f);
      CountMap(s[1..], f, p);
    }
  }

  /** `s.slice(0, n)` */
  function Take<T>(s: seq<T>, n: nat): (r: seq<T>)
    ensures |r| == if n < |s| then n else |s|
    ensures r == s[..|r|]
  {
    if n < |s| then s[..n] else s
  }

  // ---------------------------------------------------------------------------
  // Order-preserving subsequences

  /** `idx` picks the elements of `a` out of `b`, in increasing positions. */
  ghost predicate IsEmbedding<T>(idx: seq<nat>, a: seq<T>, b: seq<T>) {
    && |idx| == |a|
    && (forall k :: 0 <= k < |idx| ==> idx[k] < |b| && a[k] == b[idx[k]])
    && (forall k, l :: 0 <= k < l < |idx| ==> idx[k] < idx[l])
  }

  /** `a` is `b` with some elements left out and the rest in their original order. */
  ghost predicate IsSubsequence<T>(a: seq<T>, b: seq<T>) {
    exists idx :: IsEmbedding(idx, a, b)
  }

  /** `s.filter(p)` keeps the elements it keeps in their original order. */
  lemma {:induction false} FilterIsSubsequence<T>(s: seq<T>, p: T -> bool)
    ensures IsSubsequence(Filter(s, p), s)
  {
    var idx := FilterEmbedding(s, p);
  }

  lemma {:induction false} FilterEmbedding<T>(s: seq<T>, p: T -> bool) returns (idx: seq<nat>)
    ensures IsEmbedding(idx, Filter(s, p), s)
  {
    if s == [] {
      idx := [];
    } else {
      var f := Filter(s[1..], p);
      var rest := FilterEmbedding(s[1..], p);
      var shifted := ShiftEmbedding(rest, f, s);
      if p(s[0]) {
        assert Filter(s, p) == [s[0]] + f;
        idx := PrependEmbedding(shifted, f, s);
      } else {
        idx := shifted;
        assert Filter(s, p) == f;
      }
    }
  }

  /** Two elements of a filtered tail come from positions of `s` in the same order. */
  lemma TailPairBefore<T>(a: seq<T>, s: seq<T>, p: T -> bool, i: nat, j: nat) returns (x: nat, y: nat)
    requires |a| <= i < j < |a| + |Filter(s, p)|
    ensures x < y < |s| && s[x] == (a + Filter(s, p))[i] && s[y] == (a + Filter(s, p))[j]
  {
    var f := Filter(s, p);
    var idx := FilterEmbedding(s, p);
    x, y := idx[i - |a|], idx[j - |a|];
    assert (a + f)[i] == f[i - |a|] && (a + f)[j] == f[j - |a|];
  }

  /** An embedding into the tail of `s`, moved one place right, is an embedding into `s` that avoids 0. */
  lemma ShiftEmbedding<T>(rest: seq<nat>, f: seq<T>, s: seq<T>) returns (shifted: seq<nat>)
    requires s != [] && IsEmbedding(rest, f, s[1..])
    ensures IsEmbedding(shifted, f, s)
    ensures forall k :: 0 <= k < |shifted| ==> shifted[k] >= 1
  {
    shifted := seq(|rest|, k requires 0 <= k < |rest| => rest[k] + 1);
    forall k | 0 <= k < |shifted| ensures shifted[k] < |s| && f[k] == s[shifted[k]] {
      assert f[k] == s[1..][rest[k]];
    }
    forall k, l | 0 <= k < l < |shifted| ensures shifted[k] < shifted[l] {
      assert rest[k] < rest[l];
    }
  }

  /** An embedding that avoids position 0 extends to one of `[s[0]] + f`. */
  lemma PrependEmbedding<T>(shifted: seq<nat>, f: seq<T>, s: seq<T>) returns (idx: seq<nat>)
    requires s != [] && IsEmbedding(shifted, f, s)
    requires forall k :: 0 <= k < |shifted| ==> shifted[k] >= 1
    ensures IsEmbedding(idx, [s[0]] + f, s)
  {
    idx := [0] + shifted;
    var r := [s[0]] + f;
    forall k | 0 <= k < |idx| ensures idx[k] < |s| && r[k] == s[idx[k]] {
      if k > 0 {
        assert idx[k] == shifted[k - 1] && r[k] == f[k - 1];
      }
    }
    forall k, l | 0 <= k < l < |idx| ensures idx[k] < idx[l] {
      assert idx[l] == shifted[l - 1];
      if k > 0 {
        assert idx[k] == shifted[k - 1];
      }
    }
  }

  // ---------------------------------------------------------------------------
  // Stable sort by an integer key

  ghost predicate SortedBy<T>(s: seq<T>, key: T -> int) {
    forall i, j :: 0 <= i < j < |s| ==> key(s[i]) <= key(s[j])
  }

  /** The elements of `s` whose key is `k`, in order. */
  function WithKey<T>(s: seq<T>, key: T -> int, k: int): seq<T> {
    if s == [] then [] else (if key(s[0]) == k then [s[0]] else []) + WithKey(s[1..], key, k)
  }

  /** Inserts `x` before the first element whose key is not smaller. */
  function InsertBy<T>(x: T, s: seq<T>, key: T -> int): (r: seq<T>)
    ensures |r| == |s| + 1
    ensures multiset(r) == multiset(s) + multiset{x}
  {
    if s == [] || key(x) <= key(s[0]) then [x] + s
    else
      assert s == [s[0]] + s[1..];
      [s[0]] + InsertBy(x, s[1..], key)
  }

  lemma {:induction false} InsertBySorted<T>(x: T, s: seq<T>, key: T -> int)
    requires SortedBy(s, key)
    ensures SortedBy(InsertBy(x, s, key), key)
  {
    if s == [] || key(x) <= key(s[0]) {
    } else {
      var t := InsertBy(x, s[1..], key);
      InsertBySorted(x, s[1..], key);
      InsertByBound(x, s[1..], key, key(s[0]));
      var r := [s[0]] + t;
      assert InsertBy(x, s, key) == r;
      forall i, j | 0 <= i < j < |r| ensures key(r[i]) <= key(r[j]) {
        if i > 0 {
          assert r[i] == t[i - 1] && r[j] == t[j - 1];
        } else {
          assert r[j] == t[j - 1];
        }
      }
    }
  }

  /** Inserting keeps a lower bound that `x` and every element of `s` respect. */
  lemma {:induction false} InsertByBound<T>(x: T, s: seq<T>, key: T -> int, b: int)
    requires b <= key(x) && forall i :: 0 <= i < |s| ==> b <= key(s[i])
    ensures forall j :: 0 <= j < |InsertBy(x, s, key)| ==> b <= key(InsertBy(x, s, key)[j])
  {
    if s != [] && key(s[0]) < key(x) {
      var t := InsertBy(x, s[1..], key);
      InsertByBound(x, s[1..], key, b);
      assert InsertBy(x, s, key) == [s[0]] + t;
    }
  }

  /** A copy of `s` sorted stably by ascending `key`, as the JavaScript sort does. */
  function SortBy<T>(s: seq<T>, key: T -> int): (r: seq<T>)
    ensures |r| == |s|
    ensures multiset(r) == multiset(s)
    ensures SortedBy(r, key)
  {
    if s == [] then []
    else
      assert s == [s[0]] + s[1..];
      InsertBySorted(s[0], SortBy(s[1..], key), key);
      InsertBy(s[0], SortBy(s[1..], key), key)
  }

  lemma {:induction false} InsertByStable<T>(x: T, s: seq<T>, key: T -> int, k: int)
    ensures WithKey(InsertBy(x, s, key), key, k) == (if key(x) == k then [x] else []) + WithKey(s, key, k)
  {
    if s == [] || key(x) <= key(s[0]) {
      assert ([x] + s)[1..] == s;
    } else {
      var t := InsertBy(x, s[1..], key);
      var r := [s[0]] + t;
      assert InsertBy(x, s, key) == r && r[0] == s[0] && r[1..] == t;
      InsertByStable(x, s[1..], key, k);
      var head := if key(s[0]) == k then [s[0]] else [];
      var own := if key(x) == k then [x] else [];
      assert WithKey(r, key, k) == head + WithKey(t, key, k);
      assert WithKey(s, key, k) == head + WithKey(s[1..], key, k);
      // `x` goes after `s[0]` only when its key is larger, so at most one of them has key `k`.
      assert head == [] || own == [];
    }
  }

  /** The sort is stable: elements with equal keys keep their relative order. */
  lemma {:induction false} SortByStable<T>(s: seq<T>, key: T -> int, k: int)
    ensures WithKey(SortBy(s, key), key, k) == WithKey(s, key, k)
  {
    if s != [] {
      SortByStable(s[1..], key, k);
      InsertByStable(s[0], SortBy(s[1..], key), key, k);
    }
  }

  /** Sorting a sequence keeps exactly its elements. */
  lemma SortByMembers<T>(s: seq<T>, key: T -> int)
    ensures forall x :: x in SortBy(s, key) <==> x in s
  {
    var r := SortBy(s, key);
    forall x ensures x in r <==> x in s {
      assert x in r <==> x in multiset(r);
      assert x in s <==> x in multiset(s);
    }
  }
}
