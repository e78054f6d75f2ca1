/** Sorting by an integer key, as the engines do with `sort_by_key`,
 *  `sort_unstable_by_key` and `sort_by_cached_key`. One deterministic
 *  insertion sort stands for all of them; what is claimed about it is that
 *  it is a permutation of its input and that the keys come out in
 *  non-decreasing order. */
module Sorting {

  predicate SortedBy<T>(s: seq<T>, key: T -> int)
  {
    forall i, j :: 0 <= i < j < |s| ==> key(s[i]) <= key(s[j])
  }

  /** Inserts `x` after every element whose key is not larger than its own. */
  function Insert<T>(x: T, s: seq<T>, key: T -> int): (r: seq<T>)
    requires SortedBy(s, key)
    ensures multiset(r) == multiset(s) + multiset{x}
    ensures SortedBy(r, key)
  {
    if s == [] then [x]
    else if key(x) < key(s[0]) then [x] + s
    else
      var rest := Insert(x, s[1..], key);
      assert s == [s[0]] + s[1..];
      LowerBound(s[0], x, s[1..], rest, key);
      [s[0]] + rest
  }

  /** Every element of `rest` (a permutation of `t` plus `x`) has a key at
   *  least that of `h`, when `h` is below `x` and below everything in `t`. */
  lemma LowerBound<T>(h: T, x: T, t: seq<T>, rest: seq<T>, key: T -> int)
    requires key(h) <= key(x)
    requires forall i :: 0 <= i < |t| ==> key(h) <= key(t[i])
    requires multiset(rest) == multiset(t) + multiset{x}
    requires SortedBy(rest, key)
    ensures SortedBy([h] + rest, key)
  {
    forall j | 0 <= j < |rest| ensures key(h) <= key(rest[j]) {
      assert rest[j] in multiset(rest);
      if rest[j] != x {
        assert rest[j] in multiset(t);
        var i :| 0 <= i < |t| && t[i] == rest[j];
      }
    }
    var r := [h] + rest;
    forall i, j | 0 <= i < j < |r| ensures key(r[i]) <= key(r[j]) {
      if i > 0 { assert r[i] == rest[i - 1] && r[j] == rest[j - 1]; }
      else { assert r[j] == rest[j - 1]; }
    }
  }

  function SortByKey<T>(s: seq<T>, key: T -> int): (r: seq<T>)
    ensures multiset(r) == multiset(s)
    ensures SortedBy(r, key)
  {
    if s == [] then []
    else
      var init := s[..|s| - 1];
      assert s == init + [s[|s| - 1]];
      Insert(s[|s| - 1], SortByKey(init, key), key)
  }

  lemma SameLength<T>(a: seq<T>, b: seq<T>)
    requires multiset(a) == multiset(b)
    ensures |a| == |b|
  {
    assert |multiset(a)| == |a| && |multiset(b)| == |b|;
  }

  /** `sort_by_cached_key`: each element is paired with its key, computed
   *  once, the pairs are sorted by the key and the elements read back. */
  function Keyed<T>(s: seq<T>, key: T -> int): (r: seq<(int, T)>)
    ensures |r| == |s| && forall i :: 0 <= i < |s| ==> r[i] == (key(s[i]), s[i])
  {
    seq(|s|, i requires 0 <= i < |s| => (key(s[i]), s[i]))
  }

  function FstOf<T>(): ((int, T)) -> int
  {
    (x: (int, T)) => x.0
  }

  /** The pairs of `s` with their keys, sorted by key, each still hold an
   *  element of `s` with its key. */
  lemma KeyedSorted<T>(s: seq<T>, key: T -> int)
    ensures forall x :: x in SortByKey(Keyed(s, key), FstOf()) ==> x.1 in s && x.0 == key(x.1)
  {
    forall x | x in SortByKey(Keyed(s, key), FstOf()) ensures x.1 in s && x.0 == key(x.1) {
      assert x in multiset(Keyed(s, key));
      var j :| 0 <= j < |s| && Keyed(s, key)[j] == x;
    }
  }

  /** The first components of a sequence of pairs. */
  function Firsts<A, B>(cs: seq<(A, B)>): (r: seq<A>)
    ensures |r| == |cs| && forall i :: 0 <= i < |cs| ==> r[i] == cs[i].0
  {
    seq(|cs|, i requires 0 <= i < |cs| => cs[i].0)
  }

  lemma Cancel<T>(x: multiset<T>, y: multiset<T>, e: T)
    requires x + multiset{e} == y + multiset{e}
    ensures x == y
  {
    forall z ensures x[z] == y[z] {
      assert (x + multiset{e})[z] == (y + multiset{e})[z];
    }
  }

  /** Taking out the element at j. */
  lemma Without<T>(b: seq<T>, j: nat)
    requires j < |b|
    ensures multiset(b) == multiset(b[..j] + b[j + 1..]) + multiset{b[j]}
  {
    assert b == b[..j] + [b[j]] + b[j + 1..];
  }

  /** Taking out the pair at j takes its first component out of the firsts. */
  lemma FirstsWithout<A, B>(b: seq<(A, B)>, j: nat)
    requires j < |b|
    ensures Firsts(b[..j] + b[j + 1..]) == Firsts(b)[..j] + Firsts(b)[j + 1..]
  {
  }

  /** Replacing the element at i: the prefix up to it ends in the new one. */
  lemma UpdatePrefix<T>(s: seq<T>, i: nat, x: T)
    requires i < |s|
    ensures s[i := x][..i + 1] == s[..i] + [x]
  {
  }

  /** Replacing the second component of a pair keeps the firsts. */
  lemma UpdateSecond<A, B>(s: seq<(A, B)>, i: nat, y: B)
    requires i < |s|
    ensures Firsts(s[i := (s[i].0, y)]) == Firsts(s)
  {
  }

  /** Permuting pairs permutes their first components. */
  lemma {:induction false} FirstsPerm<A, B>(a: seq<(A, B)>, b: seq<(A, B)>)
    requires multiset(a) == multiset(b)
    ensures multiset(Firsts(a)) == multiset(Firsts(b))
    decreases |a|
  {
    if a == [] {
      assert |multiset(b)| == 0;
    } else {
      var n := |a| - 1;
      var x := a[n];
      assert x in multiset(b);
      var j :| 0 <= j < |b| && b[j] == x;
      Without(a, n);
      Without(b, j);
      Without(Firsts(a), n);
      Without(Firsts(b), j);
      FirstsWithout(a, n);
      FirstsWithout(b, j);
      assert a[..n] + a[n + 1..] == a[..n];
      Cancel(multiset(a[..n]), multiset(b[..j] + b[j + 1..]), x);
      FirstsPerm(a[..n], b[..j] + b[j + 1..]);
    }
  }
}
