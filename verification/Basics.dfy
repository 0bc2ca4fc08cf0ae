/** Shared vocabulary: results with an error, machine bytes, and facts about
    sequences read as multisets. */
module Basics {

  datatype Option<+T> = None | Some(value: T)

  datatype Result<+T, +E> = Ok(value: T) | Err(error: E)

  type Byte = x: int | 0 <= x < 256

  // Conversion to uint16.
  function U16(x: nat): (r: nat)
    ensures r < 0x1_0000
  {
    x % 0x1_0000
  }

  lemma U16Add(a: nat, b: nat)
    ensures U16(U16(a) + b) == U16(a + b)
  {
  }

  lemma U16Small(a: nat)
    requires a < 0x1_0000
    ensures U16(a) == a
  {
  }

  // No two positions of `s` hold the same value.
  ghost predicate NoDup<T(!new)>(s: seq<T>) {
    forall i, j :: 0 <= i < j < |s| ==> s[i] != s[j]
  }

  ghost function Elements<T>(s: seq<T>): set<T> {
    set x | x in s
  }

  // `s` without its element at position `k`.
  function Without<T>(s: seq<T>, k: nat): seq<T>
    requires k < |s|
  {
    s[..k] + s[k + 1..]
  }

  lemma WithoutMultiset<T>(s: seq<T>, k: nat)
    requires k < |s|
    ensures multiset(Without(s, k)) == multiset(s) - multiset{s[k]}
  {
    assert s == s[..k] + [s[k]] + s[k + 1..];
  }

  lemma PrefixMultiset<T>(s: seq<T>)
    requires |s| > 0
    ensures multiset(s) == multiset(s[..|s| - 1]) + multiset{s[|s| - 1]}
  {
    assert s == s[..|s| - 1] + [s[|s| - 1]];
  }

  lemma PermLength<T>(a: seq<T>, b: seq<T>)
    requires multiset(a) == multiset(b)
    ensures |a| == |b|
  {
    assert |multiset(a)| == |multiset(b)|;
  }

  ghost predicate Twice<T(!new)>(s: seq<T>, v: T) {
    exists i, j :: 0 <= i < j < |s| && s[i] == v && s[j] == v
  }

  lemma TwiceCounts<T(!new)>(s: seq<T>, v: T)
    requires Twice(s, v)
    ensures multiset(s)[v] >= 2
  {
    var i, j :| 0 <= i < j < |s| && s[i] == v && s[j] == v;
    WithoutMultiset(s, i);
    assert Without(s, i)[j - 1] == v;
  }

  lemma CountsTwice<T(!new)>(s: seq<T>, v: T)
    requires multiset(s)[v] >= 2
    ensures Twice(s, v)
  {
    assert v in s;
    var i :| 0 <= i < |s| && s[i] == v;
    WithoutMultiset(s, i);
    assert v in multiset(Without(s, i));
    var k :| 0 <= k < |Without(s, i)| && Without(s, i)[k] == v;
    var j := if k < i then k else k + 1;
    assert s[j] == v;
  }

  lemma SameMembers<T>(a: seq<T>, b: seq<T>, x: T)
    requires multiset(a) == multiset(b)
    ensures x in a <==> x in b
  {
    assert x in a <==> x in multiset(a);
    assert x in b <==> x in multiset(b);
  }

  // The numbers below `n`.
  ghost function Range(n: nat): (r: set<nat>)
    ensures forall i: nat :: i in r <==> i < n
    ensures |r| == n
  {
    if n == 0 then {} else Range(n - 1) + {n - 1}
  }

  lemma SubsetSize<T>(a: set<T>, b: set<T>)
    requires a <= b
    ensures |a| <= |b|
    ensures |a| == |b| ==> a == b
  {
    assert b == a + (b - a);
  }

  // A sequence without repeats has as many elements as its set of values.
  lemma NoDupSize<T(!new)>(s: seq<T>)
    requires NoDup(s)
    ensures |set x | x in s| == |s|
  {
    if |s| > 0 {
      var t := s[..|s| - 1];
      NoDupSize(t);
      assert (set x | x in s) == (set x | x in t) + {s[|s| - 1]};
      assert s[|s| - 1] !in t;
    } else {
      assert (set x | x in s) == {};
    }
  }

  // n distinct numbers below n are all the numbers below n.
  lemma Pigeonhole(s: seq<nat>)
    requires NoDup(s) && forall i :: 0 <= i < |s| ==> s[i] < |s|
    ensures (set x | x in s) == Range(|s|)
  {
    NoDupSize(s);
    SubsetSize((set x | x in s), Range(|s|));
  }

  function Map<A, B>(f: A -> B, s: seq<A>): (r: seq<B>)
    ensures |r| == |s| && forall i :: 0 <= i < |s| ==> r[i] == f(s[i])
  {
    seq(|s|, i requires 0 <= i < |s| => f(s[i]))
  }

  lemma MapWithout<A, B>(f: A -> B, s: seq<A>, k: nat)
    requires k < |s|
    ensures multiset(Map(f, s)) == multiset(Map(f, Without(s, k))) + multiset{f(s[k])}
  {
    var m := Map(f, s);
    WithoutMultiset(m, k);
    assert m[k] in multiset(m);
    assert Map(f, Without(s, k)) == Without(m, k);
  }

  // Mapping a permutation gives a permutation of the mapped sequence.
  lemma {:induction false} MapPerm<A, B>(f: A -> B, a: seq<A>, b: seq<A>)
    requires multiset(a) == multiset(b)
    ensures multiset(Map(f, a)) == multiset(Map(f, b))
    decreases |a|
  {
    PermLength(a, b);
    if |a| == 0 {
      assert Map(f, a) == Map(f, b);
    } else {
      SameMembers(a, b, a[0]);
      var k :| 0 <= k < |b| && b[k] == a[0];
      WithoutMultiset(a, 0);
      WithoutMultiset(b, k);
      MapWithout(f, a, 0);
      MapWithout(f, b, k);
      MapPerm(f, Without(a, 0), Without(b, k));
    }
  }

  // Whether a value repeats does not depend on the order.
  lemma NoDupPerm<T(!new)>(a: seq<T>, b: seq<T>)
    requires multiset(a) == multiset(b)
    ensures NoDup(a) <==> NoDup(b)
  {
    if !NoDup(a) {
      var i, j :| 0 <= i < j < |a| && a[i] == a[j];
      TwiceCounts(a, a[i]);
      CountsTwice(b, a[i]);
    }
    if !NoDup(b) {
      var i, j :| 0 <= i < j < |b| && b[i] == b[j];
      TwiceCounts(b, b[i]);
      CountsTwice(a, b[i]);
    }
  }
}
