/** Items sorted into numbered groups by a classifier, in the order they came. */
module Grouping {
  import opened Basics

  // The items of group b.
  function Group<T>(f: T -> nat, s: seq<T>, b: nat): seq<T> {
    if |s| == 0 then []
    else
      var last := s[|s| - 1];
      Group(f, s[..|s| - 1], b) + if f(last) == b then [last] else []
  }

  function Groups<T>(f: T -> nat, s: seq<T>, n: nat): (r: seq<seq<T>>)
    ensures |r| == n && forall b :: 0 <= b < n ==> r[b] == Group(f, s, b)
  {
    seq(n, b requires 0 <= b < n => Group(f, s, b))
  }

  // Item i sits in its group after the earlier items of that group.
  lemma {:induction false} GroupAt<T>(f: T -> nat, s: seq<T>, i: nat)
    requires i < |s|
    ensures |Group(f, s[..i], f(s[i]))| < |Group(f, s, f(s[i]))|
    ensures Group(f, s, f(s[i]))[|Group(f, s[..i], f(s[i]))|] == s[i]
  {
    var n := |s| - 1;
    if i < n {
      GroupAt(f, s[..n], i);
      assert s[..n][..i] == s[..i];
    }
  }

  // Two items of one group keep their order in it.
  lemma GroupApart<T>(f: T -> nat, s: seq<T>, i: nat, j: nat)
    requires i < j < |s|
    ensures |Group(f, s[..i], f(s[i]))| < |Group(f, s[..j], f(s[i]))|
  {
    GroupAt(f, s[..j], i);
    assert s[..j][..i] == s[..i];
  }

  lemma {:induction false} GroupCount<T>(f: T -> nat, s: seq<T>, b: nat, x: T)
    ensures multiset(Group(f, s, b))[x] == if f(x) == b then multiset(s)[x] else 0
  {
    if |s| > 0 {
      GroupCount(f, s[..|s| - 1], b, x);
      PrefixMultiset(s);
    }
  }

  lemma {:induction false} GroupWithout<T>(f: T -> nat, s: seq<T>, k: nat, b: nat)
    requires k < |s|
    ensures multiset(Group(f, s, b)) == multiset(Group(f, Without(s, k), b)) + if f(s[k]) == b then multiset{s[k]} else multiset{}
    decreases |s|
  {
    hide *;
    var n := |s| - 1;
    GroupLast(f, s, b);
    if k == n {
      WithoutLast(s);
    } else {
      GroupWithout(f, s[..n], k, b);
      WithoutEarlier(s, k);
      GroupLast(f, Without(s, k), b);
    }
  }

  lemma GroupLast<T>(f: T -> nat, s: seq<T>, b: nat)
    requires |s| > 0
    ensures var n := |s| - 1;
            multiset(Group(f, s, b)) == multiset(Group(f, s[..n], b)) + if f(s[n]) == b then multiset{s[n]} else multiset{}
  {
  }

  lemma WithoutLast<T>(s: seq<T>)
    requires |s| > 0
    ensures Without(s, |s| - 1) == s[..|s| - 1]
  {
  }

  lemma WithoutEarlier<T>(s: seq<T>, k: nat)
    requires k < |s| - 1
    ensures |Without(s, k)| == |s| - 1 && Without(s, k)[|s| - 2] == s[|s| - 1]
    ensures Without(s, k)[..|s| - 2] == Without(s[..|s| - 1], k)
  {
  }

  // The same items in another order give the same groups, reordered.
  lemma {:induction false} GroupPerm<T>(f: T -> nat, s: seq<T>, t: seq<T>, b: nat)
    requires multiset(s) == multiset(t)
    ensures multiset(Group(f, s, b)) == multiset(Group(f, t, b))
    decreases |s|
  {
    PermLength(s, t);
    if |s| > 0 {
      SameMembers(s, t, s[0]);
      var k :| 0 <= k < |t| && t[k] == s[0];
      WithoutMultiset(s, 0);
      WithoutMultiset(t, k);
      GroupWithout(f, s, 0, b);
      GroupWithout(f, t, k, b);
      GroupPerm(f, Without(s, 0), Without(t, k), b);
    }
  }

  lemma GroupMember<T>(f: T -> nat, s: seq<T>, b: nat, p: nat)
    requires p < |Group(f, s, b)|
    ensures Group(f, s, b)[p] in s && f(Group(f, s, b)[p]) == b
  {
    var x := Group(f, s, b)[p];
    GroupCount(f, s, b, x);
    assert x in multiset(Group(f, s, b));
    assert x in multiset(s);
  }

  lemma GroupAppend<T>(f: T -> nat, s: seq<T>, x: T, b: nat)
    ensures Group(f, s + [x], b) == if f(x) == b then Group(f, s, b) + [x] else Group(f, s, b)
  {
    assert (s + [x])[..|s|] == s;
  }

  // Adding an item appends it to its group.
  lemma GroupsAppend<T>(f: T -> nat, s: seq<T>, x: T, n: nat)
    requires f(x) < n
    ensures Groups(f, s + [x], n) == Groups(f, s, n)[f(x) := Groups(f, s, n)[f(x)] + [x]]
  {
    forall b | 0 <= b < n
      ensures Groups(f, s + [x], n)[b] == Groups(f, s, n)[f(x) := Groups(f, s, n)[f(x)] + [x]][b]
    {
      GroupAppend(f, s, x, b);
    }
  }
}
