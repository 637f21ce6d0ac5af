/** Facts about duplicate-free sequences, filtering and counting that several modules share. */
module Seqs {

  function Elems<T(==)>(s: seq<T>): set<T> {
    set x | x in s
  }

  predicate NoDup<T(==)>(s: seq<T>) {
    forall i, j :: 0 <= i < j < |s| ==> s[i] != s[j]
  }

  function IndexOf<T(==)>(s: seq<T>, x: T): (i: nat)
    requires x in s
    ensures i < |s| && s[i] == x && forall k :: 0 <= k < i ==> s[k] != x
  {
    if s[0] == x then 0
    else IndexOf(s[1..], x) + 1
  }

  lemma {:induction false} NoDupCard<T>(s: seq<T>)
    requires NoDup(s)
    ensures |Elems(s)| == |s|
  {
    if s != [] {
      var init := s[..|s| - 1];
      NoDupCard(init);
      assert Elems(s) == Elems(init) + {s[|s| - 1]};
    }
  }

  lemma NoDupConcat<T>(a: seq<T>, b: seq<T>)
    requires NoDup(a) && NoDup(b) && Elems(a) !! Elems(b)
    ensures NoDup(a + b) && Elems(a + b) == Elems(a) + Elems(b)
  {
    forall i, j | 0 <= i < j < |a + b|
      ensures (a + b)[i] != (a + b)[j]
    {
      if i < |a| <= j {
        assert a[i] in Elems(a) && b[j - |a|] in Elems(b);
      }
    }
  }

  lemma NoDupTail<T>(s: seq<T>)
    requires s != [] && NoDup(s)
    ensures NoDup(s[1..]) && Elems(s[1..]) == Elems(s) - {s[0]}
  {
    assert s == [s[0]] + s[1..];
  }

  lemma SubsetCard<T>(a: set<T>, b: set<T>)
    requires a <= b
    ensures |a| <= |b|
    ensures |a| == |b| ==> a == b
  {
    assert b == a + (b - a);
    assert |b| == |a| + |b - a|;
  }

  /** The elements of s that lie in keep, in the order of s. */
  function Restrict<T(==,!new)>(s: seq<T>, keep: set<T>): (r: seq<T>)
    ensures forall x :: x in r <==> x in s && x in keep
    ensures |r| <= |s|
  {
    if s == [] then []
    else Restrict(s[..|s| - 1], keep) + (if s[|s| - 1] in keep then [s[|s| - 1]] else [])
  }

  lemma RestrictNext<T(!new)>(s: seq<T>, i: nat, keep: set<T>)
    requires i < |s|
    ensures Restrict(s[..i + 1], keep) == Restrict(s[..i], keep) + (if s[i] in keep then [s[i]] else [])
  {
    assert s[..i + 1][..i] == s[..i];
  }

  /** a lists some positions of s from left to right. */
  ghost predicate IsSubsequence<T>(a: seq<T>, s: seq<T>) {
    if a == [] then true
    else if s == [] then false
    else (a[0] == s[0] && IsSubsequence(a[1..], s[1..])) || IsSubsequence(a, s[1..])
  }

  lemma {:induction false} SubsequenceSnoc<T>(a: seq<T>, s: seq<T>, x: T)
    requires IsSubsequence(a, s)
    ensures IsSubsequence(a, s + [x]) && IsSubsequence(a + [x], s + [x])
  {
    if s == [] {
      assert a + [x] == [x] && s + [x] == [x];
    } else {
      assert (s + [x])[1..] == s[1..] + [x];
      if a == [] {
        SubsequenceSnoc([], s[1..], x);
      } else if a[0] == s[0] && IsSubsequence(a[1..], s[1..]) {
        SubsequenceSnoc(a[1..], s[1..], x);
        assert (a + [x])[1..] == a[1..] + [x];
      } else {
        SubsequenceSnoc(a, s[1..], x);
      }
    }
  }

  lemma {:induction false} RestrictInOrder<T(!new)>(s: seq<T>, keep: set<T>)
    ensures IsSubsequence(Restrict(s, keep), s)
    ensures NoDup(s) ==> NoDup(Restrict(s, keep))
  {
    if s != [] {
      var n := |s| - 1;
      var before := Restrict(s[..n], keep);
      RestrictInOrder(s[..n], keep);
      SubsequenceSnoc(before, s[..n], s[n]);
      assert s == s[..n] + [s[n]];
      assert Restrict(s, keep) == if s[n] in keep then before + [s[n]] else before;
    }
  }
}
