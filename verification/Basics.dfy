/** Facts about sequences and sets shared by the other modules. */
module Basics {

  datatype Option<+T> = None | Some(value: T)

  predicate NoDup<T(==)>(s: seq<T>) {
    forall i, j :: 0 <= i < j < |s| ==> s[i] != s[j]
  }

  /** How many elements of `s` satisfy `p`. */
  function Count<T>(s: seq<T>, p: T -> bool): nat {
    if s == [] then 0
    else Count(s[..|s| - 1], p) + if p(s[|s| - 1]) then 1 else 0
  }

  lemma {:induction false} CountUpdate<T>(s: seq<T>, i: nat, v: T, p: T -> bool)
    requires i < |s|
    ensures Count(s[i := v], p) + (if p(s[i]) then 1 else 0) == Count(s, p) + (if p(v) then 1 else 0)
  {
    var n := |s| - 1;
    var t := s[i := v];
    if i == n {
      assert t[..n] == s[..n];
    } else {
      assert t[..n] == s[..n][i := v];
      CountUpdate(s[..n], i, v, p);
    }
  }

  lemma CountAppend<T>(s: seq<T>, v: T, p: T -> bool)
    ensures Count(s + [v], p) == Count(s, p) + if p(v) then 1 else 0
  {
    assert (s + [v])[..|s|] == s;
  }

  lemma {:induction false} CountPositive<T>(s: seq<T>, i: nat, p: T -> bool)
    requires i < |s| && p(s[i])
    ensures Count(s, p) > 0
  {
    if i < |s| - 1 {
      CountPositive(s[..|s| - 1], i, p);
    }
  }

  /** `q` without its first occurrence of `c`; the order of the rest is kept. */
  function Without<T(==)>(q: seq<T>, c: T): (r: seq<T>)
    ensures forall x :: x in r ==> x in q
    ensures forall x :: x in q && x != c ==> x in r
  {
    if q == [] then []
    else if q[0] == c then q[1..]
    else [q[0]] + Without(q[1..], c)
  }

  lemma {:induction false} WithoutNoDup<T>(q: seq<T>, c: T)
    requires NoDup(q)
    ensures NoDup(Without(q, c)) && c !in Without(q, c)
  {
    if q != [] && q[0] != c {
      WithoutNoDup(q[1..], c);
      assert q[0] !in q[1..];
    }
  }

  /** The elements that come before the first `k` in `q`. */
  function Ahead<T(==)>(q: seq<T>, k: T): set<T> {
    if q == [] || q[0] == k then {} else {q[0]} + Ahead(q[1..], k)
  }

  lemma {:induction false} AheadWithout<T>(q: seq<T>, k: T, c: T)
    requires NoDup(q) && c != k
    ensures Ahead(Without(q, c), k) == Ahead(q, k) - {c}
  {
    if q == [] || q[0] == k {
    } else if q[0] == c {
      AheadSubset(q[1..], k);
      assert c !in q[1..];
    } else {
      AheadWithout(q[1..], k, c);
      assert Without(q, c)[1..] == Without(q[1..], c);
    }
  }

  lemma {:induction false} AheadSubset<T>(q: seq<T>, k: T)
    ensures forall x :: x in Ahead(q, k) ==> x in q && x != k
  {
    if q != [] && q[0] != k {
      AheadSubset(q[1..], k);
    }
  }

  lemma {:induction false} AheadAppend<T>(q: seq<T>, k: T, c: T)
    requires k in q
    ensures Ahead(q + [c], k) == Ahead(q, k)
  {
    if q[0] != k {
      assert (q + [c])[1..] == q[1..] + [c];
      AheadAppend(q[1..], k, c);
    }
  }

  lemma {:induction false} AheadLast<T>(q: seq<T>, k: T)
    requires k !in q
    ensures forall x :: x in q ==> x in Ahead(q + [k], k)
  {
    if q != [] {
      assert (q + [k])[1..] == q[1..] + [k];
      AheadLast(q[1..], k);
    }
  }

  lemma CardSubset<T>(a: set<T>, b: set<T>)
    requires a <= b
    ensures |a| <= |b|
  {
    assert b == a + (b - a);
  }

  lemma CardSplit<T>(s: set<T>, t: set<T>)
    ensures |s| == |s * t| + |s - t|
  {
    assert s == s * t + (s - t);
  }

  lemma Within<T>(s: set<T>, t: set<T>)
    requires s - t == {}
    ensures s * t == s && s <= t
  {
    forall x | x in s ensures x in t { assert x !in s - t; }
  }

  lemma SubsetOfSize<T>(s: set<T>, n: nat) returns (r: set<T>)
    requires n <= |s|
    ensures r <= s && |r| == n
  {
    r := {};
    while |r| < n
      invariant r <= s && |r| <= n
      decreases n - |r|
    {
      assert |s - r| == |s| - |r| by { assert s == r + (s - r); }
      var x :| x in s - r;
      r := r + {x};
    }
  }

  lemma {:induction false} WithoutAbsent<T>(q: seq<T>, c: T)
    requires c !in q
    ensures Without(q, c) == q
  {
    if q != [] {
      WithoutAbsent(q[1..], c);
    }
  }
}
