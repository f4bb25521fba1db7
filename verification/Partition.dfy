/** Taking the first `k` elements that pass a test out of a queue, in order. */
module Partition {

  /** The elements that pass, in order. */
  function Matching<T(!new)>(f: T -> bool, q: seq<T>): seq<T> {
    if q == [] then []
    else if f(q[0]) then [q[0]] + Matching(f, q[1..])
    else Matching(f, q[1..])
  }

  /** The queue without its first `k` elements that pass, in order. */
  function Without<T(!new)>(f: T -> bool, q: seq<T>, k: nat): seq<T> {
    if q == [] || k == 0 then q
    else if f(q[0]) then Without(f, q[1..], k - 1)
    else [q[0]] + Without(f, q[1..], k)
  }

  lemma {:induction false} MatchingPass<T(!new)>(f: T -> bool, q: seq<T>)
    ensures forall t :: t in Matching(f, q) <==> t in q && f(t)
  {
    if q != [] {
      MatchingPass(f, q[1..]);
      assert q == [q[0]] + q[1..];
    }
  }

  lemma {:induction false} MatchingAfter<T(!new)>(f: T -> bool, q: seq<T>, k: nat)
    requires k <= |Matching(f, q)|
    ensures Matching(f, Without(f, q, k)) == Matching(f, q)[k..]
    ensures |Without(f, q, k)| == |q| - k
  {
    if q != [] && k > 0 {
      if f(q[0]) {
        MatchingAfter(f, q[1..], k - 1);
      } else {
        MatchingAfter(f, q[1..], k);
        assert Without(f, q, k)[1..] == Without(f, q[1..], k);
      }
    }
  }

  lemma {:induction false} WithoutMore<T(!new)>(f: T -> bool, q: seq<T>, k: nat)
    ensures Without(f, Without(f, q, k), 1) == Without(f, q, k + 1)
  {
    if q != [] && k > 0 {
      if f(q[0]) {
        WithoutMore(f, q[1..], k - 1);
      } else {
        WithoutMore(f, q[1..], k);
        assert Without(f, q, k)[1..] == Without(f, q[1..], k);
      }
    }
  }

  /** Taking out the first element that passes. */
  lemma {:induction false} FirstMatch<T(!new)>(f: T -> bool, q: seq<T>, i: nat)
    requires i < |q| && f(q[i]) && forall j :: 0 <= j < i ==> !f(q[j])
    ensures Without(f, q, 1) == q[..i] + q[i + 1..]
    ensures |Matching(f, q)| > 0 && Matching(f, q)[0] == q[i]
  {
    if i > 0 {
      FirstMatch(f, q[1..], i - 1);
      assert q[..i] == [q[0]] + q[1..][..i - 1];
      assert q[1..][i..] == q[i + 1..];
    } else {
      assert Without(f, q[1..], 0) == q[1..];
    }
  }

  lemma Exhausted<T(!new)>(f: T -> bool, q: seq<T>, k: nat)
    requires k <= |Matching(f, q)|
    ensures k == |Matching(f, q)| <==> forall t :: t in Without(f, q, k) ==> !f(t)
  {
    var left := Without(f, q, k);
    MatchingAfter(f, q, k);
    MatchingPass(f, left);
    if k < |Matching(f, q)| {
      assert Matching(f, left)[0] in Matching(f, left);
    }
  }

  /** Nothing is lost or invented, however far it goes. */
  lemma {:induction false} Conserves<T(!new)>(f: T -> bool, q: seq<T>, k: nat)
    requires k <= |Matching(f, q)|
    ensures multiset(q) == multiset(Matching(f, q)[..k]) + multiset(Without(f, q, k))
  {
    if q == [] || k == 0 {
      assert Matching(f, q)[..k] == [];
    } else {
      var t, rest := q[0], q[1..];
      assert q == [t] + rest;
      if f(t) {
        Conserves(f, rest, k - 1);
        assert Matching(f, q)[..k] == [t] + Matching(f, rest)[..k - 1];
      } else {
        Conserves(f, rest, k);
      }
    }
  }

  lemma {:induction false} MatchingConcat<T(!new)>(f: T -> bool, a: seq<T>, b: seq<T>)
    ensures Matching(f, a + b) == Matching(f, a) + Matching(f, b)
  {
    if a == [] {
      assert a + b == b;
    } else {
      assert (a + b)[1..] == a[1..] + b;
      MatchingConcat(f, a[1..], b);
    }
  }

  lemma {:induction false} MatchingNone<T(!new)>(f: T -> bool, s: seq<T>)
    requires forall i :: 0 <= i < |s| ==> !f(s[i])
    ensures Matching(f, s) == []
  {
    if s != [] {
      MatchingNone(f, s[1..]);
    }
  }

  lemma {:induction false} MatchingAll<T(!new)>(f: T -> bool, s: seq<T>)
    requires forall t :: t in s ==> f(t)
    ensures Matching(f, s) == s
  {
    if s != [] {
      assert f(s[0]);
      MatchingAll(f, s[1..]);
      assert s == [s[0]] + s[1..];
    }
  }

  /** Two elements that pass keep their order. */
  lemma MatchingOrder<T(!new)>(f: T -> bool, s: seq<T>, i: nat, j: nat) returns (a: nat, b: nat)
    requires i < j < |s| && f(s[i]) && f(s[j])
    ensures a < b < |Matching(f, s)| && Matching(f, s)[a] == s[i] && Matching(f, s)[b] == s[j]
  {
    var front := s[..j];
    assert s == front + s[j..] && s[j..][0] == s[j];
    MatchingConcat(f, front, s[j..]);
    MatchingPass(f, front);
    assert front[i] in front;
    a :| 0 <= a < |Matching(f, front)| && Matching(f, front)[a] == s[i];
    b := |Matching(f, front)|;
  }
}
