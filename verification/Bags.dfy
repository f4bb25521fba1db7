/** Bookkeeping with multisets: one account whose holdings move between three places. */
module Bags {

  ghost predicate Balanced<T(!new)>(all: multiset<T>, a: multiset<T>, b: multiset<T>, c: multiset<T>) {
    all == a + b + c
  }

  lemma AddToBoth<T(!new)>(a: multiset<T>, x: multiset<T>, b: multiset<T>, y: multiset<T>, c: multiset<T>)
    requires a + x == b + y
    ensures (a + c) + x == (b + c) + y
  {
    assert (a + c) + x == (a + x) + c;
    assert (b + c) + y == (b + y) + c;
  }

  lemma Cancel<T(!new)>(a: multiset<T>, b: multiset<T>, x: multiset<T>)
    requires a + x == b + x
    ensures a == b
  {
    assert a == (a + x) - x == (b + x) - x == b;
  }

  /** `x + y` leaves the first place for `y`: `x` is what moved to the second. */
  lemma FirstToSecond<T(!new)>(all: multiset<T>, a: multiset<T>, b: multiset<T>, c: multiset<T>,
                         a': multiset<T>, x: multiset<T>, y: multiset<T>)
    requires Balanced(all, a, b, c) && a' + (x + y) == a + y
    ensures Balanced(all, a', b + x, c)
  {
    assert (a' + x) + y == a' + (x + y);
    Cancel(a' + x, a, y);
  }

  lemma SecondToThird<T(!new)>(all: multiset<T>, a: multiset<T>, b: multiset<T>, c: multiset<T>,
                         b': multiset<T>, x: multiset<T>)
    requires Balanced(all, a, b, c) && b == x + b'
    ensures Balanced(all, a, b', c + x)
  {
  }

  lemma IntoFirst<T(!new)>(all: multiset<T>, a: multiset<T>, b: multiset<T>, c: multiset<T>, x: multiset<T>)
    requires Balanced(all, a, b, c)
    ensures Balanced(all + x, a + x, b, c)
  {
  }

  lemma RemoveAt<T(!new)>(s: seq<T>, i: nat)
    requires i < |s|
    ensures multiset(s) == multiset{s[i]} + multiset(s[..i] + s[i + 1..])
  {
    assert s == s[..i] + [s[i]] + s[i + 1..];
  }

  ghost predicate Distinct<T(!new)>(s: seq<T>) {
    forall i, j :: 0 <= i < j < |s| ==> s[i] != s[j]
  }

  lemma {:induction false} DistinctCounts<T(!new)>(s: seq<T>, t: T)
    requires Distinct(s)
    ensures multiset(s)[t] == if t in s then 1 else 0
  {
    if s != [] {
      assert s == [s[0]] + s[1..];
      DistinctCounts(s[1..], t);
    }
  }

  lemma TwiceCounts<T(!new)>(s: seq<T>, i: nat, j: nat)
    requires i < j < |s| && s[i] == s[j]
    ensures multiset(s)[s[i]] >= 2
  {
    var t := s[i];
    assert s == s[..i] + [t] + s[i + 1..j] + [t] + s[j + 1..];
    assert multiset(s) == multiset(s[..i]) + multiset{t} + multiset(s[i + 1..j]) + multiset{t} + multiset(s[j + 1..]);
  }
}
