/** Facts about parts of sequences, over any element type. */
module Slices {

  lemma Assoc<T>(a: seq<T>, b: seq<T>, c: seq<T>)
    ensures (a + b) + c == a + (b + c)
  {
  }

  lemma SliceOfSlice<T>(s: seq<T>, a: nat, b: nat, i: nat, j: nat)
    requires a <= b <= |s| && i <= j <= b - a
    ensures s[a..b][i..j] == s[a + i..a + j]
  {
    var x, y := s[a..b][i..j], s[a + i..a + j];
    forall k | 0 <= k < j - i
      ensures x[k] == y[k]
    {
      assert x[k] == s[a..b][i + k] == s[a + i + k];
    }
  }

  lemma DropTake<T>(s: seq<T>, a: nat, k: nat)
    requires a + k <= |s|
    ensures s[a..][..k] == s[a..a + k] && s[a..][k..] == s[a + k..]
  {
  }

  lemma SubSlice<T>(buf: seq<T>, start: nat, f: seq<T>, i: nat, j: nat)
    requires start + |f| <= |buf| && buf[start..start + |f|] == f && i <= j <= |f|
    ensures buf[start + i..start + j] == f[i..j]
  {
    SliceOfSlice(buf, start, start + |f|, i, j);
  }

  lemma SplitFront<T>(buf: seq<T>, start: nat, f: seq<T>, rest: seq<T>)
    requires start <= |buf| && buf[start..] == f + rest
    ensures start + |f| <= |buf| && buf[start..start + |f|] == f && buf[start + |f|..] == rest
  {
    assert buf[start..start + |f|] == buf[start..][..|f|];
    assert buf[start + |f|..] == buf[start..][|f|..];
  }

  lemma CutSlice<T>(buf: seq<T>, at: nat, a: seq<T>, b: seq<T>)
    requires at + |a| + |b| <= |buf| && buf[at..at + |a| + |b|] == a + b
    ensures buf[at..at + |a|] == a && buf[at + |a|..at + |a| + |b|] == b
  {
    SliceOfSlice(buf, at, at + |a| + |b|, 0, |a|);
    SliceOfSlice(buf, at, at + |a| + |b|, |a|, |a| + |b|);
  }

  lemma CutConcat<T>(f: seq<T>, rest: seq<T>, n: nat)
    requires n <= |f + rest|
    ensures n < |f| ==> (f + rest)[..n] == f[..n]
    ensures n >= |f| ==> (f + rest)[..n] == f + rest[..n - |f|] && (f + rest)[n..] == rest[n - |f|..]
  {
  }

  lemma CutCons<T>(s: seq<T>, k: nat)
    requires s != [] && k < |s|
    ensures s[..k + 1] == [s[0]] + s[1..][..k] && s[1..][k..] == s[k + 1..]
  {
  }

  lemma ConsAppend<T>(a: seq<T>, b: seq<T>)
    requires b != []
    ensures a + [b[0]] + b[1..] == a + b
  {
  }

  lemma SnocOf<T>(s: seq<T>)
    requires s != []
    ensures s[..|s| - 1] + [s[|s| - 1]] == s
  {
  }

  lemma PrefixesOfOne<T>(a: seq<T>, b: seq<T>, s: seq<T>)
    requires a <= s && b <= s
    ensures a <= b || b <= a
  {
  }

  lemma Rejoin<T>(s: seq<T>, a: nat, b: nat)
    requires a <= b <= |s|
    ensures s[..a] + s[a..b] + s[b..] == s
  {
  }

  /** The same part, taken from a text or from its second half. */
  lemma PartOfRest<T>(before: seq<T>, rest: seq<T>, i: nat, n: nat)
    requires i <= n <= |rest|
    ensures (before + rest)[|before|..] == rest && (before + rest)[|before| + i..|before| + n] == rest[i..n]
  {
  }

  lemma DropSlice<T>(s: seq<T>, a: nat, i: nat, k: nat)
    requires a + i + k <= |s|
    ensures s[a..][i..i + k] == s[a + i..a + i + k]
  {
    var x, y := s[a..][i..i + k], s[a + i..a + i + k];
    forall j | 0 <= j < k
      ensures x[j] == y[j]
    {
      assert x[j] == s[a..][i + j] == s[a + i + j];
    }
  }

  /** A part of a slice, put back where it was. */
  lemma PutBack<T>(s: seq<T>, a: nat, i: nat, k: nat)
    requires a + i + k <= |s|
    ensures s[..a + i] + s[a..][i..i + k] + s[a + i + k..] == s
  {
    DropSlice(s, a, i, k);
    Rejoin(s, a + i, a + i + k);
  }
}
