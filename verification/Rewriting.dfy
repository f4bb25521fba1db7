/** A left-to-right rewriter over any cutting rule: the rule looks at what is left and says to stop,
    to skip a few elements, or to rewrite one token and go on behind its delimiter. */
module Rewriting {
  import opened Partition

  datatype Cut = Rest | Skip(k: nat) | Token(i: nat, n: nat)

  /** The cutting rule, what becomes of a token, and how long the text may get. */
  datatype Rule<!T> = Rule(cut: seq<T> -> Cut, replace: seq<T> -> seq<T>, capacity: nat)

  predicate CanSkip<T>(r: Rule<T>, s: seq<T>) {
    r.cut(s).Skip? && 0 < r.cut(s).k <= |s|
  }

  predicate HasToken<T>(r: Rule<T>, s: seq<T>) {
    r.cut(s).Token? && r.cut(s).i < r.cut(s).n <= |s|
  }

  predicate CanStep<T>(r: Rule<T>, s: seq<T>) {
    CanSkip(r, s) || HasToken(r, s)
  }

  /** One step: what goes out, with the delimiter of a token if it has one, and what is left. */
  function Out<T>(r: Rule<T>, s: seq<T>): seq<T>
    requires CanStep(r, s)
  {
    match r.cut(s)
    case Skip(k) => s[..k]
    case Token(i, n) => s[..i] + r.replace(s[i..n]) + if n < |s| then [s[n]] else []
  }

  function Left<T>(r: Rule<T>, s: seq<T>): (l: seq<T>)
    requires CanStep(r, s)
    ensures |l| < |s|
  {
    match r.cut(s)
    case Skip(k) => s[k..]
    case Token(_, n) => if n < |s| then s[n + 1..] else []
  }

  function Rewrite<T>(r: Rule<T>, s: seq<T>): seq<T>
    decreases |s|
  {
    if CanStep(r, s) then Out(r, s) + Rewrite(r, Left(r, s)) else s
  }

  /** Whether one step fits, with `done` elements before what is left. */
  predicate StepFits<T(==)>(r: Rule<T>, done: nat, s: seq<T>) {
    HasToken(r, s) ==>
      var Token(i, n) := r.cut(s);
      var w := r.replace(s[i..n]);
      w != s[i..n] ==> done + |s| - (n - i) + |w| <= r.capacity
  }

  /** Whether every intermediate text fits. */
  predicate Fits<T(==)>(r: Rule<T>, done: nat, s: seq<T>)
    decreases |s|
  {
    CanStep(r, s) ==> StepFits(r, done, s) && Fits(r, done + |Out(r, s)|, Left(r, s))
  }

  /** What a scan in place keeps: `before` is done, and rewriting `rest` completes it. */
  ghost predicate Scanning<T>(r: Rule<T>, original: seq<T>, before: seq<T>, rest: seq<T>) {
    && Rewrite(r, original) == before + Rewrite(r, rest)
    && (Fits(r, 0, original) <==> Fits(r, |before|, rest))
  }

  lemma ScanStarts<T>(r: Rule<T>, text: seq<T>)
    ensures Scanning(r, text, [], text)
  {
  }

  lemma ScanMoves<T>(r: Rule<T>, original: seq<T>, before: seq<T>, rest: seq<T>)
    requires Scanning(r, original, before, rest) && CanStep(r, rest) && StepFits(r, |before|, rest)
    ensures Scanning(r, original, before + Out(r, rest), Left(r, rest))
  {
    var a, b := Out(r, rest), Rewrite(r, Left(r, rest));
    assert before + (a + b) == (before + a) + b;
  }

  lemma Spliced<T>(before: seq<T>, rest: seq<T>, i: nat, n: nat, w: seq<T>)
    requires i <= n <= |rest|
    ensures (before + rest)[..|before| + i] + w + (before + rest)[|before| + n..]
            == (before + (rest[..i] + w + if n < |rest| then [rest[n]] else []))
               + if n < |rest| then rest[n + 1..] else []
  {
    assert (before + rest)[..|before| + i] == before + rest[..i];
    assert (before + rest)[|before| + n..] == rest[n..];
    if n < |rest| {
      assert rest[n..] == [rest[n]] + rest[n + 1..];
    }
  }

  lemma TokenParts<T>(r: Rule<T>, before: seq<T>, rest: seq<T>, i: nat, n: nat, w: seq<T>)
    requires r.cut(rest) == Token(i, n) && i < n <= |rest| && w == r.replace(rest[i..n])
    ensures var b, l := before + Out(r, rest), Left(r, rest);
            && (before + rest)[..|before| + i] + w + (before + rest)[|before| + n..] == b + l
            && |b| == |before| + i + |w| + (if n < |rest| then 1 else 0) && (n == |rest| ==> l == [])
  {
    Spliced(before, rest, i, n, w);
  }

  /** A token replaced in place: the text in its two parts again. */
  lemma TokenInPlace<T>(r: Rule<T>, original: seq<T>, before: seq<T>, rest: seq<T>, i: nat, n: nat,
                        w: seq<T>, text: seq<T>, next: nat)
    requires Scanning(r, original, before, rest) && r.cut(rest) == Token(i, n) && i < n <= |rest|
    requires StepFits(r, |before|, rest) && w == r.replace(rest[i..n]) && next == |before| + i + 1 + |w|
    requires text == (before + rest)[..|before| + i] + w + (before + rest)[|before| + n..]
    ensures var b, l := before + Out(r, rest), Left(r, rest);
            && Scanning(r, original, b, l) && text == b + l
            && (next == |b| || (next == |b| + 1 && l == []))
  {
    ScanMoves(r, original, before, rest);
    TokenParts(r, before, rest, i, n, w);
  }

  lemma TokenDoesNotFit<T>(r: Rule<T>, original: seq<T>, before: seq<T>, rest: seq<T>)
    requires Scanning(r, original, before, rest) && HasToken(r, rest) && !StepFits(r, |before|, rest)
    ensures !Fits(r, 0, original)
  {
  }

  lemma ScanEnds<T>(r: Rule<T>, original: seq<T>, before: seq<T>, rest: seq<T>)
    requires Scanning(r, original, before, rest) && !CanStep(r, rest)
    ensures Rewrite(r, original) == before + rest && Fits(r, 0, original)
  {
  }

  // ----- What a rule has to satisfy step by step, to hold of whole texts

  /** Met again in a rewritten text, a step does nothing new. */
  ghost predicate StableAt<T(!new)>(r: Rule<T>, s: seq<T>, x: seq<T>)
    requires CanStep(r, s)
  {
    var t := Out(r, s) + x;
    CanStep(r, t) ==> Out(r, t) == Out(r, s) && Left(r, t) == x
  }

  lemma {:induction false} Idempotent<T(!new)>(r: Rule<T>, s: seq<T>)
    requires forall t: seq<T>, x: seq<T> :: CanStep(r, t) && (Left(r, t) == [] ==> x == []) ==> StableAt(r, t, x)
    ensures Rewrite(r, Rewrite(r, s)) == Rewrite(r, s)
    decreases |s|
  {
    if CanStep(r, s) {
      var x := Rewrite(r, Left(r, s));
      Idempotent(r, Left(r, s));
      assert StableAt(r, s, x);
    }
  }

  /** A property of rewritten texts, built up from the back. */
  lemma {:induction false} Established<T(!new)>(r: Rule<T>, p: seq<T> -> bool, s: seq<T>)
    requires forall t: seq<T> :: !CanStep(r, t) ==> p(t)
    requires forall t: seq<T>, x: seq<T> :: CanStep(r, t) && (Left(r, t) == [] ==> x == []) && p(x) ==> p(Out(r, t) + x)
    ensures p(Rewrite(r, s))
    decreases |s|
  {
    if CanStep(r, s) {
      Established(r, p, Left(r, s));
    }
  }

  /** A function that follows the steps is the rewriter. */
  lemma {:induction false} Unique<T(!new)>(r: Rule<T>, f: seq<T> -> seq<T>, s: seq<T>)
    requires forall t: seq<T> :: f(t) == if CanStep(r, t) then Out(r, t) + f(Left(r, t)) else t
    ensures Rewrite(r, s) == f(s)
    decreases |s|
  {
    if CanStep(r, s) {
      Unique(r, f, Left(r, s));
    }
  }

  /** Elements that every step keeps, the rewriter keeps. */
  lemma {:induction false} Keeps<T(!new)>(r: Rule<T>, f: T -> bool, s: seq<T>)
    requires forall t: seq<T> :: CanStep(r, t) ==> Matching(f, Out(r, t)) + Matching(f, Left(r, t)) == Matching(f, t)
    ensures Matching(f, Rewrite(r, s)) == Matching(f, s)
    decreases |s|
  {
    if CanStep(r, s) {
      Keeps(r, f, Left(r, s));
      MatchingConcat(f, Out(r, s), Rewrite(r, Left(r, s)));
    }
  }
}
