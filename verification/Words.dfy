/** Texts treated word by word, over any delimiters and any treatment: a word is treated knowing
    whether it is open, which depends on the delimiter before it and on the word before that. */
module Words {
  import opened Slices

  /** The length of the word at the front. */
  function WordLen<T>(delim: T -> bool, s: seq<T>): (n: nat)
    ensures n <= |s|
  {
    if s == [] || delim(s[0]) then 0 else 1 + WordLen(delim, s[1..])
  }

  ghost predicate FreeOf<T>(f: T -> bool, s: seq<T>) {
    forall i :: 0 <= i < |s| ==> !f(s[i])
  }

  ghost predicate Starts<T>(f: T -> bool, s: seq<T>) {
    s == [] || f(s[0])
  }

  lemma {:induction false} WordLenIs<T>(delim: T -> bool, w: seq<T>, y: seq<T>)
    requires FreeOf(delim, w) && Starts(delim, y)
    ensures WordLen(delim, w + y) == |w| && (w + y)[..|w|] == w && (w + y)[|w|..] == y
  {
    if w == [] {
      assert w + y == y;
    } else {
      assert (w + y)[1..] == w[1..] + y;
      WordLenIs(delim, w[1..], y);
    }
  }

  lemma {:induction false} WordLenSpec<T>(delim: T -> bool, s: seq<T>)
    ensures var n := WordLen(delim, s); FreeOf(delim, s[..n]) && Starts(delim, s[n..]) && s == s[..n] + s[n..]
  {
    if s != [] && !delim(s[0]) {
      WordLenSpec(delim, s[1..]);
      CutCons(s, WordLen(delim, s[1..]));
    }
  }

  /** How words are treated: what becomes of a word, whether that counts as looking at it, and which
      delimiters open the next word. */
  datatype Treatment<!T> = Treatment(delim: T -> bool, opens: T -> bool,
                                     word: (seq<T>, bool) -> seq<T>, looks: (seq<T>, bool) -> bool)

  function ByWords<T>(p: Treatment<T>, s: seq<T>, open: bool): seq<T>
    decreases |s|, 1
  {
    var n := WordLen(p.delim, s);
    p.word(s[..n], open) + Behind(p, s[n..], p.looks(s[..n], open))
  }

  /** What follows a word: its delimiter and the words behind it. */
  function Behind<T>(p: Treatment<T>, y: seq<T>, looked: bool): seq<T>
    decreases |y|, 0
  {
    if y == [] then [] else [y[0]] + ByWords(p, y[1..], p.opens(y[0]) || looked)
  }

  lemma FirstWord<T>(p: Treatment<T>, w: seq<T>, y: seq<T>, open: bool)
    requires FreeOf(p.delim, w) && Starts(p.delim, y)
    ensures ByWords(p, w + y, open) == p.word(w, open) + Behind(p, y, p.looks(w, open))
  {
    WordLenIs(p.delim, w, y);
  }

  /** A word whose front `c` stays, and whose rest is treated like an open word. */
  lemma Inside<T>(p: Treatment<T>, c: seq<T>, x: seq<T>, open: bool)
    requires FreeOf(p.delim, c)
    requires var u := x[..WordLen(p.delim, x)];
             p.word(c + u, open) == c + p.word(u, true) && p.looks(c + u, open) == p.looks(u, true)
    ensures ByWords(p, c + x, open) == c + ByWords(p, x, true)
  {
    var n := WordLen(p.delim, x);
    var u, y := x[..n], x[n..];
    WordLenSpec(p.delim, x);
    Assoc(c, u, y);
    FirstWord(p, c + u, y, open);
    Assoc(c, p.word(u, true), Behind(p, y, p.looks(u, true)));
  }

  /** Words free of `mark` stay and are not looked at. */
  ghost predicate Ignores<T(!new)>(p: Treatment<T>, mark: T -> bool) {
    forall w: seq<T>, open: bool :: FreeOf(mark, w) ==> p.word(w, open) == w && !p.looks(w, open)
  }

  lemma PlainWord<T(!new)>(p: Treatment<T>, mark: T -> bool, w: seq<T>, d: T, z: seq<T>, open: bool)
    requires Ignores(p, mark) && FreeOf(mark, w) && FreeOf(p.delim, w) && p.delim(d)
    ensures ByWords(p, (w + [d]) + z, open) == (w + [d]) + ByWords(p, z, p.opens(d))
  {
    Assoc(w, [d], z);
    assert ([d] + z)[0] == d && ([d] + z)[1..] == z;
    FirstWord(p, w, [d] + z, open);
    Assoc(w, [d], ByWords(p, z, p.opens(d)));
  }

  /** A text that ends in a delimiter begins with a word and its delimiter. */
  lemma FrontWord<T>(delim: T -> bool, a: seq<T>) returns (w: seq<T>, d: T, b: seq<T>)
    requires a != [] && delim(a[|a| - 1])
    ensures a == (w + [d]) + b && FreeOf(delim, w) && delim(d)
    ensures a[|a| - 1] == if b == [] then d else b[|b| - 1]
  {
    var n := WordLen(delim, a);
    WordLenSpec(delim, a);
    w := a[..n];
    assert n == |a| ==> w == a;
    d, b := a[n], a[n + 1..];
  }

  lemma FreeOfParts<T>(f: T -> bool, a: seq<T>, b: seq<T>)
    ensures FreeOf(f, a + b) <==> FreeOf(f, a) && FreeOf(f, b)
  {
    if FreeOf(f, a + b) {
      forall i | 0 <= i < |a|
        ensures !f(a[i])
      {
        assert (a + b)[i] == a[i];
      }
      forall i | 0 <= i < |b|
        ensures !f(b[i])
      {
        assert (a + b)[|a| + i] == b[i];
      }
    }
  }

  lemma {:induction false} PlainWords<T(!new)>(p: Treatment<T>, mark: T -> bool, a: seq<T>, z: seq<T>, open: bool)
    requires Ignores(p, mark) && FreeOf(mark, a) && a != [] && p.delim(a[|a| - 1])
    ensures ByWords(p, a + z, open) == a + ByWords(p, z, p.opens(a[|a| - 1]))
    decreases |a|
  {
    var w, d, b := FrontWord(p.delim, a);
    FreeOfParts(mark, w + [d], b);
    FreeOfParts(mark, w, [d]);
    Assoc(w + [d], b, z);
    PlainWord(p, mark, w, d, b + z, open);
    if b == [] {
      assert b + z == z && a == w + [d];
    } else {
      PlainWords(p, mark, b, z, p.opens(d));
      Assoc(w + [d], b, ByWords(p, z, p.opens(a[|a| - 1])));
    }
  }

  /** Every word stays as it is. */
  ghost predicate AllStay<T>(p: Treatment<T>, s: seq<T>, open: bool)
    decreases |s|
  {
    var n := WordLen(p.delim, s);
    && p.word(s[..n], open) == s[..n]
    && (n < |s| ==> AllStay(p, s[n + 1..], p.opens(s[n]) || p.looks(s[..n], open)))
  }

  lemma StayStep<T>(p: Treatment<T>, s: seq<T>, open: bool)
    requires var n := WordLen(p.delim, s);
             && p.word(s[..n], open) == s[..n]
             && (n < |s| ==> AllStay(p, s[n + 1..], p.opens(s[n]) || p.looks(s[..n], open)))
    ensures AllStay(p, s, open)
  {
  }

  lemma {:induction false} Untouched<T>(p: Treatment<T>, s: seq<T>, open: bool)
    requires AllStay(p, s, open)
    ensures ByWords(p, s, open) == s
    decreases |s|
  {
    var n := WordLen(p.delim, s);
    if n < |s| {
      assert s[n..][1..] == s[n + 1..];
      Untouched(p, s[n + 1..], p.opens(s[n]) || p.looks(s[..n], open));
      assert s[..n] + ([s[n]] + s[n + 1..]) == s;
    }
  }

  /** The words of a text and the beginning of one more. */
  lemma {:induction false} LastWord<T>(delim: T -> bool, a: seq<T>) returns (b: seq<T>, c: seq<T>)
    ensures a == b + c && FreeOf(delim, c) && (b != [] ==> delim(b[|b| - 1]))
  {
    if a == [] || delim(a[|a| - 1]) {
      b, c := a, [];
    } else {
      b, c := LastWord(delim, a[..|a| - 1]);
      c := c + [a[|a| - 1]];
    }
  }

  /** Every word of a text is of a kind. */
  ghost predicate AllWords<T>(delim: T -> bool, kind: seq<T> -> bool, s: seq<T>)
    decreases |s|
  {
    var n := WordLen(delim, s);
    kind(s[..n]) && (n < |s| ==> AllWords(delim, kind, s[n + 1..]))
  }

  /** Every word of a text is of a kind, which may depend on whether the treatment finds it open. */
  ghost predicate AllTreated<T>(p: Treatment<T>, kind: (seq<T>, bool) -> bool, s: seq<T>, open: bool)
    decreases |s|
  {
    var n := WordLen(p.delim, s);
    && kind(s[..n], open)
    && (n < |s| ==> AllTreated(p, kind, s[n + 1..], p.opens(s[n]) || p.looks(s[..n], open)))
  }

  /** Treated words hold no delimiter, and no word comes of none. */
  ghost predicate KeepsApart<T(!new)>(p: Treatment<T>) {
    && (forall w: seq<T>, open: bool :: FreeOf(p.delim, w) ==> FreeOf(p.delim, p.word(w, open)))
    && (forall open: bool :: p.word([], open) == [])
  }

  lemma SameSplit<T>(delim: T -> bool, v: seq<T>, w: seq<T>, d: T, x: seq<T>, y: seq<T>)
    requires FreeOf(delim, v) && FreeOf(delim, w) && delim(d)
    ensures v + ([d] + x) == w + ([d] + y) <==> v == w && x == y
  {
    WordLenIs(delim, v, [d] + x);
    WordLenIs(delim, w, [d] + y);
    assert ([d] + x)[1..] == x && ([d] + y)[1..] == y;
  }

  /** A treatment and one that does not care whether words are open agree on a text exactly when they
      agree on every word of it. */
  lemma {:induction false} AgreeIff<T(!new)>(p: Treatment<T>, q: Treatment<T>, agree: (seq<T>, bool) -> bool, s: seq<T>,
                                             open: bool, open': bool)
    requires p.delim == q.delim && KeepsApart(p) && KeepsApart(q)
    requires forall w: seq<T>, o: bool, o': bool :: agree(w, o) <==> p.word(w, o) == q.word(w, o')
    ensures ByWords(p, s, open) == ByWords(q, s, open') <==> AllTreated(p, agree, s, open)
    decreases |s|
  {
    var n := WordLen(p.delim, s);
    WordLenSpec(p.delim, s);
    var w := s[..n];
    if n == |s| {
      assert s[n..] == [];
      assert p.word(w, open) + [] == p.word(w, open) && q.word(w, open') + [] == q.word(w, open');
    } else {
      var d, x := s[n], s[n + 1..];
      assert s[n..][0] == d && s[n..][1..] == x;
      var next, next' := p.opens(d) || p.looks(w, open), q.opens(d) || q.looks(w, open');
      SameSplit(p.delim, p.word(w, open), q.word(w, open'), d, ByWords(p, x, next), ByWords(q, x, next'));
      AgreeIff(p, q, agree, x, next, next');
    }
  }

  /** Where every delimiter but a last one opens the next word, all words are open. */
  lemma {:induction false} AllOpen<T(!new)>(p: Treatment<T>, kind: (seq<T>, bool) -> bool, open: seq<T> -> bool,
                                            s: seq<T>)
    requires forall w: seq<T> :: open(w) <==> kind(w, true)
    requires forall o: bool :: kind([], o)
    requires forall i :: 0 <= i < |s| - 1 && p.delim(s[i]) ==> p.opens(s[i])
    ensures AllTreated(p, kind, s, true) <==> AllWords(p.delim, open, s)
    decreases |s|
  {
    var n := WordLen(p.delim, s);
    WordLenSpec(p.delim, s);
    if n < |s| {
      var x := s[n + 1..];
      assert s[n] == s[n..][0];
      AllOpen(p, kind, open, x);
      if x == [] {
        assert x[..0] == x;
      }
    }
  }
}
