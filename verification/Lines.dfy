/** The complete lines of a text, over any elements and any line ends. */
module Lines {
  import opened Slices
  import opened Words

  function LinesOf<T>(end: T -> bool, s: seq<T>): seq<seq<T>>
    decreases |s|
  {
    var n := WordLen(end, s);
    if n == |s| then [] else [s[..n]] + LinesOf(end, s[n + 1..])
  }

  lemma LineFirst<T>(end: T -> bool, line: seq<T>, d: T, rest: seq<T>)
    requires FreeOf(end, line) && end(d)
    ensures LinesOf(end, (line + [d]) + rest) == [line] + LinesOf(end, rest)
  {
    var y := [d] + rest;
    Assoc(line, [d], rest);
    WordLenIs(end, line, y);
    assert (line + y)[|line| + 1..] == rest;
  }

  lemma NoLine<T>(end: T -> bool, s: seq<T>)
    requires FreeOf(end, s)
    ensures LinesOf(end, s) == []
  {
    WordLenIs(end, s, []);
    assert s + [] == s;
  }

  predicate Terminated<T>(end: T -> bool, s: seq<T>) {
    s == [] || end(s[|s| - 1])
  }

  /** Complete lines read the same, whatever follows them. */
  lemma {:induction false} LinesAppend<T>(end: T -> bool, a: seq<T>, b: seq<T>)
    requires Terminated(end, a)
    ensures LinesOf(end, a + b) == LinesOf(end, a) + LinesOf(end, b)
    decreases |a|
  {
    if a == [] {
      assert a + b == b;
    } else {
      var w, d, rest := FrontWord(end, a);
      Assoc(w + [d], rest, b);
      LineFirst(end, w, d, rest);
      LineFirst(end, w, d, rest + b);
      LinesAppend(end, rest, b);
      Assoc([w], LinesOf(end, rest), LinesOf(end, b));
    }
  }

  /** Up to and with the last line end. */
  function LastEnd<T>(end: T -> bool, s: seq<T>): (n: nat)
    ensures n <= |s|
  {
    if s == [] || end(s[|s| - 1]) then |s| else LastEnd(end, s[..|s| - 1])
  }

  lemma {:induction false} LastEndSpec<T>(end: T -> bool, s: seq<T>)
    ensures var n := LastEnd(end, s); Terminated(end, s[..n]) && FreeOf(end, s[n..])
  {
    if s != [] && !end(s[|s| - 1]) {
      var front := s[..|s| - 1];
      LastEndSpec(end, front);
      var n := LastEnd(end, s);
      assert front[..n] == s[..n] && s[n..] == front[n..] + [s[|s| - 1]];
    }
  }

  /** The first line end from `start` on, or the length. */
  function EndFrom<T>(end: T -> bool, s: seq<T>, start: nat): (n: nat)
    requires start <= |s|
    ensures start <= n <= |s|
  {
    start + WordLen(end, s[start..])
  }

  lemma LineAt<T>(end: T -> bool, s: seq<T>, k: nat, line: seq<T>, rest: seq<T>)
    requires k == WordLen(end, s) < |s| && line == s[..k] && rest == s[k + 1..]
    ensures LinesOf(end, s) == [line] + LinesOf(end, rest)
  {
  }

  lemma LinesFrom<T>(end: T -> bool, s: seq<T>, start: nat, n: nat)
    requires start <= |s| && n == EndFrom(end, s, start)
    ensures n < |s| ==> LinesOf(end, s[start..]) == [s[start..n]] + LinesOf(end, s[n + 1..])
    ensures n == |s| ==> LinesOf(end, s[start..]) == []
  {
    var k := n - start;
    if n < |s| {
      DropTake(s, start, k);
      DropTake(s, start, k + 1);
      LineAt(end, s[start..], k, s[start..n], s[n + 1..]);
    }
  }
}
