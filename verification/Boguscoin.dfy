/** The Boguscoin rewriter of the mob-in-the-middle proxy (find_and_replace_boguscoin_address): an
    in-place scan over a bounded buffer whose length changes as it goes. */
module Boguscoin {
  import opened Rewriting
  import opened Slices
  import opened Partition
  import opened Words

  const CAPACITY := 1024
  const MIN_LEN := 26
  const MAX_LEN := 35
  const ADDRESS := "7YWHMfk9JZe0LM0g1ZauHuiSxhI"

  predicate Alphanumeric(c: char) {
    '0' <= c <= '9' || 'A' <= c <= 'Z' || 'a' <= c <= 'z'
  }

  predicate Delimiter(c: char) {
    c == ' ' || c == '\n'
  }

  predicate AllAlphanumeric(w: string) {
    forall i :: 0 <= i < |w| ==> Alphanumeric(w[i])
  }

  predicate NoDelimiter(w: string) {
    forall i :: 0 <= i < |w| ==> !Delimiter(w[i])
  }

  predicate NoSeven(w: string) {
    forall i :: 0 <= i < |w| ==> w[i] != '7'
  }

  predicate IsAddress(w: string) {
    MIN_LEN <= |w| <= MAX_LEN && w[0] == '7' && AllAlphanumeric(w)
  }

  lemma FixedAddress()
    ensures IsAddress(ADDRESS) && |ADDRESS| == 27 && NoDelimiter(ADDRESS)
  {
  }

  /** Where the first '7' is, or the length. */
  function FirstSeven(s: string): (i: nat)
    ensures i <= |s|
  {
    if s == "" || s[0] == '7' then 0 else 1 + FirstSeven(s[1..])
  }

  /** The length of the token at the front. */
  function TokenLen(s: string): (n: nat)
    ensures n <= |s|
  {
    WordLen(Delimiter, s)
  }

  lemma {:induction false} FirstSevenIs(s: string, i: nat)
    requires i <= |s| && NoSeven(s[..i]) && (i < |s| ==> s[i] == '7')
    ensures FirstSeven(s) == i
  {
    if i > 0 {
      assert s[0] == s[..i][0];
      assert s[1..][..i - 1] == s[..i][1..];
      FirstSevenIs(s[1..], i - 1);
    }
  }

  lemma {:induction false} FirstSevenSpec(s: string)
    ensures var i := FirstSeven(s); NoSeven(s[..i]) && (i < |s| ==> s[i] == '7')
  {
    if s != "" && s[0] != '7' {
      FirstSevenSpec(s[1..]);
      assert s[..FirstSeven(s)] == [s[0]] + s[1..][..FirstSeven(s[1..])];
    }
  }

  lemma TokenLenIs(s: string, n: nat)
    requires n <= |s| && NoDelimiter(s[..n]) && (n < |s| ==> Delimiter(s[n]))
    ensures TokenLen(s) == n
  {
    WordLenIs(Delimiter, s[..n], s[n..]);
    assert s[..n] + s[n..] == s;
  }

  lemma TokenLenSpec(s: string)
    ensures var n := TokenLen(s); NoDelimiter(s[..n]) && (n < |s| ==> Delimiter(s[n]))
  {
    WordLenSpec(Delimiter, s);
    var n := TokenLen(s);
    assert n < |s| ==> s[n..][0] == s[n];
  }

  /** What becomes of a token that the scan looks at from its '7' on. */
  function Replaced(address: string, w: string): string {
    if IsAddress(w) then address else w
  }

  /** What the scan does with the slice in front of it. */
  function CutOf(s: string): Cut {
    var i := FirstSeven(s);
    if i + MIN_LEN > |s| then Rest
    else if i != 0 && s[i - 1] != ' ' then Skip(i + 1)
    else Token(i, TokenEnd(s, i))
  }

  function RuleFor(address: string): Rule<char> {
    Rule(CutOf, (w: string) => Replaced(address, w), CAPACITY)
  }

  /** The rewritten message. */
  function Rewritten(address: string, s: string): string {
    Rewrite(RuleFor(address), s)
  }

  /** The end of the token at `i`. */
  function TokenEnd(s: string, i: nat): (n: nat)
    requires i <= |s|
    ensures i <= n <= |s|
  {
    i + TokenLen(s[i..])
  }

  lemma TokenEndSpec(s: string, i: nat)
    requires i <= |s|
    ensures var n := TokenEnd(s, i); NoDelimiter(s[i..n]) && (n < |s| ==> Delimiter(s[n]))
  {
    TokenLenSpec(s[i..]);
    DropTake(s, i, TokenLen(s[i..]));
    if TokenEnd(s, i) < |s| {
      assert s[TokenEnd(s, i)] == s[i..][TokenLen(s[i..])];
    }
  }

  lemma TokenEndIs(s: string, i: nat, n: nat)
    requires i <= n <= |s| && (forall j :: i <= j < n ==> !Delimiter(s[j])) && (n < |s| ==> Delimiter(s[n]))
    ensures TokenEnd(s, i) == n
  {
    DropTake(s, i, n - i);
    TokenLenIs(s[i..], n - i);
  }

  lemma CutSkip(s: string)
    requires CutOf(s).Skip?
    ensures var i := FirstSeven(s);
            i + MIN_LEN <= |s| && NoSeven(s[..i]) && s[i] == '7' && 0 < i && s[i - 1] != ' ' && CutOf(s) == Skip(i + 1)
  {
    FirstSevenSpec(s);
  }

  lemma CutToken(s: string)
    requires CutOf(s).Token?
    ensures var i := FirstSeven(s);
            var n := TokenEnd(s, i);
            && i + MIN_LEN <= |s| && NoSeven(s[..i]) && s[i] == '7' && (i > 0 ==> s[i - 1] == ' ')
            && CutOf(s) == Token(i, n) && i < n
            && NoDelimiter(s[i..n]) && (n < |s| ==> Delimiter(s[n]))
  {
    FirstSevenSpec(s);
    TokenEndSpec(s, FirstSeven(s));
  }

  lemma CutSteps(address: string, s: string)
    ensures CanStep(RuleFor(address), s) <==> !CutOf(s).Rest?
    ensures CutOf(s).Rest? <==> FirstSeven(s) + MIN_LEN > |s|
  {
    if CutOf(s).Token? {
      CutToken(s);
    } else if CutOf(s).Skip? {
      CutSkip(s);
    }
  }

  class BoundedText {
    var text: string

    ghost predicate Valid()
      reads this
    {
      |text| <= CAPACITY
    }

    constructor (text: string)
      requires |text| <= CAPACITY
      ensures Valid() && this.text == text
    {
      this.text := text;
    }

    /** replaceRange of the bounded array: fails when the result would not fit. */
    method ReplaceRange(start: nat, len: nat, items: string) returns (ok: bool)
      requires Valid() && start + len <= |text|
      modifies this
      ensures Valid()
      ensures ok <==> |old(text)| - len + |items| <= 1024
      ensures ok ==> text == old(text)[..start] + items + old(text)[start + len..]
    {
      ok := |text| - len + |items| <= CAPACITY;
      if ok { text := text[..start] + items + text[start + len..]; }
    }

    /** The scan. It ends although the text may grow, because what is left to scan shrinks. */
    method FindAndReplace(address: string) returns (ok: bool)
      requires Valid() && IsAddress(address)
      modifies this
      ensures Valid()
      ensures ok <==> Fits(RuleFor(address), 0, old(text))
      ensures ok ==> text == Rewritten(address, old(text))
    {
      ghost var original, before, rest := text, "", text;
      ScanStarts(RuleFor(address), original);
      var start, more := 0, true;
      while start < |text| && more
        invariant Valid() && text == before + rest && Scanning(RuleFor(address), original, before, rest)
        invariant 0 <= start && (start == |before| || (start == |before| + 1 && rest == ""))
        invariant !more ==> CutOf(rest).Rest?
        decreases |rest|, more
      {
        more := SevenAhead(start, before, rest);
        if more {
          ok, start, before, rest := Advance(address, start, original, before, rest);
          if !ok { return; }
        }
      }
      CutSteps(address, rest);
      ScanEnds(RuleFor(address), original, before, rest);
      ok := true;
    }

    /** The head of the loop body: whether there is a '7' with room for an address behind it. */
    method SevenAhead(start: nat, ghost before: string, ghost rest: string) returns (more: bool)
      requires text == before + rest && start == |before|
      ensures more <==> !CutOf(rest).Rest?
    {
      PartOfRest(before, rest, 0, 0);
      var slice := text[start..];
      var idx := FirstSeven(slice);
      if idx == |slice| { return false; }
      more := idx + MIN_LEN <= |slice|;
    }

    /** The rest of the loop body: skip a '7' inside a word, or deal with the token it starts. */
    method Advance(address: string, start: nat, ghost original: string, ghost before: string, ghost rest: string)
        returns (ok: bool, next: nat, ghost b: string, ghost l: string)
      requires Valid() && IsAddress(address) && text == before + rest && start == |before|
      requires Scanning(RuleFor(address), original, before, rest) && !CutOf(rest).Rest?
      modifies this
      ensures Valid() && (!ok ==> !Fits(RuleFor(address), 0, original))
      ensures ok ==> text == b + l && Scanning(RuleFor(address), original, b, l) && |l| < |rest|
      ensures ok ==> next == |b| || (next == |b| + 1 && l == "")
    {
      PartOfRest(before, rest, 0, 0);
      CutSteps(address, rest);
      var slice := text[start..];
      var idx := FirstSeven(slice);
      if idx != 0 && slice[idx - 1] != ' ' {
        ScanMoves(RuleFor(address), original, before, rest);
        b, l := before + Out(RuleFor(address), rest), Left(RuleFor(address), rest);
        Rejoin(rest, 0, idx + 1);
        Assoc(before, rest[..idx + 1], rest[idx + 1..]);
        return true, start + idx + 1, b, l;
      }
      CutToken(rest);
      ok, next, b, l := AdvanceOverToken(address, start, idx, original, before, rest);
    }

    method AdvanceOverToken(address: string, start: nat, idx: nat,
                            ghost original: string, ghost before: string, ghost rest: string)
        returns (ok: bool, next: nat, ghost b: string, ghost l: string)
      requires Valid() && IsAddress(address) && text == before + rest && start == |before|
      requires Scanning(RuleFor(address), original, before, rest) && CutOf(rest).Token?
      requires idx == FirstSeven(rest) < |rest| && rest[idx] == '7'
      modifies this
      ensures Valid() && (!ok ==> !Fits(RuleFor(address), 0, original))
      ensures ok ==> text == b + l && Scanning(RuleFor(address), original, b, l) && |l| < |rest|
      ensures ok ==> next == |b| || (next == |b| + 1 && l == "")
    {
      ghost var was := text;
      var len;
      ok, len := DealWithToken(address, start, idx);
      next, b, l := start + idx + 1 + len, "", "";
      if ok {
        TokenDone(address, original, before, rest, idx, was, text, len);
        b, l := before + Out(RuleFor(address), rest), Left(RuleFor(address), rest);
      } else {
        TokenTooLong(address, original, before, rest, idx, was);
      }
    }

    /** Walk the token at `idx` of the slice and replace it if it is an address; `len` is how long
        the token is afterwards. */
    method DealWithToken(address: string, start: nat, idx: nat) returns (ok: bool, len: nat)
      requires Valid() && start + idx < |text| && text[start + idx] == '7'
      modifies this
      ensures Valid()
      ensures ok <==> RoomFor(address, old(text), start, idx)
      ensures ok ==> Dealt(address, old(text), start, idx, text, len)
    {
      var slice := text[start..];
      var nidx, alphanum := WalkToken(slice, idx);
      len := nidx - idx;
      ok := true;
      TokenStart(slice, idx);
      PutBack(text, start, idx, len);
      if !alphanum && MIN_LEN <= len <= MAX_LEN {
        ok := ReplaceRange(start + idx, len, address);
        len := |address|;
      }
    }
  }

  /** The walk to the end of a token; `alphanum` is raised by a character that is not alphanumeric. */
  method WalkToken(slice: string, idx: nat) returns (nidx: nat, alphanum: bool)
    requires idx <= |slice|
    ensures nidx == TokenEnd(slice, idx)
    ensures alphanum <==> !AllAlphanumeric(slice[idx..nidx])
  {
    nidx, alphanum := idx, false;
    while nidx < |slice|
      invariant idx <= nidx <= |slice|
      invariant forall i :: idx <= i < nidx ==> !Delimiter(slice[i])
      invariant !alphanum <==> forall i :: idx <= i < nidx ==> Alphanumeric(slice[i])
    {
      if slice[nidx] == ' ' || slice[nidx] == '\n' { break; }
      if !Alphanumeric(slice[nidx]) { alphanum := true; }
      nidx := nidx + 1;
    }
    TokenEndIs(slice, idx, nidx);
    assert forall i :: idx <= i < nidx ==> slice[i] == slice[idx..nidx][i - idx];
  }

  /** Whether the text with the token at `idx` behind `start` dealt with fits the buffer. */
  ghost predicate RoomFor(address: string, was: string, start: nat, idx: nat)
    requires start + idx <= |was|
  {
    var slice := was[start..];
    var n := TokenEnd(slice, idx);
    IsAddress(slice[idx..n]) ==> |was| - (n - idx) + |address| <= CAPACITY
  }

  /** The text with that token dealt with; it is now `len` long. */
  ghost predicate Dealt(address: string, was: string, start: nat, idx: nat, text: string, len: nat)
    requires start + idx <= |was|
  {
    var slice := was[start..];
    var n := TokenEnd(slice, idx);
    var w := Replaced(address, slice[idx..n]);
    len == |w| && text == was[..start + idx] + w + was[start + n..]
  }

  lemma TokenStart(s: string, i: nat)
    requires i < |s| && s[i] == '7'
    ensures i < TokenEnd(s, i) && s[i..TokenEnd(s, i)][0] == '7'
  {
  }

  lemma TokenFits(address: string, before: string, rest: string)
    requires IsAddress(address) && CutOf(rest).Token? && |before + rest| <= CAPACITY
    ensures var i := FirstSeven(rest);
            var n := TokenEnd(rest, i);
            && HasToken(RuleFor(address), rest)
            && (StepFits(RuleFor(address), |before|, rest)
                <==> (IsAddress(rest[i..n]) ==> |before| + |rest| - (n - i) + |address| <= CAPACITY))
  {
    CutToken(rest);
  }

  lemma TokenDone(address: string, original: string, before: string, rest: string, i: nat,
                  was: string, text: string, len: nat)
    requires IsAddress(address) && Scanning(RuleFor(address), original, before, rest)
    requires was == before + rest && |was| <= CAPACITY && CutOf(rest).Token? && i == FirstSeven(rest)
    requires RoomFor(address, was, |before|, i) && Dealt(address, was, |before|, i, text, len)
    ensures CanStep(RuleFor(address), rest)
    ensures var b, l := before + Out(RuleFor(address), rest), Left(RuleFor(address), rest);
            var next := |before| + i + 1 + len;
            && Scanning(RuleFor(address), original, b, l) && text == b + l
            && (next == |b| || (next == |b| + 1 && l == ""))
  {
    PartOfRest(before, rest, 0, 0);
    CutSteps(address, rest);
    CutToken(rest);
    TokenFits(address, before, rest);
    var n := TokenEnd(rest, i);
    TokenInPlace(RuleFor(address), original, before, rest, i, n,
                 Replaced(address, rest[i..n]), text, |before| + i + 1 + len);
  }

  lemma TokenTooLong(address: string, original: string, before: string, rest: string, i: nat, was: string)
    requires IsAddress(address) && Scanning(RuleFor(address), original, before, rest)
    requires was == before + rest && |was| <= CAPACITY && CutOf(rest).Token? && i == FirstSeven(rest)
    requires !RoomFor(address, was, |before|, i)
    ensures !Fits(RuleFor(address), 0, original)
  {
    PartOfRest(before, rest, 0, 0);
    TokenFits(address, before, rest);
    TokenDoesNotFit(RuleFor(address), original, before, rest);
  }

  // ----- The shapes of a slice

  /** Nothing the scan would take for the start of an address, then a '7' inside a word. */
  predicate EndsInside(a: string) {
    NoSeven(a) && a != "" && a[|a| - 1] != ' '
  }

  /** Nothing with a '7', up to the start of the text or a space. */
  predicate EndsOpen(a: string) {
    NoSeven(a) && (a == "" || a[|a| - 1] == ' ')
  }

  /** A word that starts with '7', with nothing or a delimiter behind it. */
  predicate SevenWord(w: string, y: string) {
    w != "" && w[0] == '7' && NoDelimiter(w) && (y == "" || Delimiter(y[0]))
  }

  lemma SkipShape(a: string, x: string)
    requires EndsInside(a)
    ensures CutOf(a + "7" + x) == if |a| + 1 + |x| < |a| + MIN_LEN then Rest else Skip(|a| + 1)
    ensures (a + "7" + x)[..|a| + 1] == a + "7" && (a + "7" + x)[|a| + 1..] == x
  {
    var t := a + "7" + x;
    assert t[..|a|] == a && t[|a|] == '7';
    FirstSevenIs(t, |a|);
    assert t[|a| - 1] == a[|a| - 1];
  }

  lemma TokenShape(a: string, w: string, y: string)
    requires EndsOpen(a) && SevenWord(w, y)
    ensures CutOf(a + w + y) == if |w| + |y| < MIN_LEN then Rest else Token(|a|, |a| + |w|)
    ensures var t, n := a + w + y, |a| + |w|; t[..|a|] == a && t[|a|..n] == w && t[n..] == y
  {
    var t := a + w + y;
    assert t[..|a|] == a && t[|a|] == '7';
    FirstSevenIs(t, |a|);
    if a != "" {
      assert t[|a| - 1] == a[|a| - 1];
    }
    var u := t[|a|..];
    assert u == w + y && u[..|w|] == w;
    TokenLenIs(u, |w|);
  }

  function DelimiterOf(y: string): string {
    if y == "" then "" else [y[0]]
  }

  function AfterDelimiter(y: string): string {
    if y == "" then "" else y[1..]
  }

  lemma SkipStep(address: string, a: string, x: string)
    requires EndsInside(a) && 1 + |x| >= MIN_LEN
    ensures var r, t := RuleFor(address), a + "7" + x; CanStep(r, t) && Out(r, t) == a + "7" && Left(r, t) == x
  {
    SkipShape(a, x);
  }

  lemma TokenStep(address: string, a: string, w: string, y: string)
    requires EndsOpen(a) && SevenWord(w, y) && |w| + |y| >= MIN_LEN
    ensures var r, t := RuleFor(address), a + w + y;
            CanStep(r, t) && Out(r, t) == a + Replaced(address, w) + DelimiterOf(y) && Left(r, t) == AfterDelimiter(y)
  {
    var t := a + w + y;
    TokenShape(a, w, y);
    if y != "" {
      assert t[|a| + |w|] == t[|a| + |w|..][0] && t[|a| + |w| + 1..] == t[|a| + |w|..][1..];
    }
  }

  /** Every slice the scan can step on has one of the two shapes. */
  lemma Shapes(address: string, s: string) returns (skips: bool, a: string, w: string, y: string)
    requires CanStep(RuleFor(address), s)
    ensures skips ==> EndsInside(a) && s == a + "7" + y && 1 + |y| >= MIN_LEN
    ensures !skips ==> EndsOpen(a) && SevenWord(w, y) && s == a + w + y && |w| + |y| >= MIN_LEN
  {
    CutSteps(address, s);
    var i := FirstSeven(s);
    skips := CutOf(s).Skip?;
    a, w, y := s[..i], "", "";
    if skips {
      CutSkip(s);
      y := s[i + 1..];
      assert a[|a| - 1] == s[i - 1];
    } else {
      CutToken(s);
      var n := TokenEnd(s, i);
      w, y := s[i..n], s[n..];
      Rejoin(s, i, n);
      assert i > 0 ==> a[|a| - 1] == s[i - 1];
    }
  }

  // ----- Rewriting twice changes nothing more

  lemma ReplacedTwice(address: string, w: string, y: string)
    requires IsAddress(address) && SevenWord(w, y)
    ensures SevenWord(Replaced(address, w), y) && Replaced(address, Replaced(address, w)) == Replaced(address, w)
  {
  }

  lemma SkipAgain(address: string, a: string, x: string)
    requires EndsInside(a)
    ensures var r, t := RuleFor(address), a + "7" + x; CanStep(r, t) ==> Out(r, t) == a + "7" && Left(r, t) == x
  {
    SkipShape(a, x);
    CutSteps(address, a + "7" + x);
    if 1 + |x| >= MIN_LEN {
      SkipStep(address, a, x);
    }
  }

  lemma DelimiterFirst(d: string, x: string)
    requires |d| <= 1 && (d == "" ==> x == "")
    ensures DelimiterOf(d + x) == d && AfterDelimiter(d + x) == x && (d + x == "" || (d != "" && (d + x)[0] == d[0]))
  {
    if d != "" {
      assert (d + x)[1..] == x;
    }
  }

  lemma TokenAgain(address: string, a: string, w: string, d: string, x: string)
    requires EndsOpen(a) && SevenWord(w, d) && Replaced(address, w) == w && |d| <= 1 && (d == "" ==> x == "")
    ensures var r, t := RuleFor(address), a + w + d + x;
            CanStep(r, t) ==> Out(r, t) == a + w + d && Left(r, t) == x
  {
    var t := a + w + d + x;
    Assoc(a + w, d, x);
    DelimiterFirst(d, x);
    TokenShape(a, w, d + x);
    CutSteps(address, t);
    if |w| + |d + x| >= MIN_LEN {
      TokenStep(address, a, w, d + x);
    }
  }

  lemma Stable(address: string, s: string, x: string)
    requires IsAddress(address) && CanStep(RuleFor(address), s) && (Left(RuleFor(address), s) == "" ==> x == "")
    ensures StableAt(RuleFor(address), s, x)
  {
    var skips, a, w, y := Shapes(address, s);
    if skips {
      SkipStep(address, a, y);
      SkipAgain(address, a, x);
    } else {
      TokenStep(address, a, w, y);
      ReplacedTwice(address, w, y);
      TokenAgain(address, a, Replaced(address, w), DelimiterOf(y), x);
    }
  }

  lemma RewrittenTwice(address: string, s: string)
    requires IsAddress(address)
    ensures Rewritten(address, Rewritten(address, s)) == Rewritten(address, s)
  {
    forall t, x | CanStep(RuleFor(address), t) && (Left(RuleFor(address), t) == "" ==> x == "")
      ensures StableAt(RuleFor(address), t, x)
    {
      Stable(address, t, x);
    }
    Idempotent(RuleFor(address), s);
  }

  // ----- Spaces and newlines stay

  lemma WordsKeepDelimiters(a: string, w: string, v: string, d: string, x: string)
    requires NoDelimiter(w) && NoDelimiter(v)
    ensures Matching(Delimiter, a + v + d) + Matching(Delimiter, x) == Matching(Delimiter, a + w + (d + x))
  {
    MatchingNone(Delimiter, w);
    MatchingNone(Delimiter, v);
    MatchingConcat(Delimiter, a + v, d);
    MatchingConcat(Delimiter, a, v);
    MatchingConcat(Delimiter, a + w, d + x);
    MatchingConcat(Delimiter, a, w);
    MatchingConcat(Delimiter, d, x);
  }

  lemma StepKeepsDelimiters(address: string, s: string)
    requires IsAddress(address) && CanStep(RuleFor(address), s)
    ensures var r := RuleFor(address);
            Matching(Delimiter, Out(r, s)) + Matching(Delimiter, Left(r, s)) == Matching(Delimiter, s)
  {
    var skips, a, w, y := Shapes(address, s);
    if skips {
      SkipStep(address, a, y);
      MatchingConcat(Delimiter, a + "7", y);
    } else {
      TokenStep(address, a, w, y);
      ReplacedTwice(address, w, y);
      WordsKeepDelimiters(a, w, Replaced(address, w), DelimiterOf(y), AfterDelimiter(y));
      assert y == DelimiterOf(y) + AfterDelimiter(y);
    }
  }

  /** The rewritten message has the same spaces and newlines, in the same order. */
  lemma RewrittenKeepsDelimiters(address: string, s: string)
    requires IsAddress(address)
    ensures Matching(Delimiter, Rewritten(address, s)) == Matching(Delimiter, s)
  {
    forall t | CanStep(RuleFor(address), t)
      ensures var r := RuleFor(address);
              Matching(Delimiter, Out(r, t)) + Matching(Delimiter, Left(r, t)) == Matching(Delimiter, t)
    {
      StepKeepsDelimiters(address, t);
    }
    Keeps(RuleFor(address), Delimiter, s);
  }

  // ----- No foreign address is left

  function TokenAt(t: string, p: nat): string
    requires p <= |t|
  {
    t[p..TokenEnd(t, p)]
  }

  /** At the start of the text and after a space, every address is `address`. */
  predicate NoForeign(address: string, t: string) {
    forall p :: 0 <= p < |t| && (p == 0 || t[p - 1] == ' ') && IsAddress(TokenAt(t, p)) ==> TokenAt(t, p) == address
  }

  lemma TokenAtFront(t: string, p: nat)
    requires p <= |t|
    ensures TokenAt(t, p) == t[p..][..TokenLen(t[p..])]
  {
    DropTake(t, p, TokenLen(t[p..]));
  }

  lemma TokenAtShift(o: string, x: string, q: nat)
    requires q <= |x|
    ensures TokenAt(o + x, |o| + q) == TokenAt(x, q)
  {
    assert (o + x)[|o| + q..] == x[q..];
    TokenAtFront(o + x, |o| + q);
    TokenAtFront(x, q);
  }

  lemma TokenAtWord(a: string, w: string, y: string)
    requires SevenWord(w, y)
    ensures TokenAt(a + w + y, |a|) == w
  {
    var t := a + w + y;
    assert t[|a|..] == w + y && (w + y)[..|w|] == w;
    TokenLenIs(w + y, |w|);
    DropTake(t, |a|, |w|);
  }

  lemma AddressStart(t: string, p: nat)
    requires p < |t| && IsAddress(TokenAt(t, p))
    ensures t[p] == '7' && p + MIN_LEN <= |t|
  {
    assert TokenAt(t, p)[0] == t[p];
  }

  lemma RestHasNoForeign(address: string, t: string)
    requires CutOf(t).Rest?
    ensures NoForeign(address, t)
  {
    FirstSevenSpec(t);
    forall p | 0 <= p < |t|
      ensures !IsAddress(TokenAt(t, p))
    {
      assert p < FirstSeven(t) ==> t[..FirstSeven(t)][p] != '7';
      if IsAddress(TokenAt(t, p)) {
        AddressStart(t, p);
      }
    }
  }

  lemma SkipHasNoForeign(address: string, a: string, x: string)
    requires EndsInside(a) && NoForeign(address, x)
    ensures NoForeign(address, a + "7" + x)
  {
    var o, t := a + "7", a + "7" + x;
    assert forall i :: 0 <= i < |a| ==> t[i] == a[i];
    forall p | 0 <= p < |t| && (p == 0 || t[p - 1] == ' ') && IsAddress(TokenAt(t, p))
      ensures TokenAt(t, p) == address
    {
      AddressStart(t, p);
      assert p >= |o|;
      TokenAtShift(o, x, p - |o|);
      assert p > |o| ==> t[p - 1] == x[p - |o| - 1];
    }
  }

  /** The only '7' at the start of a word up to the end of this one is its own. */
  lemma OnlyWordStart(a: string, w: string, d: string, x: string, p: nat)
    requires EndsOpen(a) && SevenWord(w, d) && |d| <= 1 && p < |a + w + d|
    requires var t := a + w + d + x; t[p] == '7' && (p == 0 || t[p - 1] == ' ')
    ensures p == |a|
  {
    var t := a + w + d + x;
    assert forall i :: 0 <= i < |a| ==> t[i] == a[i];
    assert forall i :: |a| <= i < |a| + |w| ==> t[i] == w[i - |a|];
    assert d != "" ==> t[|a| + |w|] == d[0];
  }

  lemma TokenHasNoForeign(address: string, a: string, w: string, d: string, x: string)
    requires EndsOpen(a) && SevenWord(w, d) && (IsAddress(w) ==> w == address) && |d| <= 1 && (d == "" ==> x == "")
    requires NoForeign(address, x)
    ensures NoForeign(address, a + w + d + x)
  {
    var o, t := a + w + d, a + w + d + x;
    Assoc(a + w, d, x);
    forall p | 0 <= p < |t| && (p == 0 || t[p - 1] == ' ') && IsAddress(TokenAt(t, p))
      ensures TokenAt(t, p) == address
    {
      AddressStart(t, p);
      if p < |o| {
        OnlyWordStart(a, w, d, x, p);
        DelimiterFirst(d, x);
        TokenAtWord(a, w, d + x);
      } else {
        TokenAtShift(o, x, p - |o|);
        assert p > |o| ==> t[p - 1] == x[p - |o| - 1];
      }
    }
  }

  lemma StepLeavesNoForeign(address: string, s: string, x: string)
    requires IsAddress(address) && CanStep(RuleFor(address), s) && (Left(RuleFor(address), s) == "" ==> x == "")
    requires NoForeign(address, x)
    ensures NoForeign(address, Out(RuleFor(address), s) + x)
  {
    var skips, a, w, y := Shapes(address, s);
    if skips {
      SkipStep(address, a, y);
      SkipHasNoForeign(address, a, x);
    } else {
      TokenStep(address, a, w, y);
      ReplacedTwice(address, w, y);
      TokenHasNoForeign(address, a, Replaced(address, w), DelimiterOf(y), x);
    }
  }

  /** At the start of the rewritten message and after a space, every address is the fixed one. */
  lemma RewrittenHasNoForeign(address: string, s: string)
    requires IsAddress(address)
    ensures NoForeign(address, Rewritten(address, s))
  {
    var r := RuleFor(address);
    var p := (t: string) => NoForeign(address, t);
    forall t | !CanStep(r, t)
      ensures p(t)
    {
      CutSteps(address, t);
      RestHasNoForeign(address, t);
    }
    forall t, x | CanStep(r, t) && (Left(r, t) == "" ==> x == "") && p(x)
      ensures p(Out(r, t) + x)
    {
      StepLeavesNoForeign(address, t, x);
    }
    Established(r, p, s);
  }

  // ----- Token by token

  /** Where the second '7' of the first "77" of a word is, or its length. */
  function SecondOfPair(w: string): (k: nat)
    ensures k <= |w|
  {
    if |w| < 2 then |w| else if w[0] == '7' && w[1] == '7' then 1 else 1 + SecondOfPair(w[1..])
  }

  /** From where on the scan looks at a word as a possible address: from its start if it is open and
      starts with '7', else from the second '7' of its first "77", else not at all. */
  function LookFrom(w: string, open: bool): (k: nat)
    ensures k <= |w|
  {
    if open && w != "" && w[0] == '7' then 0 else SecondOfPair(w)
  }

  predicate LooksAt(w: string, open: bool) {
    LookFrom(w, open) < |w|
  }

  function ReplacedFrom(address: string, w: string, k: nat): string
    requires k <= |w|
  {
    w[..k] + Replaced(address, w[k..])
  }

  function WordFor(address: string, w: string, open: bool): string {
    ReplacedFrom(address, w, LookFrom(w, open))
  }

  /** The words of a text rewritten one by one. A word is open at the start of the text, after a
      space, and after a word that was looked at. */
  function TreatmentFor(address: string): Treatment<char> {
    Treatment(Delimiter, (c: char) => c == ' ',
              (w: string, open: bool) => WordFor(address, w, open), (w: string, open: bool) => LooksAt(w, open))
  }

  function WordByWord(address: string, s: string): string {
    ByWords(TreatmentFor(address), s, true)
  }

  lemma {:induction false} PairInside(c: string, u: string)
    requires NoSeven(c)
    ensures SecondOfPair(c + "7" + u) == |c| + 1 + LookFrom(u, true)
  {
    var w := c + "7" + u;
    if c == "" {
      assert w[1..] == u;
    } else {
      assert w[1..] == c[1..] + "7" + u;
      PairInside(c[1..], u);
    }
  }

  lemma {:induction false} NoPair(w: string)
    requires NoSeven(w)
    ensures SecondOfPair(w) == |w|
  {
    if w != "" {
      NoPair(w[1..]);
    }
  }

  lemma {:induction false} LooksAtSeven(w: string, open: bool)
    requires LooksAt(w, open)
    ensures w[LookFrom(w, open)] == '7'
  {
    if LookFrom(w, open) != 0 && !(w[0] == '7' && w[1] == '7') {
      LooksAtSeven(w[1..], false);
    }
  }

  lemma IgnoresPlain(address: string)
    ensures Ignores(TreatmentFor(address), IsSeven)
  {
    var p := TreatmentFor(address);
    forall w: string, open: bool | FreeOf(IsSeven, w)
      ensures p.word(w, open) == w && !p.looks(w, open)
    {
      NoPair(w);
      assert w[..|w|] + w[|w|..] == w;
    }
  }

  predicate IsSeven(c: char) {
    c == '7'
  }

  lemma LookFromInside(c: string, u: string, open: bool)
    requires NoSeven(c) && (c == "" ==> !open)
    ensures LookFrom(c + "7" + u, open) == |c| + 1 + LookFrom(u, true)
  {
    PairInside(c, u);
    assert c != "" ==> (c + "7" + u)[0] == c[0];
  }

  lemma CutReplaced(address: string, f: string, u: string, k: nat)
    requires k <= |u|
    ensures ReplacedFrom(address, f + u, |f| + k) == f + ReplacedFrom(address, u, k)
  {
    CutConcat(f, u, |f| + k);
    Assoc(f, u[..k], Replaced(address, u[k..]));
  }

  lemma WordForAt(address: string, w: string, open: bool, k: nat)
    requires k == LookFrom(w, open)
    ensures WordFor(address, w, open) == ReplacedFrom(address, w, k)
  {
  }

  /** Behind a '7' inside a word, the word goes on as an open one. */
  lemma WordInside(address: string, c: string, u: string, open: bool)
    requires NoSeven(c) && (c == "" ==> !open)
    ensures WordFor(address, c + "7" + u, open) == c + "7" + WordFor(address, u, true)
  {
    var f, k := c + "7", LookFrom(u, true);
    LookFromInside(c, u, open);
    WordForAt(address, f + u, open, |f| + k);
    CutReplaced(address, f, u, k);
  }

  lemma InsideByWords(address: string, c: string, x: string, open: bool)
    requires NoSeven(c) && NoDelimiter(c) && (c == "" ==> !open)
    ensures ByWords(TreatmentFor(address), c + "7" + x, open) == c + "7" + WordByWord(address, x)
  {
    var u := x[..WordLen(Delimiter, x)];
    WordInside(address, c, u, open);
    LookFromInside(c, u, open);
    Inside(TreatmentFor(address), c + "7", x, open);
  }

  lemma Regroup<T>(b: seq<T>, c: seq<T>, d: seq<T>, x: seq<T>)
    ensures b + (c + d + x) == b + c + d + x
  {
  }

  lemma SkipByWords(address: string, a: string, x: string)
    requires EndsInside(a)
    ensures WordByWord(address, a + "7" + x) == a + "7" + WordByWord(address, x)
  {
    var b, c := LastWord(Delimiter, a);
    FreeOfParts(IsSeven, b, c);
    if b == "" {
      assert a == c;
      InsideByWords(address, c, x, true);
    } else {
      assert c == "" ==> a == b;
      InsideByWords(address, c, x, b[|b| - 1] == ' ');
      IgnoresPlain(address);
      PlainWords(TreatmentFor(address), IsSeven, b, c + "7" + x, true);
      Regroup(b, c, "7", x);
      Regroup(b, c, "7", WordByWord(address, x));
    }
  }

  lemma PlainPrefix(address: string, a: string, z: string)
    requires EndsOpen(a)
    ensures WordByWord(address, a + z) == a + WordByWord(address, z)
  {
    if a == "" {
      assert a + z == z && a + WordByWord(address, z) == WordByWord(address, z);
    } else {
      IgnoresPlain(address);
      PlainWords(TreatmentFor(address), IsSeven, a, z, true);
    }
  }

  lemma SevenWordFor(address: string, w: string)
    requires w != "" && w[0] == '7'
    ensures WordFor(address, w, true) == Replaced(address, w) && LooksAt(w, true)
  {
    assert w[..0] == "" && w[0..] == w;
  }

  lemma NoRoomWord(address: string, t: string, n: nat, open: bool)
    requires NoRoom(t) && n <= |t|
    ensures WordFor(address, t[..n], open) == t[..n]
  {
    var w := t[..n];
    var k := LookFrom(w, open);
    if k < |w| {
      LooksAtSeven(w, open);
      assert t[k] == '7';
    }
    assert w[..k] + w[k..] == w;
  }

  lemma NoRoomRest(t: string, k: nat)
    requires NoRoom(t) && k <= |t|
    ensures NoRoom(t[k..])
  {
    forall p | 0 <= p < |t[k..]| && t[k..][p] == '7'
      ensures p + MIN_LEN > |t[k..]|
    {
      assert t[k + p] == '7';
    }
  }

  lemma {:induction false} NoRoomStays(address: string, t: string, open: bool)
    requires NoRoom(t)
    ensures AllStay(TreatmentFor(address), t, open)
    decreases |t|
  {
    var p := TreatmentFor(address);
    var n := WordLen(p.delim, t);
    NoRoomWord(address, t, n, open);
    if n < |t| {
      NoRoomRest(t, n + 1);
      NoRoomStays(address, t[n + 1..], p.opens(t[n]) || p.looks(t[..n], open));
    }
    StayStep(p, t, open);
  }

  lemma NoWordsStay(address: string)
    ensures WordByWord(address, "") == ""
  {
    NoRoomStays(address, "", true);
    Untouched(TreatmentFor(address), "", true);
  }

  lemma SevenByWords(address: string, w: string, y: string)
    requires SevenWord(w, y)
    ensures WordByWord(address, w + y) == Replaced(address, w) + DelimiterOf(y) + WordByWord(address, AfterDelimiter(y))
  {
    FirstWord(TreatmentFor(address), w, y, true);
    SevenWordFor(address, w);
    if y == "" {
      NoWordsStay(address);
    } else {
      Assoc(Replaced(address, w), [y[0]], WordByWord(address, y[1..]));
    }
  }

  lemma TokenByWords(address: string, a: string, w: string, y: string)
    requires EndsOpen(a) && SevenWord(w, y)
    ensures WordByWord(address, a + w + y)
            == a + Replaced(address, w) + DelimiterOf(y) + WordByWord(address, AfterDelimiter(y))
  {
    Assoc(a, w, y);
    PlainPrefix(address, a, w + y);
    SevenByWords(address, w, y);
    Regroup(a, Replaced(address, w), DelimiterOf(y), WordByWord(address, AfterDelimiter(y)));
  }

  /** No '7' has room for an address behind it. */
  predicate NoRoom(t: string) {
    forall p :: 0 <= p < |t| && t[p] == '7' ==> p + MIN_LEN > |t|
  }

  lemma RestHasNoRoom(t: string)
    requires CutOf(t).Rest?
    ensures NoRoom(t)
  {
    FirstSevenSpec(t);
    forall p | 0 <= p < |t| && t[p] == '7'
      ensures p + MIN_LEN > |t|
    {
      assert p < FirstSeven(t) ==> t[..FirstSeven(t)][p] != '7';
    }
  }

  lemma WordByWordFollows(address: string, t: string)
    requires IsAddress(address)
    ensures var r := RuleFor(address);
            WordByWord(address, t) == if CanStep(r, t) then Out(r, t) + WordByWord(address, Left(r, t)) else t
  {
    if CanStep(RuleFor(address), t) {
      var skips, a, w, y := Shapes(address, t);
      if skips {
        SkipStep(address, a, y);
        SkipByWords(address, a, y);
      } else {
        TokenStep(address, a, w, y);
        TokenByWords(address, a, w, y);
      }
    } else {
      CutSteps(address, t);
      RestHasNoRoom(t);
      NoRoomStays(address, t, true);
      Untouched(TreatmentFor(address), t, true);
    }
  }

  /** The scan in place is the rewriting word by word, for every message. */
  lemma ScanIsWordByWord(address: string, s: string)
    requires IsAddress(address)
    ensures Rewritten(address, s) == WordByWord(address, s)
  {
    var r, f := RuleFor(address), (t: string) => WordByWord(address, t);
    forall t: string
      ensures f(t) == if CanStep(r, t) then Out(r, t) + f(Left(r, t)) else t
    {
      WordByWordFollows(address, t);
    }
    Unique(r, f, s);
  }

  // ----- What was meant, and when the scan does it

  /** Every word that is an address replaced, and nothing else. */
  function IntendedFor(address: string): Treatment<char> {
    Treatment(Delimiter, (c: char) => true,
              (w: string, open: bool) => Replaced(address, w), (w: string, open: bool) => false)
  }

  function Intended(address: string, s: string): string {
    ByWords(IntendedFor(address), s, true)
  }

  /** An address other than the fixed one. */
  predicate Foreign(address: string, w: string) {
    IsAddress(w) && w != address
  }

  /** From the second '7' of its first "77" on, the word is a foreign address. */
  predicate Hides(address: string, w: string) {
    Foreign(address, w[SecondOfPair(w)..])
  }

  /** An open word is mishandled when it hides a foreign address, unless the scan looks at it from a '7'
      at its start. A closed word is also mishandled when it is a foreign address itself. */
  predicate Mishandled(address: string, w: string, open: bool) {
    if open then w != "" && w[0] != '7' && Hides(address, w) else Foreign(address, w) || Hides(address, w)
  }

  /** A newline only at the very end. */
  predicate OneLine(s: string) {
    forall i :: 0 <= i < |s| - 1 ==> s[i] != '\n'
  }

  lemma CutStays(w: string, k: nat, v: string)
    requires k <= |w|
    ensures w[..k] + v == w <==> v == w[k..]
  {
    assert w[..k] + w[k..] == w;
    assert (w[..k] + v)[k..] == v;
  }

  /** A word looked at from its hidden part stays exactly when that part is not foreign. */
  lemma HiddenPart(address: string, w: string)
    ensures ReplacedFrom(address, w, SecondOfPair(w)) == w <==> !Hides(address, w)
  {
    var k := SecondOfPair(w);
    CutStays(w, k, Replaced(address, w[k..]));
  }

  /** A foreign word becomes the fixed address only by being looked at from its start. */
  lemma ForeignPart(address: string, w: string, k: nat)
    requires IsAddress(address) && |address| == 27 && Foreign(address, w) && 1 <= k <= |w|
    ensures ReplacedFrom(address, w, k) != address
  {
    CutStays(w, k, w[k..]);
  }

  lemma {:induction false} SecondOfPairPositive(w: string)
    requires w != ""
    ensures SecondOfPair(w) >= 1
  {
  }

  lemma MishandledMeans(address: string, w: string, open: bool)
    requires IsAddress(address) && |address| == 27
    ensures WordFor(address, w, open) == Replaced(address, w) <==> !Mishandled(address, w, open)
  {
    if open && w != "" && w[0] == '7' {
      SevenWordFor(address, w);
    } else {
      HiddenPart(address, w);
      if Foreign(address, w) {
        SecondOfPairPositive(w);
        ForeignPart(address, w, SecondOfPair(w));
      }
    }
  }

  lemma WordsKeepApart(address: string)
    requires IsAddress(address)
    ensures KeepsApart(TreatmentFor(address)) && KeepsApart(IntendedFor(address))
  {
    forall w: string, open: bool | FreeOf(Delimiter, w)
      ensures FreeOf(Delimiter, WordFor(address, w, open)) && FreeOf(Delimiter, Replaced(address, w))
    {
      var k := LookFrom(w, open);
      assert w == w[..k] + w[k..];
      FreeOfParts(Delimiter, w[..k], w[k..]);
      FreeOfParts(Delimiter, w[..k], Replaced(address, w[k..]));
    }
  }

  /** The scan replaces exactly the words that are addresses, if and only if no word is mishandled.
      Words are open at the start of the text, after a space, and after a word that was looked at. */
  lemma ScanIsIntendedIff(address: string, s: string)
    requires IsAddress(address) && |address| == 27
    ensures Rewritten(address, s) == Intended(address, s)
            <==> AllTreated(TreatmentFor(address), (w: string, open: bool) => !Mishandled(address, w, open), s, true)
  {
    var p, q := TreatmentFor(address), IntendedFor(address);
    ScanIsWordByWord(address, s);
    WordsKeepApart(address);
    var agree := (w: string, open: bool) => !Mishandled(address, w, open);
    forall w: string, open: bool, open': bool
      ensures agree(w, open) <==> p.word(w, open) == q.word(w, open')
    {
      MishandledMeans(address, w, open);
    }
    AgreeIff(p, q, agree, s, true, true);
  }

  /** On a one-line message every word is open. */
  lemma LineIsIntendedIff(address: string, s: string)
    requires IsAddress(address) && |address| == 27 && OneLine(s)
    ensures Rewritten(address, s) == Intended(address, s)
            <==> AllWords(Delimiter, (w: string) => !Mishandled(address, w, true), s)
  {
    ScanIsIntendedIff(address, s);
    AllOpen(TreatmentFor(address), (w: string, open: bool) => !Mishandled(address, w, open),
            (w: string) => !Mishandled(address, w, true), s);
  }

  lemma IntendedLines(address: string, f: string, v: string)
    requires NoSeven(f) && NoDelimiter(f) && IsAddress(v)
    ensures Intended(address, f + "\n" + v) == f + "\n" + address
  {
    var q := IntendedFor(address);
    assert ("\n" + v)[1..] == v && v + "" == v;
    Assoc(f, "\n", v);
    FirstWord(q, f, "\n" + v, true);
    FirstWord(q, v, "", true);
    assert Replaced(address, f) == f && address + "" == address;
    Assoc(f, "\n", address);
  }

  /** A foreign address at the start of a later line stays, although it was meant to be replaced. */
  lemma LaterLineMissed(address: string, f: string, v: string)
    requires IsAddress(address) && NoSeven(f) && NoDelimiter(f) && Foreign(address, v) && NoSeven(v[1..])
    ensures Rewritten(address, f + "\n" + v) == f + "\n" + v
    ensures Intended(address, f + "\n" + v) == f + "\n" + address
  {
    var a, x := f + "\n", v[1..];
    assert v == "7" + x && a + v == a + "7" + x;
    SkipStep(address, a, x);
    FirstSevenIs(x, |x|);
    CutSteps(address, x);
    assert Rewrite(RuleFor(address), x) == x;
    assert Rewrite(RuleFor(address), a + "7" + x) == (a + "7") + x;
    IntendedLines(address, f, v);
  }

  lemma IntendedWord(address: string, w: string)
    requires NoDelimiter(w)
    ensures Intended(address, w) == Replaced(address, w)
  {
    FirstWord(IntendedFor(address), w, "", true);
    assert w + "" == w && Replaced(address, w) + "" == Replaced(address, w);
  }

  lemma SevenWordAlone(address: string, v: string)
    requires IsAddress(v)
    ensures WordByWord(address, v) == address
  {
    SevenByWords(address, v, "");
    NoWordsStay(address);
    assert v + "" == v && address + "" + "" == address;
  }

  /** A word that hides a foreign address: its tail is replaced, although it was meant to stay. */
  lemma HiddenAddressReplaced(address: string, c: string, v: string)
    requires IsAddress(address) && c != "" && NoSeven(c) && NoDelimiter(c) && Foreign(address, v)
    ensures Rewritten(address, c + "7" + v) == c + "7" + address
    ensures Intended(address, c + "7" + v) == c + "7" + v
  {
    var w := c + "7" + v;
    ScanIsWordByWord(address, w);
    InsideByWords(address, c, v, true);
    SevenWordAlone(address, v);
    assert w[0] == c[0];
    IntendedWord(address, w);
  }

  // ----- One token, letter by letter

  /** A token that starts with '7' becomes the fixed address exactly when it has 26 to 35 characters, all
      of them ASCII digits or letters; any other stays. */
  lemma OneToken(w: string)
    requires |w| > 0 && w[0] == '7' && forall i :: 0 <= i < |w| ==> w[i] != ' ' && w[i] != '\n'
    ensures Rewritten(ADDRESS, w) ==
            if 26 <= |w| <= 35
               && forall i :: 0 <= i < |w| ==> '0' <= w[i] <= '9' || 'A' <= w[i] <= 'Z' || 'a' <= w[i] <= 'z'
            then "7YWHMfk9JZe0LM0g1ZauHuiSxhI" else w
  {
    FixedAddress();
    ScanIsWordByWord(ADDRESS, w);
    SevenByWords(ADDRESS, w, "");
    NoWordsStay(ADDRESS);
    assert w + "" == w && Replaced(ADDRESS, w) + "" + "" == Replaced(ADDRESS, w);
  }

  /** A token ends at the next space or newline, and only there. */
  lemma TokenEnds(w: string, d: char, rest: string)
    requires forall i :: 0 <= i < |w| ==> w[i] != ' ' && w[i] != '\n'
    ensures TokenLen(w + [d] + rest) == |w| <==> d == ' ' || d == '\n'
  {
    var s := w + [d] + rest;
    assert s[..|w|] == w && s[|w|] == d;
    if d == ' ' || d == '\n' {
      TokenLenIs(s, |w|);
    } else {
      TokenLenSpec(s);
    }
  }

  // ----- When the buffer is large enough

  lemma OneMore(before: nat, left: nat)
    requires before >= 26 && (left == 0 || left + 27 <= before)
    ensures (left + 1) / 27 + 1 <= (before + 1) / 27
  {
  }

  /** What every step of the scan leaves room for. */
  predicate RoomLeft(done: nat, s: nat) {
    done + s + (s + 1) / 27 <= CAPACITY
  }

  lemma TokenGrows(address: string, done: nat, a: string, w: string, y: string)
    requires IsAddress(address) && |address| == 27 && EndsOpen(a) && SevenWord(w, y) && |w| + |y| >= MIN_LEN
    requires RoomLeft(done, |a + w + y|)
    ensures CanStep(RuleFor(address), a + w + y) && StepFits(RuleFor(address), done, a + w + y)
    ensures RoomLeft(done + |a + Replaced(address, w) + DelimiterOf(y)|, |AfterDelimiter(y)|)
  {
    TokenStep(address, a, w, y);
    TokenShape(a, w, y);
    if IsAddress(w) {
      OneMore(|a + w + y|, |AfterDelimiter(y)|);
    }
  }

  /** A step makes the text longer by one at most, and only if it leaves 27 characters less. */
  lemma StepGrows(address: string, done: nat, s: string)
    requires IsAddress(address) && |address| == 27 && CanStep(RuleFor(address), s) && RoomLeft(done, |s|)
    ensures var r := RuleFor(address);
            StepFits(r, done, s) && RoomLeft(done + |Out(r, s)|, |Left(r, s)|)
  {
    var skips, a, w, y := Shapes(address, s);
    if skips {
      SkipStep(address, a, y);
      SkipShape(a, y);
    } else {
      TokenStep(address, a, w, y);
      TokenGrows(address, done, a, w, y);
    }
  }

  /** A message of up to 988 characters never overflows: at most one more character for every 27. */
  lemma {:induction false} ShortMessagesFit(address: string, done: nat, s: string)
    requires IsAddress(address) && |address| == 27 && RoomLeft(done, |s|)
    ensures Fits(RuleFor(address), done, s)
    decreases |s|
  {
    var r := RuleFor(address);
    if CanStep(r, s) {
      StepGrows(address, done, s);
      ShortMessagesFit(address, done + |Out(r, s)|, Left(r, s));
    }
  }

  lemma UpTo988(s: string)
    requires |s| <= 988
    ensures Fits(RuleFor(ADDRESS), 0, s)
  {
    FixedAddress();
    ShortMessagesFit(ADDRESS, 0, s);
  }

  /** An address, a space and the rest: one step of the scan. */
  lemma FirstAddress(address: string, v: string, rest: string)
    requires IsAddress(address) && IsAddress(v)
    ensures var r, s := RuleFor(address), v + " " + rest;
            && Rewrite(r, s) == address + " " + Rewrite(r, rest)
            && (|v| != |address| ==> (StepFits(r, 0, s) <==> |s| - |v| + |address| <= CAPACITY))
            && CanStep(r, s)
  {
    var r, y := RuleFor(address), " " + rest;
    assert v + " " + rest == "" + v + y;
    TokenStep(address, "", v, y);
    TokenShape("", v, y);
    assert AfterDelimiter(y) == rest && "" + address + " " == address + " ";
  }

  /** A full buffer with an address of 26 characters overflows on the way, although the rewritten
      message fits. */
  lemma FitsOnlyAfterwards(address: string, v: string, w: string, f: string)
    requires IsAddress(address) && |address| == 27 && IsAddress(v) && |v| == 26 && IsAddress(w) && |w| == 35
    requires NoSeven(f) && |v + " " + (w + " " + f)| == 1024
    ensures !Fits(RuleFor(address), 0, v + " " + (w + " " + f))
    ensures |Rewritten(address, v + " " + (w + " " + f))| == 1024 - 7
  {
    var s, rest := v + " " + (w + " " + f), w + " " + f;
    FirstAddress(address, v, rest);
    FirstAddress(address, w, f);
    FirstSevenIs(f, |f|);
    CutSteps(address, f);
  }
}
