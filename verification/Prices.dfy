/** What the two means-to-an-end servers answer: the C one (asset-prices.c, messages.c) keeps the first
    price of a timestamp and truncates means toward zero, the Zig one (2-means-to-an-end/main.zig)
    keeps every price and rounds means down. */
module Prices {
  import opened Messages
  import opened Slices
  import opened Framing
  import opened Machines

  type i32 = n: int | -0x8000_0000 <= n < 0x8000_0000

  datatype Price = Price(timestamp: i32, price: i32)

  datatype Request = Insert(p: Price) | Query(mintime: i32, maxtime: i32) | Unknown

  // ----- Bytes

  function Unsigned(b: seq<byte>): int
    requires |b| == 4
  {
    var b0: int, b1: int, b2: int, b3: int := b[0], b[1], b[2], b[3];
    b0 * 0x100_0000 + b1 * 0x1_0000 + b2 * 0x100 + b3
  }

  /** ntohl and a conversion to a signed word. */
  function FromWord(b: seq<byte>): i32
    requires |b| == 4
  {
    var u := Unsigned(b);
    if u < 0x8000_0000 then u else u - 0x1_0000_0000
  }

  /** The conversion to 32 bits wraps around. */
  function ToWord(n: int): seq<byte> {
    var u := n % 0x1_0000_0000;
    [u / 0x100_0000, u / 0x1_0000 % 0x100, u / 0x100 % 0x100, u % 0x100]
  }

  lemma WordKept(n: i32)
    ensures FromWord(ToWord(n)) == n
  {
    var u := n % 0x1_0000_0000;
    assert u / 0x1_0000 == u / 0x100_0000 * 0x100 + u / 0x1_0000 % 0x100;
    assert u / 0x100 == u / 0x1_0000 * 0x100 + u / 0x100 % 0x100;
  }

  lemma BytesKept(b: seq<byte>)
    requires |b| == 4
    ensures ToWord(FromWord(b)) == b
  {
    var u := Unsigned(b);
    assert FromWord(b) % 0x1_0000_0000 == u;
    assert u / 0x100 == b[0] as int * 0x1_0000 + b[1] as int * 0x100 + b[2] as int;
    assert u / 0x1_0000 == b[0] as int * 0x100 + b[1] as int;
    assert u / 0x100_0000 == b[0];
  }

  /** Four bytes are a number in two's complement, the first byte the highest. */
  lemma WordValue(b: seq<byte>)
    requires |b| == 4
    ensures var a0: int, a1: int, a2: int, a3: int := b[0], b[1], b[2], b[3];
            FromWord(b) == (if a0 < 128 then a0 else a0 - 256) * 16777216 + a1 * 65536 + a2 * 256 + a3
  {
  }

  const MESSAGE_SIZE := 9

  function Parse(b: seq<byte>): Request
    requires |b| == MESSAGE_SIZE
  {
    var first, second := FromWord(b[1..5]), FromWord(b[5..9]);
    if b[0] == 'Q' as int then Query(first, second)
    else if b[0] == 'I' as int then Insert(Price(first, second))
    else Unknown
  }

  function Requests(b: seq<byte>): seq<Request> {
    if |b| < MESSAGE_SIZE then [] else [Parse(b[..MESSAGE_SIZE])] + Requests(b[MESSAGE_SIZE..])
  }

  /** Whole messages read the same, whatever follows them. */
  lemma {:induction false} RequestsAppend(a: seq<byte>, b: seq<byte>)
    requires |a| % MESSAGE_SIZE == 0
    ensures Requests(a + b) == Requests(a) + Requests(b)
    decreases |a|
  {
    if a == [] {
      assert a + b == b;
    } else {
      CutConcat(a, b, MESSAGE_SIZE);
      assert (a + b)[..MESSAGE_SIZE] == a[..MESSAGE_SIZE];
      assert (a + b)[MESSAGE_SIZE..] == a[MESSAGE_SIZE..] + b;
      RequestsAppend(a[MESSAGE_SIZE..], b);
    }
  }

  lemma FrameParts(kind: byte, a: seq<byte>, b: seq<byte>)
    requires |a| == 4 && |b| == 4
    ensures var f := [kind] + a + b; |f| == 9 && f[0] == kind && f[1..5] == a && f[5..9] == b
  {
  }

  /** What nine bytes say: 'I' with a timestamp and a price, 'Q' with the ends of a range, or nothing. */
  lemma ParseMeans(kind: byte, a: i32, b: i32)
    ensures var f := [kind] + ToWord(a) + ToWord(b);
            |f| == 9 && Parse(f) == if kind == 0x49 then Insert(Price(a, b))
                                    else if kind == 0x51 then Query(a, b)
                                    else Unknown
  {
    FrameParts(kind, ToWord(a), ToWord(b));
    WordKept(a);
    WordKept(b);
  }

  /** A stream of bytes is read nine by nine, and what is shorter is not read. */
  lemma RequestsMeans(f: seq<byte>, rest: seq<byte>)
    requires |f| == 9
    ensures Requests(f + rest) == [Parse(f)] + Requests(rest)
    ensures |rest| < 9 ==> Requests(rest) == []
  {
    RequestsAppend(f, rest);
    assert f[..9] == f && Requests(f[9..]) == [];
    assert Requests(f) == [Parse(f)] + [];
  }

  // ----- Prices in a store

  predicate Matches(t: int, q: Request)
    requires q.Query?
  {
    q.mintime <= t <= q.maxtime
  }

  function Total(ps: seq<Price>, q: Request): int
    requires q.Query?
  {
    if ps == [] then 0
    else
      var last := ps[|ps| - 1];
      Total(ps[..|ps| - 1], q) + if Matches(last.timestamp, q) then last.price else 0
  }

  function Count(ps: seq<Price>, q: Request): nat
    requires q.Query?
  {
    if ps == [] then 0
    else Count(ps[..|ps| - 1], q) + if Matches(ps[|ps| - 1].timestamp, q) then 1 else 0
  }

  /** Division in C. */
  function Truncated(a: int, n: int): int
    requires n > 0
  {
    if a >= 0 then a / n else -(-a / n)
  }

  lemma Multiples(k: int, n: int)
    ensures (k + 1) * n == k * n + n && (k - 1) * n == k * n - n && (-k) * n == -(k * n)
  {
  }

  lemma FloorSteps(b: nat, n: nat) returns (k: nat)
    requires n > 0
    ensures k == b / n && k * n <= b < k * n + n
  {
    k := b / n;
    assert b == k * n + b % n;
  }

  /** The quotient rounded toward zero: the one nearest to it that is no further from zero. */
  lemma TruncatedMeans(a: int, n: int)
    requires n > 0
    ensures var q := Truncated(a, n);
            if a >= 0 then 0 <= q && q * n <= a < (q + 1) * n else q <= 0 && (q - 1) * n < a <= q * n
  {
    var k: int := FloorSteps(if a >= 0 then a else -a, n);
    Multiples(k, n);
    Multiples(-k, n);
    assert Truncated(a, n) == if a >= 0 then k else -k;
  }

  function Has(ps: seq<Price>, t: int): bool {
    exists i :: 0 <= i < |ps| && ps[i].timestamp == t
  }

  function CStep(ps: seq<Price>, r: Request): seq<Price> {
    if r.Insert? && !Has(ps, r.p.timestamp) then ps + [r.p] else ps
  }

  function CMean(ps: seq<Price>, q: Request): int
    requires q.Query?
  {
    if Count(ps, q) == 0 then 0 else Truncated(Total(ps, q), Count(ps, q))
  }

  /** asset_prices_push behind its duplicate check, and asset_prices_query. */
  function CServer(): Machine<seq<Price>, Request, byte> {
    Machine(CStep, (ps, r: Request) => if r.Query? then ToWord(CMean(ps, r)) else [])
  }

  function ZigStep(ps: seq<Price>, r: Request): seq<Price> {
    if r.Insert? then ps + [r.p] else ps
  }

  function ZigMean(ps: seq<Price>, q: Request): int
    requires q.Query?
  {
    if Count(ps, q) == 0 then 0 else Total(ps, q) / Count(ps, q)
  }

  function ZigServer(): Machine<seq<Price>, Request, byte> {
    Machine(ZigStep, (ps, r: Request) => if r.Query? then ToWord(ZigMean(ps, r)) else [])
  }

  /** Only queries are answered, and only inserts are stored. */
  lemma OnlyQueriesAnswered(ps: seq<Price>, r: Request)
    ensures !r.Query? ==> CServer().out(ps, r) == [] && ZigServer().out(ps, r) == []
    ensures r.Query? ==> |CServer().out(ps, r)| == |ZigServer().out(ps, r)| == 4
    ensures !r.Insert? ==> CServer().step(ps, r) == ps && ZigServer().step(ps, r) == ps
  {
  }

  // ----- The reference: a map from timestamps to prices

  ghost function InRange(m: map<i32, i32>, q: Request): set<i32>
    requires q.Query?
  {
    set t | t in m && q.mintime <= t <= q.maxtime
  }

  ghost function SumOver(m: map<i32, i32>, keys: set<i32>): int
    requires keys <= m.Keys
  {
    if keys == {} then 0
    else
      var t :| t in keys;
      m[t] + SumOver(m, keys - {t})
  }

  lemma {:induction false} SumWithout(m: map<i32, i32>, keys: set<i32>, t: i32)
    requires t in keys && keys <= m.Keys
    ensures SumOver(m, keys) == m[t] + SumOver(m, keys - {t})
    decreases |keys|
  {
    var u :| u in keys && SumOver(m, keys) == m[u] + SumOver(m, keys - {u});
    if u != t {
      SumWithout(m, keys - {u}, t);
      SumWithout(m, keys - {t}, u);
      assert keys - {u} - {t} == keys - {t} - {u};
    }
  }

  lemma {:induction false} SumOnLarger(m: map<i32, i32>, m': map<i32, i32>, keys: set<i32>)
    requires keys <= m.Keys && keys <= m'.Keys
    requires forall t :: t in keys ==> m[t] == m'[t]
    ensures SumOver(m, keys) == SumOver(m', keys)
    decreases |keys|
  {
    if keys != {} {
      var t :| t in keys;
      SumWithout(m, keys, t);
      SumWithout(m', keys, t);
      SumOnLarger(m, m', keys - {t});
    }
  }

  /** The first price of a timestamp wins. */
  ghost function MapStep(m: map<i32, i32>, r: Request): map<i32, i32> {
    if r.Insert? && r.p.timestamp !in m then m[r.p.timestamp := r.p.price] else m
  }

  ghost function MapMean(m: map<i32, i32>, q: Request): int
    requires q.Query?
  {
    if InRange(m, q) == {} then 0 else Truncated(SumOver(m, InRange(m, q)), |InRange(m, q)|)
  }

  ghost function MapServer(): Machine<map<i32, i32>, Request, byte> {
    Machine((m, r) => MapStep(m, r), (m, r: Request) => if r.Query? then ToWord(MapMean(m, r)) else [])
  }

  // ----- The C store holds such a map

  ghost predicate DistinctTimes(ps: seq<Price>) {
    forall i, j :: 0 <= i < j < |ps| ==> ps[i].timestamp != ps[j].timestamp
  }

  ghost function Book(ps: seq<Price>): map<i32, i32> {
    if ps == [] then map[]
    else
      var last := ps[|ps| - 1];
      Book(ps[..|ps| - 1])[last.timestamp := last.price]
  }

  lemma {:induction false} BookKeys(ps: seq<Price>, t: i32)
    ensures t in Book(ps) <==> Has(ps, t)
  {
    if ps != [] {
      var front, last := ps[..|ps| - 1], ps[|ps| - 1];
      BookKeys(front, t);
      assert forall i :: 0 <= i < |front| ==> ps[i] == front[i];
      assert Has(front, t) ==> Has(ps, t);
      assert Has(ps, t) && last.timestamp != t ==> Has(front, t);
    }
  }

  /** A price for a new timestamp, and a range, on maps. */
  lemma MapGrows(m: map<i32, i32>, t: i32, price: i32, q: Request)
    requires q.Query? && t !in m
    ensures var m' := m[t := price];
            && |InRange(m', q)| == |InRange(m, q)| + (if Matches(t, q) then 1 else 0)
            && SumOver(m', InRange(m', q)) == SumOver(m, InRange(m, q)) + (if Matches(t, q) then price else 0)
  {
    var m' := m[t := price];
    SumOnLarger(m, m', InRange(m, q));
    if Matches(t, q) {
      assert InRange(m', q) - {t} == InRange(m, q);
      assert InRange(m', q) == InRange(m, q) + {t};
      SumWithout(m', InRange(m', q), t);
    } else {
      assert InRange(m', q) == InRange(m, q);
    }
  }

  lemma {:induction false} SumsAgree(ps: seq<Price>, q: Request)
    requires q.Query? && DistinctTimes(ps)
    ensures Count(ps, q) == |InRange(Book(ps), q)|
    ensures Total(ps, q) == SumOver(Book(ps), InRange(Book(ps), q))
  {
    if ps == [] {
      assert InRange(Book(ps), q) == {};
    } else {
      var front, last := ps[..|ps| - 1], ps[|ps| - 1];
      SumsAgree(front, q);
      BookKeys(front, last.timestamp);
      MapGrows(Book(front), last.timestamp, last.price, q);
    }
  }

  ghost predicate HoldsMap(ps: seq<Price>, m: map<i32, i32>) {
    DistinctTimes(ps) && m == Book(ps)
  }

  lemma BookSnoc(ps: seq<Price>, p: Price)
    ensures Book(ps + [p]) == Book(ps)[p.timestamp := p.price]
  {
    assert (ps + [p])[..|ps|] == ps;
  }

  lemma DistinctSnoc(ps: seq<Price>, p: Price)
    requires DistinctTimes(ps) && !Has(ps, p.timestamp)
    ensures DistinctTimes(ps + [p])
  {
    var qs := ps + [p];
    assert forall i :: 0 <= i < |ps| ==> qs[i] == ps[i];
  }

  lemma HoldsNext(ps: seq<Price>, r: Request)
    requires DistinctTimes(ps)
    ensures HoldsMap(CStep(ps, r), MapStep(Book(ps), r))
  {
    if r.Insert? {
      BookKeys(ps, r.p.timestamp);
      if !Has(ps, r.p.timestamp) {
        BookSnoc(ps, r.p);
        DistinctSnoc(ps, r.p);
      }
    }
  }

  lemma SameMean(ps: seq<Price>, q: Request)
    requires q.Query? && DistinctTimes(ps)
    ensures CMean(ps, q) == MapMean(Book(ps), q)
  {
    SumsAgree(ps, q);
  }

  /** The C server answers every batch as the map does. */
  lemma CServerIsMap(rs: seq<Request>)
    ensures Output(CServer(), [], rs) == Output(MapServer(), map[], rs)
    ensures HoldsMap(After(CServer(), [], rs), After(MapServer(), map[], rs))
  {
    var rel := (ps, m) => HoldsMap(ps, m);
    forall ps, m, r | rel(ps, m)
      ensures rel(CServer().step(ps, r), MapServer().step(m, r)) && CServer().out(ps, r) == MapServer().out(m, r)
    {
      HoldsNext(ps, r);
      if r.Query? {
        SameMean(ps, r);
      }
    }
    SimulationRuns(CServer(), MapServer(), rel, [], map[], rs);
  }

  // ----- What the map holds

  ghost predicate FirstAt(rs: seq<Request>, i: int) {
    && 0 <= i < |rs| && rs[i].Insert?
    && forall j :: 0 <= j < i && rs[j].Insert? ==> rs[j].p.timestamp != rs[i].p.timestamp
  }

  ghost predicate HoldsFirsts(m: map<i32, i32>, rs: seq<Request>) {
    && (forall i :: FirstAt(rs, i) ==> rs[i].p.timestamp in m && m[rs[i].p.timestamp] == rs[i].p.price)
    && (forall t :: t in m ==> exists i :: FirstAt(rs, i) && rs[i].p.timestamp == t)
  }

  lemma FirstAtSnoc(rs: seq<Request>, r: Request, i: nat)
    requires i < |rs|
    ensures FirstAt(rs + [r], i) <==> FirstAt(rs, i)
  {
    var rs' := rs + [r];
    assert forall j :: 0 <= j <= i ==> rs'[j] == rs[j];
  }

  /** Every insert of a timestamp has a first one, at or before it. */
  lemma {:induction false} FirstOf(rs: seq<Request>, i: nat) returns (j: nat)
    requires i < |rs| && rs[i].Insert?
    ensures j <= i && FirstAt(rs, j) && rs[j].p.timestamp == rs[i].p.timestamp
    decreases i
  {
    if FirstAt(rs, i) {
      j := i;
    } else {
      var k :| 0 <= k < i && rs[k].Insert? && rs[k].p.timestamp == rs[i].p.timestamp;
      j := FirstOf(rs, k);
    }
  }

  lemma FirstAtEnd(rs: seq<Request>, p: Price)
    ensures FirstAt(rs + [Insert(p)], |rs|) <==> forall i :: FirstAt(rs, i) ==> rs[i].p.timestamp != p.timestamp
  {
    var rs' := rs + [Insert(p)];
    assert forall j :: 0 <= j < |rs| ==> rs'[j] == rs[j];
    if j :| 0 <= j < |rs| && rs[j].Insert? && rs[j].p.timestamp == p.timestamp {
      var i := FirstOf(rs, j);
    }
  }

  lemma FirstsGrow(m: map<i32, i32>, rs: seq<Request>, r: Request)
    requires HoldsFirsts(m, rs)
    ensures HoldsFirsts(MapStep(m, r), rs + [r])
  {
    var m', rs' := MapStep(m, r), rs + [r];
    forall i | FirstAt(rs', i)
      ensures rs'[i].p.timestamp in m' && m'[rs'[i].p.timestamp] == rs'[i].p.price
    {
      if i < |rs| {
        FirstAtSnoc(rs, r, i);
      } else {
        FirstAtEnd(rs, r.p);
      }
    }
    forall t | t in m'
      ensures exists i :: FirstAt(rs', i) && rs'[i].p.timestamp == t
    {
      if t in m {
        var i :| FirstAt(rs, i) && rs[i].p.timestamp == t;
        FirstAtSnoc(rs, r, i);
      } else {
        FirstAtEnd(rs, r.p);
        assert rs'[|rs|] == r;
      }
    }
  }

  /** The reference keeps the first price inserted for each timestamp, and nothing else. */
  lemma {:induction false} MapKeepsFirsts(rs: seq<Request>)
    ensures HoldsFirsts(After(MapServer(), map[], rs), rs)
  {
    if rs != [] {
      var front, last := rs[..|rs| - 1], rs[|rs| - 1];
      SnocOf(rs);
      MapKeepsFirsts(front);
      RunLast(MapServer(), map[], front, last);
      FirstsGrow(After(MapServer(), map[], front), front, last);
    }
  }

  ghost predicate DistinctInserts(rs: seq<Request>) {
    forall i, j :: 0 <= i < j < |rs| && rs[i].Insert? && rs[j].Insert? ==> rs[i].p.timestamp != rs[j].p.timestamp
  }

  ghost predicate SameInserts(a: seq<Request>, b: seq<Request>) {
    forall r: Request :: r.Insert? ==> (r in a <==> r in b)
  }

  lemma HoldsWithin(m: map<i32, i32>, a: seq<Request>, n: map<i32, i32>, b: seq<Request>, t: i32)
    requires HoldsFirsts(m, a) && HoldsFirsts(n, b)
    requires DistinctInserts(b) && SameInserts(a, b) && t in m
    ensures t in n && n[t] == m[t]
  {
    var i :| FirstAt(a, i) && a[i].p.timestamp == t;
    assert a[i] in b;
    var j :| 0 <= j < |b| && b[j] == a[i];
    assert FirstAt(b, j);
  }

  lemma LaterAnswers(a: seq<Request>, rest: seq<Request>)
    ensures Output(CServer(), After(CServer(), [], a), rest) == Output(MapServer(), After(MapServer(), map[], a), rest)
  {
    CServerIsMap(a);
    CServerIsMap(a + rest);
    RunAppend(CServer(), [], a, rest);
    RunAppend(MapServer(), map[], a, rest);
    var x := Output(CServer(), [], a);
    var y := Output(CServer(), After(CServer(), [], a), rest);
    var z := Output(MapServer(), After(MapServer(), map[], a), rest);
    assert (x + y)[|x|..] == y && (x + z)[|x|..] == z;
  }

  /** Inserts with distinct timestamps may come in any order: the answers to what follows are the same. */
  lemma InsertOrderIsIrrelevant(a: seq<Request>, b: seq<Request>, rest: seq<Request>)
    requires DistinctInserts(a) && DistinctInserts(b) && SameInserts(a, b)
    ensures Output(CServer(), After(CServer(), [], a), rest) == Output(CServer(), After(CServer(), [], b), rest)
  {
    var m, n := After(MapServer(), map[], a), After(MapServer(), map[], b);
    MapKeepsFirsts(a);
    MapKeepsFirsts(b);
    forall t: i32
      ensures t in m <==> t in n
      ensures t in m ==> m[t] == n[t]
    {
      if t in m { HoldsWithin(m, a, n, b, t); }
      if t in n { HoldsWithin(n, b, m, a, t); }
    }
    assert m == n;
    LaterAnswers(a, rest);
    LaterAnswers(b, rest);
  }

  // ----- Means fit

  ghost predicate Between(ps: seq<Price>, q: Request, low: int, high: int)
    requires q.Query?
  {
    forall p :: p in ps && Matches(p.timestamp, q) ==> low <= p.price <= high
  }

  lemma {:induction false} TotalBetween(ps: seq<Price>, q: Request, low: int, high: int)
    requires q.Query? && Between(ps, q, low, high)
    ensures low * Count(ps, q) <= Total(ps, q) <= high * Count(ps, q)
  {
    if ps != [] {
      var front, last := ps[..|ps| - 1], ps[|ps| - 1];
      TotalBetween(front, q, low, high);
      if Matches(last.timestamp, q) {
        assert last in ps;
        assert low * Count(ps, q) == low * Count(front, q) + low;
        assert high * Count(ps, q) == high * Count(front, q) + high;
      }
    }
  }

  lemma Times(a: int, b: int, n: nat)
    ensures a <= b ==> a * n <= b * n
    ensures (a + 1) * n == a * n + n
  {
    if a <= b {
      assert (b - a) * n == b * n - a * n >= 0;
    }
  }

  lemma FloorBetween(a: int, n: int, low: int, high: int)
    requires n > 0 && low * n <= a <= high * n
    ensures low <= a / n <= high
  {
    var k := a / n;
    assert a == k * n + a % n;
    Times(k, k, n);
    Times(high, high, n);
    Times(k + 1, low, n);
    Times(high + 1, k, n);
  }

  lemma QuotientBetween(a: int, n: int, low: int, high: int)
    requires n > 0 && low * n <= a <= high * n
    ensures low <= a / n <= high && low <= Truncated(a, n) <= high
  {
    FloorBetween(a, n, low, high);
    if a < 0 {
      assert -high * n <= -a <= -low * n by {
        assert -high * n == -(high * n) && -low * n == -(low * n);
      }
      FloorBetween(-a, n, -high, -low);
    }
  }

  lemma {:induction false} CountsMatches(ps: seq<Price>, q: Request)
    requires q.Query?
    ensures Count(ps, q) == 0 <==> forall p :: p in ps ==> !Matches(p.timestamp, q)
    ensures Count(ps, q) <= |ps|
  {
    if ps != [] {
      var front, last := ps[..|ps| - 1], ps[|ps| - 1];
      SnocOf(ps);
      CountsMatches(front, q);
      assert forall p :: p in ps <==> p in front || p == last;
    }
  }

  /** Either mean lies between the smallest and the largest matched price, so 32 bits hold it; with no
      matched price, as when the range is empty, it is 0. */
  lemma MeanBetween(ps: seq<Price>, q: Request, low: int, high: int)
    requires q.Query? && Between(ps, q, low, high)
    ensures Count(ps, q) > 0 ==> low <= CMean(ps, q) <= high && low <= ZigMean(ps, q) <= high
    ensures Count(ps, q) == 0 ==> CMean(ps, q) == ZigMean(ps, q) == 0
    ensures Count(ps, q) == 0 <==> forall p :: p in ps ==> !Matches(p.timestamp, q)
  {
    CountsMatches(ps, q);
    TotalBetween(ps, q, low, high);
    if Count(ps, q) > 0 {
      QuotientBetween(Total(ps, q), Count(ps, q), low, high);
    }
  }

  /** The 64-bit sum never overflows while the 32-bit count does not, and the answer, read as a signed
      word, is the mean. */
  lemma AnswerIsMean(ps: seq<Price>, q: Request)
    requires q.Query?
    ensures |ps| < 0x8000_0000 ==> -0x4000_0000_0000_0000 <= Total(ps, q) <= 0x4000_0000_0000_0000
    ensures FromWord(ToWord(CMean(ps, q))) == CMean(ps, q)
    ensures FromWord(ToWord(ZigMean(ps, q))) == ZigMean(ps, q)
  {
    TotalBetween(ps, q, -0x8000_0000, 0x7fff_ffff);
    CountsMatches(ps, q);
    MeanBetween(ps, q, -0x8000_0000, 0x7fff_ffff);
    WordKept(CMean(ps, q));
    WordKept(ZigMean(ps, q));
  }

  // ----- The two servers

  /** All prices inserted, in order. */
  ghost function Inserted(rs: seq<Request>): seq<Price> {
    if rs == [] then []
    else Inserted(rs[..|rs| - 1]) + match rs[|rs| - 1] case Insert(p) => [p] case _ => []
  }

  /** Rounding down and truncating agree on this query. */
  predicate RoundsAlike(ps: seq<Price>, q: Request)
    requires q.Query?
  {
    Total(ps, q) >= 0 || Count(ps, q) == 0 || Total(ps, q) % Count(ps, q) == 0
  }

  lemma DivisionIs(a: int, n: int, k: int, r: int)
    requires 0 <= r < n && a == k * n + r
    ensures a / n == k && a % n == r
  {
    var x := a / n - k;
    assert x * n == r - a % n by { assert a == a / n * n + a % n; assert (a / n - k) * n == a / n * n - k * n; }
    Times(1, x, n);
    Times(x, -1, n);
  }

  lemma TruncatedIsFloorIff(a: int, n: int)
    requires n > 0
    ensures Truncated(a, n) == a / n <==> a >= 0 || a % n == 0
  {
    if a < 0 {
      var k, r := -a / n, -a % n;
      assert -a == k * n + r;
      if r == 0 {
        assert a == -k * n + 0;
        DivisionIs(a, n, -k, 0);
      } else {
        assert a == (-k - 1) * n + (n - r) by { assert (-k - 1) * n == -k * n - n; }
        DivisionIs(a, n, -k - 1, n - r);
      }
    }
  }

  lemma InsertedIsIn(rs: seq<Request>, p: Price)
    ensures p in Inserted(rs) <==> Insert(p) in rs
  {
    if rs != [] {
      InsertedIsIn(rs[..|rs| - 1], p);
      SnocOf(rs);
    }
  }

  /** The prices whose timestamp has no earlier one. */
  ghost function Kept(ps: seq<Price>): seq<Price> {
    if ps == [] then []
    else
      var front, last := ps[..|ps| - 1], ps[|ps| - 1];
      Kept(front) + if Has(front, last.timestamp) then [] else [last]
  }

  lemma HasSnoc(ps: seq<Price>, p: Price, t: int)
    ensures Has(ps + [p], t) <==> Has(ps, t) || p.timestamp == t
  {
    var qs := ps + [p];
    assert forall i :: 0 <= i < |ps| ==> qs[i] == ps[i];
    assert qs[|ps|] == p;
  }

  lemma {:induction false} KeptHas(ps: seq<Price>, t: int)
    ensures Has(Kept(ps), t) <==> Has(ps, t)
  {
    if ps != [] {
      var front, last := ps[..|ps| - 1], ps[|ps| - 1];
      KeptHas(front, t);
      SnocOf(ps);
      HasSnoc(front, last, t);
      HasSnoc(Kept(front), last, t);
      assert Kept(front) + [] == Kept(front);
    }
  }

  lemma KeptSnoc(ps: seq<Price>, p: Price)
    ensures Kept(ps + [p]) == CStep(Kept(ps), Insert(p))
  {
    assert (ps + [p])[..|ps|] == ps;
    KeptHas(ps, p.timestamp);
    assert Kept(ps) + [] == Kept(ps);
  }

  /** The Zig server stores every price, the C server the first of each timestamp. */
  lemma {:induction false} StoresAfter(rs: seq<Request>)
    ensures After(ZigServer(), [], rs) == Inserted(rs)
    ensures After(CServer(), [], rs) == Kept(Inserted(rs))
  {
    if rs != [] {
      var front, last := rs[..|rs| - 1], rs[|rs| - 1];
      SnocOf(rs);
      StoresAfter(front);
      RunLast(CServer(), [], front, last);
      RunLast(ZigServer(), [], front, last);
      if last.Insert? {
        KeptSnoc(Inserted(front), last.p);
      }
    }
  }

  lemma SplitEnd<T>(a: seq<T>, x: seq<T>, b: seq<T>, y: seq<T>)
    requires |x| == |y|
    ensures a + x == b + y <==> a == b && x == y
  {
    if a + x == b + y {
      assert |a| == |b|;
      assert a == (a + x)[..|a|] && b == (b + y)[..|a|];
      assert x == (a + x)[|a|..] && y == (b + y)[|a|..];
    }
  }

  /** The first prices give the truncated mean that all prices give rounded down. */
  ghost predicate AnsweredAlike(ps: seq<Price>, q: Request)
    requires q.Query?
  {
    CMean(Kept(ps), q) == ZigMean(ps, q)
  }

  lemma AnswersAgreeIff(ps: seq<Price>, q: Request)
    requires q.Query?
    ensures CServer().out(Kept(ps), q) == ZigServer().out(ps, q) <==> AnsweredAlike(ps, q)
  {
    AnswerIsMean(Kept(ps), q);
    AnswerIsMean(ps, q);
  }

  /** For every batch: the two servers send the same bytes exactly when they answer every query alike. */
  lemma {:induction false} SameBytesIff(rs: seq<Request>)
    ensures Output(CServer(), [], rs) == Output(ZigServer(), [], rs) <==>
            forall i :: 0 <= i < |rs| && rs[i].Query? ==> AnsweredAlike(Inserted(rs[..i]), rs[i])
  {
    if rs != [] {
      var front, last := rs[..|rs| - 1], rs[|rs| - 1];
      SnocOf(rs);
      SameBytesIff(front);
      StoresAfter(front);
      RunLast(CServer(), [], front, last);
      RunLast(ZigServer(), [], front, last);
      var ps := Inserted(front);
      SplitEnd(Output(CServer(), [], front), CServer().out(Kept(ps), last),
               Output(ZigServer(), [], front), ZigServer().out(ps, last));
      if last.Query? {
        AnswersAgreeIff(ps, last);
      }
      assert forall i :: 0 <= i < |front| ==> rs[i] == front[i] && rs[..i] == front[..i];
    }
  }

  /** No timestamp in the range of the query is repeated. */
  ghost predicate NoRepeats(ps: seq<Price>, q: Request)
    requires q.Query?
  {
    forall i, j :: 0 <= i < j < |ps| && ps[i].timestamp == ps[j].timestamp ==> !Matches(ps[i].timestamp, q)
  }

  lemma SumsSnoc(ps: seq<Price>, p: Price, q: Request)
    requires q.Query?
    ensures Total(ps + [p], q) == Total(ps, q) + if Matches(p.timestamp, q) then p.price else 0
    ensures Count(ps + [p], q) == Count(ps, q) + if Matches(p.timestamp, q) then 1 else 0
  {
    assert (ps + [p])[..|ps|] == ps;
  }

  /** Then the prices left out are none of the query's. */
  lemma {:induction false} KeptSums(ps: seq<Price>, q: Request)
    requires q.Query? && NoRepeats(ps, q)
    ensures Total(Kept(ps), q) == Total(ps, q) && Count(Kept(ps), q) == Count(ps, q)
  {
    if ps != [] {
      var front, last := ps[..|ps| - 1], ps[|ps| - 1];
      assert forall i :: 0 <= i < |front| ==> ps[i] == front[i];
      KeptSums(front, q);
      if Has(front, last.timestamp) {
        var i :| 0 <= i < |front| && front[i].timestamp == last.timestamp;
        assert !Matches(ps[i].timestamp, q);
        assert Kept(ps) == Kept(front);
      } else {
        SumsSnoc(Kept(front), last, q);
      }
    }
  }

  /** A query without repeats in its range is answered alike exactly when its sum is non-negative or a
      multiple of its count. */
  lemma AlikeIff(ps: seq<Price>, q: Request)
    requires q.Query? && NoRepeats(ps, q)
    ensures AnsweredAlike(ps, q) <==> RoundsAlike(ps, q)
  {
    KeptSums(ps, q);
    if Count(ps, q) > 0 {
      TruncatedIsFloorIff(Total(ps, q), Count(ps, q));
    }
  }

  /** When no timestamp is repeated inside a query's range, the servers send the same bytes exactly when
      every query's sum is non-negative or a multiple of its count. */
  lemma UnrepeatedBytesIff(rs: seq<Request>)
    requires forall i :: 0 <= i < |rs| && rs[i].Query? ==> NoRepeats(Inserted(rs[..i]), rs[i])
    ensures Output(CServer(), [], rs) == Output(ZigServer(), [], rs) <==>
            forall i :: 0 <= i < |rs| && rs[i].Query? ==> RoundsAlike(Inserted(rs[..i]), rs[i])
  {
    forall i | 0 <= i < |rs| && rs[i].Query?
      ensures AnsweredAlike(Inserted(rs[..i]), rs[i]) <==> RoundsAlike(Inserted(rs[..i]), rs[i])
    {
      AlikeIff(Inserted(rs[..i]), rs[i]);
    }
    SameBytesIff(rs);
  }

  lemma {:induction false} InsertedOnce(rs: seq<Request>)
    requires DistinctInserts(rs)
    ensures DistinctTimes(Inserted(rs))
  {
    if rs != [] {
      var front, last := rs[..|rs| - 1], rs[|rs| - 1];
      SnocOf(rs);
      assert forall i :: 0 <= i < |front| ==> rs[i] == front[i];
      InsertedOnce(front);
      if last.Insert? {
        forall i | 0 <= i < |Inserted(front)|
          ensures Inserted(front)[i].timestamp != last.p.timestamp
        {
          InsertedIsIn(front, Inserted(front)[i]);
        }
      }
    }
  }

  /** In particular when no timestamp is repeated at all. */
  lemma DistinctBytesIff(rs: seq<Request>)
    requires DistinctInserts(rs)
    ensures Output(CServer(), [], rs) == Output(ZigServer(), [], rs) <==>
            forall i :: 0 <= i < |rs| && rs[i].Query? ==> RoundsAlike(Inserted(rs[..i]), rs[i])
  {
    forall i | 0 <= i < |rs| && rs[i].Query?
      ensures NoRepeats(Inserted(rs[..i]), rs[i])
    {
      InsertedOnce(rs[..i]);
    }
    UnrepeatedBytesIff(rs);
  }

  /** In particular when no price is negative. */
  lemma SameBytes(rs: seq<Request>)
    requires DistinctInserts(rs) && forall i :: 0 <= i < |rs| && rs[i].Insert? ==> rs[i].p.price >= 0
    ensures Output(CServer(), [], rs) == Output(ZigServer(), [], rs)
  {
    forall i | 0 <= i < |rs| && rs[i].Query?
      ensures RoundsAlike(Inserted(rs[..i]), rs[i])
    {
      var ps := Inserted(rs[..i]);
      forall p | p in ps
        ensures p.price >= 0
      {
        InsertedIsIn(rs[..i], p);
      }
      TotalBetween(ps, rs[i], 0, 0x7fff_ffff);
    }
    DistinctBytesIff(rs);
  }

  lemma TwoPrices(a: Price, b: Price, q: Request)
    requires q.Query? && Matches(a.timestamp, q) && Matches(b.timestamp, q)
    ensures Total([a], q) == a.price && Count([a], q) == 1
    ensures Total([a, b], q) == a.price + b.price && Count([a, b], q) == 2
  {
    assert [a][..0] == [] && [a, b][..1] == [a];
    assert Total([], q) == 0 && Count([], q) == 0;
  }

  lemma RunQuietly<S>(m: Machine<S, Request, byte>, s: S, t: S, u: S, x: Request, y: Request, z: Request)
    requires m.step(s, x) == t && m.out(s, x) == [] && m.step(t, y) == u && m.out(t, y) == []
    ensures Output(m, s, [x, y, z]) == m.out(u, z)
  {
    var out := m.out(u, z);
    assert [x, y, z] == [x] + [y, z] && [y, z] == [y] + [z] && [z] == [z] + [];
    RunNext(m, s, x, [y, z]);
    RunNext(m, t, y, [z]);
    RunNext(m, u, z, []);
    assert [] + out == out && out + [] == out;
  }

  lemma InsertedTwice(a: Price, b: Price)
    requires a.timestamp == b.timestamp
    ensures CStep([], Insert(a)) == [a] && CStep([a], Insert(b)) == [a]
    ensures ZigStep([], Insert(a)) == [a] && ZigStep([a], Insert(b)) == [a, b]
  {
    assert [a][0].timestamp == b.timestamp;
  }

  lemma RepeatsAnswered(a: Price, b: Price, q: Request)
    requires a.timestamp == b.timestamp && q.Query?
    ensures Output(CServer(), [], [Insert(a), Insert(b), q]) == CServer().out([a], q)
    ensures Output(ZigServer(), [], [Insert(a), Insert(b), q]) == ZigServer().out([a, b], q)
  {
    InsertedTwice(a, b);
    RunQuietly(CServer(), [], [a], [a], Insert(a), Insert(b), q);
    RunQuietly(ZigServer(), [], [a], [a, b], Insert(a), Insert(b), q);
  }

  lemma NegativeMean(a: Price, b: Price, q: Request)
    requires q.Query? && Matches(a.timestamp, q) && Matches(b.timestamp, q) && a.timestamp != b.timestamp
    requires a.price + b.price == -3
    ensures var rs := [Insert(a), Insert(b), q];
            DistinctInserts(rs) && Output(CServer(), [], rs) != Output(ZigServer(), [], rs)
  {
    var rs := [Insert(a), Insert(b), q];
    assert rs[..2] == [Insert(a), Insert(b)] && rs[..2][..1] == [Insert(a)] && rs[..2][..1][..0] == [];
    TwoPrices(a, b, q);
    assert Inserted([Insert(a)]) == [a];
    assert Inserted(rs[..2]) == [a, b];
    assert !RoundsAlike(Inserted(rs[..2]), rs[2]);
    DistinctBytesIff(rs);
  }

  /** A negative mean and a repeated timestamp each can tell the servers apart; a timestamp repeated with
      its price need not. */
  lemma ServersDiffer()
    ensures var rs := [Insert(Price(1, -3)), Insert(Price(2, 0)), Query(1, 2)];
            DistinctInserts(rs) && Output(CServer(), [], rs) != Output(ZigServer(), [], rs)
    ensures var rs := [Insert(Price(1, 1)), Insert(Price(1, 3)), Query(1, 2)];
            Output(CServer(), [], rs) == ToWord(1) && Output(ZigServer(), [], rs) == ToWord(2)
    ensures var rs := [Insert(Price(1, 1)), Insert(Price(1, 1)), Query(1, 2)];
            Output(CServer(), [], rs) == Output(ZigServer(), [], rs) == ToWord(1)
  {
    NegativeMean(Price(1, -3), Price(2, 0), Query(1, 2));
    RepeatsAnswered(Price(1, 1), Price(1, 3), Query(1, 2));
    TwoPrices(Price(1, 1), Price(1, 3), Query(1, 2));
    RepeatsAnswered(Price(1, 1), Price(1, 1), Query(1, 2));
    TwoPrices(Price(1, 1), Price(1, 1), Query(1, 2));
  }

  lemma OneInsert(p: Price, q: Request)
    requires q == Query(p.timestamp, p.timestamp)
    ensures After(CServer(), [], [Insert(p)]) == [p] && Output(CServer(), [], [Insert(p)]) == []
    ensures After(ZigServer(), [], [Insert(p)]) == [p] && Output(ZigServer(), [], [Insert(p)]) == []
    ensures CServer().out([p], q) == ToWord(p.price) && ZigServer().out([p], q) == ToWord(p.price)
  {
    assert [Insert(p)] == [] + [Insert(p)];
    RunLast(CServer(), [], [], Insert(p));
    RunLast(ZigServer(), [], [], Insert(p));
    assert [p][..0] == [];
    assert Total([p], q) == p.price && Count([p], q) == 1;
    assert Truncated(p.price, 1) == p.price && p.price / 1 == p.price;
  }

  /** Byte by byte: after one insert, a query of just its timestamp is answered its price, by both. */
  lemma InsertThenQuery(t: i32, price: i32)
    ensures var input := [0x49] + ToWord(t) + ToWord(price) + ([0x51] + ToWord(t) + ToWord(t));
            && Output(CServer(), [], Requests(input)) == ToWord(price)
            && Output(ZigServer(), [], Requests(input)) == ToWord(price)
  {
    var f, g := [0x49] + ToWord(t) + ToWord(price), [0x51] + ToWord(t) + ToWord(t);
    var p, q := Price(t, price), Query(t, t);
    ParseMeans(0x49, t, price);
    ParseMeans(0x51, t, t);
    RequestsMeans(f, g);
    RequestsMeans(g, []);
    assert g + [] == g && [Parse(g)] + [] == [Parse(g)];
    assert Requests(f + g) == [Insert(p)] + [q];
    RunLast(CServer(), [], [Insert(p)], q);
    RunLast(ZigServer(), [], [Insert(p)], q);
    OneInsert(p, q);
    assert [] + ToWord(price) == ToWord(price);
  }

  // ----- The gate in front of the interpreter

  /** Everything, but only when it is a whole number of messages. */
  function Gate(buf: seq<byte>): nat {
    if |buf| > 0 && |buf| % MESSAGE_SIZE == 0 then |buf| else 0
  }

  function Gated(): Wiring<Request, byte> {
    Wiring(Gate, Requests)
  }

  lemma GateSplits()
    ensures Splits(Gated())
  {
    forall buf: seq<byte>, b: seq<byte>
      ensures Requests(buf[..Cut(Gated(), buf)] + b) == Requests(buf[..Cut(Gated(), buf)]) + Requests(b)
    {
      RequestsAppend(buf[..Cut(Gated(), buf)], b);
    }
  }

  /** What waits is never a whole number of messages. */
  ghost predicate Waits(fifo: seq<byte>, input: seq<byte>) {
    (fifo == [] || |fifo| % MESSAGE_SIZE != 0) && |fifo| % MESSAGE_SIZE == |input| % MESSAGE_SIZE
  }

  lemma GateStep(buf: seq<byte>, later: seq<byte>)
    ensures var left := buf[Cut(Gated(), buf)..];
            && (left == [] || |left| % MESSAGE_SIZE != 0)
            && |left + later| % MESSAGE_SIZE == |buf + later| % MESSAGE_SIZE
  {
  }

  lemma {:induction false} GateLeaves<S>(m: Machine<S, Request, byte>, c: Served<S, byte>, chunks: seq<seq<byte>>)
    requires c.fifo == [] || |c.fifo| % MESSAGE_SIZE != 0
    ensures Waits(Serve(m, Gated(), c, chunks).fifo, c.fifo + Concat(chunks))
    decreases |chunks|
  {
    if chunks == [] {
      assert c.fifo + [] == c.fifo;
    } else {
      var buf, later := c.fifo + chunks[0], Concat(chunks[1..]);
      GateStep(buf, later);
      Assoc(c.fifo, chunks[0], later);
      GateLeaves(m, Read(m, Gated(), c, chunks[0]), chunks[1..]);
    }
  }

  /** However a whole number of messages is cut into reads, the answers are those to one batch and
      nothing waits afterwards. For any other input some messages may wait. */
  lemma ChunksAreOneBatch<S(!new)>(m: Machine<S, Request, byte>, s: S, chunks: seq<seq<byte>>)
    ensures var c := Serve(m, Gated(), Served(s, [], []), chunks);
            && (c.fifo == [] <==> |Concat(chunks)| % MESSAGE_SIZE == 0)
            && (c.fifo == [] ==>
                  && c.sent == Output(m, s, Requests(Concat(chunks)))
                  && c.state == After(m, s, Requests(Concat(chunks))))
            && c.sent <= Output(m, s, Requests(Concat(chunks)))
  {
    var start := Served(s, [], []);
    var c := Serve(m, Gated(), start, chunks);
    GateSplits();
    ServeIsOneBatch(m, Gated(), start, chunks);
    GateLeaves(m, start, chunks);
    assert [] + Concat(chunks) == Concat(chunks);
    assert [] + Output(m, s, Requests(Concat(chunks))) == Output(m, s, Requests(Concat(chunks)));
    if c.fifo == [] {
      assert c.fifo + [] == [];
      assert c.sent + [] == c.sent;
    }
  }

  /** The same input, cut in any two ways: the servers send the same bytes exactly when they answer
      every query alike. */
  lemma ServersAgreeIff(a: seq<seq<byte>>, b: seq<seq<byte>>)
    requires Concat(a) == Concat(b) && |Concat(a)| % MESSAGE_SIZE == 0
    ensures var rs := Requests(Concat(a));
            Serve(CServer(), Gated(), Served([], [], []), a).sent ==
            Serve(ZigServer(), Gated(), Served([], [], []), b).sent <==>
            forall i :: 0 <= i < |rs| && rs[i].Query? ==> AnsweredAlike(Inserted(rs[..i]), rs[i])
  {
    ChunksAreOneBatch(CServer(), [], a);
    ChunksAreOneBatch(ZigServer(), [], b);
    SameBytesIff(Requests(Concat(a)));
  }
}
