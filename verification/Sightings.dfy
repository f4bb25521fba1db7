/** Per-car logic of the speed daemon (logic.zig, `Car.addObservation`): a sorted history
    per road, a check of neighbouring observations and the one-ticket-per-day rule.
    Floating point is replaced by exact reals. */
module Sightings {
  import opened Calendar
  import opened Messages
  import Marks

  datatype Camera = Camera(road: u16, mile: u16, limit: u16)

  datatype Observation = Observation(timestamp: u32, datestamp: DateTime, road: u16, mile: u16, limit: u16)

  /** What a camera reported. */
  datatype Sighting = Sighting(cam: Camera, timestamp: u32)

  /** A car as a value: the days it is marked for, as keys, and its history per road. */
  datatype CarState = CarState(marked: set<string>, history: map<u16, seq<Observation>>)

  const NEW_CAR := CarState({}, map[])

  function ObservationOf(cam: Camera, timestamp: u32): Observation {
    Observation(timestamp, DateOf(timestamp), cam.road, cam.mile, cam.limit)
  }

  // ----- Speed of a pair

  function Distance(a: Observation, b: Observation): nat {
    if b.mile > a.mile then b.mile - a.mile else a.mile - b.mile
  }

  function Hours(a: Observation, b: Observation): real {
    (b.timestamp - a.timestamp) as real / 3600.0
  }

  predicate TooClose(a: Observation, b: Observation) {
    Hours(a, b) <= 0.001
  }

  function MilesPerHour(a: Observation, b: Observation): real
    requires !TooClose(a, b)
  {
    Distance(a, b) as real / Hours(a, b)
  }

  predicate Speeding(a: Observation, b: Observation) {
    !TooClose(a, b) && MilesPerHour(a, b) > a.limit as real + 0.5
  }

  function TicketSpeed(a: Observation, b: Observation): int
    requires !TooClose(a, b)
  {
    (MilesPerHour(a, b) * 100.0 + 0.5).Floor
  }

  lemma Scale(x: real, y: real, t: real)
    requires t > 0.0
    ensures x < y <==> x * t < y * t
  {
  }

  lemma CastProduct(a: int, b: int)
    ensures (a * b) as real == a as real * b as real
  {
  }

  /** An average speed times the seconds is the distance times 3600. */
  lemma SpeedTimesSeconds(d: real, s: real)
    requires s > 0.0
    ensures s / 3600.0 > 0.0 && d / (s / 3600.0) * s == d * 3600.0
  {
    var h := s / 3600.0;
    assert s == h * 3600.0;
    assert d / h * h == d;
  }

  lemma Doubled(v: real, s: real, d: nat)
    requires v * s == d as real * 3600.0
    ensures v * (2.0 * s) == (7200 * d) as real
  {
  }

  lemma CompareScaled(v: real, l: real, t: real, m: int, n: int)
    requires t > 0.0 && v * t == m as real && l * t == n as real
    ensures v > l <==> m > n
  {
    Scale(l, v, t);
  }

  lemma HalfLimit(limit: nat, s: nat)
    ensures (limit as real + 0.5) * (2.0 * (s as real)) == ((2 * limit + 1) * s) as real
  {
    CastProduct(2 * limit + 1, s);
  }

  lemma FasterInIntegers(d: nat, s: nat, limit: nat)
    requires s > 0
    ensures s as real / 3600.0 > 0.0
    ensures d as real / (s as real / 3600.0) > limit as real + 0.5 <==> 7200 * d > (2 * limit + 1) * s
  {
    SpeedTimesSeconds(d as real, s as real);
    var v, l := d as real / (s as real / 3600.0), limit as real + 0.5;
    Doubled(v, s as real, d);
    HalfLimit(limit, s);
    CompareScaled(v, l, 2.0 * (s as real), 7200 * d, (2 * limit + 1) * s);
  }

  /** Miles between two marks, whichever comes first. */
  function Apart(x: int, y: int): nat {
    if x < y then y - x else x - y
  }

  /** Reals and integers agree: the gap test is "at most 3 seconds", the speed test is a
      comparison of products. */
  lemma SpeedingInIntegers(a: Observation, b: Observation)
    ensures TooClose(a, b) <==> b.timestamp - a.timestamp <= 3
    ensures Speeding(a, b) <==>
            b.timestamp - a.timestamp > 3
            && 7200 * Apart(a.mile, b.mile) > (2 * a.limit + 1) * (b.timestamp - a.timestamp)
  {
    var s := b.timestamp - a.timestamp;
    if s > 3 {
      FasterInIntegers(Apart(a.mile, b.mile), s, a.limit);
    }
  }

  lemma HundredthsTimesSeconds(v: real, d: nat, s: nat)
    requires v * (s as real) == d as real * 3600.0
    ensures (v * 100.0 + 0.5) * (2 * s) as real == (720000 * d + s) as real
  {
    assert (v * 100.0 + 0.5) * (2.0 * (s as real)) == 200.0 * (v * (s as real)) + s as real;
  }

  lemma RoundsInIntegers(x: real, n: int, t: nat, q: int)
    requires t > 0 && x * t as real == n as real && q as real <= x < (q + 1) as real
    ensures q * t <= n < (q + 1) * t
  {
    Scale(x, q as real, t as real);
    Scale(x, (q + 1) as real, t as real);
    CastProduct(q, t);
    CastProduct(q + 1, t);
  }

  lemma SpeedRounds(v: real, d: nat, s: nat, q: int)
    requires s > 0 && v * (s as real) == d as real * 3600.0 && q == (v * 100.0 + 0.5).Floor
    ensures 0 <= q && 2 * s * q <= 720000 * d + s < 2 * s * (q + 1)
  {
    HundredthsTimesSeconds(v, d, s);
    RoundsInIntegers(v * 100.0 + 0.5, 720000 * d + s, 2 * s, q);
    assert q < 0 ==> 2 * s * (q + 1) <= 0;
  }

  /** The speed on a ticket is the average in hundredths, rounded to nearest with halves up. */
  lemma TicketSpeedRounds(a: Observation, b: Observation)
    requires !TooClose(a, b)
    ensures var s, q := b.timestamp - a.timestamp, TicketSpeed(a, b);
            s > 3 && 0 <= q && 2 * s * q <= 720000 * Apart(a.mile, b.mile) + s < 2 * s * (q + 1)
  {
    SpeedingInIntegers(a, b);
    var s, d := b.timestamp - a.timestamp, Distance(a, b);
    SpeedTimesSeconds(d as real, s as real);
    SpeedRounds(MilesPerHour(a, b), d, s, TicketSpeed(a, b));
  }

  /** A ticket's speed is at least half a mile per hour over the limit of its first end. */
  lemma TicketSpeedOverLimit(a: Observation, b: Observation)
    requires Speeding(a, b)
    ensures TicketSpeed(a, b) >= 100 * a.limit + 50
  {
    SpeedingInIntegers(a, b);
    TicketSpeedRounds(a, b);
    var s, q := b.timestamp - a.timestamp, TicketSpeed(a, b);
    var k := 100 * a.limit + 50;
    assert 720000 * Apart(a.mile, b.mile) > 100 * ((2 * a.limit + 1) * s) == 2 * s * k;
    assert q + 1 <= k ==> 2 * s * (q + 1) <= 2 * s * k;
  }

  lemma FitsInIntegers(n: int, t: nat, q: int)
    requires t * q <= n < t * (q + 1)
    ensures q < 0x1_0000 <==> n < t * 0x1_0000
  {
    if q < 0x1_0000 {
      assert t * (q + 1) <= t * 0x1_0000;
    } else {
      assert t * q >= t * 0x1_0000;
    }
  }

  /** The narrowing to 16 bits is safe exactly for pairs slower than 655.355 mph. */
  lemma TicketSpeedFitsIff(a: Observation, b: Observation)
    requires !TooClose(a, b)
    ensures TicketSpeed(a, b) < 0x1_0000 <==> 720000 * Apart(a.mile, b.mile) < 131071 * (b.timestamp - a.timestamp)
  {
    SpeedingInIntegers(a, b);
    TicketSpeedRounds(a, b);
    var s, q := b.timestamp - a.timestamp, TicketSpeed(a, b);
    FitsInIntegers(720000 * Apart(a.mile, b.mile) + s, 2 * s, q);
  }

  /** Two sightings that the narrowing traps on: a mile in four seconds, 900 mph. */
  lemma OneMileInFourSeconds(a: Observation, b: Observation)
    requires a.timestamp + 4 == b.timestamp && Apart(a.mile, b.mile) == 1 && a.limit == 60
    ensures Speeding(a, b) && TicketSpeed(a, b) == 90000
  {
    SpeedingInIntegers(a, b);
    TicketSpeedRounds(a, b);
  }

  /** Two sightings at 80 mph. */
  lemma OneMileInFortyFiveSeconds(a: Observation, b: Observation)
    requires a.timestamp + 45 == b.timestamp && Apart(a.mile, b.mile) == 1 && a.limit == 60
    ensures Speeding(a, b) && TicketSpeed(a, b) == 8000
  {
    SpeedingInIntegers(a, b);
    TicketSpeedRounds(a, b);
  }

  // ----- Neighbours are enough

  /** Speeding, without the minimum gap: the average over `limit` + 0.5 mph. */
  predicate AverageOver(a: Observation, b: Observation, limit: nat) {
    7200 * Apart(a.mile, b.mile) > (2 * limit + 1) * (b.timestamp - a.timestamp)
  }

  lemma AverageSplits(a: Observation, b: Observation, c: Observation, limit: nat)
    requires AverageOver(a, c, limit)
    ensures AverageOver(a, b, limit) || AverageOver(b, c, limit)
  {
    var k, s, t := 2 * limit + 1, b.timestamp - a.timestamp, c.timestamp - b.timestamp;
    assert k * (s + t) == k * s + k * t;
    assert Apart(a.mile, c.mile) <= Apart(a.mile, b.mile) + Apart(b.mile, c.mile);
  }

  /** On a road with one limit and gaps over three seconds, an average over the limit between
      any two observations shows at some neighbouring pair between them. */
  lemma {:induction false} NeighboursAreEnough(h: seq<Observation>, i: nat, j: nat, limit: nat) returns (k: nat)
    requires i < j < |h| && AverageOver(h[i], h[j], limit)
    requires forall m :: i <= m <= j ==> h[m].limit == limit
    requires forall m :: i < m <= j ==> h[m].timestamp - h[m - 1].timestamp > 3
    ensures i < k <= j && Speeding(h[k - 1], h[k])
    decreases j
  {
    if i + 1 < j && AverageOver(h[i], h[j - 1], limit) {
      k := NeighboursAreEnough(h, i, j - 1, limit);
    } else {
      if i + 1 < j {
        AverageSplits(h[i], h[j - 1], h[j], limit);
      }
      k := j;
      SpeedingInIntegers(h[j - 1], h[j]);
    }
  }

  // ----- The history of a road

  ghost predicate Sorted(h: seq<Observation>) {
    forall i, j :: 0 <= i < j < |h| ==> h[i].timestamp <= h[j].timestamp
  }

  function Insert(h: seq<Observation>, o: Observation): (r: seq<Observation>)
    ensures multiset(r) == multiset(h) + multiset{o}
  {
    if h == [] || h[|h| - 1].timestamp <= o.timestamp then h + [o]
    else
      assert h == h[..|h| - 1] + [h[|h| - 1]];
      Insert(h[..|h| - 1], o) + [h[|h| - 1]]
  }

  /** The library's stable sort by timestamp. */
  function SortByTime(h: seq<Observation>): (r: seq<Observation>)
    ensures multiset(r) == multiset(h)
  {
    if h == [] then []
    else
      assert h == h[..|h| - 1] + [h[|h| - 1]];
      Insert(SortByTime(h[..|h| - 1]), h[|h| - 1])
  }

  lemma {:induction false} InsertKeepsSorted(h: seq<Observation>, o: Observation)
    requires Sorted(h)
    ensures Sorted(Insert(h, o))
  {
    if h == [] || h[|h| - 1].timestamp <= o.timestamp {
    } else {
      var init := h[..|h| - 1];
      InsertKeepsSorted(init, o);
      forall x | x in Insert(init, o)
        ensures x.timestamp <= h[|h| - 1].timestamp
      {
        assert x in multiset(init) + multiset{o};
      }
    }
  }

  lemma {:induction false} SortSorts(h: seq<Observation>)
    ensures Sorted(SortByTime(h))
  {
    if h != [] {
      SortSorts(h[..|h| - 1]);
      InsertKeepsSorted(SortByTime(h[..|h| - 1]), h[|h| - 1]);
    }
  }

  /** The observations of one instant, in order. */
  function At(h: seq<Observation>, timestamp: int): seq<Observation> {
    if h == [] then []
    else At(h[..|h| - 1], timestamp) + if h[|h| - 1].timestamp == timestamp then [h[|h| - 1]] else []
  }

  lemma AtSnoc(h: seq<Observation>, o: Observation, timestamp: int)
    ensures At(h + [o], timestamp) == At(h, timestamp) + if o.timestamp == timestamp then [o] else []
  {
    assert (h + [o])[..|h|] == h;
  }

  lemma {:induction false} InsertStable(h: seq<Observation>, o: Observation, timestamp: int)
    requires Sorted(h)
    ensures At(Insert(h, o), timestamp) == At(h, timestamp) + if o.timestamp == timestamp then [o] else []
  {
    if h == [] || h[|h| - 1].timestamp <= o.timestamp {
      AtSnoc(h, o, timestamp);
    } else {
      var front, last := h[..|h| - 1], h[|h| - 1];
      InsertStable(front, o, timestamp);
      AtSnoc(Insert(front, o), last, timestamp);
      if o.timestamp == timestamp {
        assert At(front, timestamp) + [o] + [] == At(front, timestamp) + [] + [o];
      } else if last.timestamp == timestamp {
        assert At(front, timestamp) + [] + [last] == At(front, timestamp) + [last] + [];
      } else {
        assert At(front, timestamp) + [] + [] == At(front, timestamp);
      }
    }
  }

  /** Observations of one instant stay in the order of their reports. */
  lemma {:induction false} SortStable(h: seq<Observation>, timestamp: int)
    ensures At(SortByTime(h), timestamp) == At(h, timestamp)
  {
    if h != [] {
      var front, last := h[..|h| - 1], h[|h| - 1];
      SortStable(front, timestamp);
      SortSorts(front);
      InsertStable(SortByTime(front), last, timestamp);
    }
  }

  lemma InsertLast(h: seq<Observation>, o: Observation)
    requires forall x :: x in h ==> x.timestamp <= o.timestamp
    ensures Insert(h, o) == h + [o]
  {
  }

  lemma SortSnoc(h: seq<Observation>, o: Observation)
    ensures SortByTime(h + [o]) == Insert(SortByTime(h), o)
  {
    assert (h + [o])[..|h|] == h;
  }

  lemma SortedFront(h: seq<Observation>)
    requires Sorted(h) && h != []
    ensures Sorted(h[..|h| - 1])
    ensures forall x :: x in h[..|h| - 1] ==> x.timestamp <= h[|h| - 1].timestamp
  {
    var front := h[..|h| - 1];
    assert forall i :: 0 <= i < |front| ==> front[i] == h[i];
  }

  lemma {:induction false} SortedStays(h: seq<Observation>)
    requires Sorted(h)
    ensures SortByTime(h) == h
  {
    if h != [] {
      var front, last := h[..|h| - 1], h[|h| - 1];
      assert h == front + [last];
      SortedFront(h);
      SortedStays(front);
      InsertLast(front, last);
      SortSnoc(front, last);
    }
  }

  /** Sorting again after each new observation is sorting once. */
  lemma SortAgain(h: seq<Observation>, o: Observation)
    ensures SortByTime(SortByTime(h) + [o]) == SortByTime(h + [o])
  {
    SortSorts(h);
    SortedStays(SortByTime(h));
    SortSnoc(h, o);
    SortSnoc(SortByTime(h), o);
  }

  // ----- The pair loop

  function TicketFor(plate: Plate, road: u16, a: Observation, b: Observation): Ticket
    requires Speeding(a, b)
  {
    TicketSpeedRounds(a, b);
    Ticket(plate, road, a.mile, a.timestamp, b.mile, b.timestamp, TicketSpeed(a, b))
  }

  datatype Scan = Scan(marked: set<string>, issued: seq<Ticket>)

  /** One neighbouring pair. The first day is marked before the second is looked up. */
  function CheckPair(plate: Plate, road: u16, a: Observation, b: Observation, st: Scan): Scan {
    var k1, k2 := DateKey(a.datestamp), DateKey(b.datestamp);
    if !Speeding(a, b) || k1 in st.marked then st
    else if k1 != k2 && k2 in st.marked then st.(marked := st.marked + {k1})
    else Scan(st.marked + {k1} + {k2}, st.issued + [TicketFor(plate, road, a, b)])
  }

  /** The first `n` observations of the loop. */
  function ScanPairs(plate: Plate, road: u16, h: seq<Observation>, n: nat, st: Scan): Scan
    requires n <= |h|
  {
    if n <= 1 then st
    else CheckPair(plate, road, h[n - 2], h[n - 1], ScanPairs(plate, road, h, n - 1, st))
  }

  datatype Observed = Observed(car: CarState, tickets: seq<Ticket>)

  /** What one sighting does to a car, and the tickets it issues. */
  function Observe(plate: Plate, car: CarState, cam: Camera, timestamp: u32): Observed {
    var o := ObservationOf(cam, timestamp);
    if cam.road !in car.history then
      Observed(car.(history := car.history[cam.road := [o]]), [])
    else
      var h := SortByTime(car.history[cam.road] + [o]);
      var st := ScanPairs(plate, cam.road, h, |h|, Scan(car.marked, []));
      Observed(CarState(st.marked, car.history[cam.road := h]), st.issued)
  }

  lemma SortedPair(o: Observation, p: Observation)
    requires o.timestamp <= p.timestamp
    ensures SortByTime([o, p]) == [o, p]
  {
    assert [o, p][..1] == [o] && [o][..0] == [];
    assert SortByTime([o]) == Insert([], o) == [o];
  }

  lemma FirstPair(plate: Plate, road: u16, o: Observation, p: Observation)
    requires Speeding(o, p)
    ensures ScanPairs(plate, road, [o, p], 2, Scan({}, [])).issued == [TicketFor(plate, road, o, p)]
  {
    assert ScanPairs(plate, road, [o, p], 1, Scan({}, [])) == Scan({}, []);
  }

  /** A new car seen twice on a road, the second time over the limit: one ticket. */
  lemma TwoSightings(plate: Plate, a: Camera, s: u32, b: Camera, t: u32)
    requires a.road == b.road && Speeding(ObservationOf(a, s), ObservationOf(b, t))
    ensures Observe(plate, NEW_CAR, a, s).tickets == []
    ensures Observe(plate, Observe(plate, NEW_CAR, a, s).car, b, t).tickets ==
            [TicketFor(plate, a.road, ObservationOf(a, s), ObservationOf(b, t))]
  {
    var o, p := ObservationOf(a, s), ObservationOf(b, t);
    SortedPair(o, p);
    assert [o] + [p] == [o, p];
    FirstPair(plate, a.road, o, p);
  }

  // ----- Which tickets a call issues, without the order of its tests

  function Keys(t: Ticket): set<string> {
    {DayKey(t.timestamp1), DayKey(t.timestamp2)}
  }

  function Days(t: Ticket): set<int> {
    {t.timestamp1 / SECONDS_PER_DAY, t.timestamp2 / SECONDS_PER_DAY}
  }

  lemma DisjointDays(t: Ticket, u: Ticket)
    requires Keys(t) !! Keys(u)
    ensures Days(t) !! Days(u)
  {
    SameKeyIffSameDay(t.timestamp1, u.timestamp1);
    SameKeyIffSameDay(t.timestamp1, u.timestamp2);
    SameKeyIffSameDay(t.timestamp2, u.timestamp1);
    SameKeyIffSameDay(t.timestamp2, u.timestamp2);
  }

  ghost predicate Dated(h: seq<Observation>) {
    forall o :: o in h ==> o.datestamp == DateOf(o.timestamp)
  }

  // ----- The tickets that are due

  datatype Pair = Pair(a: Observation, b: Observation)

  /** Speeding pairs and their two days. */
  const DAYS: Marks.Rule<Pair, string> :=
    Marks.Rule((p: Pair) => Speeding(p.a, p.b), (p: Pair) => DayKey(p.a.timestamp), (p: Pair) => DayKey(p.b.timestamp))

  /** The neighbouring pairs of a history, up to its first `n` observations. */
  function Pairs(h: seq<Observation>, n: nat): seq<Pair>
    requires n <= |h|
  {
    if n <= 1 then [] else Pairs(h, n - 1) + [Pair(h[n - 2], h[n - 1])]
  }

  lemma {:induction false} PairsAt(h: seq<Observation>, n: nat)
    requires n <= |h|
    ensures |Pairs(h, n)| == if n == 0 then 0 else n - 1
    ensures forall i :: 0 <= i < n - 1 ==> Pairs(h, n)[i] == Pair(h[i], h[i + 1])
  {
    if n > 1 {
      PairsAt(h, n - 1);
    }
  }

  /** The ticket of a pair that is speeding. */
  function Written(plate: Plate, road: u16, p: Pair): Ticket {
    if Speeding(p.a, p.b) then TicketFor(plate, road, p.a, p.b)
    else Ticket(plate, road, p.a.mile, p.a.timestamp, p.b.mile, p.b.timestamp, 0)
  }

  function Issue(plate: Plate, road: u16, ps: seq<Pair>): (ts: seq<Ticket>)
    ensures |ts| == |ps|
  {
    if ps == [] then [] else Issue(plate, road, ps[..|ps| - 1]) + [Written(plate, road, ps[|ps| - 1])]
  }

  /** The tickets due for a history: one for every speeding neighbouring pair, in order, whose two days
      were neither marked before nor taken by an earlier ticket. */
  ghost function DueTickets(plate: Plate, road: u16, h: seq<Observation>, marked: set<string>): seq<Ticket> {
    Issue(plate, road, Marks.Due(DAYS, Pairs(h, |h|), marked))
  }

  /** The days marked afterwards: also the first days of all speeding pairs. */
  ghost function DueMarks(h: seq<Observation>, marked: set<string>): set<string> {
    var ps := Pairs(h, |h|);
    marked + Marks.Firsts(DAYS, ps) + Marks.Taken(DAYS, Marks.Due(DAYS, ps, marked))
  }

  lemma CheckPairIs(plate: Plate, road: u16, a: Observation, b: Observation, st: Marks.Scanned<Pair, string>)
    requires a.datestamp == DateOf(a.timestamp) && b.datestamp == DateOf(b.timestamp)
    ensures var g := Marks.Check(DAYS, Pair(a, b), st);
            CheckPair(plate, road, a, b, Scan(st.marked, Issue(plate, road, st.taken))) ==
            Scan(g.marked, Issue(plate, road, g.taken))
  {
    assert (st.taken + [Pair(a, b)])[..|st.taken|] == st.taken;
  }

  lemma {:induction false} ScanPairsIs(plate: Plate, road: u16, h: seq<Observation>, n: nat, marked: set<string>)
    requires n <= |h| && Dated(h)
    ensures var g := Marks.Scan(DAYS, Pairs(h, n), marked);
            ScanPairs(plate, road, h, n, Scan(marked, [])) == Scan(g.marked, Issue(plate, road, g.taken))
  {
    if n > 1 {
      var p, front := Pair(h[n - 2], h[n - 1]), Pairs(h, n - 1);
      ScanPairsIs(plate, road, h, n - 1, marked);
      CheckPairIs(plate, road, p.a, p.b, Marks.Scan(DAYS, front, marked));
      assert Pairs(h, n)[..|front|] == front;
    }
  }

  lemma DivMonotone(s: nat, t: nat)
    requires s <= t
    ensures s / SECONDS_PER_DAY <= t / SECONDS_PER_DAY
  {
  }

  /** Of three instants in order, the first two and the last two, a day that returns is the day between. */
  lemma DayBetween(s: nat, t: nat, u: nat)
    requires s <= t <= u && DayKey(s) == DayKey(u)
    ensures DayKey(s) == DayKey(t)
  {
    SameKeyIffSameDay(s, u);
    SameKeyIffSameDay(s, t);
    DivMonotone(s, t);
    DivMonotone(t, u);
  }

  lemma PairOrdered(s: nat, t: nat, u: nat, v: nat)
    requires s <= t <= u <= v && (DayKey(s) == DayKey(u) || DayKey(s) == DayKey(v))
    ensures DayKey(s) == DayKey(t)
  {
    DayBetween(s, t, if DayKey(s) == DayKey(u) then u else v);
  }

  lemma PairsOrdered(h: seq<Observation>, i: nat, j: nat)
    requires Sorted(h) && i < j < |h| - 1
    requires DAYS.first(Pair(h[i], h[i + 1])) in Marks.KeysOf(DAYS, Pair(h[j], h[j + 1]))
    ensures DAYS.first(Pair(h[i], h[i + 1])) == DAYS.second(Pair(h[i], h[i + 1]))
  {
    assert h[i + 1].timestamp <= h[j].timestamp;
    PairOrdered(h[i].timestamp, h[i + 1].timestamp, h[j].timestamp, h[j + 1].timestamp);
  }

  /** In a sorted history a day comes back in a later pair only if the first pair begins and ends on it. */
  lemma SortedOrdered(h: seq<Observation>)
    requires Sorted(h)
    ensures Marks.Ordered(DAYS, Pairs(h, |h|))
  {
    var ps := Pairs(h, |h|);
    PairsAt(h, |h|);
    forall i, j | 0 <= i < j < |ps| && DAYS.first(ps[i]) in Marks.KeysOf(DAYS, ps[j])
      ensures DAYS.first(ps[i]) == DAYS.second(ps[i])
    {
      PairsOrdered(h, i, j);
    }
  }

  /** The loop issues exactly the tickets that are due. */
  lemma ScanIsDue(plate: Plate, road: u16, h: seq<Observation>, marked: set<string>)
    requires Sorted(h) && Dated(h)
    ensures ScanPairs(plate, road, h, |h|, Scan(marked, [])) ==
            Scan(DueMarks(h, marked), DueTickets(plate, road, h, marked))
  {
    SortedOrdered(h);
    ScanPairsIs(plate, road, h, |h|, marked);
    Marks.ScanIsDue(DAYS, Pairs(h, |h|), marked);
  }

  // ----- What is due, said of pairs, marks and tickets

  lemma WrittenKeys(plate: Plate, road: u16, p: Pair)
    ensures Keys(Written(plate, road, p)) == Marks.KeysOf(DAYS, p)
  {
  }

  lemma {:induction false} IssueAt(plate: Plate, road: u16, ps: seq<Pair>, i: nat)
    requires i < |ps|
    ensures Issue(plate, road, ps)[i] == Written(plate, road, ps[i])
  {
    if i < |ps| - 1 {
      IssueAt(plate, road, ps[..|ps| - 1], i);
    }
  }

  lemma IssueHas(plate: Plate, road: u16, ps: seq<Pair>, p: Pair)
    requires p in ps
    ensures Written(plate, road, p) in Issue(plate, road, ps)
  {
    var i :| 0 <= i < |ps| && ps[i] == p;
    IssueAt(plate, road, ps, i);
    assert Issue(plate, road, ps)[i] in Issue(plate, road, ps);
  }

  lemma IssueOf(plate: Plate, road: u16, ps: seq<Pair>, t: Ticket) returns (p: Pair)
    requires t in Issue(plate, road, ps)
    ensures p in ps && t == Written(plate, road, p)
  {
    var i :| 0 <= i < |ps| && Issue(plate, road, ps)[i] == t;
    IssueAt(plate, road, ps, i);
    p := ps[i];
  }

  /** A pair of a history stands at some position. */
  lemma PairOf(h: seq<Observation>, p: Pair) returns (i: nat)
    requires p in Pairs(h, |h|)
    ensures 0 < i < |h| && p == Pair(h[i - 1], h[i])
  {
    PairsAt(h, |h|);
    var j :| 0 <= j < |h| - 1 && Pairs(h, |h|)[j] == p;
    i := j + 1;
  }

  lemma PairIn(h: seq<Observation>, i: nat)
    requires 0 < i < |h|
    ensures i - 1 < |Pairs(h, |h|)| && Pairs(h, |h|)[i - 1] == Pair(h[i - 1], h[i])
  {
    PairsAt(h, |h|);
  }

  lemma PairUnmarked(p: Pair, marked: set<string>)
    requires DayKey(p.a.timestamp) !in marked && DayKey(p.b.timestamp) !in marked
    ensures Marks.KeysOf(DAYS, p) !! marked
  {
  }

  lemma PairShares(p: Pair, keys: set<string>)
    requires !(keys !! Marks.KeysOf(DAYS, p))
    ensures DayKey(p.a.timestamp) in keys || DayKey(p.b.timestamp) in keys
  {
  }

  /** Every speeding neighbouring pair with neither day marked before the call shares a day with a ticket
      of the call, its own if no earlier one took it. */
  lemma UnmarkedPairTicketed(plate: Plate, road: u16, h: seq<Observation>, marked: set<string>, i: nat)
      returns (t: Ticket)
    requires 0 < i < |h| && Speeding(h[i - 1], h[i])
    requires DayKey(h[i - 1].timestamp) !in marked && DayKey(h[i].timestamp) !in marked
    ensures t in DueTickets(plate, road, h, marked)
    ensures DayKey(h[i - 1].timestamp) in Keys(t) || DayKey(h[i].timestamp) in Keys(t)
  {
    var ps := Pairs(h, |h|);
    PairIn(h, i);
    PairUnmarked(ps[i - 1], marked);
    var p := Marks.UnmarkedShares(DAYS, ps, marked, i - 1);
    t := Written(plate, road, p);
    IssueHas(plate, road, Marks.Due(DAYS, ps, marked), p);
    WrittenKeys(plate, road, p);
    PairShares(ps[i - 1], Keys(t));
  }

  /** The first day of every speeding neighbouring pair is marked afterwards. */
  lemma FirstDayMarked(h: seq<Observation>, marked: set<string>, i: nat)
    requires 0 < i < |h| && Speeding(h[i - 1], h[i])
    ensures DayKey(h[i - 1].timestamp) in DueMarks(h, marked)
  {
    PairIn(h, i);
    Marks.FirstsOf(DAYS, Pairs(h, |h|), i - 1);
  }

  ghost predicate FirstDay(h: seq<Observation>, i: int, k: string) {
    0 < i < |h| && Speeding(h[i - 1], h[i]) && DayKey(h[i - 1].timestamp) == k
  }

  /** A newly marked day is the first day of a speeding neighbouring pair or a day of a ticket. */
  lemma MarkExplained(plate: Plate, road: u16, h: seq<Observation>, marked: set<string>, k: string)
    requires k in DueMarks(h, marked) && k !in marked
    ensures (exists i :: FirstDay(h, i, k)) || (exists t :: t in DueTickets(plate, road, h, marked) && k in Keys(t))
  {
    var ps := Pairs(h, |h|);
    var due := Marks.Due(DAYS, ps, marked);
    if k in Marks.Firsts(DAYS, ps) {
      var i := Marks.FirstOf(DAYS, ps, k);
      PairsAt(h, |h|);
      assert FirstDay(h, i + 1, k);
    } else {
      var p := Marks.TakenOf(DAYS, due, k);
      IssueHas(plate, road, due, p);
      WrittenKeys(plate, road, p);
    }
  }

  ghost predicate PairwiseDisjoint(ts: seq<Ticket>) {
    forall i, j :: 0 <= i < j < |ts| ==> Keys(ts[i]) !! Keys(ts[j])
  }

  /** A ticket of a neighbouring pair of the history. */
  ghost predicate TicketOf(t: Ticket, plate: Plate, road: u16, h: seq<Observation>) {
    exists a, b :: a in h && b in h && Speeding(a, b) && t == TicketFor(plate, road, a, b)
  }

  lemma IssueDisjoint(plate: Plate, road: u16, ps: seq<Pair>)
    requires Marks.Apart(DAYS, ps)
    ensures PairwiseDisjoint(Issue(plate, road, ps))
  {
    var ts := Issue(plate, road, ps);
    forall i, j | 0 <= i < j < |ts|
      ensures Keys(ts[i]) !! Keys(ts[j])
    {
      IssueAt(plate, road, ps, i);
      IssueAt(plate, road, ps, j);
      WrittenKeys(plate, road, ps[i]);
      WrittenKeys(plate, road, ps[j]);
    }
  }

  lemma DueTicket(plate: Plate, road: u16, h: seq<Observation>, marked: set<string>, t: Ticket)
    requires t in DueTickets(plate, road, h, marked)
    ensures Keys(t) !! marked && Keys(t) <= DueMarks(h, marked) && TicketOf(t, plate, road, h)
  {
    var ps := Pairs(h, |h|);
    var pairs := Marks.Due(DAYS, ps, marked);
    Marks.DueKeeps(DAYS, ps, marked);
    var p := IssueOf(plate, road, pairs, t);
    WrittenKeys(plate, road, p);
    Marks.KeysTaken(DAYS, pairs, p);
    var i := PairOf(h, p);
    assert h[i - 1] in h && h[i] in h;
  }

  /** The tickets due take pairwise disjoint days, none of them marked before, all of them marked
      afterwards, each for a speeding neighbouring pair. */
  lemma DueKeeps(plate: Plate, road: u16, h: seq<Observation>, marked: set<string>)
    ensures var due := DueTickets(plate, road, h, marked);
            && PairwiseDisjoint(due)
            && (forall t :: t in due ==>
                  Keys(t) !! marked && Keys(t) <= DueMarks(h, marked) && TicketOf(t, plate, road, h))
  {
    Marks.DueKeeps(DAYS, Pairs(h, |h|), marked);
    IssueDisjoint(plate, road, Marks.Due(DAYS, Pairs(h, |h|), marked));
    forall t | t in DueTickets(plate, road, h, marked)
      ensures Keys(t) !! marked && Keys(t) <= DueMarks(h, marked) && TicketOf(t, plate, road, h)
    {
      DueTicket(plate, road, h, marked, t);
    }
  }
}
