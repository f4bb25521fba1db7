/** Pairs that take keys, over any pairs and any keys: a loop that marks as it goes, and which of its
    pairs are taken, stated without the order of its tests. */
module Marks {
  import opened Slices

  /** The pairs that count, and the two keys of a pair. */
  datatype Rule<!P, !K(==)> = Rule(over: P -> bool, first: P -> K, second: P -> K)

  datatype Scanned<P, K> = Scanned(marked: set<K>, taken: seq<P>)

  function KeysOf<P, K>(r: Rule<P, K>, p: P): set<K> {
    {r.first(p), r.second(p)}
  }

  /** One pair of the loop: its first key is marked before its second is looked up. */
  function Check<P, K(==)>(r: Rule<P, K>, p: P, st: Scanned<P, K>): Scanned<P, K> {
    if !r.over(p) || r.first(p) in st.marked then st
    else if r.first(p) != r.second(p) && r.second(p) in st.marked then st.(marked := st.marked + {r.first(p)})
    else Scanned(st.marked + {r.first(p)} + {r.second(p)}, st.taken + [p])
  }

  function Scan<P, K(==)>(r: Rule<P, K>, ps: seq<P>, marked: set<K>): Scanned<P, K> {
    if ps == [] then Scanned(marked, []) else Check(r, ps[|ps| - 1], Scan(r, ps[..|ps| - 1], marked))
  }

  /** All keys of some pairs. */
  ghost function Taken<P, K>(r: Rule<P, K>, ps: seq<P>): set<K> {
    if ps == [] then {} else Taken(r, ps[..|ps| - 1]) + KeysOf(r, ps[|ps| - 1])
  }

  /** The first keys of the pairs that count. */
  ghost function Firsts<P, K>(r: Rule<P, K>, ps: seq<P>): set<K> {
    if ps == [] then {}
    else Firsts(r, ps[..|ps| - 1]) + if r.over(ps[|ps| - 1]) then {r.first(ps[|ps| - 1])} else {}
  }

  ghost predicate Free<P, K>(r: Rule<P, K>, p: P, marked: set<K>, past: seq<P>) {
    KeysOf(r, p) !! marked && KeysOf(r, p) !! Taken(r, past)
  }

  /** The pairs that count, in order, whose keys were neither marked at first nor are keys of an earlier
      pair taken. */
  ghost function Due<P, K>(r: Rule<P, K>, ps: seq<P>, marked: set<K>): seq<P> {
    if ps == [] then []
    else
      var past, p := Due(r, ps[..|ps| - 1], marked), ps[|ps| - 1];
      if r.over(p) && Free(r, p, marked, past) then past + [p] else past
  }

  /** A first key comes back in a later pair only if it is both keys of its own. */
  ghost predicate Ordered<P, K>(r: Rule<P, K>, ps: seq<P>) {
    forall i, j :: 0 <= i < j < |ps| && r.first(ps[i]) in KeysOf(r, ps[j]) ==> r.first(ps[i]) == r.second(ps[i])
  }

  lemma TakenSnoc<P, K>(r: Rule<P, K>, ps: seq<P>, p: P)
    ensures Taken(r, ps + [p]) == Taken(r, ps) + KeysOf(r, p)
  {
    assert (ps + [p])[..|ps|] == ps;
  }

  lemma {:induction false} TakenOf<P, K>(r: Rule<P, K>, ps: seq<P>, k: K) returns (p: P)
    requires k in Taken(r, ps)
    ensures p in ps && k in KeysOf(r, p)
  {
    p := ps[|ps| - 1];
    if k !in KeysOf(r, p) {
      p := TakenOf(r, ps[..|ps| - 1], k);
    }
  }

  lemma {:induction false} KeysTaken<P, K>(r: Rule<P, K>, ps: seq<P>, p: P)
    requires p in ps
    ensures KeysOf(r, p) <= Taken(r, ps)
  {
    if p != ps[|ps| - 1] {
      KeysTaken(r, ps[..|ps| - 1], p);
    }
  }

  lemma {:induction false} FirstOf<P, K>(r: Rule<P, K>, ps: seq<P>, k: K) returns (i: nat)
    requires k in Firsts(r, ps)
    ensures i < |ps| && r.over(ps[i]) && r.first(ps[i]) == k
  {
    i := |ps| - 1;
    if !(r.over(ps[i]) && r.first(ps[i]) == k) {
      i := FirstOf(r, ps[..i], k);
    }
  }

  lemma {:induction false} FirstsOf<P, K>(r: Rule<P, K>, ps: seq<P>, i: nat)
    requires i < |ps| && r.over(ps[i])
    ensures r.first(ps[i]) in Firsts(r, ps)
  {
    if i < |ps| - 1 {
      FirstsOf(r, ps[..|ps| - 1], i);
    }
  }

  /** A first key that is marked for no other reason belongs to a pair with two keys. */
  lemma {:induction false} FirstOnly<P, K>(r: Rule<P, K>, ps: seq<P>, marked: set<K>, k: K) returns (i: nat)
    requires k in Firsts(r, ps) && k !in marked && k !in Taken(r, Due(r, ps, marked))
    ensures i < |ps| && r.first(ps[i]) == k && r.second(ps[i]) != k
  {
    var front, p := ps[..|ps| - 1], ps[|ps| - 1];
    var past := Due(r, front, marked);
    TakenSnoc(r, past, p);
    if k in Firsts(r, front) {
      i := FirstOnly(r, front, marked, k);
    } else {
      i := |ps| - 1;
    }
  }

  /** Such a mark never stands in the way of a later pair. */
  lemma NotInTheWay<P, K>(r: Rule<P, K>, ps: seq<P>, p: P, marked: set<K>, k: K)
    requires Ordered(r, ps + [p]) && k in KeysOf(r, p) && k in Firsts(r, ps)
    ensures k in marked || k in Taken(r, Due(r, ps, marked))
  {
    var all := ps + [p];
    assert all[|ps|] == p && forall i :: 0 <= i < |ps| ==> all[i] == ps[i];
    if k !in marked && k !in Taken(r, Due(r, ps, marked)) {
      var i := FirstOnly(r, ps, marked, k);
      assert false;
    }
  }

  lemma AddPair<K>(m: set<K>, n: set<K>, t: set<K>, f: K, g: K)
    ensures m + n + t + {f} + {g} == m + (n + {f}) + (t + {f, g})
    ensures m + n + t + {f} == m + (n + {f}) + t
    ensures f in m + n + t ==> m + n + t == m + (n + {f}) + t
  {
  }

  lemma FreeChecked<P, K>(r: Rule<P, K>, p: P, marked: set<K>, firsts: set<K>, past: seq<P>)
    requires forall k :: k in KeysOf(r, p) && k in firsts ==> k in marked || k in Taken(r, past)
    requires r.over(p) && Free(r, p, marked, past)
    ensures Check(r, p, Scanned(marked + firsts + Taken(r, past), past)) ==
            Scanned(marked + (firsts + {r.first(p)}) + Taken(r, past + [p]), past + [p])
  {
    var f, g := r.first(p), r.second(p);
    assert f in KeysOf(r, p) && g in KeysOf(r, p);
    TakenSnoc(r, past, p);
    AddPair(marked, firsts, Taken(r, past), f, g);
  }

  lemma TakenChecked<P, K>(r: Rule<P, K>, p: P, marked: set<K>, firsts: set<K>, past: seq<P>)
    requires r.over(p) && !Free(r, p, marked, past)
    ensures Check(r, p, Scanned(marked + firsts + Taken(r, past), past)) ==
            Scanned(marked + (firsts + {r.first(p)}) + Taken(r, past), past)
  {
    var k :| k in KeysOf(r, p) && (k in marked || k in Taken(r, past));
    AddPair(marked, firsts, Taken(r, past), r.first(p), r.second(p));
  }

  lemma CheckIsDue<P, K>(r: Rule<P, K>, p: P, marked: set<K>, firsts: set<K>, past: seq<P>)
    requires forall k :: k in KeysOf(r, p) && k in firsts ==> k in marked || k in Taken(r, past)
    ensures var due := if r.over(p) && Free(r, p, marked, past) then past + [p] else past;
            Check(r, p, Scanned(marked + firsts + Taken(r, past), past)) ==
            Scanned(marked + (firsts + if r.over(p) then {r.first(p)} else {}) + Taken(r, due), due)
  {
    if r.over(p) && Free(r, p, marked, past) {
      FreeChecked(r, p, marked, firsts, past);
    } else if r.over(p) {
      TakenChecked(r, p, marked, firsts, past);
    } else {
      assert firsts + {} == firsts;
    }
  }

  /** The loop takes exactly the pairs that are due, and marks their keys and all first keys. */
  lemma {:induction false} ScanIsDue<P, K>(r: Rule<P, K>, ps: seq<P>, marked: set<K>)
    requires Ordered(r, ps)
    ensures var due := Due(r, ps, marked);
            Scan(r, ps, marked) == Scanned(marked + Firsts(r, ps) + Taken(r, due), due)
  {
    if ps != [] {
      var front, p := ps[..|ps| - 1], ps[|ps| - 1];
      SnocOf(ps);
      assert forall i :: 0 <= i < |front| ==> front[i] == ps[i];
      ScanIsDue(r, front, marked);
      forall k | k in KeysOf(r, p) && k in Firsts(r, front)
        ensures k in marked || k in Taken(r, Due(r, front, marked))
      {
        NotInTheWay(r, front, p, marked, k);
      }
      CheckIsDue(r, p, marked, Firsts(r, front), Due(r, front, marked));
    }
  }

  /** A pair that counts and has no key marked at first shares a key with a pair that is taken. */
  lemma {:induction false} UnmarkedShares<P, K>(r: Rule<P, K>, ps: seq<P>, marked: set<K>, i: nat) returns (p: P)
    requires i < |ps| && r.over(ps[i]) && KeysOf(r, ps[i]) !! marked
    ensures p in Due(r, ps, marked) && !(KeysOf(r, p) !! KeysOf(r, ps[i]))
  {
    var past := Due(r, ps[..|ps| - 1], marked);
    if i < |ps| - 1 {
      p := UnmarkedShares(r, ps[..|ps| - 1], marked, i);
    } else {
      p := ps[i];
      assert r.first(p) in KeysOf(r, p);
      if !Free(r, p, marked, past) {
        var k :| k in KeysOf(r, p) && k in Taken(r, past);
        p := TakenOf(r, past, k);
        assert k in KeysOf(r, p) && k in KeysOf(r, ps[i]);
      }
    }
  }

  ghost predicate Apart<P, K>(r: Rule<P, K>, ps: seq<P>) {
    forall i, j :: 0 <= i < j < |ps| ==> KeysOf(r, ps[i]) !! KeysOf(r, ps[j])
  }

  /** The pairs taken count, share no key, and have no key that was marked at first. */
  lemma {:induction false} DueKeeps<P, K>(r: Rule<P, K>, ps: seq<P>, marked: set<K>)
    ensures Apart(r, Due(r, ps, marked)) && Taken(r, Due(r, ps, marked)) !! marked
    ensures forall p :: p in Due(r, ps, marked) ==> p in ps && r.over(p)
  {
    if ps != [] {
      var front, p := ps[..|ps| - 1], ps[|ps| - 1];
      var past := Due(r, front, marked);
      SnocOf(ps);
      DueKeeps(r, front, marked);
      if r.over(p) && Free(r, p, marked, past) {
        TakenSnoc(r, past, p);
        forall i | 0 <= i < |past|
          ensures KeysOf(r, past[i]) !! KeysOf(r, p)
        {
          KeysTaken(r, past, past[i]);
        }
      }
    }
  }
}
