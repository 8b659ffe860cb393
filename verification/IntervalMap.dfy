/** The interval containers the agent keeps its sectors in.

A map from sectors to write times is a sequence of timed half-open segments:
sorted, disjoint, and coalesced, so that touching segments never carry the same
time.  Time 0 is the identity of the map and is never stored: adding it is
absorbed.  A set of sectors is a map whose times are all 1.
*/
module IntervalMap {

  // A half-open range of sectors; empty when lower >= upper.
  datatype Interval = Interval(lower: nat, upper: nat) {
    predicate Contains(s: nat) { lower <= s < upper }

    function Cardinality(): nat { if lower < upper then upper - lower else 0 }

    function Sectors(): set<nat> { set s: nat | lower <= s < upper && Contains(s) }
  }

  datatype Segment = Segment(lo: nat, hi: nat, time: int) {
    predicate Contains(s: nat) { lo <= s < hi }

    function Range(): Interval { Interval(lo, hi) }
  }

  type SectorMap = seq<Segment>

  predicate Apart(a: Segment, b: Segment) {
    a.hi <= b.lo && (a.hi == b.lo ==> a.time != b.time)
  }

  predicate Canonical(m: SectorMap) {
    m == [] ||
    (m[0].lo < m[0].hi && m[0].time != 0 && Canonical(m[1..]) && (|m| > 1 ==> Apart(m[0], m[1])))
  }

  // The time stored for sector s, 0 when there is none.
  function At(m: SectorMap, s: nat): int {
    if m == [] then 0 else if m[0].Contains(s) then m[0].time else At(m[1..], s)
  }

  function Dom(m: SectorMap): set<nat> {
    if m == [] then {} else m[0].Range().Sectors() + Dom(m[1..])
  }

  function Count(m: SectorMap): nat {
    if m == [] then 0 else m[0].Range().Cardinality() + Count(m[1..])
  }

  // How two times of one sector combine; a is 0 when the sector was absent.
  function Combine(a: int, t: int): int {
    if a == 0 || a < t then t else a
  }

  // Puts a segment in front of a map, merging it with a touching equal neighbour.
  function Join(g: Segment, m: SectorMap): (r: SectorMap)
    requires g.lo < g.hi && g.time != 0
    requires Canonical(m) && (m != [] ==> g.hi <= m[0].lo)
    ensures Canonical(r) && r != [] && r[0].lo == g.lo && r[0].time == g.time
  {
    if m != [] && g.hi == m[0].lo && g.time == m[0].time
    then
      var r := [Segment(g.lo, m[0].hi, g.time)] + m[1..];
      assert r[1..] == m[1..];
      r
    else
      var r := [g] + m;
      assert r[1..] == m;
      r
  }

  function Insert(m: SectorMap, lo: nat, hi: nat, t: int): (r: SectorMap)
    requires Canonical(m) && lo < hi && t != 0
    ensures Canonical(r) && r != []
    ensures r[0].lo == if m != [] && m[0].lo < lo then m[0].lo else lo
  {
    if m == [] then [Segment(lo, hi, t)]
    else
      var h, rest := m[0], m[1..];
      if h.hi <= lo then Join(h, Insert(rest, lo, hi, t))
      else if hi <= h.lo then Join(Segment(lo, hi, t), m)
      else
        var from, to := if lo < h.lo then h.lo else lo, if hi < h.hi then hi else h.hi;
        var tail :=
          if hi < h.hi then Join(Segment(hi, h.hi, h.time), rest)
          else if h.hi < hi then Insert(rest, h.hi, hi, t)
          else rest;
        var body := Join(Segment(from, to, Combine(h.time, t)), tail);
        if lo < h.lo then Join(Segment(lo, h.lo, t), body)
        else if h.lo < lo then Join(Segment(h.lo, lo, h.time), body)
        else body
  }

  // map += (interval, time)
  function Add(m: SectorMap, i: Interval, t: int): (r: SectorMap)
    requires Canonical(m)
    ensures Canonical(r)
  {
    if i.lower < i.upper && t != 0 then Insert(m, i.lower, i.upper, t) else m
  }

  function Erase(m: SectorMap, lo: nat, hi: nat): (r: SectorMap)
    requires Canonical(m) && lo < hi
    ensures Canonical(r)
    ensures r != [] ==> m != [] && ((r[0].lo == m[0].lo && r[0].time == m[0].time) || (m[0].lo < hi <= r[0].lo))
  {
    if m == [] then []
    else
      var h, rest := m[0], m[1..];
      if hi <= h.lo then m
      else if h.hi <= lo then Push(h, Erase(rest, lo, hi))
      else
        var tail := if hi < h.hi then Push(Segment(hi, h.hi, h.time), rest) else Erase(rest, lo, hi);
        if h.lo < lo then Push(Segment(h.lo, lo, h.time), tail) else tail
  }

  function Push(g: Segment, m: SectorMap): (r: SectorMap)
    requires g.lo < g.hi && g.time != 0 && Canonical(m) && (m != [] ==> Apart(g, m[0]))
    ensures Canonical(r) && r == [g] + m && r[1..] == m
  {
    var r := [g] + m;
    assert r[1..] == m;
    r
  }

  // map -= interval
  function Subtract(m: SectorMap, i: Interval): (r: SectorMap)
    requires Canonical(m)
    ensures Canonical(r)
  {
    if i.lower < i.upper then Erase(m, i.lower, i.upper) else m
  }

  // ---- Pointwise meaning ----

  lemma BelowFirst(m: SectorMap, s: nat)
    requires Canonical(m) && (m != [] ==> s < m[0].lo)
    ensures At(m, s) == 0
  {
  }

  lemma JoinAt(g: Segment, m: SectorMap, s: nat)
    requires g.lo < g.hi && g.time != 0
    requires Canonical(m) && (m != [] ==> g.hi <= m[0].lo)
    ensures At(Join(g, m), s) == if g.Contains(s) then g.time else At(m, s)
  {
  }

  lemma {:induction false} InsertAt(m: SectorMap, lo: nat, hi: nat, t: int, s: nat)
    requires Canonical(m) && lo < hi && t != 0
    ensures At(Insert(m, lo, hi, t), s) == if lo <= s < hi then Combine(At(m, s), t) else At(m, s)
    decreases m, 1
  {
    if m == [] {
      assert [Segment(lo, hi, t)][1..] == [];
      return;
    }
    var h, rest := m[0], m[1..];
    if s < h.lo { BelowFirst(m, s); }
    if s < h.hi && |m| > 1 { BelowFirst(rest, s); }
    if h.hi <= lo {
      InsertAt(rest, lo, hi, t, s);
      JoinAt(h, Insert(rest, lo, hi, t), s);
    } else if hi <= h.lo {
      JoinAt(Segment(lo, hi, t), m, s);
    } else {
      InsertOverlapAt(m, lo, hi, t, s);
    }
  }

  lemma {:induction false} InsertOverlapAt(m: SectorMap, lo: nat, hi: nat, t: int, s: nat)
    requires Canonical(m) && m != [] && lo < hi && t != 0
    requires lo < m[0].hi && m[0].lo < hi
    requires s < m[0].lo ==> At(m, s) == 0
    requires s < m[0].hi ==> At(m[1..], s) == 0
    ensures At(Insert(m, lo, hi, t), s) == if lo <= s < hi then Combine(At(m, s), t) else At(m, s)
    decreases m, 0
  {
    var h, rest := m[0], m[1..];
    var from, to := if lo < h.lo then h.lo else lo, if hi < h.hi then hi else h.hi;
    var tail :=
      if hi < h.hi then Join(Segment(hi, h.hi, h.time), rest)
      else if h.hi < hi then Insert(rest, h.hi, hi, t)
      else rest;
    if hi < h.hi {
      JoinAt(Segment(hi, h.hi, h.time), rest, s);
    } else if h.hi < hi {
      InsertAt(rest, h.hi, hi, t, s);
    }
    var mid := Segment(from, to, Combine(h.time, t));
    var body := Join(mid, tail);
    JoinAt(mid, tail, s);
    if lo < h.lo {
      JoinAt(Segment(lo, h.lo, t), body, s);
    } else if h.lo < lo {
      JoinAt(Segment(h.lo, lo, h.time), body, s);
    }
  }

  /** Adding is the pointwise maximum on the interval, and nothing elsewhere. */
  lemma AddAt(m: SectorMap, i: Interval, t: int, s: nat)
    requires Canonical(m)
    ensures At(Add(m, i, t), s) == if i.Contains(s) && t != 0 then Combine(At(m, s), t) else At(m, s)
  {
    if i.lower < i.upper && t != 0 {
      InsertAt(m, i.lower, i.upper, t, s);
    }
  }

  lemma {:induction false} EraseAt(m: SectorMap, lo: nat, hi: nat, s: nat)
    requires Canonical(m) && lo < hi
    ensures At(Erase(m, lo, hi), s) == if lo <= s < hi then 0 else At(m, s)
  {
    if m == [] { return; }
    var h, rest := m[0], m[1..];
    if s < h.lo { BelowFirst(m, s); }
    if s < h.hi && |m| > 1 { BelowFirst(rest, s); }
    if hi <= h.lo {
    } else if h.hi <= lo {
      EraseAt(rest, lo, hi, s);
    } else {
      var tail := if hi < h.hi then Push(Segment(hi, h.hi, h.time), rest) else Erase(rest, lo, hi);
      if hi >= h.hi { EraseAt(rest, lo, hi, s); }
      assert At(tail, s) == if s < hi then 0 else At(m, s);
    }
  }

  /** Subtracting forgets the interval and nothing else. */
  lemma SubtractAt(m: SectorMap, i: Interval, s: nat)
    requires Canonical(m)
    ensures At(Subtract(m, i), s) == if i.Contains(s) then 0 else At(m, s)
  {
    if i.lower < i.upper {
      EraseAt(m, i.lower, i.upper, s);
    }
  }

  lemma {:induction false} DomIsAt(m: SectorMap, s: nat)
    requires Canonical(m)
    ensures s in Dom(m) <==> At(m, s) != 0
  {
    if m != [] {
      DomIsAt(m[1..], s);
    }
  }

  lemma {:induction false} RangeSize(lo: nat, hi: nat)
    requires lo <= hi
    ensures |Interval(lo, hi).Sectors()| == hi - lo
    decreases hi - lo
  {
    if lo < hi {
      RangeSize(lo, hi - 1);
      assert Interval(lo, hi).Sectors() == Interval(lo, hi - 1).Sectors() + {hi - 1};
    } else {
      assert Interval(lo, hi).Sectors() == {};
    }
  }

  /** The sum of the segment lengths is the number of sectors in the map. */
  lemma {:induction false} CountIsSize(m: SectorMap)
    requires Canonical(m)
    ensures Count(m) == |Dom(m)|
  {
    if m != [] {
      var first := m[0].Range();
      RangeSize(m[0].lo, m[0].hi);
      CountIsSize(m[1..]);
      forall s | s in first.Sectors() && s in Dom(m[1..]) ensures false {
        DomIsAt(m[1..], s);
        BelowFirst(m[1..], s);
      }
      assert first.Sectors() !! Dom(m[1..]);
    }
  }

  lemma AddDom(m: SectorMap, i: Interval, t: int)
    requires Canonical(m) && t != 0
    ensures Dom(Add(m, i, t)) == Dom(m) + i.Sectors()
  {
    forall s: nat ensures s in Dom(Add(m, i, t)) <==> s in Dom(m) + i.Sectors() {
      AddAt(m, i, t, s);
      DomIsAt(m, s);
      DomIsAt(Add(m, i, t), s);
    }
  }

  lemma SubtractDom(m: SectorMap, i: Interval)
    requires Canonical(m)
    ensures Dom(Subtract(m, i)) == Dom(m) - i.Sectors()
  {
    forall s: nat ensures s in Dom(Subtract(m, i)) <==> s in Dom(m) - i.Sectors() {
      SubtractAt(m, i, s);
      DomIsAt(m, s);
      DomIsAt(Subtract(m, i), s);
    }
  }

  /** Adding grows the count by exactly the sectors that were absent. */
  lemma AddCount(m: SectorMap, i: Interval, t: int)
    requires Canonical(m) && t != 0
    ensures Count(Add(m, i, t)) == Count(m) + |i.Sectors() - Dom(m)|
  {
    AddDom(m, i, t);
    CountIsSize(m);
    CountIsSize(Add(m, i, t));
    assert Dom(m) + i.Sectors() == Dom(m) + (i.Sectors() - Dom(m));
  }

  /** Subtracting a wholly present interval shrinks the count by its cardinality. */
  lemma SubtractCount(m: SectorMap, i: Interval)
    requires Canonical(m) && i.Sectors() <= Dom(m)
    ensures Count(Subtract(m, i)) + i.Cardinality() == Count(m)
  {
    SubtractDom(m, i);
    CountIsSize(m);
    CountIsSize(Subtract(m, i));
    if i.lower < i.upper {
      RangeSize(i.lower, i.upper);
    } else {
      assert i.Sectors() == {};
    }
    assert |Dom(m) - i.Sectors()| + |i.Sectors()| == |Dom(m)| by {
      assert Dom(m) == (Dom(m) - i.Sectors()) + i.Sectors();
    }
  }

  // ---- Canonical form is unique ----

  lemma {:induction false} FirstNotLonger(a: SectorMap, b: SectorMap)
    requires Canonical(a) && Canonical(b) && a != [] && b != []
    requires forall s: nat :: At(a, s) == At(b, s)
    requires a[0].lo == b[0].lo && a[0].time == b[0].time
    ensures b[0].hi <= a[0].hi
  {
    var s := a[0].hi;
    if s < b[0].hi {
      assert At(b, s) == b[0].time;
      assert At(a, s) == At(a[1..], s);
      if |a| > 1 && a[1].lo > s { BelowFirst(a[1..], s); }
      assert false;
    }
  }

  lemma FirstNotBefore(a: SectorMap, b: SectorMap)
    requires Canonical(a) && Canonical(b) && a != []
    requires forall s: nat :: At(a, s) == At(b, s)
    ensures b != [] && b[0].lo <= a[0].lo
  {
    assert At(a, a[0].lo) == At(b, a[0].lo);
    if b == [] || a[0].lo < b[0].lo {
      BelowFirst(b, a[0].lo);
    }
  }

  /** Two canonical maps with the same meaning are the same sequence. */
  lemma {:induction false} Unique(a: SectorMap, b: SectorMap)
    requires Canonical(a) && Canonical(b)
    requires forall s: nat :: At(a, s) == At(b, s)
    ensures a == b
    decreases |a|
  {
    if b != [] { FirstNotBefore(b, a); }
    if a != [] {
      FirstNotBefore(a, b);
      assert At(a, a[0].lo) == At(b, a[0].lo);
      FirstNotLonger(a, b);
      FirstNotLonger(b, a);
      forall s: nat ensures At(a[1..], s) == At(b[1..], s) {
        assert At(a, s) == At(b, s);
        if s < a[0].hi { BelowFirst(a[1..], s); BelowFirst(b[1..], s); }
      }
      Unique(a[1..], b[1..]);
      assert a == [a[0]] + a[1..] && b == [b[0]] + b[1..];
    }
  }

  // ---- Sets of sectors ----

  predicate IsSet(m: SectorMap) {
    Canonical(m) && forall k :: 0 <= k < |m| ==> m[k].time == 1
  }

  lemma {:induction false} SetAt(m: SectorMap, s: nat)
    requires IsSet(m)
    ensures At(m, s) == 0 || At(m, s) == 1
  {
    if m != [] { SetAt(m[1..], s); }
  }

  lemma {:induction false} AtIndex(m: SectorMap, k: nat)
    requires Canonical(m) && k < |m|
    ensures m[k].lo < m[k].hi && m[k].time != 0
    ensures forall s :: m[k].Contains(s) ==> At(m, s) == m[k].time
    ensures forall j :: 0 <= j < k ==> m[j].hi <= m[k].lo
    ensures k > 0 ==> Apart(m[k - 1], m[k])
    decreases k
  {
    if k > 0 {
      AtIndex(m[1..], k - 1);
      assert m[1..][k - 1] == m[k];
      if k > 1 { assert m[1..][k - 2] == m[k - 1]; assert m[1..][0] == m[1]; }
      forall j | 0 <= j < k ensures m[j].hi <= m[k].lo {
        if j > 0 { assert m[1..][j - 1] == m[j]; }
        else if k > 1 { assert m[1].hi <= m[k].lo; AtIndex(m, 1); }
      }
      forall s | m[k].Contains(s) ensures At(m, s) == m[k].time {
        assert m[0].hi <= m[k].lo;
      }
    }
  }

  lemma SetFromAt(m: SectorMap)
    requires Canonical(m) && forall s: nat :: At(m, s) == 0 || At(m, s) == 1
    ensures IsSet(m)
  {
    forall k | 0 <= k < |m| ensures m[k].time == 1 {
      AtIndex(m, k);
      assert At(m, m[k].lo) == m[k].time;
    }
  }

  lemma SetAdd(m: SectorMap, i: Interval)
    requires IsSet(m)
    ensures IsSet(Add(m, i, 1))
  {
    forall s: nat ensures At(Add(m, i, 1), s) == 0 || At(Add(m, i, 1), s) == 1 {
      AddAt(m, i, 1, s);
      SetAt(m, s);
    }
    SetFromAt(Add(m, i, 1));
  }

  lemma SetSubtract(m: SectorMap, i: Interval)
    requires IsSet(m)
    ensures IsSet(Subtract(m, i))
  {
    forall s: nat ensures At(Subtract(m, i), s) == 0 || At(Subtract(m, i), s) == 1 {
      SubtractAt(m, i, s);
      SetAt(m, s);
    }
    SetFromAt(Subtract(m, i));
  }

  /** A set of sectors has one representation. */
  lemma SetUnique(a: SectorMap, b: SectorMap)
    requires IsSet(a) && IsSet(b) && Dom(a) == Dom(b)
    ensures a == b
  {
    forall s: nat ensures At(a, s) == At(b, s) {
      DomIsAt(a, s);
      DomIsAt(b, s);
      SetAt(a, s);
      SetAt(b, s);
    }
    Unique(a, b);
  }
}
