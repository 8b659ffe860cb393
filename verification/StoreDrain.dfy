/** Draining a store: repeated hand-out and removal with no adds in between. */
module StoreDrain {
  import opened IntervalMap
  import opened SectorStore

  // One turn of the copy loop as the store sees it: hand out, then remove.
  function Round(st: Store, epoch: int): (r: Store)
    requires st.Valid()
    ensures r.Valid()
  {
    var h := GetInterval(st, epoch);
    RemoveInterval(h.store, h.interval)
  }

  function Rounds(st: Store, epochs: seq<int>): (r: Store)
    requires st.Valid()
    ensures r.Valid()
    decreases |epochs|
  {
    if epochs == [] then st else Rounds(Round(st, epochs[0]), epochs[1..])
  }

  function Handed(st: Store, epochs: seq<int>): (r: seq<Interval>)
    requires st.Valid()
    ensures |r| == |epochs|
    decreases |epochs|
  {
    if epochs == [] then []
    else [GetInterval(st, epochs[0]).interval] + Handed(Round(st, epochs[0]), epochs[1..])
  }

  // How often a round finds nothing past the cursor and starts again at the first segment.
  function Wraps(st: Store, epochs: seq<int>): nat
    requires st.Valid()
    decreases |epochs|
  {
    if epochs == [] then 0
    else (if st.unsynced != [] && NextAfter(st.unsynced, st.cursor) == |st.unsynced| then 1 else 0)
         + Wraps(Round(st, epochs[0]), epochs[1..])
  }

  function Ranges(m: SectorMap): (r: seq<Interval>)
    ensures |r| == |m| && forall k :: 0 <= k < |m| ==> r[k] == m[k].Range()
  {
    seq(|m|, k requires 0 <= k < |m| => m[k].Range())
  }

  predicate Ordered(m: SectorMap) {
    && (forall k :: 0 <= k < |m| ==> m[k].lo < m[k].hi)
    && (forall j, k :: 0 <= j < k < |m| ==> m[j].hi <= m[k].lo)
  }

  lemma CanonicalIsOrdered(m: SectorMap)
    requires Canonical(m)
    ensures Ordered(m)
  {
  }

  function Without(m: SectorMap, k: nat): SectorMap
    requires k < |m|
  {
    m[..k] + m[k + 1..]
  }

  lemma EraseFirst(m: SectorMap)
    requires Canonical(m) && m != []
    ensures Erase(m, m[0].lo, m[0].hi) == m[1..]
  {
  }

  lemma EraseLater(m: SectorMap, lo: nat, hi: nat)
    requires Canonical(m) && m != [] && m[0].hi <= lo < hi
    ensures Erase(m, lo, hi) == [m[0]] + Erase(m[1..], lo, hi)
  {
  }

  lemma {:induction false} EraseSegment(m: SectorMap, k: nat)
    requires Canonical(m) && Ordered(m) && k < |m|
    ensures Erase(m, m[k].lo, m[k].hi) == Without(m, k)
    decreases k
  {
    if k == 0 {
      EraseFirst(m);
      assert Without(m, 0) == m[1..];
    } else {
      var rest := m[1..];
      assert Ordered(rest) by { assert forall j :: 0 <= j < |rest| ==> rest[j] == m[j + 1]; }
      EraseLater(m, m[k].lo, m[k].hi);
      EraseSegment(rest, k - 1);
      assert Without(m, k) == [m[0]] + Without(rest, k - 1);
    }
  }

  /** A round takes out exactly the picked segment and parks the cursor at its end. */
  lemma RoundTakesPick(st: Store, epoch: int)
    requires st.Valid() && st.unsynced != []
    ensures var k := Pick(st.unsynced, st.cursor);
            && Round(st, epoch).unsynced == Without(st.unsynced, k)
            && Round(st, epoch).cursor == st.unsynced[k].hi
            && GetInterval(st, epoch).interval == st.unsynced[k].Range()
  {
    var k := Pick(st.unsynced, st.cursor);
    CanonicalIsOrdered(st.unsynced);
    EraseSegment(st.unsynced, k);
  }

  lemma Regroup(i: Interval, handed: seq<Interval>, rest: multiset<Interval>)
    ensures multiset([i] + handed) + rest == multiset{i} + (multiset(handed) + rest)
  {
  }

  lemma RangesWithout(m: SectorMap, k: nat)
    requires k < |m|
    ensures multiset(Ranges(m)) == multiset{m[k].Range()} + multiset(Ranges(m[..k] + m[k + 1..]))
  {
    assert Ranges(m) == Ranges(m[..k]) + [m[k].Range()] + Ranges(m[k + 1..]);
    assert Ranges(m[..k] + m[k + 1..]) == Ranges(m[..k]) + Ranges(m[k + 1..]);
  }

  /** From any store and cursor, n segments drain in exactly n rounds, each handed out once. */
  lemma {:induction false} DrainIsExact(st: Store, epochs: seq<int>)
    requires st.Valid() && |epochs| <= |st.unsynced|
    ensures |Rounds(st, epochs).unsynced| == |st.unsynced| - |epochs|
    ensures multiset(Handed(st, epochs)) + multiset(Ranges(Rounds(st, epochs).unsynced))
         == multiset(Ranges(st.unsynced))
    decreases |epochs|
  {
    if epochs != [] {
      var k := Pick(st.unsynced, st.cursor);
      var m := st.unsynced;
      var next := Round(st, epochs[0]);
      RoundTakesPick(st, epochs[0]);
      DrainIsExact(next, epochs[1..]);
      RangesWithout(m, k);
      Regroup(m[k].Range(), Handed(next, epochs[1..]), multiset(Ranges(Rounds(next, epochs[1..]).unsynced)));
    }
  }

  // Among the segments the cursor has passed, no two touch.
  predicate PassedAreSparse(m: SectorMap, cursor: nat) {
    forall j, k :: 0 <= j < k < |m| && m[k].lo <= cursor ==> m[j].hi < m[k].lo
  }

  predicate Sparse(m: SectorMap) {
    forall j, k :: 0 <= j < k < |m| ==> m[j].hi < m[k].lo
  }

  lemma SparseAfterPick(m: SectorMap, k: nat)
    requires Ordered(m) && k < |m|
    requires forall i, j :: 0 <= i < j < k ==> m[i].hi < m[j].lo
    ensures PassedAreSparse(Without(m, k), m[k].hi)
  {
  }

  lemma SparseTail(m: SectorMap)
    requires m != [] && Sparse(m)
    ensures Sparse(Without(m, 0)) && (|m| > 1 ==> m[0].hi < Without(m, 0)[0].lo)
  {
  }

  lemma {:induction false} NoWrapWhenAhead(st: Store, epochs: seq<int>)
    requires st.Valid() && Sparse(st.unsynced)
    requires st.unsynced != [] ==> st.cursor < st.unsynced[0].lo
    ensures Wraps(st, epochs) == 0
    decreases |epochs|
  {
    if epochs != [] {
      if st.unsynced != [] {
        RoundTakesPick(st, epochs[0]);
        SparseTail(st.unsynced);
      }
      NoWrapWhenAhead(Round(st, epochs[0]), epochs[1..]);
    }
  }

  lemma {:induction false} OneWrapWhenSparse(st: Store, epochs: seq<int>)
    requires st.Valid() && PassedAreSparse(st.unsynced, st.cursor)
    ensures Wraps(st, epochs) <= 1
    decreases |epochs|
  {
    if epochs != [] {
      var m := st.unsynced;
      var next := Round(st, epochs[0]);
      if m == [] {
        OneWrapWhenSparse(next, epochs[1..]);
      } else {
        var k := NextAfter(m, st.cursor);
        RoundTakesPick(st, epochs[0]);
        CanonicalIsOrdered(m);
        if k < |m| {
          SparseAfterPick(m, k);
          OneWrapWhenSparse(next, epochs[1..]);
        } else {
          assert Sparse(m);
          SparseTail(m);
          NoWrapWhenAhead(next, epochs[1..]);
        }
      }
    }
  }

  /** However the cursor stands, draining starts again at the first segment at most twice,
      although segments that touch the cursor are skipped. */
  lemma {:induction false} AtMostTwoWraps(st: Store, epochs: seq<int>)
    requires st.Valid()
    ensures Wraps(st, epochs) <= 2
    decreases |epochs|
  {
    if epochs != [] {
      var m := st.unsynced;
      var next := Round(st, epochs[0]);
      if m == [] || NextAfter(m, st.cursor) < |m| {
        AtMostTwoWraps(next, epochs[1..]);
      } else {
        RoundTakesPick(st, epochs[0]);
        CanonicalIsOrdered(m);
        SparseAfterPick(m, 0);
        OneWrapWhenSparse(next, epochs[1..]);
      }
    }
  }

  /** Two wraps do happen: two touching segments behind the cursor. */
  lemma TwoWrapsWitness()
    ensures Wraps(Store(10, [Segment(0, 1, 20), Segment(1, 2, 30)], [], 5), [100, 100]) == 2
  {
    var m := [Segment(0, 1, 20), Segment(1, 2, 30)];
    var st := Store(10, m, [], 5);
    assert m[1..] == [Segment(1, 2, 30)] && m[1..][1..] == [];
    assert Canonical(m[1..]);
    assert st.Valid();
    assert NextAfter(m, 5) == 2;
    RoundTakesPick(st, 100);
    var next := Round(st, 100);
    assert next.unsynced == [Segment(1, 2, 30)] && next.cursor == 1;
    OneMoreWrap(next, 100);
    assert [100, 100][1..] == [100];
  }

  lemma OneMoreWrap(st: Store, epoch: int)
    requires st.Valid() && st.unsynced == [Segment(1, 2, 30)] && st.cursor == 1
    ensures Wraps(st, [epoch]) == 1
  {
    assert st.unsynced[1..] == [];
    assert NextAfter(st.unsynced, 1) == 1;
    assert [epoch][1..] == [];
  }
}
