/** What any run of store operations leaves behind, told from the history alone. */
module StoreHistory {
  import opened IntervalMap
  import opened SectorStore

  datatype Op =
    | Added(i: Interval, epoch: int)
    | AddedNonVolatile(i: Interval)
    | Removed(i: Interval)
    | HandedOut(epoch: int)
    | Cleared
    | ClearedHistory
    | ReInserted

  function Apply(st: Store, op: Op): (r: Store)
    requires st.Valid()
    ensures r.Valid() && r.volatileSeconds == st.volatileSeconds
  {
    match op
    case Added(i, epoch) => AddInterval(st, i, epoch)
    case AddedNonVolatile(i) => AddNonVolatileInterval(st, i)
    case Removed(i) => RemoveInterval(st, i)
    case HandedOut(epoch) => GetInterval(st, epoch).store
    case Cleared => ClearIntervals(st)
    case ClearedHistory => ClearSyncHistory(st)
    case ReInserted => ReInsertSyncHistory(st)
  }

  function Run(volatileSeconds: int, ops: seq<Op>): (st: Store)
    ensures st.Valid() && st.volatileSeconds == volatileSeconds
  {
    if ops == [] then NewStore(volatileSeconds)
    else Apply(Run(volatileSeconds, ops[..|ops| - 1]), ops[|ops| - 1])
  }

  // The time an operation records for sector s; 0 when it records none.
  function WriteTime(op: Op, s: nat): int {
    match op
    case Added(i, epoch) => if i.Contains(s) then epoch else 0
    case AddedNonVolatile(i) => if i.Contains(s) then 1 else 0
    case _ => 0
  }

  predicate Forgets(op: Op, s: nat) {
    op.Cleared? || (op.Removed? && op.i.Contains(s))
  }

  // Operation k recorded a write of s that no later operation removed.
  predicate Live(ops: seq<Op>, s: nat, k: nat) {
    k < |ops| && WriteTime(ops[k], s) != 0 && forall j :: k < j < |ops| ==> !Forgets(ops[j], s)
  }

  lemma AbsorbedHistory(m: SectorMap, intervals: SectorMap)
    requires Canonical(m)
    ensures AddAll(m, intervals, 0) == m
    decreases |intervals|
  {
  }

  lemma ApplyAt(st: Store, op: Op, s: nat)
    requires st.Valid()
    ensures At(Apply(st, op).unsynced, s)
         == if Forgets(op, s) then 0
            else if WriteTime(op, s) != 0 then Combine(At(st.unsynced, s), WriteTime(op, s))
            else At(st.unsynced, s)
  {
    match op
    case Added(i, epoch) => AddAt(st.unsynced, i, epoch, s);
    case AddedNonVolatile(i) => AddAt(st.unsynced, i, 1, s);
    case Removed(i) => SubtractAt(st.unsynced, i, s);
    case ReInserted => AbsorbedHistory(st.unsynced, st.synced);
    case _ =>
  }

  // Some live write of s was recorded with time t.
  ghost predicate LiveAt(ops: seq<Op>, s: nat, t: int) {
    exists k: nat :: Live(ops, s, k) && WriteTime(ops[k], s) == t
  }

  lemma LiveAtStep(ops: seq<Op>, s: nat, t: int)
    requires ops != []
    ensures var n := |ops| - 1;
            LiveAt(ops, s, t) <==> (WriteTime(ops[n], s) == t != 0) || (LiveAt(ops[..n], s, t) && !Forgets(ops[n], s))
  {
  }

  /** Refinement: after any run the stored time of a sector is the largest time of its
      writes since it was last removed, and it is absent when there is none. */
  lemma {:induction false} StoredTimeIsLatestWrite(volatileSeconds: int, ops: seq<Op>, s: nat)
    ensures var t := At(Run(volatileSeconds, ops).unsynced, s);
            && (t == 0 <==> forall u :: !LiveAt(ops, s, u))
            && (t != 0 ==> LiveAt(ops, s, t))
            && forall u :: LiveAt(ops, s, u) ==> u <= t
  {
    if ops == [] { return; }
    var n := |ops| - 1;
    StoredTimeIsLatestWrite(volatileSeconds, ops[..n], s);
    ApplyAt(Run(volatileSeconds, ops[..n]), ops[n], s);
    var t := At(Run(volatileSeconds, ops).unsynced, s);
    LiveAtStep(ops, s, t);
    forall u
      ensures LiveAt(ops, s, u) <==> (WriteTime(ops[n], s) == u != 0) || (LiveAt(ops[..n], s, u) && !Forgets(ops[n], s))
    {
      LiveAtStep(ops, s, u);
    }
    if WriteTime(ops[n], s) != 0 { assert LiveAt(ops, s, WriteTime(ops[n], s)); }
  }

  /** The count reported after any run is the number of sectors with a live write, and
      the segments are the only canonical sequence with that meaning. */
  lemma CountIsLiveSectors(volatileSeconds: int, ops: seq<Op>, live: set<nat>)
    requires forall s: nat :: s in live <==> exists t :: LiveAt(ops, s, t)
    ensures Count(Run(volatileSeconds, ops).unsynced) == |live|
  {
    var m := Run(volatileSeconds, ops).unsynced;
    forall s: nat ensures s in Dom(m) <==> s in live {
      StoredTimeIsLatestWrite(volatileSeconds, ops, s);
      DomIsAt(m, s);
    }
    assert Dom(m) == live;
    CountIsSize(m);
  }

  /** Two histories that agree on live writes leave the same segments, however their
      operations were ordered, split or repeated. */
  lemma SameLiveWritesSameSegments(v: int, a: seq<Op>, b: seq<Op>)
    requires forall s: nat, t :: LiveAt(a, s, t) <==> LiveAt(b, s, t)
    ensures Run(v, a).unsynced == Run(v, b).unsynced
  {
    forall s: nat ensures At(Run(v, a).unsynced, s) == At(Run(v, b).unsynced, s) {
      StoredTimeIsLatestWrite(v, a, s);
      StoredTimeIsLatestWrite(v, b, s);
    }
    Unique(Run(v, a).unsynced, Run(v, b).unsynced);
  }

  // ---- Handing out ----

  /** A non-empty hand-out is wholly unsynced, and it is volatile exactly when every one
      of its sectors has a live write inside the volatile period. */
  lemma VolatileIsExact(v: int, ops: seq<Op>, epoch: int)
    requires Run(v, ops).unsynced != []
    ensures var h := GetInterval(Run(v, ops), epoch);
            && h.interval.lower < h.interval.upper
            && (forall s :: h.interval.Contains(s) ==> exists t :: LiveAt(ops, s, t))
            && (h.isVolatile <==>
                forall s :: h.interval.Contains(s) ==> exists t :: LiveAt(ops, s, t) && t > epoch - v)
  {
    var st := Run(v, ops);
    var h := GetInterval(st, epoch);
    var p := Pick(st.unsynced, st.cursor);
    AtIndex(st.unsynced, p);
    forall s | h.interval.Contains(s)
      ensures exists t :: LiveAt(ops, s, t)
      ensures h.isVolatile <==> exists t :: LiveAt(ops, s, t) && t > epoch - v
    {
      StoredTimeIsLatestWrite(v, ops, s);
      assert At(st.unsynced, s) == st.unsynced[p].time;
      assert LiveAt(ops, s, st.unsynced[p].time);
    }
    assert h.interval.Contains(h.interval.lower);
  }

  /** A hand-out with a sector that was only ever seeded is not volatile, whatever has been
      written elsewhere. */
  lemma SeededIsNotVolatile(v: int, ops: seq<Op>, epoch: int, s: nat)
    requires epoch > v
    requires GetInterval(Run(v, ops), epoch).interval.Contains(s)
    requires forall k: nat :: Live(ops, s, k) ==> ops[k].AddedNonVolatile?
    ensures !GetInterval(Run(v, ops), epoch).isVolatile
  {
    VolatileIsExact(v, ops, epoch);
    forall t | LiveAt(ops, s, t) ensures t == 1 {
      var k: nat :| Live(ops, s, k) && WriteTime(ops[k], s) == t;
    }
  }

  // ---- Sync history ----

  predicate Touches(op: Op, s: nat) { WriteTime(op, s) != 0 || (op.Removed? && op.i.Contains(s)) }

  // s was added or removed by operation k, and the store has not been cleared since.
  predicate Touched(ops: seq<Op>, s: nat, k: nat) {
    k < |ops| && Touches(ops[k], s) && forall j :: k < j < |ops| ==> !ops[j].Cleared?
  }

  predicate KeepsHistory(op: Op) { !op.ClearedHistory? && !op.ReInserted? }

  predicate Kept(st: Store, s: nat) { At(st.unsynced, s) != 0 || At(st.synced, s) != 0 }

  lemma KeptStep(st: Store, op: Op, s: nat)
    requires st.Valid() && KeepsHistory(op)
    ensures Kept(Apply(st, op), s) <==> Touches(op, s) || (Kept(st, s) && !op.Cleared?)
  {
    ApplyAt(st, op, s);
    if op.Removed? { AddAt(st.synced, op.i, 1, s); SetAt(st.synced, s); }
  }

  lemma TouchedStep(ops: seq<Op>, s: nat)
    requires ops != []
    ensures var n := |ops| - 1;
            (exists k: nat :: Touched(ops, s, k))
            <==> Touches(ops[n], s) || ((exists k: nat :: Touched(ops[..n], s, k)) && !ops[n].Cleared?)
  {
    var n := |ops| - 1;
    if k: nat :| Touched(ops, s, k) {
      if k < n { assert Touched(ops[..n], s, k); }
    }
    if Touches(ops[n], s) {
      assert Touched(ops, s, n);
    } else if !ops[n].Cleared? {
      if k: nat :| Touched(ops[..n], s, k) { assert Touched(ops, s, k); }
    }
  }

  /** Conservation: over any run of adds, removes, hand-outs and clears, the unsynced and
      synced sectors together are exactly those added or removed since the last clear. */
  lemma {:induction false} HistoryIsConserved(v: int, ops: seq<Op>, s: nat)
    requires forall k :: 0 <= k < |ops| ==> KeepsHistory(ops[k])
    ensures Kept(Run(v, ops), s) <==> exists k: nat :: Touched(ops, s, k)
  {
    if ops == [] { return; }
    var n := |ops| - 1;
    assert forall k :: 0 <= k < n ==> ops[..n][k] == ops[k];
    HistoryIsConserved(v, ops[..n], s);
    KeptStep(Run(v, ops[..n]), ops[n], s);
    TouchedStep(ops, s);
  }

  /** Re-inserting the history is meant to make every synced sector unsynced again.  It
      inserts at the absorbed time 0, so it only forgets them: the intended law holds
      exactly when the synced sectors were all unsynced already. */
  lemma ReInsertLosesHistory(st: Store)
    requires st.Valid()
    ensures ReInsertSyncHistory(st) == st.(synced := [])
    ensures Dom(ReInsertSyncHistory(st).unsynced) == Dom(st.unsynced) + Dom(st.synced)
        <==> Dom(st.synced) <= Dom(st.unsynced)
  {
    AbsorbedHistory(st.unsynced, st.synced);
  }

  /** Whatever came before, a removed interval stays lost after a re-insertion. */
  lemma RemovedIsNotReInserted(v: int, ops: seq<Op>, i: Interval, s: nat)
    requires i.Contains(s)
    ensures var st := Run(v, ops + [Removed(i), ReInserted]);
            At(st.unsynced, s) == 0 && At(st.synced, s) == 0
  {
    var all := ops + [Removed(i), ReInserted];
    assert all[..|all| - 1] == ops + [Removed(i)];
    assert (ops + [Removed(i)])[..|ops|] == ops;
    var before := Run(v, ops);
    var removed := RemoveInterval(before, i);
    assert Run(v, ops + [Removed(i)]) == removed;
    SubtractAt(before.unsynced, i, s);
    AbsorbedHistory(removed.unsynced, removed.synced);
  }
}
