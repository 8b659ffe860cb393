/** From the scan to the report: what a successful full backup holds. */
module FullBackup {
  import opened IntervalMap
  import D = DeviceSync
  import opened DeviceSync
  import opened NoLostWrite
  import opened BackupRun
  import opened BackupSuccess
  import U = InUseScan

  // What a device answers for only grows once its store is cleared, and a worker that has
  // started is never built again.
  predicate Grows(d: Dev, e: Dev) {
    && (!d.w.pc.Clear? ==> d.tracked <= e.tracked && !e.w.pc.Clear?)
    && (!Building(d.w.pc) ==> !Building(e.w.pc))
  }

  lemma WorkGrows(d: Dev, now: int)
    requires d.store.Valid() && CanWork(d)
    ensures DoWork(d, now).tracked == d.tracked && !Building(d.w.pc) && !Building(DoWork(d, now).w.pc)
  {
    assert FreezeWork(d).tracked == d.tracked && CopyWork(d).tracked == d.tracked;
    assert LoopWork(d, now).tracked == d.tracked;
    assert !Building(FreezeWork(d).w.pc) && !Building(CopyWork(d).w.pc) && !Building(LoopWork(d, now).w.pc);
  }

  lemma DeviceGrows(d: Dev, x: DevAction, now: int)
    requires d.store.Valid() && D.Enabled(d, x)
    ensures Grows(d, D.Step(d, x, now))
  {
    if x.Work? { WorkGrows(d, now); }
  }

  lemma StepGrows(s: Sys, a: Act, w: nat)
    requires Stores(s) && MainInv(s) && CanTake(s, a) && w < |s.devs| && |Take(s, a).devs| == |s.devs|
    ensures Grows(s.devs[w], Take(s, a).devs[w])
  {
    if a.Device? && a.w == w { DeviceGrows(s.devs[w], a.a, s.now); }
  }

  lemma DevsGrow(states: seq<Sys>, acts: seq<Act>, w: nat)
    requires IsRun(states, acts) && w < |states[0].devs|
    ensures forall k :: 0 <= k < |states| ==> w < |states[k].devs|
    ensures forall p :: 0 <= p < |acts| ==> Grows(states[p].devs[w], states[p + 1].devs[w])
  {
    RunSteps(states, acts, w);
    forall p | 0 <= p < |acts| ensures Grows(states[p].devs[w], states[p + 1].devs[w]) {
      assert StepOf(states[p], acts[p], states[p + 1]);
      StepGrows(states[p], acts[p], w);
    }
  }

  lemma {:induction false} GrowsAlong(ds: seq<Dev>, i: nat, k: nat)
    requires i <= k < |ds| && forall p :: 0 <= p < |ds| - 1 ==> Grows(ds[p], ds[p + 1])
    ensures Grows(ds[i], ds[k])
    decreases k
  {
    if i < k {
      GrowsAlong(ds, i, k - 1);
      assert Grows(ds[k - 1], ds[k - 1 + 1]);
    }
  }

  predicate ClearBy(a: Act, w: nat) { a == Device(w, ClearStore) }

  predicate ScanBy(a: Act, w: nat) { a.Device? && a.w == w && a.a.ScanDevice? }

  predicate WritesSector(a: Act, w: nat, s: nat) {
    a.Device? && a.w == w && a.a.Write? && a.a.trace.sector <= s < a.a.trace.sector + |a.a.data|
  }

  lemma ClearTracks(s: Sys, a: Act, w: nat, x: nat)
    requires Stores(s) && CanTake(s, a) && w < |s.devs| && ClearBy(a, w)
    requires Covered(s.devs[w].pending, x) && x < |s.devs[w].src|
    ensures w < |Take(s, a).devs| && x in Take(s, a).devs[w].tracked
  {
  }

  lemma ScanTracks(s: Sys, a: Act, w: nat, x: nat)
    requires Stores(s) && CanTake(s, a) && w < |s.devs| && ScanBy(a, w)
    requires x in Dom(a.a.inUse) && x < |s.devs[w].src|
    ensures w < |Take(s, a).devs| && x in Take(s, a).devs[w].tracked
  {
  }

  lemma WriteTracks(s: Sys, a: Act, w: nat, x: nat)
    requires Stores(s) && CanTake(s, a) && w < |s.devs| && WritesSector(a, w, x)
    ensures w < |Take(s, a).devs| && x in Take(s, a).devs[w].tracked
    ensures x < |Take(s, a).devs[w].src| && Take(s, a).devs[w].src[x] == a.a.data[x - a.a.trace.sector]
  {
    WriteIsExact(s.devs[w], a.a.trace, a.a.data, x);
  }

  // In the destination reported at k, sector s is as the source held it at j, unless a trace
  // of it was then still on its way.
  ghost predicate InImage(states: seq<Sys>, w: nat, j: nat, k: nat, s: nat)
    requires j < |states| && k < |states| && w < |states[j].devs| && w < |states[k].devs|
  {
    var d := states[j].devs[w];
    s < |d.src| && s < |states[k].devs[w].dst| && (states[k].devs[w].dst[s] == d.src[s] || Covered(d.pending, s))
  }

  // A sector the device came to answer for before state j is in the image of j.
  lemma TrackedIsInImage(states: seq<Sys>, acts: seq<Act>, w: nat, i: nat, j: nat, k: nat, s: nat)
    requires IsRun(states, acts) && i <= j <= k < |states| && w < |states[0].devs|
    requires w < |states[i].devs| && w < |states[j].devs| && w < |states[k].devs|
    requires s in states[i].devs[w].tracked && !states[i].devs[w].w.pc.Clear?
    requires SyncedUpToTraces(states[j].devs[w]) && states[k].devs[w].dst == states[j].devs[w].dst
    ensures InImage(states, w, j, k, s)
  {
    DevsGrow(states, acts, w);
    var ds := DevsOf(states, w);
    GrowsAlong(ds, i, j);
    assert ds[i] == states[i].devs[w] && ds[j] == states[j].devs[w];
  }

  // The store is cleared before the scan, and the scan made before the worker starts.
  lemma BuiltInOrder(states: seq<Sys>, acts: seq<Act>, w: nat, c: nat, p: nat, j: nat)
    requires IsRun(states, acts) && c < |acts| && p < |acts| && j < |states| && w < |states[0].devs|
    requires w < |states[j].devs| && !Building(states[j].devs[w].w.pc)
    requires ClearBy(acts[c], w) && ScanBy(acts[p], w)
    ensures c < p < j && w < |states[c].devs| && w < |states[p].devs| && states[p].devs[w].w.pc.Scan?
  {
    DevsGrow(states, acts, w);
    assert CanTake(states[c], acts[c]) && CanTake(states[p], acts[p]);
    var ds := DevsOf(states, w);
    assert ds[c] == states[c].devs[w] && ds[p] == states[p].devs[w] && ds[j] == states[j].devs[w];
    if p <= c { GrowsAlong(ds, p, c); }
    if j <= p { GrowsAlong(ds, j, p); }
  }

  lemma StartedAfterClear(states: seq<Sys>, acts: seq<Act>, w: nat, c: nat, j: nat)
    requires IsRun(states, acts) && c < |acts| && j < |states| && w < |states[0].devs| && ClearBy(acts[c], w)
    requires w < |states[j].devs| && !Building(states[j].devs[w].w.pc)
    ensures c < j && w < |states[c].devs| && w < |states[c + 1].devs| && !states[c + 1].devs[w].w.pc.Clear?
  {
    DevsGrow(states, acts, w);
    assert CanTake(states[c], acts[c]) && states[c + 1] == Take(states[c], acts[c]);
    var ds := DevsOf(states, w);
    assert ds[c] == states[c].devs[w] && ds[j] == states[j].devs[w];
    if j <= c { GrowsAlong(ds, j, c); }
  }

  lemma ScannedIsInImage(states: seq<Sys>, acts: seq<Act>, w: nat, p: nat, j: nat, k: nat, s: nat)
    requires IsRun(states, acts) && p < j <= k < |states| && w < |states[0].devs| && w < |states[p].devs|
    requires w < |states[j].devs| && w < |states[k].devs|
    requires ScanBy(acts[p], w) && s in Dom(acts[p].a.inUse) && s < |states[p].devs[w].src|
    requires SyncedUpToTraces(states[j].devs[w]) && states[k].devs[w].dst == states[j].devs[w].dst
    ensures InImage(states, w, j, k, s)
  {
    assert CanTake(states[p], acts[p]) && states[p + 1] == Take(states[p], acts[p]);
    ScanTracks(states[p], acts[p], w, s);
    TrackedIsInImage(states, acts, w, p + 1, j, k, s);
  }

  lemma WrittenIsInImage(states: seq<Sys>, acts: seq<Act>, w: nat, c: nat, i: nat, j: nat, k: nat, s: nat)
    requires IsRun(states, acts) && c < i < j <= k < |states| && w < |states[0].devs|
    requires w < |states[c + 1].devs| && w < |states[j].devs| && w < |states[k].devs|
    requires !states[c + 1].devs[w].w.pc.Clear? && WritesSector(acts[i], w, s)
    requires SyncedUpToTraces(states[j].devs[w]) && states[k].devs[w].dst == states[j].devs[w].dst
    ensures InImage(states, w, j, k, s)
  {
    DevsGrow(states, acts, w);
    assert CanTake(states[i], acts[i]) && states[i + 1] == Take(states[i], acts[i]);
    WriteTracks(states[i], acts[i], w, s);
    var ds := DevsOf(states, w);
    GrowsAlong(ds, c + 1, i + 1);
    assert ds[c + 1] == states[c + 1].devs[w] && ds[i + 1] == states[i + 1].devs[w];
    TrackedIsInImage(states, acts, w, i + 1, j, k, s);
  }

  /** A full backup that is reported successful has, at a state j inside one freeze window
      after its store was cleared at c, a destination that holds as the source held them at
      j every sector the scan found in use, every sector written since the clear, and every
      sector with a trace then on its way, except where a trace is still on its way at j;
      and that destination is the one reported. */
  lemma FullBackupIsFaithful(states: seq<Sys>, acts: seq<Act>, k: nat, w: nat, c: nat) returns (j: nat, e: nat)
    requires IsRun(states, acts) && ReportsSuccess(states, acts, k) && w < |states[0].devs|
    requires c < k && ClearBy(acts[c], w)
    ensures c < j && e < k && ZeroRead(states, acts, w, j, e) && StandsPast(states, w, j, e, k)
    ensures forall i :: 0 <= i < |states| ==> w < |states[i].devs|
    ensures forall p, s :: 0 <= p < k && ScanBy(acts[p], w) && s in Dom(acts[p].a.inUse) && s < |states[p].devs[w].src|
              ==> InImage(states, w, j, k, s)
    ensures forall i, s: nat :: c < i < j && WritesSector(acts[i], w, s) ==> InImage(states, w, j, k, s)
    ensures forall s: nat :: Covered(states[c].devs[w].pending, s) && s < |states[c].devs[w].src|
              ==> InImage(states, w, j, k, s)
  {
    DevsGrow(states, acts, w);
    j, e := SuccessMeansSynced(states, acts, k, w);
    StartedAfterClear(states, acts, w, c, j);
    forall p, s | 0 <= p < k && ScanBy(acts[p], w) && s in Dom(acts[p].a.inUse) && s < |states[p].devs[w].src|
      ensures InImage(states, w, j, k, s)
    {
      BuiltInOrder(states, acts, w, c, p, j);
      ScannedIsInImage(states, acts, w, p, j, k, s);
    }
    forall i, s: nat | c < i < j && WritesSector(acts[i], w, s) ensures InImage(states, w, j, k, s) {
      WrittenIsInImage(states, acts, w, c, i, j, k, s);
    }
    forall s: nat | Covered(states[c].devs[w].pending, s) && s < |states[c].devs[w].src|
      ensures InImage(states, w, j, k, s)
    {
      ClearTracks(states[c], acts[c], w, s);
      assert states[c + 1] == Take(states[c], acts[c]);
      TrackedIsInImage(states, acts, w, c + 1, j, k, s);
    }
  }

  // ---- With the file-system scans ----

  /** With the ext scan: when the backup succeeds, every sector of every allocated block the
      scan covers, and sectors 0 and 1, are in the image. */
  lemma AllocatedBlocksAreInImage(states: seq<Sys>, acts: seq<Act>, k: nat, w: nat, c: nat, p: nat,
                                  first: nat, bound: nat, sectorsPerBlock: nat, used: nat -> bool)
    returns (j: nat, e: nat)
    requires IsRun(states, acts) && ReportsSuccess(states, acts, k) && w < |states[0].devs|
    requires c < k && ClearBy(acts[c], w) && p < k && ScanBy(acts[p], w)
    requires U.Collected(acts[p].a.inUse, first, bound, sectorsPerBlock, used)
    ensures c < j && e < k && ZeroRead(states, acts, w, j, e) && StandsPast(states, w, j, e, k)
    ensures w < |states[p].devs| && w < |states[k].devs|
    ensures forall s: nat ::
              s < |states[p].devs[w].src| && (s < 2 || U.InAllocated(s, first, bound, sectorsPerBlock, used))
              ==> InImage(states, w, j, k, s)
  {
    j, e := FullBackupIsFaithful(states, acts, k, w, c);
    forall s: nat | s < |states[p].devs[w].src| && (s < 2 || U.InAllocated(s, first, bound, sectorsPerBlock, used))
      ensures InImage(states, w, j, k, s)
    {
      assert s in Dom(acts[p].a.inUse);
    }
  }

  /** With the xfs scan: when the backup succeeds, every sector of the file system that lies
      in no free extent is in the image. */
  lemma UnfreedSectorsAreInImage(states: seq<Sys>, acts: seq<Act>, k: nat, w: nat, c: nat, p: nat,
                                 size: nat, lines: seq<U.Line>)
    returns (j: nat, e: nat)
    requires IsRun(states, acts) && ReportsSuccess(states, acts, k) && w < |states[0].devs|
    requires c < k && ClearBy(acts[c], w) && p < k && ScanBy(acts[p], w)
    requires U.Remaining(acts[p].a.inUse, size, lines, |lines|)
    ensures c < j && e < k && ZeroRead(states, acts, w, j, e) && StandsPast(states, w, j, e, k)
    ensures w < |states[p].devs| && w < |states[k].devs|
    ensures forall s: nat ::
              s < |states[p].devs[w].src| && s < size && !U.IsFree(lines, s) ==> InImage(states, w, j, k, s)
  {
    j, e := FullBackupIsFaithful(states, acts, k, w, c);
    forall s: nat | s < |states[p].devs[w].src| && s < size && !U.IsFree(lines, s)
      ensures InImage(states, w, j, k, s)
    {
      U.RemainingIsNotFree(acts[p].a.inUse, size, lines, s);
    }
  }
}
