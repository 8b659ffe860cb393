/** Seeding the store for a full backup, while the machine keeps writing. */
module Seeding {
  import opened IntervalMap
  import opened SectorStore
  import opened DeviceSync
  import opened NoLostWrite
  import opened SectorStoreObject

  // A run of one device before its worker starts.
  ghost predicate IsRun(ds: seq<Dev>, acts: seq<DevAction>, nows: seq<int>) {
    && |ds| == |acts| + 1 && |nows| == |acts|
    && (forall k :: 0 <= k < |ds| ==> Shape(ds[k]))
    && forall k :: 0 <= k < |acts| ==>
         nows[k] != 0 && Enabled(ds[k], acts[k]) && ds[k + 1] == Step(ds[k], acts[k], nows[k])
  }

  predicate Cleared(pc: Pc) { pc.Scan? || pc.Seed? || pc.Ready? }

  predicate Scanned(pc: Pc) { pc.Seed? || pc.Ready? }

  // In the store, or in the part of the scan still to be added.
  predicate Stored(d: Dev, s: nat) { At(d.store.unsynced, s) != 0 || ToSeed(d.w.pc, s) }

  lemma StepKeepsStored(d: Dev, a: DevAction, now: int, s: nat)
    requires Shape(d) && Enabled(d, a) && now != 0 && Scanned(d.w.pc)
    ensures Scanned(Step(d, a, now).w.pc)
    ensures Stored(d, s) ==> Stored(Step(d, a, now), s)
  {
    match a
    case Deliver(tr) => if IsWrite(tr) { AddAt(d.store.unsynced, TracedInterval(tr), now, s); }
    case SeedNext => if d.w.pc.left != [] { AddAt(d.store.unsynced, d.w.pc.left[0].Range(), 1, s); }
    case _ =>
  }

  lemma StepKeepsOwed(d: Dev, a: DevAction, now: int, s: nat)
    requires Shape(d) && Enabled(d, a) && now != 0 && Cleared(d.w.pc)
    ensures Cleared(Step(d, a, now).w.pc)
    ensures Owed(d, s) ==> Owed(Step(d, a, now), s)
  {
    match a
    case Deliver(tr) => DeliverKeepsOwed(d, tr, now, s);
    case Write(tr, _) => CoveredMore(d.pending, tr, s);
    case OtherTrace(tr) => CoveredMore(d.pending, tr, s);
    case SeedNext => if d.w.pc.left != [] { AddAt(d.store.unsynced, d.w.pc.left[0].Range(), 1, s); }
    case _ =>
  }

  predicate KeepsStored(d: Dev, e: Dev, s: nat) {
    Scanned(d.w.pc) ==> Scanned(e.w.pc) && (Stored(d, s) ==> Stored(e, s))
  }

  ghost predicate KeepsOwed(d: Dev, e: Dev, s: nat) {
    Cleared(d.w.pc) ==> Cleared(e.w.pc) && (Owed(d, s) ==> Owed(e, s))
  }

  lemma RunKeeps(ds: seq<Dev>, acts: seq<DevAction>, nows: seq<int>, s: nat)
    requires IsRun(ds, acts, nows)
    ensures forall k :: 0 <= k < |acts| ==> KeepsStored(ds[k], ds[k + 1], s)
    ensures forall k :: 0 <= k < |acts| ==> KeepsOwed(ds[k], ds[k + 1], s)
  {
    forall k | 0 <= k < |acts| ensures KeepsStored(ds[k], ds[k + 1], s) && KeepsOwed(ds[k], ds[k + 1], s) {
      if Scanned(ds[k].w.pc) { StepKeepsStored(ds[k], acts[k], nows[k], s); }
      if Cleared(ds[k].w.pc) { StepKeepsOwed(ds[k], acts[k], nows[k], s); }
    }
  }

  lemma {:induction false} StoredFrom(ds: seq<Dev>, c: nat, k: nat, s: nat)
    requires c <= k < |ds| && forall p :: 0 <= p < |ds| - 1 ==> KeepsStored(ds[p], ds[p + 1], s)
    requires Scanned(ds[c].w.pc) && Stored(ds[c], s)
    ensures Scanned(ds[k].w.pc) && Stored(ds[k], s)
    decreases k
  {
    if c < k {
      StoredFrom(ds, c, k - 1, s);
      assert KeepsStored(ds[k - 1], ds[k - 1 + 1], s);
    }
  }

  lemma {:induction false} OwedFrom(ds: seq<Dev>, c: nat, k: nat, s: nat)
    requires c <= k < |ds| && forall p :: 0 <= p < |ds| - 1 ==> KeepsOwed(ds[p], ds[p + 1], s)
    requires Cleared(ds[c].w.pc)
    ensures Cleared(ds[k].w.pc) && (Owed(ds[c], s) ==> Owed(ds[k], s))
    decreases k
  {
    if c < k {
      OwedFrom(ds, c, k - 1, s);
      assert KeepsOwed(ds[k - 1], ds[k - 1 + 1], s);
    }
  }

  /** Whatever is written and traced meanwhile, once the device is ready every sector the
      scan found in use is in the store. */
  lemma ScanIsSeeded(ds: seq<Dev>, acts: seq<DevAction>, nows: seq<int>, c: nat, k: nat, s: nat)
    requires IsRun(ds, acts, nows) && c < k < |ds| && acts[c].ScanDevice? && ds[k].w.pc.Ready?
    requires s in Dom(acts[c].inUse)
    ensures At(ds[k].store.unsynced, s) != 0
  {
    assert ds[c + 1] == Step(ds[c], acts[c], nows[c]);
    DomIsAt(acts[c].inUse, s);
    RunKeeps(ds, acts, nows, s);
    StoredFrom(ds, c + 1, k, s);
  }

  /** Every sector written after the clear, and every sector whose trace was still on its
      way at the clear, is in the store or on its way to it. */
  lemma WritesAreSeeded(ds: seq<Dev>, acts: seq<DevAction>, nows: seq<int>, c: nat, j: nat, k: nat, s: nat)
    requires IsRun(ds, acts, nows) && c < j <= k < |ds| && acts[c].ClearStore?
    requires Covered(ds[c].pending, s) || (j < k && acts[j].Write? && TracedInterval(acts[j].trace).Contains(s))
    ensures Owed(ds[k], s)
  {
    assert ds[c + 1] == Step(ds[c], acts[c], nows[c]);
    RunKeeps(ds, acts, nows, s);
    if Covered(ds[c].pending, s) {
      OwedFrom(ds, c + 1, k, s);
    } else {
      OwedFrom(ds, c + 1, j, s);
      assert ds[j + 1] == Step(ds[j], acts[j], nows[j]);
      assert Cleared(ds[j + 1].w.pc) && acts[j].trace in ds[j + 1].pending;
      OwedFrom(ds, j + 1, k, s);
    }
  }

  // Since step c the scan found s in use, or a trace of s was delivered.
  predicate ScannedSince(acts: seq<DevAction>, c: nat, k: nat, s: nat)
    requires k <= |acts|
  {
    exists i :: c < i < k && acts[i].ScanDevice? && At(acts[i].inUse, s) != 0
  }

  predicate DeliveredSince(acts: seq<DevAction>, c: nat, k: nat, s: nat)
    requires k <= |acts|
  {
    exists i :: c < i < k && acts[i].Deliver? && IsWrite(acts[i].trace) && TracedInterval(acts[i].trace).Contains(s)
  }

  // How one step of the building changes what is stored, and what is still to be seeded, of s.
  predicate StoresOnly(d: Dev, e: Dev, a: DevAction, s: nat) {
    var delivered := a.Deliver? && IsWrite(a.trace) && TracedInterval(a.trace).Contains(s);
    && Cleared(e.w.pc)
    && (ToSeed(e.w.pc, s) ==> ToSeed(d.w.pc, s) || (a.ScanDevice? && At(a.inUse, s) != 0))
    && (At(e.store.unsynced, s) != 0 ==> At(d.store.unsynced, s) != 0 || ToSeed(d.w.pc, s) || delivered)
    && (delivered ==> At(e.store.unsynced, s) != 0)
    && (At(d.store.unsynced, s) != 0 ==> At(e.store.unsynced, s) != 0)
    && (!delivered && At(e.store.unsynced, s) != 0 ==>
          At(e.store.unsynced, s) == At(d.store.unsynced, s) || At(e.store.unsynced, s) == 1)
  }

  lemma StepStoresOnly(d: Dev, a: DevAction, now: int, s: nat)
    requires Shape(d) && Enabled(d, a) && now != 0 && Cleared(d.w.pc)
    ensures StoresOnly(d, Step(d, a, now), a, s)
  {
    match a
    case Deliver(tr) => if IsWrite(tr) { AddAt(d.store.unsynced, TracedInterval(tr), now, s); }
    case SeedNext => if d.w.pc.left != [] { AddAt(d.store.unsynced, d.w.pc.left[0].Range(), 1, s); }
    case _ =>
  }

  // What holds of s at state k, with the store cleared in step c.
  predicate SeededFrom(ds: seq<Dev>, acts: seq<DevAction>, c: nat, k: nat, s: nat)
    requires k < |ds| == |acts| + 1
  {
    && Cleared(ds[k].w.pc)
    && (ToSeed(ds[k].w.pc, s) ==> ScannedSince(acts, c, k, s))
    && (At(ds[k].store.unsynced, s) != 0 ==> ScannedSince(acts, c, k, s) || DeliveredSince(acts, c, k, s))
    && (DeliveredSince(acts, c, k, s) ==> At(ds[k].store.unsynced, s) != 0)
    && (At(ds[k].store.unsynced, s) != 0 && !DeliveredSince(acts, c, k, s) ==> At(ds[k].store.unsynced, s) == 1)
  }

  lemma SinceStep(acts: seq<DevAction>, c: nat, k: nat, s: nat)
    requires c < k < |acts|
    ensures ScannedSince(acts, c, k + 1, s) <==>
              ScannedSince(acts, c, k, s) || (acts[k].ScanDevice? && At(acts[k].inUse, s) != 0)
    ensures DeliveredSince(acts, c, k + 1, s) <==>
              || DeliveredSince(acts, c, k, s)
              || (acts[k].Deliver? && IsWrite(acts[k].trace) && TracedInterval(acts[k].trace).Contains(s))
  {
  }

  lemma {:induction false} SeededAlong(ds: seq<Dev>, acts: seq<DevAction>, c: nat, k: nat, s: nat)
    requires |ds| == |acts| + 1 && c < k < |ds|
    requires SeededFrom(ds, acts, c, c + 1, s)
    requires forall p :: 0 <= p < |acts| && Cleared(ds[p].w.pc) ==> StoresOnly(ds[p], ds[p + 1], acts[p], s)
    ensures SeededFrom(ds, acts, c, k, s)
    decreases k
  {
    if c + 1 < k {
      SeededAlong(ds, acts, c, k - 1, s);
      SinceStep(acts, c, k - 1, s);
      assert StoresOnly(ds[k - 1], ds[k - 1 + 1], acts[k - 1], s);
    }
  }

  /** When the device is ready its store holds exactly the sectors the scan found in use and
      those traced since the store was cleared, and a sector that was only scanned with time 1. */
  lemma StoreIsScanAndTraces(ds: seq<Dev>, acts: seq<DevAction>, nows: seq<int>, c: nat, k: nat, s: nat)
    requires IsRun(ds, acts, nows) && c < k < |ds| && acts[c].ClearStore? && ds[k].w.pc.Ready?
    ensures At(ds[k].store.unsynced, s) != 0 <==> ScannedSince(acts, c, k, s) || DeliveredSince(acts, c, k, s)
    ensures ScannedSince(acts, c, k, s) && !DeliveredSince(acts, c, k, s) ==> At(ds[k].store.unsynced, s) == 1
  {
    ClearedAt(ds, acts, nows, c, s);
    RunStoresOnly(ds, acts, nows, s);
    SeededAlong(ds, acts, c, k, s);
    if ScannedSince(acts, c, k, s) { ScannedIsStored(ds, acts, nows, c, k, s); }
  }

  lemma ClearedAt(ds: seq<Dev>, acts: seq<DevAction>, nows: seq<int>, c: nat, s: nat)
    requires IsRun(ds, acts, nows) && c < |acts| && acts[c].ClearStore?
    ensures SeededFrom(ds, acts, c, c + 1, s)
  {
    assert Enabled(ds[c], acts[c]) && ds[c + 1] == Step(ds[c], acts[c], nows[c]);
  }

  lemma RunStoresOnly(ds: seq<Dev>, acts: seq<DevAction>, nows: seq<int>, s: nat)
    requires IsRun(ds, acts, nows)
    ensures forall p :: 0 <= p < |acts| && Cleared(ds[p].w.pc) ==> StoresOnly(ds[p], ds[p + 1], acts[p], s)
  {
    forall p | 0 <= p < |acts| && Cleared(ds[p].w.pc) ensures StoresOnly(ds[p], ds[p + 1], acts[p], s) {
      StepStoresOnly(ds[p], acts[p], nows[p], s);
    }
  }

  lemma ScannedIsStored(ds: seq<Dev>, acts: seq<DevAction>, nows: seq<int>, c: nat, k: nat, s: nat)
    requires IsRun(ds, acts, nows) && c < k < |ds| && ds[k].w.pc.Ready? && ScannedSince(acts, c, k, s)
    ensures At(ds[k].store.unsynced, s) != 0
  {
    var i :| c < i < k && acts[i].ScanDevice? && At(acts[i].inUse, s) != 0;
    assert Enabled(ds[i], acts[i]);
    DomIsAt(acts[i].inUse, s);
    ScanIsSeeded(ds, acts, nows, i, k, s);
  }

  // ---- The builder ----

  datatype BlockDevice = BlockDevice(devT: nat, sizeBytes: nat)

  // A step of the builder that may throw instead of giving its value.
  datatype Attempted<T> = Got(value: T) | Threw

  datatype Built =
    | Synchronizer
    | NoSource | NoRemote | NoTraceData | NoTracer | NoScan | SameDevice | DestinationTooSmall

  // A trace the handler receives while the builder is at work, and when.
  datatype Arrival = Arrival(trace: Trace, epoch: int)

  function Marked(tr: Trace): set<nat> {
    if tr.isWrite && tr.bytes > 0 then TracedInterval(tr).Sectors() else {}
  }

  // The sectors a batch of arrivals marks, and those of the first n batches.
  function Arrived(batch: seq<Arrival>): set<nat> {
    if batch == [] then {} else Arrived(batch[..|batch| - 1]) + Marked(batch[|batch| - 1].trace)
  }

  function ArrivedBefore(arrivals: nat -> seq<Arrival>, n: nat): set<nat> {
    if n == 0 then {} else ArrivedBefore(arrivals, n - 1) + Arrived(arrivals(n - 1))
  }

  // The clock is past the store's volatile period, as the store checks.
  predicate InTime(batch: seq<Arrival>, volatileSeconds: int) {
    forall a :: a in batch ==> a.epoch > volatileSeconds && a.epoch > 0
  }

  ghost predicate Quiet(arrivals: nat -> seq<Arrival>) { forall k: nat :: arrivals(k) == [] }

  method HandleTraces(store: UnsyncedSectorStore, batch: seq<Arrival>)
    requires store.View().Valid() && InTime(batch, store.volatileSeconds)
    modifies store
    ensures store.View().Valid() && store.View() == old(store.View()).(unsynced := store.unsyncedSectorMap)
    ensures Dom(store.unsyncedSectorMap) == old(Dom(store.unsyncedSectorMap)) + Arrived(batch)
    ensures batch == [] ==> store.unsyncedSectorMap == old(store.unsyncedSectorMap)
  {
    for k := 0 to |batch|
      invariant store.View().Valid() && store.View() == old(store.View()).(unsynced := store.unsyncedSectorMap)
      invariant Dom(store.unsyncedSectorMap) == old(Dom(store.unsyncedSectorMap)) + Arrived(batch[..k])
      invariant k == 0 ==> store.unsyncedSectorMap == old(store.unsyncedSectorMap)
    {
      var a := batch[k];
      assert batch[..k + 1][..k] == batch[..k] && a in batch;
      if a.trace.isWrite && a.trace.bytes > 0 {
        AddDom(store.unsyncedSectorMap, TracedInterval(a.trace), a.epoch);
      }
      HandleTrace(store, a.trace, a.epoch);
    }
    assert batch[..|batch|] == batch;
  }

  method AddScanned(store: UnsyncedSectorStore, i: Interval, batch: seq<Arrival>)
    requires store.View().Valid() && InTime(batch, store.volatileSeconds)
    modifies store
    ensures store.View().Valid() && store.View() == old(store.View()).(unsynced := store.unsyncedSectorMap)
    ensures Dom(store.unsyncedSectorMap) == old(Dom(store.unsyncedSectorMap)) + Arrived(batch) + i.Sectors()
    ensures batch == [] && IsSet(old(store.unsyncedSectorMap)) ==> IsSet(store.unsyncedSectorMap)
  {
    HandleTraces(store, batch);
    AddDom(store.unsyncedSectorMap, i, 1);
    if IsSet(store.unsyncedSectorMap) { SetAdd(store.unsyncedSectorMap, i); }
    store.AddNonVolatileInterval(i);
  }

  /** Adding the intervals of a set one by one to an empty store, while traces arrive before,
      between and after, leaves exactly the sectors of the set and those traced; without
      arrivals it rebuilds the set segment for segment. */
  method SeedStore(store: UnsyncedSectorStore, inUse: SectorMap, arrivals: nat -> seq<Arrival>)
    requires store.View().Valid() && store.unsyncedSectorMap == [] && IsSet(inUse)
    requires forall k: nat :: InTime(arrivals(k), store.volatileSeconds)
    modifies store
    ensures store.View().Valid() && store.View() == old(store.View()).(unsynced := store.unsyncedSectorMap)
    ensures Dom(store.unsyncedSectorMap) == Dom(inUse) + ArrivedBefore(arrivals, |inUse| + 1)
    ensures Quiet(arrivals) ==> store.unsyncedSectorMap == inUse
  {
    for k := 0 to |inUse|
      invariant store.View().Valid() && store.View() == old(store.View()).(unsynced := store.unsyncedSectorMap)
      invariant Dom(store.unsyncedSectorMap) + Dom(inUse[k..]) == Dom(inUse) + ArrivedBefore(arrivals, k)
      invariant Quiet(arrivals) ==> IsSet(store.unsyncedSectorMap)
    {
      assert inUse[k..][0] == inUse[k] && inUse[k..][1..] == inUse[k + 1..];
      AddScanned(store, inUse[k].Range(), arrivals(k));
    }
    HandleTraces(store, arrivals(|inUse|));
    assert inUse[|inUse|..] == [];
    if Quiet(arrivals) {
      QuietArrivesNothing(arrivals, |inUse| + 1);
      SetUnique(store.unsyncedSectorMap, inUse);
    }
  }

  lemma {:induction false} QuietArrivesNothing(arrivals: nat -> seq<Arrival>, n: nat)
    requires Quiet(arrivals)
    ensures ArrivedBefore(arrivals, n) == {}
    decreases n
  {
    if n > 0 {
      QuietArrivesNothing(arrivals, n - 1);
      assert arrivals(n - 1) == [];
    }
  }

  /** The builder stops at the first step that fails.  Up to the clear the store is left
      alone.  From the clear on, traces arrive: the first batch before anything is added, and
      one after each interval.  A scan that throws leaves the store with that first batch
      only; a scan that succeeds leaves exactly the scanned sectors and those traced, or the
      scanned set segment for segment when nothing arrives, and no history, even when the
      checks of the two devices then fail.  An incremental backup needs trace data and never
      touches the store.  A synchronizer comes out only for another, large enough destination. */
  method CreateDeviceSynchronizer(source: Attempted<BlockDevice>, remote: Attempted<BlockDevice>,
                                  isTracing: bool, tracerStarts: bool, isFull: bool,
                                  store: UnsyncedSectorStore, scan: Attempted<SectorMap>,
                                  arrivals: nat -> seq<Arrival>)
    returns (r: Built, tracing: bool)
    requires store.View().Valid() && (scan.Got? ==> IsSet(scan.value))
    requires forall k: nat :: InTime(arrivals(k), store.volatileSeconds)
    modifies store
    ensures r.NoSource? <==> source.Threw?
    ensures r.NoRemote? <==> source.Got? && remote.Threw?
    ensures r.NoTraceData? <==> source.Got? && remote.Got? && !isTracing && !isFull
    ensures r.NoTracer? <==> source.Got? && remote.Got? && !isTracing && isFull && !tracerStarts
    ensures r.NoScan? <==> source.Got? && remote.Got? && (isTracing || tracerStarts) && isFull && scan.Threw?
    ensures r.Synchronizer? ==> source.Got? && remote.Got? && tracing
    ensures source.Got? && remote.Got? && tracing && (isFull ==> scan.Got?) ==>
              && (r.SameDevice? <==> source.value.devT == remote.value.devT)
              && (r.Synchronizer? <==> source.value.devT != remote.value.devT
                                       && source.value.sizeBytes <= remote.value.sizeBytes)
    ensures tracing <==> isTracing || (source.Got? && remote.Got? && isFull && tracerStarts)
    ensures !isFull || r.NoSource? || r.NoRemote? || r.NoTracer? ==> store.View() == old(store.View())
    ensures !(!isFull || r.NoSource? || r.NoRemote? || r.NoTracer?) ==>
              && store.View().Valid()
              && store.View() == old(store.View()).(unsynced := store.unsyncedSectorMap, synced := [])
              && Dom(store.unsyncedSectorMap)
                 == (if scan.Got? then Dom(scan.value) + ArrivedBefore(arrivals, |scan.value| + 1)
                     else Arrived(arrivals(0)))
              && (Quiet(arrivals) ==> store.unsyncedSectorMap == if scan.Got? then scan.value else [])
  {
    tracing := isTracing;
    if source.Threw? {
      return NoSource, tracing;
    }
    if remote.Threw? {
      return NoRemote, tracing;
    }
    if !isTracing {
      if !isFull {
        return NoTraceData, tracing;
      }
      if !tracerStarts {
        return NoTracer, tracing;
      }
      tracing := true;
    }
    if isFull {
      store.ClearIntervals();
      if scan.Threw? {
        HandleTraces(store, arrivals(0));
        return NoScan, tracing;
      }
      SeedStore(store, scan.value, arrivals);
    }
    if source.value.devT == remote.value.devT {
      return SameDevice, tracing;
    }
    if source.value.sizeBytes > remote.value.sizeBytes {
      return DestinationTooSmall, tracing;
    }
    return Synchronizer, tracing;
  }

}
