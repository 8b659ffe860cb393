/** The invariant of live copying: a tracked sector on which source and destination
differ is still owed, by the store, by a trace on its way, by the uncopied part of the
interval in flight, or by the part of the scan not yet seeded. */
module NoLostWrite {
  import opened MachineIntegers
  import opened IntervalMap
  import opened SectorStore
  import opened DeviceSync

  predicate Copying(pc: Pc) {
    match pc
    case CopyTest | BlockRead | BlockWrite => true
    case Attempt(t) => t.CopyTask?
    case Begin(t) => t.CopyTask?
    case Join(t) => t.CopyTask?
    case Spawn(t) => t.CopyTask?
    case Await(t) => t.CopyTask?
    case End(t) => t.CopyTask?
    case Throw(c) => c
    case Died(c) => c
    case _ => false
  }

  predicate Building(pc: Pc) { pc.Clear? || pc.Scan? || pc.Seed? || pc.Ready? }

  // The block at Base(w) counts as uncopied until its write is accepted, except while the
  // worker asks whether the freeze lasted: then it has just been written.  What a worker
  // that has thrown or died left uncopied counts too, although nobody will copy it.
  predicate InFlight(d: Dev, s: nat) {
    Copying(d.w.pc) && CopiedTo(d) <= s < d.w.interval.upper
  }

  function CopiedTo(d: Dev): nat { Base(d.w) + if d.w.pc.End? then d.spb else 0 }

  predicate ToSeed(pc: Pc, s: nat) { pc.Seed? && At(pc.left, s) != 0 }

  ghost predicate Owed(d: Dev, s: nat) {
    At(d.store.unsynced, s) != 0 || Covered(d.pending, s)
  }

  // The buffered content of sector s, when s lies in the block being copied.
  predicate Buffered(d: Dev, s: nat) {
    d.w.pc.BlockWrite? && Base(d.w) <= s < Base(d.w) + d.spb
  }

  ghost predicate SectorOk(d: Dev, s: nat)
    requires Shape(d)
  {
    && s < |d.src|
    && (d.src[s] == d.dst[s] || Owed(d, s) || InFlight(d, s) || ToSeed(d.w.pc, s))
    && (Buffered(d, s) ==> d.w.buf[s - Base(d.w)] == d.src[s] || Owed(d, s))
  }

  predicate Shape(d: Dev) {
    && d.spb > 0 && |d.src| <= |d.dst| && |d.src| < TWO_64
    && d.store.Valid() && d.store.volatileSeconds == VOLATILE_SECONDS
    && (d.w.pc.Seed? ==> Canonical(d.w.pc.left))
    && (d.w.pc.BlockWrite? ==> |d.w.buf| == d.spb && Base(d.w) + d.spb <= |d.src|)
  }

  ghost predicate NoLost(d: Dev)
    requires Shape(d)
  {
    forall s :: s in d.tracked ==> SectorOk(d, s)
  }

  // An interval handed out is wholly unsynced until it is removed.
  predicate HandoutOk(d: Dev) {
    d.w.pc.Remove? ==> d.w.interval.Sectors() <= Dom(d.store.unsynced)
  }

  // Bytes sent, sectors in flight and sectors unsynced add up to all there ever were.
  predicate Accounted(d: Dev) {
    !Building(d.w.pc) ==>
      d.w.sent + 512 * (Count(d.store.unsynced) + if Copying(d.w.pc) then d.w.interval.Cardinality() else 0)
      == 512 * (d.initCount + d.inserted)
  }

  ghost predicate SyncInv(d: Dev) {
    Shape(d) && NoLost(d) && HandoutOk(d) && Accounted(d)
  }

  // ---- Environment ----

  // A write changes exactly the sectors it covers, to its data.
  lemma WriteIsExact(d: Dev, tr: Trace, data: seq<Content>, s: nat)
    requires CanWrite(d, tr, data) && s < |d.src|
    ensures var e := DoWrite(d, tr, data);
            && |e.src| == |d.src| && e.dst == d.dst
            && e.src[s] == if tr.sector <= s < tr.sector + |data| then data[s - tr.sector] else d.src[s]
  {
  }

  lemma WriteKeepsSector(d: Dev, tr: Trace, data: seq<Content>, s: nat)
    requires Shape(d) && CanWrite(d, tr, data)
    requires s in d.tracked ==> SectorOk(d, s)
    requires s in DoWrite(d, tr, data).tracked
    ensures SectorOk(DoWrite(d, tr, data), s)
  {
  }

  lemma CoveredMore(pending: multiset<Trace>, tr: Trace, s: nat)
    ensures Covered(pending, s) ==> Covered(pending + multiset{tr}, s)
  {
  }

  lemma WriteKeeps(d: Dev, tr: Trace, data: seq<Content>)
    requires SyncInv(d) && CanWrite(d, tr, data)
    ensures SyncInv(DoWrite(d, tr, data))
  {
    var e := DoWrite(d, tr, data);
    forall s | s in e.tracked ensures SectorOk(e, s) {
      WriteKeepsSector(d, tr, data, s);
    }
  }

  lemma OtherTraceKeeps(d: Dev, tr: Trace)
    requires SyncInv(d)
    ensures SyncInv(d.(pending := d.pending + multiset{tr}))
  {
  }

  lemma DeliverKeepsOwed(d: Dev, tr: Trace, now: int, s: nat)
    requires d.store.Valid() && now != 0
    ensures Owed(d, s) ==> Owed(DoDeliver(d, tr, now), s)
  {
    var e := DoDeliver(d, tr, now);
    if IsWrite(tr) {
      AddAt(d.store.unsynced, TracedInterval(tr), now, s);
    }
    if Covered(d.pending, s) {
      var t :| t in d.pending && IsWrite(t) && TracedInterval(t).Contains(s);
      if t != tr { assert t in e.pending; }
    }
  }

  lemma DeliverKeeps(d: Dev, tr: Trace, now: int)
    requires SyncInv(d) && now != 0
    ensures SyncInv(DoDeliver(d, tr, now))
  {
    var e := DoDeliver(d, tr, now);
    forall s | s in e.tracked ensures SectorOk(e, s) {
      assert SectorOk(d, s);
      DeliverKeepsOwed(d, tr, now, s);
    }
    if IsWrite(tr) {
      AddDom(d.store.unsynced, TracedInterval(tr), now);
      AddCount(d.store.unsynced, TracedInterval(tr), now);
    }
  }

  // ---- Building ----

  lemma SeedNextKeeps(d: Dev)
    requires SyncInv(d) && d.w.pc.Seed?
    ensures SyncInv(DoBuild(d, SeedNext))
  {
    var e := DoBuild(d, SeedNext);
    var left := d.w.pc.left;
    forall s | s in e.tracked ensures SectorOk(e, s) {
      assert SectorOk(d, s);
      if left != [] { AddAt(d.store.unsynced, left[0].Range(), 1, s); }
    }
  }

  lemma BuildKeeps(d: Dev, a: DevAction)
    requires SyncInv(d) && CanBuild(d, a)
    ensures SyncInv(DoBuild(d, a))
  {
    var e := DoBuild(d, a);
    match a
    case ClearStore =>
    case ScanDevice(inUse) =>
      forall s | s in e.tracked ensures SectorOk(e, s) {
        if s in d.tracked { assert SectorOk(d, s); } else { DomIsAt(inUse, s); }
      }
    case SeedNext => SeedNextKeeps(d);
  }

  // ---- The worker ----

  lemma SameSectors(d: Dev, e: Dev)
    requires Shape(d) && NoLost(d) && Shape(e)
    requires e == d.(w := e.w, fz := e.fz, initCount := e.initCount, inserted := e.inserted)
    requires e.w.pc.BlockWrite? ==> e.w == d.w
    requires d.w.pc.Seed? ==> e.w.pc == d.w.pc || d.w.pc.left == []
    requires Copying(d.w.pc) && CopiedTo(d) < d.w.interval.upper ==>
               Copying(e.w.pc) && e.w.interval == d.w.interval && CopiedTo(e) <= CopiedTo(d)
    ensures NoLost(e)
  {
  }

  lemma FreezeWorkKeepsSync(d: Dev)
    requires SyncInv(d) && CanWork(d)
    ensures SyncInv(FreezeWork(d))
  {
    FreezeWorkKeepsPlan(d);
    SameSectors(d, FreezeWork(d));
  }

  lemma FreezeWorkKeepsPlan(d: Dev)
    requires CanWork(d)
    ensures var e := FreezeWork(d);
            && e == d.(w := e.w, fz := e.fz)
            && e.w.interval == d.w.interval && e.w.sent == d.w.sent && e.w.buf == d.w.buf
            && Copying(e.w.pc) == Copying(d.w.pc) && Building(e.w.pc) == Building(d.w.pc) && CopiedTo(e) <= CopiedTo(d)
            && (e.w.pc.BlockWrite? || e.w.pc.Seed? || e.w.pc.Remove? || d.w.pc.Seed? ==> e.w == d.w)
  {
  }

  lemma BlockReadKeeps(d: Dev)
    requires SyncInv(d) && CanWork(d) && d.w.pc.BlockRead?
    ensures SyncInv(CopyWork(d))
  {
  }

  lemma BlockWriteKeeps(d: Dev)
    requires SyncInv(d) && CanWork(d) && d.w.pc.BlockWrite?
    ensures SyncInv(CopyWork(d))
  {
    var e := CopyWork(d);
    forall s | s in e.tracked ensures SectorOk(e, s) {
      assert SectorOk(d, s);
      if Buffered(d, s) {
        assert e.dst[s] == d.w.buf[s - Base(d.w)];
      } else {
        assert e.dst[s] == d.dst[s];
      }
    }
  }

  lemma CopyTestKeeps(d: Dev)
    requires SyncInv(d) && CanWork(d) && d.w.pc.CopyTest?
    ensures SyncInv(CopyWork(d))
  {
    SameSectors(d, CopyWork(d));
  }

  lemma GetKeeps(d: Dev, now: int)
    requires SyncInv(d) && d.w.pc.Get?
    ensures SyncInv(LoopWork(d, now))
  {
    var e := LoopWork(d, now);
    var m := d.store.unsynced;
    forall s | s in e.tracked ensures SectorOk(e, s) { assert SectorOk(d, s); }
    if m == [] {
      assert e.w.interval.Sectors() == {};
    } else {
      var k := Pick(m, d.store.cursor);
      AtIndex(m, k);
      forall s | s in e.w.interval.Sectors() ensures s in Dom(m) { assert m[k].Contains(s); DomIsAt(m, s); }
    }
  }

  lemma RemoveKeeps(d: Dev, now: int)
    requires SyncInv(d) && d.w.pc.Remove?
    ensures SyncInv(LoopWork(d, now))
  {
    var e := LoopWork(d, now);
    forall s | s in e.tracked ensures SectorOk(e, s) {
      assert SectorOk(d, s);
      SubtractAt(d.store.unsynced, d.w.interval, s);
    }
    SubtractCount(d.store.unsynced, d.w.interval);
  }

  lemma OtherLoopWorkKeeps(d: Dev, now: int)
    requires SyncInv(d) && CanWork(d) && !d.w.pc.Get? && !d.w.pc.Remove?
    requires d.w.pc.Opening? || d.w.pc.ReadCount? || d.w.pc.CountRead? || d.w.pc.Decide?
    ensures SyncInv(LoopWork(d, now))
  {
    SameSectors(d, LoopWork(d, now));
  }

  lemma WorkKeeps(d: Dev, now: int)
    requires SyncInv(d) && CanWork(d)
    ensures SyncInv(DoWork(d, now))
  {
    match d.w.pc
    case Attempt(_) | Begin(_) | Join(_) | Spawn(_) | Await(_) | End(_) => FreezeWorkKeepsSync(d);
    case BlockRead => BlockReadKeeps(d);
    case BlockWrite => BlockWriteKeeps(d);
    case CopyTest => CopyTestKeeps(d);
    case Get => GetKeeps(d, now);
    case Remove => RemoveKeeps(d, now);
    case _ => OtherLoopWorkKeeps(d, now);
  }

  lemma FailKeeps(d: Dev)
    requires SyncInv(d) && CanFail(d)
    ensures SyncInv(DoFail(d))
  {
  }

  lemma ShortWriteKeeps(d: Dev, n: nat)
    requires SyncInv(d) && CanShortWrite(d, n)
    ensures SyncInv(DoShortWrite(d, n))
  {
    var e := DoShortWrite(d, n);
    forall s | s in e.tracked ensures SectorOk(e, s) {
      assert SectorOk(d, s);
      if Buffered(d, s) && s < Base(d.w) + n {
        assert e.dst[s] == d.w.buf[s - Base(d.w)];
      } else {
        assert e.dst[s] == d.dst[s];
      }
    }
  }

  lemma ThreadKeepsSync(d: Dev, a: DevAction)
    requires SyncInv(d) && CanThread(d.fz, a)
    ensures SyncInv(d.(fz := DoThread(d.fz, a)))
  {
  }

  /** No step of the machine, the tracer, the freeze thread or the worker loses a write. */
  lemma StepKeepsSyncInv(d: Dev, a: DevAction, now: int)
    requires SyncInv(d) && Enabled(d, a) && now != 0
    ensures SyncInv(Step(d, a, now))
  {
    match a
    case Write(tr, data) => WriteKeeps(d, tr, data);
    case OtherTrace(tr) => OtherTraceKeeps(d, tr);
    case Deliver(tr) => DeliverKeeps(d, tr, now);
    case ClearStore | ScanDevice(_) | SeedNext => BuildKeeps(d, a);
    case Work => WorkKeeps(d, now);
    case Fail => FailKeeps(d);
    case ShortWrite(n) => ShortWriteKeeps(d, n);
    case _ => ThreadKeepsSync(d, a);
  }

  // The coordinator steps of the worker, none of which starts or ends a copy.
  lemma MoveKeepsSyncInv(d: Dev, pc: Pc, wasDone: bool)
    requires SyncInv(d)
    requires !d.w.pc.BlockWrite? && !Building(d.w.pc) && !Building(pc) && !pc.BlockWrite? && !pc.Remove? && !pc.End?
    requires Copying(pc) == Copying(d.w.pc) && !d.w.pc.End?
    ensures SyncInv(Move(d, pc, wasDone))
  {
  }
}
