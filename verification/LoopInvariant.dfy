/** What the worker's own locals keep: the done flag, the zero count behind a finish
signal, the flush time, and the block offset inside the interval. */
module LoopInvariant {
  import opened DeviceSync
  import opened NoLostWrite
  import opened CopyLoop

  // Inside RunWhileFrozen for the count.
  predicate Counting(pc: Pc) {
    match pc
    case CountRead => true
    case Attempt(t) => t.CountTask?
    case Begin(t) => t.CountTask?
    case Join(t) => t.CountTask?
    case Spawn(t) => t.CountTask?
    case Await(t) => t.CountTask?
    case End(t) => t.CountTask?
    case _ => false
  }

  // The worker has read a zero count inside RunWhileFrozen and has not looked again.
  predicate SeenZero(w: Worker) {
    w.pc.Signal? || w.pc.Wait? || w.pc.Broke? || (w.pc.Decide? && w.count == 0)
  }

  // flush_time > 0 says nothing more than a zero count already does.
  predicate LoopInv(w: Worker) {
    && w.flushTime >= 0
    && (SeenZero(w) ==> w.count == 0 && w.flushTime > 0)
    && (Counting(w.pc) ==> w.flushTime > 0)
    && (Building(w.pc) || w.pc.Opening? || w.pc.Signal? || w.pc.Get? || w.pc.Remove? || Copying(w.pc) ==> !w.wasDone)
    && (w.pc.Wait? || w.pc.Broke? || w.pc.Resume? ==> w.wasDone)
  }

  // The loop stands at a whole number of blocks, and below the end while it copies one.
  predicate BlockInv(d: Dev)
    requires d.spb > 0
  {
    Copying(d.w.pc) && !d.w.pc.Throw? && !d.w.pc.Died? ==>
      Aligned(d.w.i, d.spb) && (d.w.pc.CopyTest? || d.w.i < d.w.interval.Cardinality())
  }

  // The interval in hand, rounded up to whole blocks from its lower bound.
  predicate InRounded(d: Dev, s: nat)
    requires d.spb > 0
  {
    d.w.interval.lower <= s < d.w.interval.lower + RoundUp(d.w.interval.Cardinality(), d.spb)
  }

  lemma StepKeepsLoopInv(d: Dev, a: DevAction, now: int)
    requires d.store.Valid() && Enabled(d, a) && now > SECONDS_BETWEEN_FLUSHES
    requires LoopInv(d.w)
    ensures LoopInv(Step(d, a, now).w)
  {
    if a.Work? {
      FreezeWorkKeepsLoop(d);
      CopyWorkKeepsLoop(d);
      LoopWorkKeepsLoop(d, now);
    }
  }

  lemma FreezeWorkKeepsLoop(d: Dev)
    requires CanWork(d) && LoopInv(d.w)
    ensures LoopInv(FreezeWork(d).w)
  {
  }

  lemma CopyWorkKeepsLoop(d: Dev)
    requires CanWork(d) && LoopInv(d.w)
    ensures LoopInv(CopyWork(d).w)
  {
  }

  lemma LoopWorkKeepsLoop(d: Dev, now: int)
    requires d.store.Valid() && CanWork(d) && LoopInv(d.w) && now > SECONDS_BETWEEN_FLUSHES
    ensures LoopInv(LoopWork(d, now).w)
  {
  }

  lemma FreezeWorkKeepsBlock(d: Dev)
    requires CanWork(d) && d.spb > 0 && BlockInv(d)
    ensures FreezeWork(d).spb == d.spb && BlockInv(FreezeWork(d))
  {
  }

  lemma CopyWorkKeepsBlock(d: Dev)
    requires CanWork(d) && d.spb > 0 && BlockInv(d)
    ensures CopyWork(d).spb == d.spb && BlockInv(CopyWork(d))
  {
  }

  lemma LoopWorkKeepsBlock(d: Dev, now: int)
    requires CanWork(d) && d.store.Valid() && d.spb > 0 && BlockInv(d)
    ensures LoopWork(d, now).spb == d.spb && BlockInv(LoopWork(d, now))
  {
  }

  lemma StepKeepsBlockInv(d: Dev, a: DevAction, now: int)
    requires d.store.Valid() && d.spb > 0 && Enabled(d, a)
    requires BlockInv(d)
    ensures Step(d, a, now).spb == d.spb && BlockInv(Step(d, a, now))
  {
    if a.Work? {
      FreezeWorkKeepsBlock(d);
      CopyWorkKeepsBlock(d);
      LoopWorkKeepsBlock(d, now);
    }
  }

  lemma BlockInRounded(d: Dev, s: nat)
    requires d.spb > 0 && BlockInv(d) && Buffered(d, s)
    ensures InRounded(d, s)
  {
    RoundUpBounds(d.w.interval.Cardinality(), d.spb, d.w.i);
  }

  lemma WorkFrame(d: Dev, now: int, s: nat)
    requires Shape(d) && CanWork(d) && s < |d.dst|
    ensures |DoWork(d, now).dst| == |d.dst|
    ensures DoWork(d, now).dst[s] != d.dst[s] ==>
              Buffered(d, s) && DoWork(d, now).dst[s] == d.w.buf[s - Base(d.w)]
  {
    assert LoopWork(d, now).dst == d.dst && FreezeWork(d).dst == d.dst;
  }

  /** A destination sector changes only when the block just read is written, in full or in
      part, and that block lies inside the interval in hand, rounded up to whole blocks. */
  lemma DestinationFrame(d: Dev, a: DevAction, now: int, s: nat)
    requires Shape(d) && Enabled(d, a) && BlockInv(d) && s < |d.dst|
    ensures |Step(d, a, now).dst| == |d.dst|
    ensures Step(d, a, now).dst[s] != d.dst[s] ==>
              (a.Work? || a.ShortWrite?) && Buffered(d, s) && InRounded(d, s)
              && Step(d, a, now).dst[s] == d.w.buf[s - Base(d.w)]
  {
    if a.Work? { WorkFrame(d, now, s); }
    if Buffered(d, s) { BlockInRounded(d, s); }
  }

  /** A block-aligned interval inside a source of whole blocks never meets a short read. */
  lemma AlignedReadFits(d: Dev)
    requires d.spb > 0 && BlockInv(d) && d.w.pc.BlockRead?
    requires d.w.interval.lower % d.spb == 0 && |d.src| % d.spb == 0 && d.w.interval.upper <= |d.src|
    ensures CanWork(d)
  {
    AlignedBlocksFit(d.w.interval, d.spb, |d.src|);
    RoundUpBounds(d.w.interval.Cardinality(), d.spb, d.w.i);
  }
}
