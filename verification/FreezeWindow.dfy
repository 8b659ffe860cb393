/** What the freeze handshake keeps, whatever the worker, its freeze thread and the rest
of the machine do in between. */
module FreezeWindow {
  import opened DeviceSync

  // The thread of the current window has set did_freeze_, or has ended.
  predicate Past(p: ThreadPc) {
    p.DidFreeze? || p.Sleeping? || p.Thawing? || p.Catching? || p.Ended?
  }

  // The worker is between the begin and the end of a required freeze block.
  predicate Inside(w: Worker) {
    w.pc.CountRead? || w.pc.End? || (w.isVolatile && (w.pc.BlockRead? || w.pc.BlockWrite?))
  }

  predicate Entering(pc: Pc) { pc.Begin? || pc.Join? || pc.Spawn? || pc.Await? }

  predicate FreezeInv(d: Dev) {
    && (d.fz.isFrozen <==> d.fz.pc.Sleeping?)
    && (d.fz.pc.Froze? || d.fz.pc.DidFreeze? || d.fz.pc.Sleeping? || d.fz.pc.Thawing? ==> d.fz.deviceFrozen)
    && (d.w.pc.Spawn? ==> d.fz.pc.NoThread?)
    && (d.w.pc.Await? && d.fz.didFreeze ==> Past(d.fz.pc))
    && (d.w.pc.Await? && d.fz.wasError ==> d.fz.pc.Ended?)
    && (Inside(d.w) ==> Past(d.fz.pc))
  }

  // The retry counter: the task has run once for every attempt that reached it.
  predicate AttemptInv(w: Worker) {
    && (w.pc.Attempt? ==> w.runs == w.attempts <= MAX_FREEZE_ATTEMPTS)
    && (Entering(w.pc) ==> w.runs + 1 == w.attempts <= MAX_FREEZE_ATTEMPTS)
    && (w.pc.End? ==> 1 <= w.runs == w.attempts <= MAX_FREEZE_ATTEMPTS)
    && (Inside(w) && !w.pc.End? ==> w.runs + 1 == w.attempts <= MAX_FREEZE_ATTEMPTS)
    && (w.pc == End(CopyTask) || (!w.pc.Throw? && !w.pc.Died? && CopyFreeze(w.pc)) ==> w.isVolatile)
  }

  predicate CopyFreeze(pc: Pc) {
    match pc
    case Attempt(t) => t.CopyTask?
    case Begin(t) => t.CopyTask?
    case Join(t) => t.CopyTask?
    case Spawn(t) => t.CopyTask?
    case Await(t) => t.CopyTask?
    case _ => false
  }

  lemma FreezeWorkKeeps(d: Dev)
    requires CanWork(d) && FreezeInv(d) && AttemptInv(d.w)
    ensures FreezeInv(FreezeWork(d)) && AttemptInv(FreezeWork(d).w)
  {
  }

  lemma CopyWorkKeeps(d: Dev)
    requires CanWork(d) && FreezeInv(d) && AttemptInv(d.w)
    ensures FreezeInv(CopyWork(d)) && AttemptInv(CopyWork(d).w)
  {
  }

  lemma LoopWorkKeepsAttempts(d: Dev, now: int)
    requires d.store.Valid() && CanWork(d) && AttemptInv(d.w)
    ensures AttemptInv(LoopWork(d, now).w)
  {
  }

  lemma LoopWorkKeeps(d: Dev, now: int)
    requires d.store.Valid() && CanWork(d) && FreezeInv(d)
    ensures FreezeInv(LoopWork(d, now))
  {
  }

  lemma WorkKeepsFreezeInv(d: Dev, now: int)
    requires d.store.Valid() && CanWork(d) && FreezeInv(d) && AttemptInv(d.w)
    ensures FreezeInv(DoWork(d, now)) && AttemptInv(DoWork(d, now).w)
  {
    FreezeWorkKeeps(d);
    CopyWorkKeeps(d);
    LoopWorkKeeps(d, now);
    LoopWorkKeepsAttempts(d, now);
  }

  lemma ThreadKeeps(d: Dev, a: DevAction)
    requires CanThread(d.fz, a) && FreezeInv(d)
    ensures FreezeInv(d.(fz := DoThread(d.fz, a)))
  {
  }

  lemma BuildKeepsFreeze(d: Dev, a: DevAction)
    requires CanBuild(d, a) && d.store.Valid() && FreezeInv(d) && AttemptInv(d.w)
    ensures FreezeInv(DoBuild(d, a)) && AttemptInv(DoBuild(d, a).w)
  {
  }

  lemma StepKeepsFreezeInv(d: Dev, a: DevAction, now: int)
    requires d.store.Valid() && Enabled(d, a)
    requires FreezeInv(d) && AttemptInv(d.w)
    ensures FreezeInv(Step(d, a, now)) && AttemptInv(Step(d, a, now).w)
  {
    match a
    case Work => WorkKeepsFreezeInv(d, now);
    case Fail | ShortWrite(_) =>
    case ClearStore | ScanDevice(_) | SeedNext => BuildKeepsFreeze(d, a);
    case Write(_, _) | OtherTrace(_) | Deliver(_) =>
    case _ => ThreadKeeps(d, a);
  }

  /** A step inside a required freeze block cannot open a window: if the device is frozen
      after it with the thread still short of its thaw, it was so before, in the same window. */
  lemma InsideIsOneWindow(d: Dev, a: DevAction, now: int)
    requires d.store.Valid() && Enabled(d, a) && FreezeInv(d)
    requires Inside(d.w)
    requires var e := Step(d, a, now); e.fz.pc.DidFreeze? || e.fz.pc.Sleeping?
    ensures d.fz.pc.DidFreeze? || d.fz.pc.Sleeping?
    ensures d.fz.deviceFrozen && d.fz.window == Step(d, a, now).fz.window
  {
  }

  // The current window is open, and its thaw has not been decided.
  predicate ThawNotBegun(f: Freeze) { f.pc.DidFreeze? || f.pc.Sleeping? }

  // While the window lasts, a volatile block is buffered, and then written, exactly as the
  // source holds it.
  predicate ExactCopy(d: Dev) {
    && (d.w.isVolatile && d.w.pc.BlockWrite? && ThawNotBegun(d.fz) ==>
          Base(d.w) + d.spb <= |d.src| && |d.w.buf| == d.spb
          && forall s :: Base(d.w) <= s < Base(d.w) + d.spb ==> d.w.buf[s - Base(d.w)] == d.src[s])
    && (d.w.pc == End(CopyTask) && ThawNotBegun(d.fz) ==>
          Base(d.w) + d.spb <= |d.src| && Base(d.w) + d.spb <= |d.dst|
          && forall s :: Base(d.w) <= s < Base(d.w) + d.spb ==> d.dst[s] == d.src[s])
  }

  lemma CopyWorkKeepsExact(d: Dev)
    requires CanWork(d) && ExactCopy(d)
    ensures ExactCopy(CopyWork(d))
  {
  }

  lemma WorkKeepsExact(d: Dev, now: int)
    requires d.store.Valid() && CanWork(d) && ExactCopy(d)
    ensures ExactCopy(DoWork(d, now))
  {
    CopyWorkKeepsExact(d);
    assert ExactCopy(FreezeWork(d));
  }

  lemma OtherKeepsBlock(d: Dev, a: DevAction, now: int)
    requires d.store.Valid() && Enabled(d, a) && !a.Work?
    requires Inside(Step(d, a, now).w) && !Step(d, a, now).w.pc.CountRead?
    ensures var e := Step(d, a, now);
            && e.w == d.w && e.spb == d.spb && e.dst == d.dst
            && (if a.Write? then !d.fz.deviceFrozen else e.src == d.src)
  {
  }

  lemma StepKeepsExact(d: Dev, a: DevAction, now: int)
    requires d.store.Valid() && Enabled(d, a) && FreezeInv(d) && AttemptInv(d.w) && ExactCopy(d)
    ensures ExactCopy(Step(d, a, now))
  {
    if a.Work? {
      WorkKeepsExact(d, now);
    } else if Inside(Step(d, a, now).w) && ThawNotBegun(Step(d, a, now).fz) {
      if !Step(d, a, now).w.pc.CountRead? {
        OtherKeepsBlock(d, a, now);
        InsideIsOneWindow(d, a, now);
      }
    }
  }
}
