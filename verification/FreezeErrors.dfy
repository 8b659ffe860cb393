/** When a frozen task starts, when it is retried or given up, and what a failure leads to. */
module FreezeErrors {
  import D = DeviceSync
  import opened DeviceSync
  import opened FreezeWindow
  import opened BackupRun
  import opened BackupHistory
  import opened BackupSuccess
  import opened LoopDecisions

  // The flags of the handshake tell what the current freeze thread has done, and a worker
  // that awaits them has a thread that will set one.
  predicate Handshake(f: Freeze) {
    && (f.pc.Freezing? || f.pc.Froze? ==> !f.didFreeze && !f.wasError)
    && (f.pc.DidFreeze? || f.pc.Sleeping? || f.pc.Thawing? ==> f.didFreeze && !f.wasError)
    && (f.pc.Catching? ==> !f.wasError)
    && (f.pc.Ended? ==> f.didFreeze || f.wasError)
  }

  predicate HandshakeInv(d: Dev) {
    && Handshake(d.fz)
    && (Inside(d.w) ==> d.fz.didFreeze)
    && (d.w.pc.Await? ==> !d.fz.pc.NoThread?)
  }

  lemma ThreadKeepsHandshake(f: Freeze, a: DevAction)
    requires CanThread(f, a) && Handshake(f)
    ensures Handshake(DoThread(f, a)) && (f.didFreeze ==> DoThread(f, a).didFreeze) && !DoThread(f, a).pc.NoThread?
  {
  }

  lemma FreezeWorkKeepsHandshake(d: Dev)
    requires CanWork(d) && FreezeInv(d) && HandshakeInv(d)
    ensures HandshakeInv(FreezeWork(d))
  {
  }

  lemma OtherWorkKeepsHandshake(d: Dev, now: int)
    requires d.store.Valid() && CanWork(d) && AttemptInv(d.w) && HandshakeInv(d)
    requires d.w.isVolatile && d.w.pc.BlockWrite? ==> Inside(d.w)
    ensures HandshakeInv(CopyWork(d)) && HandshakeInv(LoopWork(d, now))
  {
  }

  lemma DeviceKeepsHandshake(d: Dev, x: DevAction, now: int)
    requires d.store.Valid() && D.Enabled(d, x) && FreezeInv(d) && AttemptInv(d.w) && HandshakeInv(d)
    ensures HandshakeInv(D.Step(d, x, now))
  {
    match x
    case Work =>
      FreezeWorkKeepsHandshake(d);
      OtherWorkKeepsHandshake(d, now);
    case Write(_, _) | OtherTrace(_) | Deliver(_) =>
    case ClearStore | ScanDevice(_) | SeedNext =>
    case Fail | ShortWrite(_) =>
    case _ => ThreadKeepsHandshake(d.fz, x);
  }

  lemma TalkKeepsHandshake(s: Sys, a: Act)
    requires WorkerAct(a) && CanTalk(s, a) && HandshakeInv(s.devs[a.w])
    ensures HandshakeInv(Talked(s.devs[a.w], s.coord.cancelled, a))
  {
  }

  lemma StepKeepsHandshake(s: Sys, a: Act, w: nat)
    requires Stores(s) && MainInv(s) && CanTake(s, a) && w < |s.devs| && |Take(s, a).devs| == |s.devs|
    requires FreezeInv(s.devs[w]) && AttemptInv(s.devs[w].w) && HandshakeInv(s.devs[w])
    ensures HandshakeInv(Take(s, a).devs[w])
  {
    match a
    case Device(v, x) => if v == w { DeviceKeepsHandshake(s.devs[w], x, s.now); }
    case MainStep => MainSeenFrom(s, w);
    case Tick(_) | CancelBackup =>
    case _ => if a.w == w { TalkKeepsHandshake(s, a); }
  }

  lemma {:induction false} RunHandshake(states: seq<Sys>, acts: seq<Act>, w: nat, k: nat)
    requires IsRun(states, acts) && k < |states| && w < |states[0].devs|
    ensures w < |states[k].devs| && HandshakeInv(states[k].devs[w]) && DevInv(states[k].devs[w])
    decreases k
  {
    RunInv(states, acts, k);
    assert DevInv(states[k].devs[w]);
    if k == 0 {
      assert InitDev(states[0].devs[w]);
    } else {
      RunHandshake(states, acts, w, k - 1);
      RunSteps(states, acts, w);
      assert StepOf(states[k - 1], acts[k - 1], states[k - 1 + 1]);
      StepKeepsHandshake(states[k - 1], acts[k - 1], w);
    }
  }

  /** A worker that awaits its freeze has a thread at work on it, or an answer. */
  lemma AwaitIsAnswered(states: seq<Sys>, acts: seq<Act>, w: nat, k: nat)
    requires IsRun(states, acts) && k < |states| && w < |states[k].devs| && states[k].devs[w].w.pc.Await?
    ensures var f := states[k].devs[w].fz;
            !f.pc.NoThread? && (f.pc.Ended? ==> f.didFreeze || f.wasError) && (f.pc.Sleeping? ==> f.didFreeze)
    ensures states[k].devs[w].fz.didFreeze || states[k].devs[w].fz.wasError ==> CanWork(states[k].devs[w])
  {
    RunInv(states, acts, k);
    RunHandshake(states, acts, w, k);
  }

  // ---- The freeze behind a task ----

  predicate HasFrozen(f: Freeze) { f.didFreeze || f.pc.Froze? }

  // Having frozen comes from a freeze call that returned, with no other call since.
  predicate FrozeBack(d: Dev, e: Dev, ok: bool, call: bool) {
    HasFrozen(e.fz) ==> ok || (HasFrozen(d.fz) && !call)
  }

  lemma WorkFrozeBack(d: Dev, now: int)
    requires d.store.Valid() && CanWork(d) && HandshakeInv(d)
    ensures FrozeBack(d, DoWork(d, now), false, false)
  {
    assert FrozeBack(d, FreezeWork(d), false, false);
    assert CopyWork(d).fz == d.fz && LoopWork(d, now).fz == d.fz;
  }

  lemma DeviceFrozeBack(d: Dev, x: DevAction, now: int)
    requires d.store.Valid() && D.Enabled(d, x) && HandshakeInv(d)
    ensures FrozeBack(d, D.Step(d, x, now), x.FreezeOk?, x.FreezeOk? || x.FreezeFail?)
  {
    if x.Work? { WorkFrozeBack(d, now); }
  }

  lemma StepFrozeBack(s: Sys, a: Act, w: nat)
    requires Stores(s) && MainInv(s) && CanTake(s, a) && w < |s.devs| && |Take(s, a).devs| == |s.devs|
    requires HandshakeInv(s.devs[w])
    ensures FrozeBack(s.devs[w], Take(s, a).devs[w], a == Device(w, FreezeOk), FreezeBy(a, w))
  {
    if a.Device? && a.w == w { DeviceFrozeBack(s.devs[w], a.a, s.now); } else { StepSeenFrom(s, a, w); }
  }

  lemma {:induction false} FindFreeze(ds: seq<Dev>, oks: seq<bool>, calls: seq<bool>, k: nat) returns (i: nat)
    requires |ds| == |oks| + 1 == |calls| + 1 && k < |ds| && !HasFrozen(ds[0].fz) && HasFrozen(ds[k].fz)
    requires forall p :: 0 <= p < |oks| ==> FrozeBack(ds[p], ds[p + 1], oks[p], calls[p])
    ensures i < k && oks[i] && forall t :: i < t < k ==> !calls[t]
    decreases k
  {
    if k == 0 {
      assert false;
    } else {
      assert FrozeBack(ds[k - 1], ds[k - 1 + 1], oks[k - 1], calls[k - 1]);
      if oks[k - 1] {
        i := k - 1;
      } else {
        i := FindFreeze(ds, oks, calls, k - 1);
      }
    }
  }

  lemma FreezeBehind(states: seq<Sys>, acts: seq<Act>, w: nat, k: nat) returns (i: nat)
    requires IsRun(states, acts) && k < |states| && w < |states[0].devs|
    requires w < |states[k].devs| && HasFrozen(states[k].devs[w].fz)
    ensures i < k && acts[i] == Device(w, FreezeOk) && forall t :: i < t < k ==> !FreezeBy(acts[t], w)
  {
    RunSteps(states, acts, w);
    assert InitDev(states[0].devs[w]);
    var ds := DevsOf(states, w);
    var oks := seq(|acts|, p requires 0 <= p < |acts| => acts[p] == Device(w, FreezeOk));
    var calls := seq(|acts|, p requires 0 <= p < |acts| => FreezeBy(acts[p], w));
    forall p | 0 <= p < |acts| ensures FrozeBack(ds[p], ds[p + 1], oks[p], calls[p]) {
      assert StepOf(states[p], acts[p], states[p + 1]);
      RunHandshake(states, acts, w, p);
      StepFrozeBack(states[p], acts[p], w);
    }
    i := FindFreeze(ds, oks, calls, k);
    forall t | i < t < k ensures !FreezeBy(acts[t], w) { assert !calls[t]; }
  }

  lemma OnlyWorkEnters(s: Sys, a: Act, w: nat)
    requires Stores(s) && MainInv(s) && CanTake(s, a) && w < |s.devs| && |Take(s, a).devs| == |s.devs|
    requires !Inside(s.devs[w].w) && Inside(Take(s, a).devs[w].w)
    ensures a == Device(w, Work)
  {
    if !(a.Device? && a.w == w) { StepSeenFrom(s, a, w); }
  }

  lemma FreezeWorkEnters(d: Dev)
    requires CanWork(d) && !Inside(d.w) && Inside(FreezeWork(d).w)
    ensures FreezeWork(d).fz == d.fz
    ensures (d.w.pc.Begin? && d.fz.isFrozen) || (d.w.pc.Await? && d.fz.didFreeze && !d.fz.wasError)
  {
  }

  lemma EntersWhenFrozen(d: Dev, now: int)
    requires d.store.Valid() && CanWork(d) && !Inside(d.w) && Inside(DoWork(d, now).w)
    ensures DoWork(d, now) == FreezeWork(d) && DoWork(d, now).fz == d.fz
    ensures (d.w.pc.Begin? && d.fz.isFrozen) || (d.w.pc.Await? && d.fz.didFreeze && !d.fz.wasError)
  {
    assert !Inside(CopyWork(d).w) && !Inside(LoopWork(d, now).w);
    FreezeWorkEnters(d);
  }

  predicate EnteredFrozen(d: Dev) {
    (d.w.pc.Begin? && d.fz.isFrozen) || (d.w.pc.Await? && d.fz.didFreeze && !d.fz.wasError)
  }

  lemma StepEnters(s: Sys, a: Act, w: nat)
    requires Stores(s) && MainInv(s) && CanTake(s, a) && w < |s.devs| && |Take(s, a).devs| == |s.devs|
    requires !Inside(s.devs[w].w) && Inside(Take(s, a).devs[w].w)
    ensures a == Device(w, Work) && EnteredFrozen(s.devs[w])
  {
    OnlyWorkEnters(s, a, w);
    EntersWhenFrozen(s.devs[w], s.now);
  }

  lemma EnteredAt(states: seq<Sys>, acts: seq<Act>, w: nat, p: nat)
    requires IsRun(states, acts) && p < |acts| && w < |states[0].devs|
    ensures w < |states[p].devs| && w < |states[p + 1].devs|
    ensures !Inside(states[p].devs[w].w) && Inside(states[p + 1].devs[w].w) ==>
              acts[p] == Device(w, Work) && EnteredFrozen(states[p].devs[w])
  {
    RunSteps(states, acts, w);
    assert StepOf(states[p], acts[p], states[p + 1]);
    if !Inside(states[p].devs[w].w) && Inside(states[p + 1].devs[w].w) { StepEnters(states[p], acts[p], w); }
  }

  lemma HasFrozenAt(states: seq<Sys>, acts: seq<Act>, w: nat, p: nat)
    requires IsRun(states, acts) && p < |states| && w < |states[0].devs| && w < |states[p].devs|
    requires EnteredFrozen(states[p].devs[w])
    ensures HasFrozen(states[p].devs[w].fz)
  {
    RunHandshake(states, acts, w, p);
  }

  // Step i is the last freeze call of device w up to step p, and it returned normally.
  predicate LastFreeze(acts: seq<Act>, w: nat, i: nat, p: nat)
    requires p < |acts|
  {
    i < p && acts[i] == Device(w, FreezeOk) && forall t :: i < t <= p ==> !FreezeBy(acts[t], w)
  }

  /** A frozen task starts, in step p, only when the last freeze call of its device returned
      normally: either the device is still flagged frozen, or the worker awaited that very
      freeze and no error was flagged. */
  lemma TaskStartsFrozen(states: seq<Sys>, acts: seq<Act>, w: nat, p: nat)
    requires IsRun(states, acts) && p < |acts| && w < |states[0].devs|
    ensures w < |states[p].devs| && w < |states[p + 1].devs|
    ensures var d := states[p].devs[w];
            !Inside(d.w) && Inside(states[p + 1].devs[w].w) ==>
              && (exists i: nat :: LastFreeze(acts, w, i, p))
              && ((d.w.pc.Begin? && d.fz.isFrozen) || (d.w.pc.Await? && d.fz.didFreeze && !d.fz.wasError))
  {
    EnteredAt(states, acts, w, p);
    if !Inside(states[p].devs[w].w) && Inside(states[p + 1].devs[w].w) {
      HasFrozenAt(states, acts, w, p);
      var i := FreezeBehind(states, acts, w, p);
      assert LastFreeze(acts, w, i, p);
    }
  }

  // ---- Retrying and giving up ----

  /** RunWhileFrozen, step by step: an eleventh attempt is refused, after exactly ten runs of
      the task; a device still frozen is used as it is, and no other is; the worker starts
      with fresh flags, rethrows a flagged error, whether or not the device did freeze, and
      runs the task otherwise; and it tries again exactly when the freeze did not last. */
  lemma RetriesAsPromised(states: seq<Sys>, acts: seq<Act>, w: nat, k: nat)
    requires IsRun(states, acts) && WorksAt(states, acts, w, k)
    ensures var d, e := states[k].devs[w], states[k + 1].devs[w];
            && (d.w.pc.Attempt? ==> (e.w.pc.Throw? <==> d.w.runs == 10) && (e.w.pc.Begin? <==> d.w.runs < 10))
            && (d.w.pc.Begin? ==>
                  (Inside(e.w) <==> d.fz.isFrozen) && (e.w.pc.Join? <==> !d.fz.isFrozen) && e.fz == d.fz)
            && (d.w.pc.Spawn? ==> e.w.pc.Await? && e.fz.pc.Freezing? && !e.fz.didFreeze && !e.fz.wasError)
            && (d.w.pc.Await? ==> (e.w.pc.Throw? <==> d.fz.wasError) && (Inside(e.w) <==> !d.fz.wasError))
            && (d.w.pc.End? ==> (e.w.pc.Attempt? <==> !d.fz.isFrozen))
            && (d.w.pc == End(CountTask) && d.fz.isFrozen ==> e.w.pc.Decide? && e.w.count == d.w.count)
            && (d.w.pc == End(CopyTask) && d.fz.isFrozen ==> e.w.pc.CopyTest? && e.w.i == d.w.i + d.spb)
  {
    WorkTaken(states, acts, w, k);
    TakesTry(states[k].devs[w]);
  }

  lemma TakesTry(d: Dev)
    requires CanWork(d) && AttemptInv(d.w)
    ensures var e := FreezeWork(d);
            && (d.w.pc.Attempt? ==> (e.w.pc.Throw? <==> d.w.runs == 10) && (e.w.pc.Begin? <==> d.w.runs < 10))
            && (d.w.pc.Begin? ==>
                  (Inside(e.w) <==> d.fz.isFrozen) && (e.w.pc.Join? <==> !d.fz.isFrozen) && e.fz == d.fz)
            && (d.w.pc.Await? ==> (e.w.pc.Throw? <==> d.fz.wasError) && (Inside(e.w) <==> !d.fz.wasError))
  {
    assert d.w.pc.Begin? || d.w.pc.Await? ==> d.w.pc.task.CopyTask? ==> d.w.isVolatile;
  }

  // ---- Failures ----

  predicate Doomed(pc: Pc) { pc.Throw? || pc.Died? }

  lemma StepKeepsDoomed(s: Sys, a: Act, w: nat)
    requires Stores(s) && MainInv(s) && CanTake(s, a) && w < |s.devs| && |Take(s, a).devs| == |s.devs|
    requires Doomed(s.devs[w].w.pc)
    ensures Doomed(Take(s, a).devs[w].w.pc)
  {
    match a
    case Device(v, x) => if v == w { DeviceKeepsDoomed(s.devs[w], x, s.now); }
    case MainStep => MainSeenFrom(s, w);
    case Tick(_) | CancelBackup =>
    case _ =>
  }

  lemma DeviceKeepsDoomed(d: Dev, x: DevAction, now: int)
    requires d.store.Valid() && D.Enabled(d, x) && Doomed(d.w.pc)
    ensures D.Step(d, x, now).w == d.w
  {
    assert !CanWork(d) && !CanFail(d) && !CanBuild(d, x);
  }

  predicate KeepsDoomed(d: Dev, e: Dev) { Doomed(d.w.pc) ==> Doomed(e.w.pc) }

  lemma {:induction false} DoomedAlong(ds: seq<Dev>, i: nat, k: nat)
    requires i <= k < |ds| && Doomed(ds[i].w.pc) && forall p :: 0 <= p < |ds| - 1 ==> KeepsDoomed(ds[p], ds[p + 1])
    ensures Doomed(ds[k].w.pc)
    decreases k
  {
    if i < k {
      DoomedAlong(ds, i, k - 1);
      assert KeepsDoomed(ds[k - 1], ds[k - 1 + 1]);
    }
  }

  lemma StaysDoomed(states: seq<Sys>, acts: seq<Act>, w: nat, i: nat, k: nat)
    requires IsRun(states, acts) && i <= k < |states| && w < |states[0].devs|
    requires w < |states[i].devs| && Doomed(states[i].devs[w].w.pc)
    ensures w < |states[k].devs| && Doomed(states[k].devs[w].w.pc)
  {
    RunSteps(states, acts, w);
    var ds := DevsOf(states, w);
    forall p | 0 <= p < |acts| ensures KeepsDoomed(ds[p], ds[p + 1]) {
      assert StepOf(states[p], acts[p], states[p + 1]);
      if Doomed(ds[p].w.pc) { StepKeepsDoomed(states[p], acts[p], w); }
    }
    DoomedAlong(ds, i, k);
  }

  // Step i of worker w fails: a system call, a freeze or thaw error it comes to know of, or
  // the eleventh attempt.
  predicate FailsAt(states: seq<Sys>, acts: seq<Act>, w: nat, i: nat) {
    && i < |acts| < |states| && w < |states[i].devs| && acts[i].Device? && acts[i].w == w
    && (|| acts[i].a.Fail? || acts[i].a.ShortWrite?
        || (acts[i].a.Work? && states[i].devs[w].w.pc.Await? && states[i].devs[w].fz.wasError)
        || (acts[i].a.Work? && states[i].devs[w].w.pc.Attempt? && states[i].devs[w].w.runs == 10))
  }

  lemma FailsThenDoomed(states: seq<Sys>, acts: seq<Act>, w: nat, i: nat)
    requires IsRun(states, acts) && w < |states[0].devs| && FailsAt(states, acts, w, i)
    ensures w < |states[i + 1].devs| && Doomed(states[i + 1].devs[w].w.pc)
  {
    RunSteps(states, acts, w);
    assert StepOf(states[i], acts[i], states[i + 1]);
    if acts[i].a.Work? {
      RetriesAsPromised(states, acts, w, i);
    } else {
      FailedCallThrows(states[i], acts[i], w);
    }
  }

  lemma FailedCallThrows(s: Sys, a: Act, w: nat)
    requires Stores(s) && CanTake(s, a) && a.Device? && a.w == w && (a.a.Fail? || a.a.ShortWrite?)
    ensures w < |Take(s, a).devs| && Take(s, a).devs[w].w.pc.Throw?
  {
  }

  /** A backup in which any such step failed is never reported successful. */
  lemma FailureExcludesSuccess(states: seq<Sys>, acts: seq<Act>, w: nat, i: nat, k: nat)
    requires IsRun(states, acts) && w < |states[0].devs| && FailsAt(states, acts, w, i) && i < k
    ensures !ReportsSuccess(states, acts, k)
  {
    if ReportsSuccess(states, acts, k) {
      FailsThenDoomed(states, acts, w, i);
      StaysDoomed(states, acts, w, i + 1, k);
      SuccessMeansBroke(states, acts, k, w);
    }
  }

  lemma SuccessMeansBroke(states: seq<Sys>, acts: seq<Act>, k: nat, w: nat)
    requires IsRun(states, acts) && ReportsSuccess(states, acts, k) && w < |states[k].devs|
    ensures states[k].devs[w].w.pc.Broke?
  {
    SuccessMeansAllLeft(states, acts, k);
    assert Lefts(states[k].devs)[w];
  }

  // ---- Thaws ----

  predicate KeepsThawed(d: Dev, e: Dev, call: bool) { !d.fz.deviceFrozen && !call ==> !e.fz.deviceFrozen }

  lemma DeviceKeepsThawed(d: Dev, x: DevAction, now: int)
    requires d.store.Valid() && D.Enabled(d, x) && FreezeInv(d)
    ensures KeepsThawed(d, D.Step(d, x, now), x.FreezeOk? || x.FreezeFail?)
  {
    if x.Work? {
      assert FreezeWork(d).fz.deviceFrozen == d.fz.deviceFrozen;
      assert CopyWork(d).fz == d.fz && LoopWork(d, now).fz == d.fz;
    }
  }

  lemma StepKeepsThawed(s: Sys, a: Act, w: nat)
    requires Stores(s) && MainInv(s) && CanTake(s, a) && w < |s.devs| && |Take(s, a).devs| == |s.devs|
    requires FreezeInv(s.devs[w])
    ensures KeepsThawed(s.devs[w], Take(s, a).devs[w], FreezeBy(a, w))
  {
    if a.Device? && a.w == w { DeviceKeepsThawed(s.devs[w], a.a, s.now); } else { StepSeenFrom(s, a, w); }
  }

  lemma {:induction false} ThawedAlong(ds: seq<Dev>, calls: seq<bool>, i: nat, k: nat)
    requires |ds| == |calls| + 1 && i <= k < |ds| && !ds[i].fz.deviceFrozen
    requires forall p :: 0 <= p < |calls| ==> KeepsThawed(ds[p], ds[p + 1], calls[p])
    requires forall t :: i <= t < k ==> !calls[t]
    ensures !ds[k].fz.deviceFrozen
    decreases k
  {
    if i < k {
      ThawedAlong(ds, calls, i, k - 1);
      assert KeepsThawed(ds[k - 1], ds[k - 1 + 1], calls[k - 1]);
    }
  }

  lemma ThawUnfreezes(s: Sys, w: nat)
    requires Stores(s) && CanTake(s, Device(w, ThawOk))
    ensures w < |Take(s, Device(w, ThawOk)).devs| && !Take(s, Device(w, ThawOk)).devs[w].fz.deviceFrozen
  {
  }

  /** A device that was thawed can be written again, until the next freeze call returns. */
  lemma StaysThawed(states: seq<Sys>, acts: seq<Act>, w: nat, i: nat, k: nat)
    requires IsRun(states, acts) && i < k < |states| && w < |states[0].devs| && acts[i] == Device(w, ThawOk)
    requires forall t :: i < t < k ==> !FreezeBy(acts[t], w)
    ensures w < |states[k].devs| && !states[k].devs[w].fz.deviceFrozen
  {
    RunSteps(states, acts, w);
    var ds := DevsOf(states, w);
    var calls := seq(|acts|, p requires 0 <= p < |acts| => FreezeBy(acts[p], w));
    forall p | 0 <= p < |acts| ensures KeepsThawed(ds[p], ds[p + 1], calls[p]) {
      assert StepOf(states[p], acts[p], states[p + 1]);
      assert DevInv(states[p].devs[w]);
      StepKeepsThawed(states[p], acts[p], w);
    }
    assert StepOf(states[i], acts[i], states[i + 1]);
    ThawUnfreezes(states[i], w);
    ThawedAlong(ds, calls, i + 1, k);
  }

  // ---- Windows ----

  function Freezes(acts: seq<Act>, w: nat): nat {
    if acts == [] then 0
    else Freezes(acts[..|acts| - 1], w) + if acts[|acts| - 1] == Device(w, FreezeOk) then 1 else 0
  }

  predicate CountsWindow(d: Dev, e: Dev, ok: bool) { e.fz.window == d.fz.window + if ok then 1 else 0 }

  lemma DeviceCountsWindow(d: Dev, x: DevAction, now: int)
    requires d.store.Valid() && D.Enabled(d, x)
    ensures CountsWindow(d, D.Step(d, x, now), x.FreezeOk?)
  {
    if x.Work? {
      assert FreezeWork(d).fz.window == d.fz.window;
      assert CopyWork(d).fz == d.fz && LoopWork(d, now).fz == d.fz;
    }
  }

  lemma StepCountsWindow(s: Sys, a: Act, w: nat)
    requires Stores(s) && MainInv(s) && CanTake(s, a) && w < |s.devs| && |Take(s, a).devs| == |s.devs|
    ensures CountsWindow(s.devs[w], Take(s, a).devs[w], a == Device(w, FreezeOk))
  {
    if a.Device? && a.w == w { DeviceCountsWindow(s.devs[w], a.a, s.now); } else { StepSeenFrom(s, a, w); }
  }

  lemma {:induction false} WindowsAlong(ds: seq<Dev>, acts: seq<Act>, w: nat, k: nat)
    requires |ds| == |acts| + 1 && k < |ds| && ds[0].fz.window == 0
    requires forall p :: 0 <= p < |acts| ==> CountsWindow(ds[p], ds[p + 1], acts[p] == Device(w, FreezeOk))
    ensures ds[k].fz.window == Freezes(acts[..k], w)
    decreases k
  {
    if k > 0 {
      WindowsAlong(ds, acts, w, k - 1);
      assert CountsWindow(ds[k - 1], ds[k - 1 + 1], acts[k - 1] == Device(w, FreezeOk));
      assert acts[..k][..k - 1] == acts[..k - 1] && acts[..k][k - 1] == acts[k - 1];
    }
  }

  /** The window of a state is the number of freezes of its device so far, so that two states
      in one window have no freeze between them. */
  lemma WindowIsFreezes(states: seq<Sys>, acts: seq<Act>, w: nat, k: nat)
    requires IsRun(states, acts) && k < |states| && w < |states[0].devs|
    ensures w < |states[k].devs| && states[k].devs[w].fz.window == Freezes(acts[..k], w)
  {
    RunSteps(states, acts, w);
    assert InitDev(states[0].devs[w]);
    var ds := DevsOf(states, w);
    forall p | 0 <= p < |acts| ensures CountsWindow(ds[p], ds[p + 1], acts[p] == Device(w, FreezeOk)) {
      assert StepOf(states[p], acts[p], states[p + 1]);
      StepCountsWindow(states[p], acts[p], w);
    }
    WindowsAlong(ds, acts, w, k);
  }
}
