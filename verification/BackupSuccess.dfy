/** What a reported success means, over whole runs of a backup. */
module BackupSuccess {
  import opened IntervalMap
  import D = DeviceSync
  import opened DeviceSync
  import opened FreezeWindow
  import opened LoopInvariant
  import opened BackupOutcome
  import opened BackupRun
  import C = Coordinator

  // Every tracked sector agrees, except those whose trace is still on its way.
  ghost predicate SyncedUpToTraces(d: Dev) {
    forall s :: s in d.tracked ==> s < |d.src| && s < |d.dst| && (d.src[s] == d.dst[s] || Covered(d.pending, s))
  }

  predicate WorkBy(a: Act, w: nat) { a == Device(w, Work) }

  // Step j is worker w's read of a zero count; step e accepts it, the worker having done
  // nothing in between: the device has been frozen, in one window, in every state from j
  // to e, and nothing on it changed.
  ghost predicate ZeroRead(states: seq<Sys>, acts: seq<Act>, w: nat, j: nat, e: nat)
    requires |states| == |acts| + 1
  {
    && j < e < |acts| && (forall k :: j <= k <= e ==> w < |states[k].devs|)
    && WorkBy(acts[j], w) && states[j].devs[w].w.pc.CountRead?
    && Count(states[j].devs[w].store.unsynced) == 0
    && WorkBy(acts[e], w) && states[e].devs[w].w.pc == End(CountTask) && states[e].devs[w].fz.isFrozen
    && (forall k :: j < k <= e ==> states[k].devs[w].w.pc == End(CountTask))
    && forall k :: j <= k <= e ==> SameFrozen(states[j].devs[w], states[k].devs[w])
  }

  // From the acceptance at step e up to state k worker w has looked at no other count, and
  // the destination is the one of the read at j.
  predicate StandsPast(states: seq<Sys>, w: nat, j: nat, e: nat, k: nat)
    requires j < |states| && k < |states| && w < |states[j].devs|
  {
    forall i :: e < i <= k ==>
      w < |states[i].devs| && SeenZero(states[i].devs[w].w) && states[i].devs[w].dst == states[j].devs[w].dst
  }

  predicate SameFrozen(d: Dev, e: Dev) {
    && d.fz.deviceFrozen && e.fz.deviceFrozen && e.fz.window == d.fz.window
    && e.src == d.src && e.dst == d.dst
  }

  // ---- One step back ----

  lemma FreezeIntoZero(d: Dev)
    requires CanWork(d)
    ensures FreezeWork(d).dst == d.dst && FreezeWork(d).w.count == d.w.count
    ensures SeenZero(FreezeWork(d).w) ==> SeenZero(d.w) || (d.w.pc == End(CountTask) && d.fz.isFrozen)
  {
  }

  lemma CopyIntoZero(d: Dev)
    requires CanWork(d)
    ensures SeenZero(CopyWork(d).w) ==> CopyWork(d) == d
  {
  }

  lemma LoopIntoZero(d: Dev, now: int)
    requires d.store.Valid() && CanWork(d)
    ensures LoopWork(d, now).dst == d.dst
    ensures SeenZero(LoopWork(d, now).w) && LoopWork(d, now).w.count == 0 ==> SeenZero(d.w) && d.w.count == 0
  {
  }

  lemma WorkIntoZero(d: Dev, now: int)
    requires d.store.Valid() && CanWork(d) && SeenZero(DoWork(d, now).w) && DoWork(d, now).w.count == 0
    ensures DoWork(d, now).dst == d.dst && d.w.count == 0
    ensures SeenZero(d.w) || (d.w.pc == End(CountTask) && d.fz.isFrozen)
  {
    FreezeIntoZero(d);
    CopyIntoZero(d);
    LoopIntoZero(d, now);
  }

  lemma TalkIntoZero(s: Sys, a: Act)
    requires WorkerAct(a) && CanTalk(s, a)
    requires SeenZero(Talked(s.devs[a.w], s.coord.cancelled, a).w)
    ensures SeenZero(s.devs[a.w].w)
  {
  }

  lemma DeviceIntoZero(d: Dev, x: DevAction, now: int)
    requires d.store.Valid() && D.Enabled(d, x)
    requires SeenZero(D.Step(d, x, now).w) && D.Step(d, x, now).w.count == 0
    ensures D.Step(d, x, now).dst == d.dst
    ensures SeenZero(d.w) || (x.Work? && d.w.pc == End(CountTask) && d.fz.isFrozen && d.w.count == 0)
  {
    if x.Work? { WorkIntoZero(d, now); } else { OtherIntoZero(d, x, now); }
  }

  // A worker that has seen zero got there from the accepted read, or had seen it before.
  lemma BackFromZero(s: Sys, a: Act, w: nat)
    requires Stores(s) && CanTake(s, a) && w < |s.devs| && DevInv(s.devs[w])
    requires |Take(s, a).devs| == |s.devs| && SeenZero(Take(s, a).devs[w].w) && Take(s, a).devs[w].w.count == 0
    ensures Take(s, a).devs[w].dst == s.devs[w].dst
    ensures SeenZero(s.devs[w].w) ||
            (WorkBy(a, w) && s.devs[w].w.pc == End(CountTask) && s.devs[w].fz.isFrozen && s.devs[w].w.count == 0)
  {
    if a.Device? {
      if a.w == w { DeviceIntoZero(s.devs[w], a.a, s.now); }
    } else if WorkerAct(a) {
      if a.w == w { TalkIntoZero(s, a); }
    }
  }

  lemma OtherIntoZero(d: Dev, x: DevAction, now: int)
    requires d.store.Valid() && D.Enabled(d, x) && !x.Work?
    requires SeenZero(D.Step(d, x, now).w)
    ensures D.Step(d, x, now).w == d.w && D.Step(d, x, now).dst == d.dst
  {
  }

  // Inside the freeze block for the count, a device still frozen after a step was frozen
  // before it, in the same window, and the step left its contents alone.
  lemma BackInsideCount(d: Dev, x: DevAction, now: int)
    requires d.store.Valid() && D.Enabled(d, x) && FreezeInv(d)
    requires D.Step(d, x, now).w.pc == End(CountTask) && ThawNotBegun(D.Step(d, x, now).fz)
    ensures d.w.pc == End(CountTask) || (d.w.pc.CountRead? && x.Work?)
    ensures ThawNotBegun(d.fz) && SameFrozen(d, D.Step(d, x, now))
    ensures D.Step(d, x, now).w.count == if d.w.pc.CountRead? then Count(d.store.unsynced) else d.w.count
  {
    if x.Work? {
      assert d.w.pc.CountRead? by { WorkIntoEnd(d, now); }
    } else {
      EndUnchanged(d, x, now);
    }
    InsideIsOneWindow(d, x, now);
  }

  lemma WorkIntoEnd(d: Dev, now: int)
    requires d.store.Valid() && CanWork(d) && DoWork(d, now).w.pc == End(CountTask)
    ensures d.w.pc.CountRead?
  {
  }

  lemma EndUnchanged(d: Dev, x: DevAction, now: int)
    requires d.store.Valid() && D.Enabled(d, x) && !x.Work? && D.Step(d, x, now).w.pc == End(CountTask)
    ensures D.Step(d, x, now).w == d.w
  {
  }

  lemma BackOutside(s: Sys, a: Act, w: nat)
    requires Inv(s) && CanTake(s, a) && w < |s.devs|
    requires |Take(s, a).devs| == |s.devs| && Take(s, a).devs[w].w.pc == End(CountTask)
    requires !(a.Device? && a.w == w)
    ensures Take(s, a).devs[w] == s.devs[w]
  {
  }

  // How a device in state e, with its worker at the end of a count or past a zero, can have
  // been one step before; work says whether the step was the worker's own.
  predicate EndBack(d: Dev, e: Dev, work: bool) {
    e.w.pc == End(CountTask) && ThawNotBegun(e.fz) ==>
      && ThawNotBegun(d.fz) && SameFrozen(d, e)
      && (d.w.pc == End(CountTask) || (d.w.pc.CountRead? && work))
      && e.w.count == if d.w.pc.CountRead? then Count(d.store.unsynced) else d.w.count
  }

  predicate ZeroBack(d: Dev, e: Dev, work: bool) {
    SeenZero(e.w) ==>
      e.dst == d.dst && (SeenZero(d.w) || (work && d.w.pc == End(CountTask) && d.fz.isFrozen && d.w.count == 0))
  }

  lemma StepBack(s: Sys, a: Act, w: nat)
    requires Inv(s) && CanTake(s, a) && w < |s.devs| && |Take(s, a).devs| == |s.devs|
    ensures EndBack(s.devs[w], Take(s, a).devs[w], WorkBy(a, w))
    ensures ZeroBack(s.devs[w], Take(s, a).devs[w], WorkBy(a, w))
  {
    var e := Take(s, a).devs[w];
    assert DevInv(s.devs[w]);
    assert DevInv(e) by { StepKeepsDevs(s, a); }
    if e.w.pc == End(CountTask) && ThawNotBegun(e.fz) {
      if a.Device? && a.w == w { BackInsideCount(s.devs[w], a.a, s.now); } else { BackOutside(s, a, w); }
    }
    if SeenZero(e.w) { BackFromZero(s, a, w); }
  }

  // ---- The whole way back, along the history of one device ----

  datatype History = History(devs: seq<Dev>, works: seq<bool>) {
    predicate Valid() {
      && |devs| == |works| + 1
      && !devs[0].w.pc.End? && !SeenZero(devs[0].w)
      && (forall p :: 0 <= p < |works| ==> EndBack(devs[p], devs[p + 1], works[p]))
      && (forall p :: 0 <= p < |works| ==> ZeroBack(devs[p], devs[p + 1], works[p]))
      && (forall p :: 0 <= p < |devs| ==> (devs[p].fz.isFrozen <==> devs[p].fz.pc.Sleeping?))
    }
  }

  function HistoryOf(states: seq<Sys>, acts: seq<Act>, w: nat): (h: History)
    requires forall k :: 0 <= k < |states| ==> w < |states[k].devs|
    ensures |h.devs| == |states| && |h.works| == |acts|
    ensures forall k :: 0 <= k < |states| ==> h.devs[k] == states[k].devs[w]
    ensures forall k :: 0 <= k < |acts| ==> h.works[k] == WorkBy(acts[k], w)
  {
    History(DevsOf(states, w), seq(|acts|, k requires 0 <= k < |acts| => WorkBy(acts[k], w)))
  }

  lemma HistoryIsValid(states: seq<Sys>, acts: seq<Act>, w: nat)
    requires IsRun(states, acts) && w < |states[0].devs|
    ensures forall k :: 0 <= k < |states| ==> w < |states[k].devs|
    ensures HistoryOf(states, acts, w).Valid()
  {
    RunSteps(states, acts, w);
    forall k | 0 <= k < |states| ensures states[k].devs[w].fz.isFrozen <==> states[k].devs[w].fz.pc.Sleeping? {
      RunInv(states, acts, k);
      assert DevInv(states[k].devs[w]);
    }
    var h := HistoryOf(states, acts, w);
    forall p | 0 <= p < |acts|
      ensures EndBack(h.devs[p], h.devs[p + 1], h.works[p]) && ZeroBack(h.devs[p], h.devs[p + 1], h.works[p])
    {
      assert StepOf(states[p], acts[p], states[p + 1]);
      StepBack(states[p], acts[p], w);
    }
    assert InitDev(states[0].devs[w]);
  }

  lemma {:induction false} FindRead(h: History, e: nat) returns (j: nat)
    requires h.Valid() && e < |h.devs| && h.devs[e].w.pc == End(CountTask) && ThawNotBegun(h.devs[e].fz)
    ensures j < e && h.works[j] && h.devs[j].w.pc.CountRead?
    ensures h.devs[e].w.count == Count(h.devs[j].store.unsynced)
    ensures forall k :: j < k <= e ==> h.devs[k].w.pc == End(CountTask)
    ensures forall k :: j <= k <= e ==> SameFrozen(h.devs[k], h.devs[e])
    decreases e
  {
    if e == 0 {
      assert false;
    } else {
      var p := e - 1;
      assert EndBack(h.devs[p], h.devs[p + 1], h.works[p]);
      if h.devs[p].w.pc.CountRead? {
        j := p;
      } else {
        j := FindRead(h, p);
      }
    }
  }

  lemma {:induction false} FindAccepted(h: History, k: nat) returns (j: nat, e: nat)
    requires h.Valid() && k < |h.devs| && SeenZero(h.devs[k].w)
    ensures j < e < k && h.works[j] && h.devs[j].w.pc.CountRead? && Count(h.devs[j].store.unsynced) == 0
    ensures h.works[e] && h.devs[e].w.pc == End(CountTask) && h.devs[e].fz.isFrozen
    ensures forall i :: j < i <= e ==> h.devs[i].w.pc == End(CountTask)
    ensures forall i :: j <= i <= e ==> SameFrozen(h.devs[i], h.devs[e])
    ensures forall i :: e < i <= k ==> SeenZero(h.devs[i].w) && h.devs[i].dst == h.devs[e].dst
    decreases k
  {
    if k == 0 {
      assert false;
    } else {
      var p := k - 1;
      assert ZeroBack(h.devs[p], h.devs[p + 1], h.works[p]);
      if SeenZero(h.devs[p].w) {
        j, e := FindAccepted(h, p);
      } else {
        e := p;
        j := FindRead(h, e);
      }
    }
  }

  /** A worker that has seen zero, at state k, owes it to a zero count read and accepted in
      one freeze window; since the acceptance it has stood past it and copied nothing. */
  lemma FindZeroRead(states: seq<Sys>, acts: seq<Act>, w: nat, k: nat) returns (j: nat, e: nat)
    requires IsRun(states, acts) && k < |states| && w < |states[0].devs|
    requires |states[k].devs| == |states[0].devs| && SeenZero(states[k].devs[w].w)
    ensures e < k && ZeroRead(states, acts, w, j, e) && StandsPast(states, w, j, e, k)
  {
    HistoryIsValid(states, acts, w);
    var h := HistoryOf(states, acts, w);
    j, e := FindAccepted(h, k);
    assert SameFrozen(h.devs[j], h.devs[e]);
    forall i | j < i <= e ensures states[i].devs[w].w.pc == End(CountTask) {
      assert h.devs[i].w.pc == End(CountTask);
    }
    forall i | j <= i <= e ensures SameFrozen(states[j].devs[w], states[i].devs[w]) {
      assert SameFrozen(h.devs[i], h.devs[e]);
    }
    forall i | e < i <= k ensures SeenZero(states[i].devs[w].w) && states[i].devs[w].dst == states[j].devs[w].dst {
      assert SeenZero(h.devs[i].w) && h.devs[i].dst == h.devs[e].dst;
    }
  }

  lemma EmptyStoreOwesOnlyTraces(d: Dev)
    requires DevInv(d) && d.w.pc.CountRead? && Count(d.store.unsynced) == 0
    ensures SyncedUpToTraces(d)
  {
  }

  // The step in which DoBackup reports success.
  predicate ReportsSuccess(states: seq<Sys>, acts: seq<Act>, k: nat)
    requires |states| == |acts| + 1
  {
    k < |acts| && acts[k].MainStep? && states[k].main.Judging? && states[k + 1].main == Reported(Succeeded)
  }

  lemma SuccessMeansAllLeft(states: seq<Sys>, acts: seq<Act>, k: nat)
    requires IsRun(states, acts) && ReportsSuccess(states, acts, k)
    ensures !states[k].coord.cancelled
    ensures C.All(Lefts(states[k].devs))
  {
    RunInv(states, acts, k);
    assert states[k + 1] == Take(states[k], acts[k]);
    var s := states[k];
    forall w | 0 <= w < |s.devs| ensures s.devs[w].w.pc.Broke? { assert Gone(s.devs[w].w.pc); }
  }

  /** Success means finished together: nothing was ever cancelled or failed, no worker was
      ever refused, the counter never wrapped, and from a moment m on, when the count first
      became zero, every worker was done at once and stayed so. */
  lemma SuccessMeansFinishedTogether(states: seq<Sys>, acts: seq<Act>, k: nat) returns (m: nat)
    requires IsRun(states, acts) && ReportsSuccess(states, acts, k)
    ensures 0 < m <= k && acts[m - 1].SignalFinished?
    ensures forall j :: 0 <= j <= k ==>
              && !states[j].coord.cancelled && states[j].coord.errors == [] && states[j].refusals == 0
              && states[j].coord.count == C.NotDone(Dones(states[j].devs))
    ensures states[m].coord.count == 0 && forall j :: 0 <= j < m ==> states[j].coord.count > 0
    ensures forall j, w :: m <= j <= k && 0 <= w < |states[j].devs| ==> states[j].devs[w].w.wasDone
  {
    SuccessMeansAllLeft(states, acts, k);
    RunRefinesProtocol(states, acts);
    var ps, qs := Protos(states), ProtoActs(acts);
    assert ps[k] == Proto(states[k]);
    m := C.AllLeftMeansFinishedTogether(ps, qs, k);
    assert qs[m - 1] == ProtoAct(acts[m - 1]);
    forall j | 0 <= j <= k
      ensures !states[j].coord.cancelled && states[j].coord.errors == [] && states[j].refusals == 0
      ensures states[j].coord.count == C.NotDone(Dones(states[j].devs))
    {
      C.RunMonotone(ps, qs, j, k);
      C.RunInv(ps, qs, j);
      assert ps[j] == Proto(states[j]);
    }
    assert ps[m] == Proto(states[m]);
    forall j | 0 <= j < m ensures states[j].coord.count > 0 { assert ps[j] == Proto(states[j]); }
    forall j, w | m <= j <= k && 0 <= w < |states[j].devs| ensures states[j].devs[w].w.wasDone {
      assert ps[j] == Proto(states[j]) && C.All(ps[j].done);
      assert ps[j].done[w];
    }
  }

  /** Success means synced: every worker left its loop after a zero count that was read and
      accepted inside one freeze window of its device, and looked at no count after it.  At
      that read its tracked sectors matched the destination, except those with undelivered
      traces, and the destination has stayed that of the read up to the report. */
  lemma SuccessMeansSynced(states: seq<Sys>, acts: seq<Act>, k: nat, w: nat) returns (j: nat, e: nat)
    requires IsRun(states, acts) && ReportsSuccess(states, acts, k) && w < |states[k].devs|
    ensures e < k && ZeroRead(states, acts, w, j, e) && StandsPast(states, w, j, e, k)
    ensures SyncedUpToTraces(states[j].devs[w])
    ensures states[k].devs[w].w.pc.Broke?
  {
    RunInv(states, acts, k);
    SuccessMeansAllLeft(states, acts, k);
    assert Lefts(states[k].devs)[w];
    j, e := FindZeroRead(states, acts, w, k);
    RunInv(states, acts, j);
    EmptyStoreOwesOnlyTraces(states[j].devs[w]);
  }

  /** Every finish signal, the first of a worker or a later one, in a successful backup or
      not, is owed to a zero count read and accepted in one freeze window, at which the
      device was synced up to undelivered traces; between the acceptance and the signal the
      worker read no other count and the destination did not change. */
  lemma FinishSignalMeansSynced(states: seq<Sys>, acts: seq<Act>, k: nat) returns (j: nat, e: nat)
    requires IsRun(states, acts) && k < |acts| && acts[k].SignalFinished?
    ensures e < k && ZeroRead(states, acts, acts[k].w, j, e) && StandsPast(states, acts[k].w, j, e, k)
    ensures SyncedUpToTraces(states[j].devs[acts[k].w])
  {
    var w := acts[k].w;
    RunInv(states, acts, k);
    assert CanTake(states[k], acts[k]);
    j, e := FindZeroRead(states, acts, w, k);
    RunInv(states, acts, j);
    EmptyStoreOwesOnlyTraces(states[j].devs[w]);
  }

  // ---- One moment for all devices ----

  predicate SignalBy(a: Act, w: nat) { a == SignalFinished(w) }

  // A done flag that is up was up before, or has just been raised by a finish signal; and
  // while it is up the destination does not change.
  predicate DoneBack(d: Dev, e: Dev, signal: bool) {
    e.w.wasDone ==> (d.w.wasDone || signal) && e.dst == d.dst
  }

  lemma DeviceDoneBack(d: Dev, x: DevAction, now: int)
    requires DevInv(d) && D.Enabled(d, x)
    ensures DoneBack(d, D.Step(d, x, now), false)
  {
    DeviceKeepsPlace(d, x, now);
    if d.w.wasDone && |d.dst| > 0 {
      forall s | 0 <= s < |d.dst| ensures |D.Step(d, x, now).dst| == |d.dst| && D.Step(d, x, now).dst[s] == d.dst[s] {
        DestinationFrame(d, x, now, s);
      }
      DestinationFrame(d, x, now, 0);
      assert D.Step(d, x, now).dst == d.dst;
    }
  }

  lemma StepDoneBack(s: Sys, a: Act, w: nat)
    requires Stores(s) && CanTake(s, a) && w < |s.devs| && DevInv(s.devs[w]) && |Take(s, a).devs| == |s.devs|
    ensures DoneBack(s.devs[w], Take(s, a).devs[w], SignalBy(a, w))
  {
    if a.Device? && a.w == w { DeviceDoneBack(s.devs[w], a.a, s.now); }
  }

  lemma DevsDoneBack(states: seq<Sys>, acts: seq<Act>, w: nat)
    requires IsRun(states, acts) && w < |states[0].devs|
    ensures forall k :: 0 <= k < |states| ==> w < |states[k].devs|
    ensures forall p :: 0 <= p < |acts| ==> DoneBack(states[p].devs[w], states[p + 1].devs[w], SignalBy(acts[p], w))
  {
    RunSteps(states, acts, w);
    forall p | 0 <= p < |acts| ensures DoneBack(states[p].devs[w], states[p + 1].devs[w], SignalBy(acts[p], w)) {
      assert StepOf(states[p], acts[p], states[p + 1]);
      assert DevInv(states[p].devs[w]);
      StepDoneBack(states[p], acts[p], w);
    }
  }

  // The signal that raised a done flag, with nothing copied since.
  lemma {:induction false} FindSignal(ds: seq<Dev>, signals: seq<bool>, k: nat) returns (n: nat)
    requires |ds| == |signals| + 1 && k < |ds| && !ds[0].w.wasDone && ds[k].w.wasDone
    requires forall p :: 0 <= p < |signals| ==> DoneBack(ds[p], ds[p + 1], signals[p])
    ensures n < k && signals[n]
    ensures forall i :: n <= i <= k ==> ds[i].dst == ds[k].dst
    decreases k
  {
    if k == 0 {
      assert false;
    } else {
      assert DoneBack(ds[k - 1], ds[k - 1 + 1], signals[k - 1]);
      if ds[k - 1].w.wasDone {
        n := FindSignal(ds, signals, k - 1);
      } else {
        n := k - 1;
      }
    }
  }

  lemma {:induction false} DoneMeansUnchanged(ds: seq<Dev>, signals: seq<bool>, m: nat, k: nat)
    requires |ds| == |signals| + 1 && m <= k < |ds|
    requires forall p :: 0 <= p < |signals| ==> DoneBack(ds[p], ds[p + 1], signals[p])
    requires forall i :: m <= i <= k ==> ds[i].w.wasDone
    ensures forall i :: m <= i <= k ==> ds[i].dst == ds[m].dst
    decreases k
  {
    if m < k {
      DoneMeansUnchanged(ds, signals, m, k - 1);
      assert DoneBack(ds[k - 1], ds[k - 1 + 1], signals[k - 1]);
    }
  }

  // Device w was synced at an accepted zero read before m, and its destination is that of
  // the read in every state from it to k.
  ghost predicate SyncedBefore(states: seq<Sys>, acts: seq<Act>, w: nat, m: nat, k: nat)
    requires |states| == |acts| + 1 && k < |states|
  {
    exists j: nat, e: nat ::
      && e < m && ZeroRead(states, acts, w, j, e) && SyncedUpToTraces(states[j].devs[w])
      && forall i :: j <= i <= k ==> w < |states[i].devs| && states[i].devs[w].dst == states[j].devs[w].dst
  }

  // The signal that raised the done flag of device w, with nothing copied from it to k.
  lemma SignalBehindDone(states: seq<Sys>, acts: seq<Act>, w: nat, m: nat, k: nat) returns (n: nat)
    requires IsRun(states, acts) && m <= k < |states| && w < |states[0].devs|
    requires forall i :: m <= i <= k ==> w < |states[i].devs| && states[i].devs[w].w.wasDone
    ensures n < m && acts[n] == SignalFinished(w) && w < |states[n].devs|
    ensures forall i :: n <= i <= k ==> w < |states[i].devs| && states[i].devs[w].dst == states[n].devs[w].dst
  {
    DevsDoneBack(states, acts, w);
    assert InitDev(states[0].devs[w]);
    var ds := DevsOf(states, w);
    var signals := seq(|acts|, p requires 0 <= p < |acts| => SignalBy(acts[p], w));
    n := FindSignal(ds, signals, m);
    assert SignalBy(acts[n], w);
    DoneMeansUnchanged(ds, signals, m, k);
    forall i | n <= i <= k ensures states[i].devs[w].dst == states[n].devs[w].dst {
      assert ds[i] == states[i].devs[w] && ds[n] == states[n].devs[w];
    }
  }

  lemma DoneMeansSyncedBefore(states: seq<Sys>, acts: seq<Act>, w: nat, m: nat, k: nat)
    requires IsRun(states, acts) && m <= k < |states| && w < |states[0].devs|
    requires forall i :: m <= i <= k ==> w < |states[i].devs| && states[i].devs[w].w.wasDone
    ensures SyncedBefore(states, acts, w, m, k)
  {
    var n := SignalBehindDone(states, acts, w, m, k);
    var j, e := FinishSignalMeansSynced(states, acts, n);
    forall i | j <= i <= k ensures w < |states[i].devs| && states[i].devs[w].dst == states[j].devs[w].dst {
      if i <= e { assert SameFrozen(states[j].devs[w], states[i].devs[w]); }
    }
  }

  /** Success means synced together: there is one moment m, the first at which the count is
      zero, such that every device was synced, up to undelivered traces, at a zero read
      accepted before m, was still marked done from m on, and from its read to the report
      had the same destination. */
  lemma SuccessMeansSyncedTogether(states: seq<Sys>, acts: seq<Act>, k: nat) returns (m: nat)
    requires IsRun(states, acts) && ReportsSuccess(states, acts, k)
    ensures 0 < m <= k && states[m].coord.count == 0 && forall j :: 0 <= j < m ==> states[j].coord.count > 0
    ensures forall j, w :: m <= j <= k && 0 <= w < |states[j].devs| ==> states[j].devs[w].w.wasDone
    ensures forall w :: 0 <= w < |states[k].devs| ==> SyncedBefore(states, acts, w, m, k)
  {
    m := SuccessMeansFinishedTogether(states, acts, k);
    RunInv(states, acts, k);
    forall w | 0 <= w < |states[k].devs| ensures SyncedBefore(states, acts, w, m, k) {
      forall i | m <= i <= k ensures w < |states[i].devs| { RunInv(states, acts, i); }
      DoneMeansSyncedBefore(states, acts, w, m, k);
    }
  }
}
