/** A whole backup: any number of devices, each with its worker and freeze thread, one
coordinator, and the thread that launches the workers, waits for them and reports. */
module BackupRun {
  import opened MachineIntegers
  import D = DeviceSync
  import opened DeviceSync
  import opened FreezeWindow
  import opened NoLostWrite
  import opened LoopInvariant
  import opened BackupOutcome
  import C = Coordinator

  datatype Main =
    | Preparing | Spawning(k: nat) | Waiting | Joining | Collecting | Judging(text: string) | Reported(outcome: Outcome)

  // refusals counts the resume calls answered with false.
  datatype Sys = Sys(devs: seq<Dev>, coord: C.Coord, refusals: nat, now: int, main: Main)

  datatype Act =
    | Tick(seconds: nat)
    | Device(w: nat, a: DevAction)
    | CheckCancelled(w: nat) | SignalFinished(w: nat) | WaitTrue(w: nat) | WaitTimeout(w: nat)
    | MoreWork(w: nat) | Raise(w: nat, e: C.BackupError)
    | CancelBackup
    | MainStep

  predicate Gone(pc: Pc) { pc.Broke? || pc.Returned? || pc.Died? }

  predicate WorkerAct(a: Act) {
    a.CheckCancelled? || a.SignalFinished? || a.WaitTrue? || a.WaitTimeout? || a.MoreWork? || a.Raise?
  }

  // ---- Steps ----

  predicate CanTalk(s: Sys, a: Act)
    requires WorkerAct(a)
  {
    a.w < |s.devs| &&
    var pc := s.devs[a.w].w.pc;
    match a
    case CheckCancelled(_) => pc.Top?
    case SignalFinished(_) => pc.Signal?
    case WaitTrue(_) => pc.Wait? && C.Finished(s.coord)
    case WaitTimeout(_) => pc.Wait? && !C.Finished(s.coord)
    case MoreWork(_) => pc.Resume?
    case Raise(_, _) => pc.Throw?
  }

  // The worker's next place and done flag after talking to the coordinator.
  function Talked(d: Dev, cancelled: bool, a: Act): Dev
    requires WorkerAct(a)
  {
    match a
    case CheckCancelled(_) => Move(d, if cancelled then Returned else ReadCount, d.w.wasDone)
    case SignalFinished(_) => Move(d, Wait, true)
    case WaitTrue(_) => Move(d, Broke, d.w.wasDone)
    case WaitTimeout(_) => Move(d, Top, d.w.wasDone)
    case MoreWork(_) => Move(d, Get, false)
    case Raise(_, _) => Move(d, Died(d.w.pc.Throw? && d.w.pc.copying), d.w.wasDone)
  }

  function TalkedCoord(c: C.Coord, a: Act): C.Coord
    requires WorkerAct(a)
  {
    match a
    case SignalFinished(_) => C.SignalFinished(c)
    case MoreWork(_) => C.SignalMoreWorkToDo(c)
    case Raise(_, e) => C.AddFatalError(c, e)
    case _ => c
  }

  function Refused(c: C.Coord, a: Act): nat { if a.MoreWork? && !C.Permits(c) then 1 else 0 }

  predicate CanMain(s: Sys) {
    match s.main
    case Preparing => forall w :: 0 <= w < |s.devs| ==> s.devs[w].w.pc.Ready?
    case Waiting => C.Finished(s.coord)
    case Joining => forall w :: 0 <= w < |s.devs| ==> Gone(s.devs[w].w.pc)
    case Reported(_) => false
    case _ => true
  }

  function DoMain(s: Sys): Sys {
    match s.main
    case Preparing => s.(main := Spawning(0))
    case Spawning(k) =>
      if k < |s.devs| then s.(main := Spawning(k + 1), devs := s.devs[k := Launch(s.devs[k])])
      else s.(main := Waiting)
    case Waiting => s.(main := Joining)
    case Joining => s.(main := Collecting)
    case Collecting => s.(main := Judging(ErrorText(s.coord.errors)))
    case Judging(text) => s.(main := Reported(Judge(text, s.coord.cancelled)))
    case Reported(_) => s
  }

  predicate Stores(s: Sys) { forall w :: 0 <= w < |s.devs| ==> s.devs[w].store.Valid() }

  predicate CanTake(s: Sys, a: Act) {
    match a
    case Tick(_) | CancelBackup => true
    case Device(w, x) => w < |s.devs| && D.Enabled(s.devs[w], x)
    case MainStep => CanMain(s)
    case _ => CanTalk(s, a)
  }

  ghost function Take(s: Sys, a: Act): Sys
    requires Stores(s) && CanTake(s, a)
  {
    match a
    case Tick(n) => s.(now := s.now + n)
    case CancelBackup => s.(coord := C.Cancel(s.coord))
    case Device(w, x) => s.(devs := s.devs[w := D.Step(s.devs[w], x, s.now)])
    case MainStep => DoMain(s)
    case _ =>
      s.(devs := s.devs[a.w := Talked(s.devs[a.w], s.coord.cancelled, a)], coord := TalkedCoord(s.coord, a),
         refusals := s.refusals + Refused(s.coord, a))
  }

  // ---- Initial states ----

  // A full backup starts with its store still to be cleared and owes nothing; an
  // incremental one starts with the sectors that are already synced or already owed.
  ghost predicate InitDev(d: Dev) {
    && Shape(d)
    && d.fz == Freeze(NoThread, false, false, false, d.fz.deviceFrozen, 0)
    && (d.w.pc.Clear? || d.w.pc.Ready?) && !d.w.wasDone && d.w.flushTime == 0
    && (d.w.pc.Clear? ==> d.tracked == {})
    && forall x :: x in d.tracked ==> x < |d.src| && (d.src[x] == d.dst[x] || Owed(d, x))
  }

  ghost predicate Init(s: Sys) {
    && 0 < |s.devs| < TWO_32 && s.now > 10 && s.refusals == 0 && s.main.Preparing?
    && s.coord == C.NewCoord(|s.devs|)
    && forall w :: 0 <= w < |s.devs| ==> InitDev(s.devs[w])
  }

  // ---- Invariants ----

  ghost predicate DevInv(d: Dev) {
    SyncInv(d) && FreezeInv(d) && AttemptInv(d.w) && ExactCopy(d) && LoopInv(d.w) && BlockInv(d)
  }

  function Dones(devs: seq<Dev>): seq<bool> { seq(|devs|, w requires 0 <= w < |devs| => devs[w].w.wasDone) }

  function Lefts(devs: seq<Dev>): seq<bool> { seq(|devs|, w requires 0 <= w < |devs| => devs[w].w.pc.Broke?) }

  // The coordinator protocol the workers take part in.
  function Proto(s: Sys): C.Protocol { C.Protocol(s.coord, Dones(s.devs), Lefts(s.devs), s.refusals) }

  function ProtoAct(a: Act): C.Action {
    match a
    case SignalFinished(w) => C.Finish(w)
    case MoreWork(w) => C.More(w)
    case WaitTrue(w) => C.Leave(w)
    case Raise(_, e) => C.Failed(e)
    case CancelBackup => C.Cancelled
    case _ => C.Idle
  }

  predicate MainInv(s: Sys) {
    && (s.main.Preparing? ==> forall w :: 0 <= w < |s.devs| ==> Building(s.devs[w].w.pc))
    && (s.main.Spawning? ==> s.main.k <= |s.devs| && forall w :: s.main.k <= w < |s.devs| ==> s.devs[w].w.pc.Ready?)
    && (s.main.Collecting? || s.main.Judging? || s.main.Reported? ==>
          forall w :: 0 <= w < |s.devs| ==> Gone(s.devs[w].w.pc))
    && forall w :: 0 <= w < |s.devs| && (s.devs[w].w.pc.Returned? || s.devs[w].w.pc.Died?) ==> s.coord.cancelled
  }

  ghost predicate AllDevInv(s: Sys)
    ensures AllDevInv(s) ==> Stores(s)
  {
    forall w :: 0 <= w < |s.devs| ==> DevInv(s.devs[w])
  }

  ghost predicate Inv(s: Sys) {
    && s.now > 10
    && AllDevInv(s)
    && MainInv(s)
    && C.Inv(Proto(s))
  }

  lemma InitDevInv(d: Dev)
    requires InitDev(d)
    ensures DevInv(d)
  {
  }

  lemma InitInv(s: Sys)
    requires Init(s)
    ensures Inv(s) && Proto(s) == C.Start(|s.devs|)
  {
    forall w | 0 <= w < |s.devs| ensures DevInv(s.devs[w]) { InitDevInv(s.devs[w]); }
    assert Proto(s) == C.Start(|s.devs|);
    C.StartInv(|s.devs|);
  }

  lemma DeviceKeepsDevInv(d: Dev, x: DevAction, now: int)
    requires DevInv(d) && D.Enabled(d, x) && now > 10
    ensures DevInv(D.Step(d, x, now))
  {
    StepKeepsSyncInv(d, x, now);
    StepKeepsFreezeInv(d, x, now);
    StepKeepsExact(d, x, now);
    StepKeepsLoopInv(d, x, now);
    StepKeepsBlockInv(d, x, now);
  }

  lemma TalkKeepsDevInv(s: Sys, a: Act)
    requires WorkerAct(a) && CanTalk(s, a) && DevInv(s.devs[a.w])
    ensures DevInv(Talked(s.devs[a.w], s.coord.cancelled, a))
  {
    var d := s.devs[a.w];
    var e := Talked(d, s.coord.cancelled, a);
    MoveKeepsSyncInv(d, e.w.pc, e.w.wasDone);
  }

  lemma LaunchKeepsDevInv(d: Dev)
    requires DevInv(d) && d.w.pc.Ready?
    ensures DevInv(Launch(d))
  {
  }

  // Local steps leave the done flag and the ways out alone.
  predicate SamePlace(d: Dev, e: Dev) {
    && e.w.wasDone == d.w.wasDone
    && (Gone(d.w.pc) || d.w.pc.Ready? || Gone(e.w.pc) ==> e.w.pc == d.w.pc)
    && (Building(d.w.pc) ==> Building(e.w.pc))
  }

  lemma FreezeKeepsPlace(d: Dev)
    requires CanWork(d)
    ensures SamePlace(d, FreezeWork(d))
  {
  }

  lemma CopyKeepsPlace(d: Dev)
    requires CanWork(d)
    ensures SamePlace(d, CopyWork(d))
  {
  }

  lemma LoopKeepsPlace(d: Dev, now: int)
    requires d.store.Valid() && CanWork(d)
    ensures SamePlace(d, LoopWork(d, now))
  {
  }

  lemma WorkKeepsPlace(d: Dev, now: int)
    requires d.store.Valid() && CanWork(d)
    ensures SamePlace(d, DoWork(d, now))
  {
    FreezeKeepsPlace(d);
    CopyKeepsPlace(d);
    LoopKeepsPlace(d, now);
  }

  lemma OtherKeepsPlace(d: Dev, x: DevAction, now: int)
    requires d.store.Valid() && D.Enabled(d, x) && !x.Work?
    ensures SamePlace(d, D.Step(d, x, now))
  {
    match x
    case Fail | ShortWrite(_) =>
    case ClearStore | ScanDevice(_) | SeedNext => BuildKeepsPlace(d, x);
    case _ =>
  }

  lemma BuildKeepsPlace(d: Dev, x: DevAction)
    requires d.store.Valid() && CanBuild(d, x)
    ensures SamePlace(d, DoBuild(d, x))
  {
  }

  lemma DeviceKeepsPlace(d: Dev, x: DevAction, now: int)
    requires d.store.Valid() && D.Enabled(d, x)
    ensures SamePlace(d, D.Step(d, x, now))
  {
    if x.Work? { WorkKeepsPlace(d, now); } else { OtherKeepsPlace(d, x, now); }
  }

  lemma ProtoUpdate(devs: seq<Dev>, w: nat, e: Dev)
    requires w < |devs|
    ensures Dones(devs[w := e]) == Dones(devs)[w := e.w.wasDone]
    ensures Lefts(devs[w := e]) == Lefts(devs)[w := e.w.pc.Broke?]
  {
  }

  lemma ProtoTalk(s: Sys, a: Act)
    requires Stores(s) && 0 < |s.devs| < TWO_32 && WorkerAct(a) && CanTake(s, a) && LoopInv(s.devs[a.w].w)
    ensures C.Enabled(Proto(s), ProtoAct(a)) && Proto(Take(s, a)) == C.Step(Proto(s), ProtoAct(a))
  {
    var d := s.devs[a.w];
    var e := Talked(d, s.coord.cancelled, a);
    ProtoUpdate(s.devs, a.w, e);
    assert !a.WaitTrue? ==> Lefts(s.devs)[a.w := e.w.pc.Broke?] == Lefts(s.devs);
    assert !a.SignalFinished? && !a.MoreWork? ==> Dones(s.devs)[a.w := e.w.wasDone] == Dones(s.devs);
  }

  lemma ProtoMain(s: Sys)
    requires Inv(s) && CanMain(s)
    ensures Proto(DoMain(s)) == Proto(s)
  {
    if s.main.Spawning? && s.main.k < |s.devs| {
      var k := s.main.k;
      assert LoopInv(s.devs[k].w);
      ProtoUpdate(s.devs, k, Launch(s.devs[k]));
      assert Dones(s.devs)[k := false] == Dones(s.devs) && Lefts(s.devs)[k := false] == Lefts(s.devs);
    }
  }

  /** Every step of a backup is a step of the coordinator protocol, or leaves it idle. */
  lemma ProtoStep(s: Sys, a: Act)
    requires Inv(s) && CanTake(s, a)
    ensures C.Enabled(Proto(s), ProtoAct(a)) && Proto(Take(s, a)) == C.Step(Proto(s), ProtoAct(a))
  {
    match a
    case Device(w, x) =>
      var e := D.Step(s.devs[w], x, s.now);
      DeviceKeepsPlace(s.devs[w], x, s.now);
      ProtoUpdate(s.devs, w, e);
      assert Dones(s.devs)[w := e.w.wasDone] == Dones(s.devs) && Lefts(s.devs)[w := e.w.pc.Broke?] == Lefts(s.devs);
    case MainStep => ProtoMain(s);
    case Tick(_) | CancelBackup =>
    case _ => ProtoTalk(s, a);
  }

  lemma MainKeepsDevs(s: Sys)
    requires AllDevInv(s) && MainInv(s) && CanMain(s)
    ensures |DoMain(s).devs| == |s.devs| && AllDevInv(DoMain(s))
  {
    if s.main.Spawning? && s.main.k < |s.devs| { LaunchKeepsDevInv(s.devs[s.main.k]); }
  }

  lemma OneKeepsDevs(s: Sys, w: nat, e: Dev, t: Sys)
    requires AllDevInv(s) && w < |s.devs| && DevInv(e) && t.devs == s.devs[w := e]
    ensures |t.devs| == |s.devs| && AllDevInv(t)
  {
  }

  lemma DeviceKeepsDevs(s: Sys, w: nat, x: DevAction)
    requires AllDevInv(s) && s.now > 10 && CanTake(s, Device(w, x))
    ensures |Take(s, Device(w, x)).devs| == |s.devs| && AllDevInv(Take(s, Device(w, x)))
  {
    DeviceKeepsDevInv(s.devs[w], x, s.now);
    OneKeepsDevs(s, w, D.Step(s.devs[w], x, s.now), Take(s, Device(w, x)));
  }

  lemma TalkKeepsDevs(s: Sys, a: Act)
    requires AllDevInv(s) && WorkerAct(a) && CanTake(s, a)
    ensures |Take(s, a).devs| == |s.devs| && AllDevInv(Take(s, a))
  {
    TalkKeepsDevInv(s, a);
    OneKeepsDevs(s, a.w, Talked(s.devs[a.w], s.coord.cancelled, a), Take(s, a));
  }

  lemma StepKeepsDevs(s: Sys, a: Act)
    requires AllDevInv(s) && MainInv(s) && s.now > 10 && CanTake(s, a)
    ensures |Take(s, a).devs| == |s.devs| && AllDevInv(Take(s, a))
  {
    match a
    case Device(w, x) => DeviceKeepsDevs(s, w, x);
    case MainStep => MainKeepsDevs(s);
    case Tick(_) | CancelBackup =>
    case _ => TalkKeepsDevs(s, a);
  }

  lemma ReplaceKeepsMainInv(s: Sys, w: nat, e: Dev, c: C.Coord, r: nat)
    requires MainInv(s) && w < |s.devs| && !Building(s.devs[w].w.pc) && !Gone(s.devs[w].w.pc)
    requires s.coord.cancelled ==> c.cancelled
    requires e.w.pc.Returned? || e.w.pc.Died? ==> c.cancelled
    ensures MainInv(s.(devs := s.devs[w := e], coord := c, refusals := r))
  {
  }

  lemma TalkKeepsMainInv(s: Sys, a: Act)
    requires MainInv(s) && WorkerAct(a) && Stores(s) && CanTake(s, a)
    ensures MainInv(Take(s, a))
  {
    var e := Talked(s.devs[a.w], s.coord.cancelled, a);
    var c := TalkedCoord(s.coord, a);
    ReplaceKeepsMainInv(s, a.w, e, c, s.refusals + Refused(s.coord, a));
  }

  lemma UpdateKeepsMainInv(s: Sys, w: nat, e: Dev)
    requires MainInv(s) && w < |s.devs| && SamePlace(s.devs[w], e)
    ensures MainInv(s.(devs := s.devs[w := e]))
  {
  }

  lemma MainKeepsMainInv(s: Sys)
    requires MainInv(s) && CanMain(s)
    ensures MainInv(DoMain(s))
  {
  }

  lemma StepKeepsMainInv(s: Sys, a: Act)
    requires MainInv(s) && Stores(s) && CanTake(s, a)
    ensures MainInv(Take(s, a))
  {
    match a
    case Device(w, x) =>
      DeviceKeepsPlace(s.devs[w], x, s.now);
      UpdateKeepsMainInv(s, w, D.Step(s.devs[w], x, s.now));
    case MainStep => MainKeepsMainInv(s);
    case Tick(_) | CancelBackup =>
    case _ => TalkKeepsMainInv(s, a);
  }

  lemma StepInv(s: Sys, a: Act)
    requires Inv(s) && CanTake(s, a)
    ensures Inv(Take(s, a))
  {
    StepKeepsDevs(s, a);
    StepKeepsMainInv(s, a);
    ProtoStep(s, a);
    C.StepInv(Proto(s), ProtoAct(a));
  }

  // ---- Runs ----

  ghost predicate IsRun(states: seq<Sys>, acts: seq<Act>) {
    && |states| == |acts| + 1 && Init(states[0])
    && (forall k :: 0 <= k < |states| ==> Stores(states[k]))
    && forall k :: 0 <= k < |acts| ==> CanTake(states[k], acts[k]) && states[k + 1] == Take(states[k], acts[k])
  }

  /** No write is lost, the freeze handshake holds and the counter is accounted for, in
      every state of every run. */
  lemma {:induction false} RunInv(states: seq<Sys>, acts: seq<Act>, k: nat)
    requires IsRun(states, acts) && k < |states|
    ensures Inv(states[k]) && |states[k].devs| == |states[0].devs|
    decreases k
  {
    if k == 0 {
      InitInv(states[0]);
    } else {
      RunInv(states, acts, k - 1);
      assert states[k - 1 + 1] == Take(states[k - 1], acts[k - 1]);
      StepKeepsDevs(states[k - 1], acts[k - 1]);
      StepInv(states[k - 1], acts[k - 1]);
    }
  }

  // ---- The history of one device ----

  function DevsOf(states: seq<Sys>, w: nat): (ds: seq<Dev>)
    requires forall k :: 0 <= k < |states| ==> w < |states[k].devs|
    ensures |ds| == |states| && forall k :: 0 <= k < |states| ==> ds[k] == states[k].devs[w]
  {
    seq(|states|, k requires 0 <= k < |states| => states[k].devs[w])
  }

  // t follows s by a, in a run.
  ghost predicate StepOf(s: Sys, a: Act, t: Sys) {
    Inv(s) && CanTake(s, a) && t == Take(s, a) && |t.devs| == |s.devs|
  }

  // What holds of every step holds along the history of a device.
  lemma RunSteps(states: seq<Sys>, acts: seq<Act>, w: nat)
    requires IsRun(states, acts) && w < |states[0].devs|
    ensures forall k :: 0 <= k < |states| ==> w < |states[k].devs|
    ensures forall p :: 0 <= p < |acts| ==> StepOf(states[p], acts[p], states[p + 1])
  {
    forall k | 0 <= k < |states| ensures w < |states[k].devs| { RunInv(states, acts, k); }
    forall p | 0 <= p < |acts| ensures StepOf(states[p], acts[p], states[p + 1]) {
      RunInv(states, acts, p);
      RunInv(states, acts, p + 1);
    }
  }

  function Protos(states: seq<Sys>): seq<C.Protocol> {
    seq(|states|, k requires 0 <= k < |states| => Proto(states[k]))
  }

  function ProtoActs(acts: seq<Act>): seq<C.Action> {
    seq(|acts|, k requires 0 <= k < |acts| => ProtoAct(acts[k]))
  }

  /** Seen from the coordinator, a run of the backup is a run of the protocol. */
  lemma RunRefinesProtocol(states: seq<Sys>, acts: seq<Act>)
    requires IsRun(states, acts)
    ensures C.IsRun(Protos(states), ProtoActs(acts))
  {
    InitInv(states[0]);
    forall k | 0 <= k < |states| ensures Proto(states[k]).Shaped() { RunInv(states, acts, k); }
    forall k | 0 <= k < |acts|
      ensures C.Enabled(Proto(states[k]), ProtoAct(acts[k]))
      ensures Proto(states[k + 1]) == C.Step(Proto(states[k]), ProtoAct(acts[k]))
    {
      RunInv(states, acts, k);
      ProtoStep(states[k], acts[k]);
    }
  }
}
