/** What the worker decides in its loop, and on what grounds, in every run. */
module LoopDecisions {
  import opened MachineIntegers
  import opened IntervalMap
  import opened SectorStore
  import D = DeviceSync
  import opened DeviceSync
  import opened NoLostWrite
  import opened LoopInvariant
  import opened BackupRun
  import opened BackupHistory
  import C = Coordinator

  // The worker holds a count it has not acted on.
  predicate CountInHand(pc: Pc) { pc == End(CountTask) || pc.Decide? || pc.Resume? || pc.Get? }

  // A worker that goes for work has counted some, there still is some, and it gets some.
  predicate FoundWork(d: Dev) {
    && (d.w.pc.Resume? || d.w.pc.Get? ==> d.w.count > 0)
    && (CountInHand(d.w.pc) && d.w.count > 0 ==> d.store.unsynced != [])
    && (d.w.pc.Remove? || Copying(d.w.pc) ==> d.w.interval.lower < d.w.interval.upper)
    && (d.w.pc.Opening? ==> d.w.flushTime == 0 && d.w.sent == 0 && !d.w.wasDone)
  }

  lemma AddKeepsSome(m: SectorMap, i: Interval, t: int)
    requires Canonical(m) && m != []
    ensures Add(m, i, t) != []
  {
    AtIndex(m, 0);
    assert m[0].Contains(m[0].lo);
    AddAt(m, i, t, m[0].lo);
  }

  lemma FreezeWorkFinds(d: Dev)
    requires CanWork(d) && FoundWork(d)
    ensures FoundWork(FreezeWork(d))
  {
  }

  lemma CopyWorkFinds(d: Dev)
    requires CanWork(d) && FoundWork(d)
    ensures FoundWork(CopyWork(d))
  {
  }

  lemma LoopWorkFinds(d: Dev, now: int)
    requires d.store.Valid() && CanWork(d) && LoopInv(d.w) && FoundWork(d)
    ensures FoundWork(LoopWork(d, now))
  {
    match d.w.pc
    case Get => GetFinds(d, now);
    case ReadCount | CountRead =>
    case Decide =>
    case _ =>
  }

  lemma GetFinds(d: Dev, now: int)
    requires d.store.Valid() && d.w.pc.Get? && FoundWork(d)
    ensures FoundWork(LoopWork(d, now))
  {
    AtIndex(d.store.unsynced, Pick(d.store.unsynced, d.store.cursor));
  }

  lemma DeviceFinds(d: Dev, x: DevAction, now: int)
    requires d.store.Valid() && D.Enabled(d, x) && LoopInv(d.w) && FoundWork(d)
    ensures FoundWork(D.Step(d, x, now))
  {
    match x
    case Work =>
      FreezeWorkFinds(d);
      CopyWorkFinds(d);
      LoopWorkFinds(d, now);
    case Deliver(tr) => if d.store.unsynced != [] { AddKeepsSome(d.store.unsynced, TracedInterval(tr), now); }
    case Write(_, _) | OtherTrace(_) =>
    case ClearStore | ScanDevice(_) | SeedNext =>
    case Fail | ShortWrite(_) =>
    case _ =>
  }

  lemma TalkFinds(s: Sys, a: Act)
    requires WorkerAct(a) && CanTalk(s, a) && FoundWork(s.devs[a.w])
    ensures FoundWork(Talked(s.devs[a.w], s.coord.cancelled, a))
  {
  }

  lemma StepFinds(s: Sys, a: Act, w: nat)
    requires Stores(s) && MainInv(s) && CanTake(s, a) && w < |s.devs| && |Take(s, a).devs| == |s.devs|
    requires LoopInv(s.devs[w].w) && FoundWork(s.devs[w])
    ensures FoundWork(Take(s, a).devs[w])
  {
    match a
    case Device(v, x) => if v == w { DeviceFinds(s.devs[w], x, s.now); }
    case MainStep => MainSeenFrom(s, w);
    case Tick(_) | CancelBackup =>
    case _ => if a.w == w { TalkFinds(s, a); }
  }

  lemma {:induction false} RunFinds(states: seq<Sys>, acts: seq<Act>, w: nat, k: nat)
    requires IsRun(states, acts) && k < |states| && w < |states[0].devs|
    ensures w < |states[k].devs| && FoundWork(states[k].devs[w]) && DevInv(states[k].devs[w])
    decreases k
  {
    RunInv(states, acts, k);
    assert DevInv(states[k].devs[w]);
    if k == 0 {
      assert InitDev(states[0].devs[w]);
    } else {
      RunFinds(states, acts, w, k - 1);
      RunSteps(states, acts, w);
      assert StepOf(states[k - 1], acts[k - 1], states[k - 1 + 1]);
      StepFinds(states[k - 1], acts[k - 1], w);
    }
  }

  /** A worker resumes, and looks for an interval, only with a positive count in hand and a
      store that is not empty; and the interval it gets is not empty. */
  lemma WorkIsFound(states: seq<Sys>, acts: seq<Act>, w: nat, k: nat)
    requires IsRun(states, acts) && k < |states| && w < |states[0].devs|
    ensures w < |states[k].devs|
    ensures var d := states[k].devs[w];
            && (d.w.pc.Resume? || d.w.pc.Get? ==> d.w.count > 0 && Dom(d.store.unsynced) != {})
            && (d.w.pc.Remove? ==> d.w.interval.Sectors() != {} && d.w.interval.Sectors() <= Dom(d.store.unsynced))
    ensures k < |acts| && acts[k] == MoreWork(w) ==> states[k].devs[w].w.count > 0 && states[k].devs[w].w.wasDone
  {
    RunFinds(states, acts, w, k);
    var d := states[k].devs[w];
    if d.store.unsynced != [] {
      AtIndex(d.store.unsynced, 0);
      assert d.store.unsynced[0].Contains(d.store.unsynced[0].lo);
      DomIsAt(d.store.unsynced, d.store.unsynced[0].lo);
    }
    if d.w.pc.Remove? { assert d.w.interval.lower in d.w.interval.Sectors(); }
    if k < |acts| { assert CanTake(states[k], acts[k]); }
  }

  /** A worker starts with nothing sent, no flush time and not done. */
  lemma StartsAfresh(states: seq<Sys>, acts: seq<Act>, w: nat, k: nat)
    requires IsRun(states, acts) && k < |states| && w < |states[0].devs|
    requires w < |states[k].devs| && states[k].devs[w].w.pc.Opening?
    ensures states[k].devs[w].w.flushTime == 0 && states[k].devs[w].w.sent == 0 && !states[k].devs[w].w.wasDone
  {
    RunFinds(states, acts, w, k);
  }

  // Worker w takes its next local step at k.
  predicate WorksAt(states: seq<Sys>, acts: seq<Act>, w: nat, k: nat) {
    k < |acts| < |states| && acts[k] == Device(w, Work) && w < |states[k].devs| && w < |states[k + 1].devs|
  }

  lemma WorkTaken(states: seq<Sys>, acts: seq<Act>, w: nat, k: nat)
    requires IsRun(states, acts) && WorksAt(states, acts, w, k)
    ensures w < |states[0].devs| && DevInv(states[k].devs[w]) && CanWork(states[k].devs[w])
    ensures states[k + 1].devs[w] == DoWork(states[k].devs[w], states[k].now)
  {
    RunInv(states, acts, k);
    assert CanTake(states[k], acts[k]) && states[k + 1] == Take(states[k], acts[k]);
    TakenWork(states[k], w);
  }

  lemma TakenWork(s: Sys, w: nat)
    requires Stores(s) && CanTake(s, Device(w, Work))
    ensures CanWork(s.devs[w]) && Take(s, Device(w, Work)).devs[w] == DoWork(s.devs[w], s.now)
  {
  }

  /** The decision is by the count alone: with none left a worker signals finished, once, and
      waits; with some left it resumes if it had signalled, and goes for an interval.  The
      flush time never matters. */
  lemma DecisionIsByCount(states: seq<Sys>, acts: seq<Act>, w: nat, k: nat)
    requires IsRun(states, acts) && WorksAt(states, acts, w, k) && states[k].devs[w].w.pc.Decide?
    ensures var d, e := states[k].devs[w], states[k + 1].devs[w];
            && (d.w.count == 0 && !d.w.wasDone <==> e.w.pc.Signal?)
            && (d.w.count == 0 && d.w.wasDone <==> e.w.pc.Wait?)
            && (d.w.count > 0 && d.w.wasDone <==> e.w.pc.Resume?)
            && (d.w.count > 0 && !d.w.wasDone <==> e.w.pc.Get?)
            && e == d.(w := d.w.(pc := e.w.pc))
  {
    WorkTaken(states, acts, w, k);
  }

  /** At the start of a turn the worker freezes the device, to count again, exactly when less
      than a megabyte is unsynced; otherwise it acts on the count it has.  Its flush times are
      more than five seconds apart. */
  lemma FreezesForLastMegabyte(states: seq<Sys>, acts: seq<Act>, w: nat, k: nat)
    requires IsRun(states, acts) && WorksAt(states, acts, w, k) && states[k].devs[w].w.pc.ReadCount?
    ensures var d, e := states[k].devs[w], states[k + 1].devs[w];
            var bytes := 512 * |Dom(d.store.unsynced)|;
            && (bytes < 1024 * 1024 <==> e.w.pc == Attempt(CountTask))
            && (bytes >= 1024 * 1024 <==> e.w.pc.Decide?)
            && 512 * e.w.count == bytes && e.w.wasDone == d.w.wasDone && e.store == d.store
            && e.w.flushTime == (if bytes < 1024 * 1024 && states[k].now - d.w.flushTime > 5 then states[k].now
                                 else d.w.flushTime)
  {
    WorkTaken(states, acts, w, k);
    CountIsSize(states[k].devs[w].store.unsynced);
  }

  /** A hand-out in the loop is the next segment in round robin, all of it is unsynced, and it
      is taken for volatile exactly when its sectors were written in the last ten seconds. */
  lemma HandoutIsByClock(states: seq<Sys>, acts: seq<Act>, w: nat, k: nat, s: nat)
    requires IsRun(states, acts) && WorksAt(states, acts, w, k) && states[k].devs[w].w.pc.Get?
    ensures var d, e := states[k].devs[w], states[k + 1].devs[w];
            && IsNext(d.store.unsynced, d.store.cursor, e.w.interval) && e.store.cursor == e.w.interval.upper
            && (e.w.interval.Contains(s) ==>
                  && At(d.store.unsynced, s) != 0
                  && (e.w.isVolatile <==> At(d.store.unsynced, s) > states[k].now - 10))
            && e.w.pc.Remove? && e.store.unsynced == d.store.unsynced
  {
    WorkTaken(states, acts, w, k);
    RunFinds(states, acts, w, k);
    var d := states[k].devs[w];
    var p := Pick(d.store.unsynced, d.store.cursor);
    AtIndex(d.store.unsynced, p);
    assert d.store.unsynced[p].Range().Contains(s) ==> d.store.unsynced[p].Contains(s);
  }

  /** A block is copied under a freeze exactly when the hand-out was volatile, and every block
      of the hand-out is copied before the next turn. */
  lemma VolatileBlocksAreFrozen(states: seq<Sys>, acts: seq<Act>, w: nat, k: nat)
    requires IsRun(states, acts) && WorksAt(states, acts, w, k) && states[k].devs[w].w.pc.CopyTest?
    ensures var d, e := states[k].devs[w], states[k + 1].devs[w];
            && (d.w.i < d.w.interval.upper - d.w.interval.lower && d.w.isVolatile <==> e.w.pc == Attempt(CopyTask))
            && (d.w.i < d.w.interval.upper - d.w.interval.lower && !d.w.isVolatile <==> e.w.pc.BlockRead?)
            && (d.w.i >= d.w.interval.upper - d.w.interval.lower <==> e.w.pc.Top?)
            && e.store == d.store && e.dst == d.dst
  {
    WorkTaken(states, acts, w, k);
    RunFinds(states, acts, w, k);
  }

  // ---- Turns ----

  lemma WorkEntersNoTurn(d: Dev, now: int)
    requires d.store.Valid() && CanWork(d)
    ensures !DoWork(d, now).w.pc.ReadCount?
  {
    assert FreezeWork(d).w.pc.ReadCount? ==> d.w.pc.ReadCount?;
    assert CopyWork(d).w.pc.ReadCount? ==> d.w.pc.ReadCount?;
  }

  lemma TurnEntered(s: Sys, a: Act, w: nat)
    requires Stores(s) && MainInv(s) && CanTake(s, a) && w < |s.devs| && |Take(s, a).devs| == |s.devs|
    requires !s.devs[w].w.pc.ReadCount? && Take(s, a).devs[w].w.pc.ReadCount?
    ensures a == CheckCancelled(w) && s.devs[w].w.pc.Top? && !s.coord.cancelled
  {
    if a == Device(w, Work) { WorkEntersNoTurn(s.devs[w], s.now); }
    if a.MainStep? { MainSeenFrom(s, w); }
  }

  /** Every turn of the loop, the first or one after a copy or a wait in vain, begins with a
      look at the cancellation, and is taken only without one. */
  lemma TurnsAreChecked(states: seq<Sys>, acts: seq<Act>, w: nat, k: nat)
    requires IsRun(states, acts) && k < |acts| && w < |states[0].devs|
    requires w < |states[k].devs| && w < |states[k + 1].devs|
    requires !states[k].devs[w].w.pc.ReadCount? && states[k + 1].devs[w].w.pc.ReadCount?
    ensures acts[k] == CheckCancelled(w) && states[k].devs[w].w.pc.Top? && !states[k].coord.cancelled
  {
    RunSteps(states, acts, w);
    assert StepOf(states[k], acts[k], states[k + 1]);
    TurnEntered(states[k], acts[k], w);
  }

  // What a worker makes of its talk with the coordinator, c before it and after after it.
  predicate Heeds(a: Act, e: Worker, c: C.Coord, after: C.Coord) {
    match a
    case SignalFinished(_) =>
      e.pc.Wait? && e.wasDone && after == c.(count := if c.count == 0 then TWO_32 - 1 else c.count - 1)
    case WaitTrue(_) => e.pc.Broke? && (c.count == 0 || c.cancelled) && after == c
    case WaitTimeout(_) => e.pc.Top? && c.count > 0 && !c.cancelled && after == c
    case MoreWork(_) =>
      e.pc.Get? && !e.wasDone
      && after == if c.cancelled || c.count == 0 then c
                  else c.(count := if c.count < TWO_32 - 1 then c.count + 1 else 0)
    case Raise(_, error) => e.pc.Died? && after == c.(cancelled := true, errors := c.errors + [error])
    case _ => after == c
  }

  lemma TalkTaken(s: Sys, a: Act)
    requires Stores(s) && WorkerAct(a) && CanTake(s, a) && s.coord.count < TWO_32
    ensures a.w < |s.devs| && a.w < |Take(s, a).devs|
    ensures Heeds(a, Take(s, a).devs[a.w].w, s.coord, Take(s, a).coord)
  {
  }

  /** What a worker does with the coordinator, and what it makes of the answer: it signals and
      waits; it leaves when the wait succeeds and takes another turn when it does not; it goes
      on after a resume call whether or not that was permitted; and it dies of an exception,
      which cancels the backup. */
  lemma TalksAsPromised(states: seq<Sys>, acts: seq<Act>, k: nat)
    requires IsRun(states, acts) && k < |acts| && WorkerAct(acts[k])
    ensures acts[k].w < |states[k].devs| && acts[k].w < |states[k + 1].devs|
    ensures Heeds(acts[k], states[k + 1].devs[acts[k].w].w, states[k].coord, states[k + 1].coord)
  {
    RunInv(states, acts, k);
    assert CanTake(states[k], acts[k]) && states[k + 1] == Take(states[k], acts[k]);
    TalkTaken(states[k], acts[k]);
  }

  // ---- Traces ----

  // The trace a step queues for device w, and the one it hands to the store.
  function IssuedBy(a: Act, w: nat): multiset<Trace> {
    if a.Device? && a.w == w && (a.a.Write? || a.a.OtherTrace?) then multiset{a.a.trace} else multiset{}
  }

  function DeliveredBy(a: Act, w: nat): multiset<Trace> {
    if a.Device? && a.w == w && a.a.Deliver? then multiset{a.a.trace} else multiset{}
  }

  function Issued(acts: seq<Act>, w: nat): multiset<Trace> {
    if acts == [] then multiset{} else Issued(acts[..|acts| - 1], w) + IssuedBy(acts[|acts| - 1], w)
  }

  function Delivered(acts: seq<Act>, w: nat): multiset<Trace> {
    if acts == [] then multiset{} else Delivered(acts[..|acts| - 1], w) + DeliveredBy(acts[|acts| - 1], w)
  }

  // How a step moves traces: p is what was on its way before it, q after it.
  predicate MovesTraces(p: multiset<Trace>, q: multiset<Trace>, issued: multiset<Trace>, delivered: multiset<Trace>) {
    q + delivered == p + issued
  }

  lemma MovesAdd(o: multiset<Trace>, p: multiset<Trace>, q: multiset<Trace>, issued: multiset<Trace>,
                 delivered: multiset<Trace>, i: multiset<Trace>, d: multiset<Trace>)
    requires MovesTraces(o, p, issued, delivered) && MovesTraces(p, q, i, d)
    ensures MovesTraces(o, q, issued + i, delivered + d)
  {
    assert q + (delivered + d) == (q + d) + delivered == (p + i) + delivered == (p + delivered) + i;
  }

  lemma WorkMovesNone(d: Dev, now: int)
    requires d.store.Valid() && CanWork(d)
    ensures DoWork(d, now).pending == d.pending
  {
    assert FreezeWork(d).pending == d.pending && CopyWork(d).pending == d.pending;
    assert LoopWork(d, now).pending == d.pending;
  }

  lemma DeviceTraces(d: Dev, x: DevAction, now: int)
    requires d.store.Valid() && D.Enabled(d, x)
    ensures var e := D.Step(d, x, now);
            if x.Write? || x.OtherTrace? then e.pending == d.pending + multiset{x.trace}
            else if x.Deliver? then x.trace in d.pending && e.pending == d.pending - multiset{x.trace}
            else e.pending == d.pending
  {
    if x.Work? { WorkMovesNone(d, now); }
  }

  lemma OwnTraceStep(d: Dev, x: DevAction, now: int, w: nat)
    requires d.store.Valid() && D.Enabled(d, x)
    ensures MovesTraces(d.pending, D.Step(d, x, now).pending, IssuedBy(Device(w, x), w), DeliveredBy(Device(w, x), w))
  {
    DeviceTraces(d, x, now);
    if x.Deliver? { assert d.pending - multiset{x.trace} + multiset{x.trace} == d.pending; }
  }

  lemma TraceStep(s: Sys, a: Act, w: nat)
    requires Stores(s) && MainInv(s) && CanTake(s, a) && w < |s.devs| && |Take(s, a).devs| == |s.devs|
    ensures MovesTraces(s.devs[w].pending, Take(s, a).devs[w].pending, IssuedBy(a, w), DeliveredBy(a, w))
  {
    if a.Device? && a.w == w {
      OwnTraceStep(s.devs[w], a.a, s.now, w);
    } else {
      assert Take(s, a).devs[w].pending == s.devs[w].pending by { if a.MainStep? { MainSeenFrom(s, w); } }
      assert IssuedBy(a, w) == multiset{} && DeliveredBy(a, w) == multiset{};
    }
  }

  lemma {:induction false} TracesAddUp(pending: seq<multiset<Trace>>, acts: seq<Act>, w: nat, k: nat)
    requires |pending| == |acts| + 1 && k < |pending|
    requires forall p :: 0 <= p < |acts| ==>
               MovesTraces(pending[p], pending[p + 1], IssuedBy(acts[p], w), DeliveredBy(acts[p], w))
    ensures MovesTraces(pending[0], pending[k], Issued(acts[..k], w), Delivered(acts[..k], w))
    decreases k
  {
    if k > 0 {
      TracesAddUp(pending, acts, w, k - 1);
      assert acts[..k][..k - 1] == acts[..k - 1];
      assert acts[..k][k - 1] == acts[k - 1];
      assert MovesTraces(pending[k - 1], pending[k - 1 + 1], IssuedBy(acts[k - 1], w), DeliveredBy(acts[k - 1], w));
      MovesAdd(pending[0], pending[k - 1], pending[k], Issued(acts[..k - 1], w), Delivered(acts[..k - 1], w),
               IssuedBy(acts[k - 1], w), DeliveredBy(acts[k - 1], w));
    }
  }

  /** Traces are conserved: those still on their way and those delivered are those that were
      on their way at the start and those queued since. */
  lemma TracesAreConserved(states: seq<Sys>, acts: seq<Act>, w: nat, k: nat)
    requires IsRun(states, acts) && k < |states| && w < |states[0].devs|
    ensures w < |states[k].devs|
    ensures states[k].devs[w].pending + Delivered(acts[..k], w) == states[0].devs[w].pending + Issued(acts[..k], w)
  {
    RunSteps(states, acts, w);
    var pending := seq(|states|, p requires 0 <= p < |states| => states[p].devs[w].pending);
    forall p | 0 <= p < |acts|
      ensures MovesTraces(pending[p], pending[p + 1], IssuedBy(acts[p], w), DeliveredBy(acts[p], w))
    {
      assert StepOf(states[p], acts[p], states[p + 1]);
      TraceStep(states[p], acts[p], w);
    }
    TracesAddUp(pending, acts, w, k);
  }
}
