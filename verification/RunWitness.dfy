/** Building runs step by step: the stretches a worker goes through, on any device. */
module RunWitness {
  import opened IntervalMap
  import opened SectorStore
  import D = DeviceSync
  import opened DeviceSync
  import opened BackupRun

  const IDLE := Freeze(NoThread, false, false, false, false, 0)
  const ASLEEP := Freeze(Sleeping, true, true, false, true, 1)

  // How a run begins: its first state and first steps.
  datatype Past = Past(start: Sys, steps: seq<Act>)

  ghost predicate RunFrom(past: Past, states: seq<Sys>, acts: seq<Act>, t: Sys) {
    IsRun(states, acts) && states[0] == past.start && past.steps <= acts && states[|acts|] == t
  }

  // Some run with that beginning ends in t.
  ghost predicate Reaches(past: Past, t: Sys) {
    exists states: seq<Sys>, acts: seq<Act> :: RunFrom(past, states, acts, t)
  }

  function Put(s: Sys, w: nat, d: Dev): Sys
    requires w < |s.devs|
  {
    s.(devs := s.devs[w := d])
  }

  // ---- One more step ----

  lemma StoresAtEnd(states: seq<Sys>, acts: seq<Act>, a: Act)
    requires IsRun(states, acts) && CanTake(states[|acts|], a)
    ensures Stores(states[|acts|]) && Stores(Take(states[|acts|], a))
  {
    RunInv(states, acts, |acts|);
    StepInv(states[|acts|], a);
  }

  lemma Extend(states: seq<Sys>, acts: seq<Act>, a: Act)
    requires IsRun(states, acts) && CanTake(states[|acts|], a)
    ensures Stores(states[|acts|]) && IsRun(states + [Take(states[|acts|], a)], acts + [a])
  {
    StoresAtEnd(states, acts, a);
    var t := Take(states[|acts|], a);
    var more, steps := states + [t], acts + [a];
    forall k | 0 <= k < |steps| ensures CanTake(more[k], steps[k]) && more[k + 1] == Take(more[k], steps[k]) {
      if k < |acts| { assert more[k] == states[k] && more[k + 1] == states[k + 1]; }
    }
  }

  lemma Onward(past: Past, s: Sys, a: Act, t: Sys)
    requires Reaches(past, s) && Stores(s) && CanTake(s, a) && Take(s, a) == t
    ensures Reaches(past, t)
  {
    var states: seq<Sys>, acts: seq<Act> :| RunFrom(past, states, acts, s);
    Extend(states, acts, a);
    assert RunFrom(past, states + [t], acts + [a], t);
  }

  // A run of no more than the given steps.
  ghost predicate Begins(past: Past, t: Sys) {
    exists states: seq<Sys> :: RunFrom(past, states, past.steps, t)
  }

  lemma BeginsAt(s: Sys)
    requires Init(s)
    ensures Begins(Past(s, []), s)
  {
    InitInv(s);
    assert RunFrom(Past(s, []), [s], [], s);
  }

  lemma Continue(past: Past, s: Sys, a: Act, t: Sys)
    requires Begins(past, s) && Stores(s) && CanTake(s, a) && Take(s, a) == t
    ensures Begins(Past(past.start, past.steps + [a]), t)
  {
    var states: seq<Sys> :| RunFrom(past, states, past.steps, s);
    Extend(states, past.steps, a);
    assert RunFrom(Past(past.start, past.steps + [a]), states + [t], past.steps + [a], t);
  }

  lemma DeviceOnward(past: Past, s: Sys, w: nat, d: Dev, x: DevAction, e: Dev)
    requires w < |s.devs| && Stores(s) && d.store.Valid() && Reaches(past, Put(s, w, d))
    requires D.Enabled(d, x) && D.Step(d, x, s.now) == e
    ensures Reaches(past, Put(s, w, e))
  {
    assert s.devs[w := d][w := e] == s.devs[w := e];
    Onward(past, Put(s, w, d), Device(w, x), Put(s, w, e));
  }

  lemma TalkOnward(past: Past, s: Sys, d: Dev, a: Act, t: Sys, e: Dev)
    requires WorkerAct(a) && a.w < |s.devs| && Stores(s) && d.store.Valid() && Reaches(past, Put(s, a.w, d))
    requires CanTalk(Put(s, a.w, d), a) && e == Talked(d, s.coord.cancelled, a)
    requires t == s.(coord := TalkedCoord(s.coord, a), refusals := s.refusals + Refused(s.coord, a))
    ensures Reaches(past, Put(t, a.w, e))
  {
    assert s.devs[a.w := d][a.w := e] == s.devs[a.w := e];
    Onward(past, Put(s, a.w, d), a, Put(t, a.w, e));
  }

  // The worker's local steps, by the function that makes them.
  lemma FreezeOnward(past: Past, s: Sys, w: nat, d: Dev, e: Dev)
    requires w < |s.devs| && Stores(s) && d.store.Valid() && Reaches(past, Put(s, w, d))
    requires d.w.pc.Attempt? || d.w.pc.Begin? || d.w.pc.Join? || d.w.pc.Spawn? || d.w.pc.Await? || d.w.pc.End?
    requires CanWork(d) && FreezeWork(d) == e
    ensures Reaches(past, Put(s, w, e))
  {
    DeviceOnward(past, s, w, d, Work, e);
  }

  lemma CopyOnward(past: Past, s: Sys, w: nat, d: Dev, e: Dev)
    requires w < |s.devs| && Stores(s) && d.store.Valid() && Reaches(past, Put(s, w, d))
    requires d.w.pc.BlockRead? || d.w.pc.BlockWrite? || d.w.pc.CopyTest?
    requires CanWork(d) && CopyWork(d) == e
    ensures Reaches(past, Put(s, w, e))
  {
    DeviceOnward(past, s, w, d, Work, e);
  }

  lemma LoopOnward(past: Past, s: Sys, w: nat, d: Dev, e: Dev)
    requires w < |s.devs| && Stores(s) && d.store.Valid() && Reaches(past, Put(s, w, d))
    requires d.w.pc.Opening? || d.w.pc.ReadCount? || d.w.pc.CountRead?
             || d.w.pc.Decide? || d.w.pc.Get? || d.w.pc.Remove?
    requires CanWork(d) && LoopWork(d, s.now) == e
    ensures Reaches(past, Put(s, w, e))
  {
    DeviceOnward(past, s, w, d, Work, e);
  }

  // ---- Stretches of the loop ----

  function FlushTime(d: Dev, now: int): int {
    if now - d.w.flushTime > SECONDS_BETWEEN_FLUSHES then now else d.w.flushTime
  }

  function Asked(d: Dev, now: int): Dev {
    d.(w := d.w.(pc := Attempt(CountTask), count := Count(d.store.unsynced), attempts := 0, runs := 0,
                 flushTime := FlushTime(d, now)))
  }

  lemma Ask(past: Past, s: Sys, w: nat, d: Dev)
    requires w < |s.devs| && Stores(s) && d.store.Valid() && Reaches(past, Put(s, w, d))
    requires d.w.pc.Top? && !s.coord.cancelled && Count(d.store.unsynced) < ONE_MEGABYTE_SECTORS
    ensures Reaches(past, Put(s, w, Asked(d, s.now)))
  {
    var e := d.(w := d.w.(pc := ReadCount));
    TalkOnward(past, s, d, CheckCancelled(w), s, e);
    LoopOnward(past, s, w, e, Asked(d, s.now));
  }

  lemma Joined(past: Past, s: Sys, w: nat, d: Dev)
    requires w < |s.devs| && Stores(s) && d.store.Valid() && Reaches(past, Put(s, w, d))
    requires d.w.pc == Attempt(CountTask) && d.w.attempts == 0 && d.fz == IDLE
    ensures Reaches(past, Put(s, w, d.(w := d.w.(pc := Join(CountTask), attempts := 1))))
  {
    var a := d.(w := d.w.(pc := Begin(CountTask), attempts := 1));
    FreezeOnward(past, s, w, d, a);
    FreezeOnward(past, s, w, a, d.(w := d.w.(pc := Join(CountTask), attempts := 1)));
  }

  lemma Spawned(past: Past, s: Sys, w: nat, d: Dev)
    requires w < |s.devs| && Stores(s) && d.store.Valid() && Reaches(past, Put(s, w, d))
    requires d.w.pc == Attempt(CountTask) && d.w.attempts == 0 && d.fz == IDLE
    ensures Reaches(past, Put(s, w, d.(fz := IDLE.(pc := Freezing), w := d.w.(pc := Await(CountTask), attempts := 1))))
  {
    Joined(past, s, w, d);
    var b := d.(w := d.w.(pc := Join(CountTask), attempts := 1));
    var c := d.(w := d.w.(pc := Spawn(CountTask), attempts := 1));
    FreezeOnward(past, s, w, b, c);
    FreezeOnward(past, s, w, c, d.(fz := IDLE.(pc := Freezing), w := d.w.(pc := Await(CountTask), attempts := 1)));
  }

  lemma FellAsleep(past: Past, s: Sys, w: nat, d: Dev)
    requires w < |s.devs| && Stores(s) && d.store.Valid() && Reaches(past, Put(s, w, d))
    requires d.fz == IDLE.(pc := Freezing)
    ensures Reaches(past, Put(s, w, d.(fz := ASLEEP)))
  {
    var f := d.(fz := Freeze(Froze, false, false, false, true, 1));
    var g := d.(fz := Freeze(DidFreeze, false, true, false, true, 1));
    DeviceOnward(past, s, w, d, FreezeOk, f);
    DeviceOnward(past, s, w, f, SetDid, g);
    DeviceOnward(past, s, w, g, SetFrozen, d.(fz := ASLEEP));
  }

  function Counted(d: Dev, now: int): Dev {
    d.(fz := ASLEEP, w := d.w.(pc := Decide, count := Count(d.store.unsynced), attempts := 1, runs := 1,
                               flushTime := FlushTime(d, now)))
  }

  lemma CountUp(past: Past, s: Sys, w: nat, d: Dev)
    requires w < |s.devs| && Stores(s) && d.store.Valid() && Reaches(past, Put(s, w, d))
    requires d.w.pc.CountRead? && d.w.runs == 0 && d.fz.isFrozen
    ensures Reaches(past, Put(s, w, d.(w := d.w.(pc := Decide, count := Count(d.store.unsynced), runs := 1))))
  {
    var a := d.(w := d.w.(pc := End(CountTask), count := Count(d.store.unsynced), runs := 1));
    LoopOnward(past, s, w, d, a);
    FreezeOnward(past, s, w, a, d.(w := d.w.(pc := Decide, count := Count(d.store.unsynced), runs := 1)));
  }

  // The first count of a worker: it starts the freeze thread, which stays asleep.
  lemma FirstCount(past: Past, s: Sys, w: nat, d: Dev)
    requires w < |s.devs| && Stores(s) && d.store.Valid() && Reaches(past, Put(s, w, d))
    requires d.w.pc.Opening? && d.fz == IDLE && !s.coord.cancelled && Count(d.store.unsynced) < ONE_MEGABYTE_SECTORS
    ensures Reaches(past, Put(s, w, Counted(d, s.now)))
  {
    var a := d.(w := d.w.(pc := Top));
    LoopOnward(past, s, w, d, a);
    Ask(past, s, w, a);
    var b := Asked(a, s.now);
    Spawned(past, s, w, b);
    var c := b.(fz := IDLE.(pc := Freezing), w := b.w.(pc := Await(CountTask), attempts := 1));
    FellAsleep(past, s, w, c);
    var e := c.(fz := ASLEEP, w := c.w.(pc := CountRead));
    FreezeOnward(past, s, w, c.(fz := ASLEEP), e);
    CountUp(past, s, w, e);
  }

  // A later count, while the device is still frozen.
  lemma Recount(past: Past, s: Sys, w: nat, d: Dev)
    requires w < |s.devs| && Stores(s) && d.store.Valid() && Reaches(past, Put(s, w, d))
    requires d.w.pc.Top? && d.fz == ASLEEP && !s.coord.cancelled && Count(d.store.unsynced) < ONE_MEGABYTE_SECTORS
    ensures Reaches(past, Put(s, w, Counted(d, s.now)))
  {
    Ask(past, s, w, d);
    var a := Asked(d, s.now);
    var b := a.(w := a.w.(pc := Begin(CountTask), attempts := 1));
    var c := a.(w := a.w.(pc := CountRead, attempts := 1));
    FreezeOnward(past, s, w, a, b);
    FreezeOnward(past, s, w, b, c);
    CountUp(past, s, w, c);
  }

  function Signalled(d: Dev): Dev { d.(w := d.w.(pc := Wait, wasDone := true)) }

  // An accepted zero count leads to the finish signal.
  lemma Finish(past: Past, s: Sys, w: nat, d: Dev, t: Sys)
    requires w < |s.devs| && Stores(s) && d.store.Valid() && Reaches(past, Put(s, w, d))
    requires d.w.pc.Decide? && d.w.count == 0 && d.w.flushTime > 0 && !d.w.wasDone
    requires t == s.(coord := TalkedCoord(s.coord, SignalFinished(w)))
    ensures Reaches(past, Put(t, w, Signalled(d)))
  {
    var a := d.(w := d.w.(pc := Signal));
    LoopOnward(past, s, w, d, a);
    TalkOnward(past, s, a, SignalFinished(w), t, Signalled(d));
  }

  // ---- Copying the only sector of a device ----

  predicate OneSector(d: Dev, time: int) {
    && |d.src| == 1 && |d.dst| == 1 && d.spb == 1 && d.store == Store(10, [Segment(0, 1, time)], [], 0)
  }

  function Taken(d: Dev): Dev {
    d.(store := Store(10, [], [Segment(0, 1, 1)], 1),
       w := d.w.(pc := CopyTest, interval := Interval(0, 1), isVolatile := false, i := 0))
  }

  lemma TakeOut(past: Past, s: Sys, w: nat, d: Dev, time: int)
    requires w < |s.devs| && Stores(s) && Reaches(past, Put(s, w, d))
    requires d.w.pc.Get? && OneSector(d, time) && 0 < time <= s.now - 10
    ensures Reaches(past, Put(s, w, Taken(d)))
  {
    var m := [Segment(0, 1, time)];
    assert m[1..] == [] && Canonical(m);
    assert NextAfter(m, 0) == 1 by { assert m[0].lo <= 0; }
    assert Subtract(m, Interval(0, 1)) == [];
    assert Add([], Interval(0, 1), 1) == [Segment(0, 1, 1)];
    var a := d.(store := d.store.(cursor := 1),
                w := d.w.(pc := Remove, interval := Interval(0, 1), isVolatile := false));
    LoopOnward(past, s, w, d, a);
    LoopOnward(past, s, w, a, Taken(d));
  }

  lemma CopyBlock(past: Past, s: Sys, w: nat, a: Dev)
    requires w < |s.devs| && Stores(s) && a.store.Valid() && Reaches(past, Put(s, w, a))
    requires a.w.pc.BlockRead? && !a.w.isVolatile && Base(a.w) == 0
    requires |a.src| == 1 && |a.dst| == 1 && a.spb == 1
    ensures Reaches(past, Put(s, w, a.(dst := a.src, w := a.w.(pc := CopyTest, i := a.w.i + 1, buf := a.src))))
  {
    var b := a.(w := a.w.(pc := BlockWrite, buf := a.src));
    assert a.src[0..1] == a.src && a.dst[..0] + a.src + a.dst[1..] == a.src;
    CopyOnward(past, s, w, a, b);
    CopyOnward(past, s, w, b, a.(dst := a.src, w := a.w.(pc := CopyTest, i := a.w.i + 1, buf := a.src)));
  }

  function CopiedOne(d: Dev): Dev {
    var e := Taken(d);
    e.(dst := d.src, w := e.w.(pc := Top, i := 1, buf := d.src, sent := d.w.sent + 512))
  }

  lemma CopyOne(past: Past, s: Sys, w: nat, d: Dev, time: int)
    requires w < |s.devs| && Stores(s) && Reaches(past, Put(s, w, d))
    requires d.w.pc.Get? && OneSector(d, time) && 0 < time <= s.now - 10
    ensures CopiedOne(d).store.Valid() && Reaches(past, Put(s, w, CopiedOne(d)))
  {
    TakeOut(past, s, w, d, time);
    var a := Taken(d);
    assert a.store.Valid() by { assert a.store.synced[1..] == []; }
    var b := a.(w := a.w.(pc := BlockRead));
    CopyOnward(past, s, w, a, b);
    CopyBlock(past, s, w, b);
    CopyOnward(past, s, w, b.(dst := b.src, w := b.w.(pc := CopyTest, i := 1, buf := b.src)), CopiedOne(d));
  }
}
