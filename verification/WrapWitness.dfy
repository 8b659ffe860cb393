/** Two devices, one of which gets a write after it has signalled finished: its resume call
is refused, it goes on all the same, and its second finish signal wraps the counter. */
module WrapWitness {
  import opened MachineIntegers
  import opened IntervalMap
  import opened SectorStore
  import D = DeviceSync
  import opened DeviceSync
  import opened BackupRun
  import opened RunWitness
  import C = Coordinator

  const TRACE := Trace(0, 512, true)

  function Disk(src: seq<Content>, pending: multiset<Trace>, tracked: set<nat>, pc: Pc): Dev {
    Dev(src, [7], 1, NewStore(10), pending, tracked, IDLE,
        Worker(pc, 0, 0, false, Interval(0, 0), false, 0, [], 0, 0, 0), 0, 0)
  }

  function Two(a: Dev, b: Dev, count: nat, refusals: nat, now: int, main: Main): Sys {
    Sys([a, b], C.Coord(count, false, []), refusals, now, main)
  }

  const A0 := Disk([7], multiset{}, {}, Ready)
  const A1 := Disk([8], multiset{TRACE}, {0}, Ready)
  const A2 := Disk([8], multiset{TRACE}, {0}, Opening)
  const B1 := Disk([7], multiset{}, {}, Opening)
  const BEGINNING := Past(Two(A0, A0, 2, 0, 20, Preparing), [])

  lemma PutFirst(a: Dev, b: Dev, d: Dev, count: nat, refusals: nat, now: int)
    ensures Put(Two(a, b, count, refusals, now, Waiting), 0, d) == Two(d, b, count, refusals, now, Waiting)
  {
    assert [a, b][0 := d] == [d, b];
  }

  lemma PutSecond(a: Dev, b: Dev, d: Dev, count: nat)
    ensures Put(Two(a, b, count, 0, 20, Waiting), 1, d) == Two(a, d, count, 0, 20, Waiting)
  {
    assert [a, b][1 := d] == [a, d];
  }

  lemma WriteStep()
    ensures D.Enabled(A0, Write(TRACE, [8])) && D.Step(A0, Write(TRACE, [8]), 20) == A1
  {
    assert [7][..0] + [8] + [7][1..] == [8];
    assert {} + Interval(0, 1).Sectors() == {0};
  }

  lemma Written()
    ensures Reaches(BEGINNING, Two(A1, A0, 2, 0, 20, Preparing))
  {
    var s := Two(A0, A0, 2, 0, 20, Preparing);
    assert InitDev(A0);
    BeginsAt(s);
    WriteStep();
    assert [A0, A0][0 := A1] == [A1, A0];
    Onward(BEGINNING, s, Device(0, Write(TRACE, [8])), Two(A1, A0, 2, 0, 20, Preparing));
  }

  lemma Launched()
    ensures Reaches(BEGINNING, Two(A2, B1, 2, 0, 20, Waiting))
  {
    Written();
    assert [A1, A0][0 := A2] == [A2, A0] && [A2, A0][1 := B1] == [A2, B1];
    Onward(BEGINNING, Two(A1, A0, 2, 0, 20, Preparing), MainStep, Two(A1, A0, 2, 0, 20, Spawning(0)));
    Onward(BEGINNING, Two(A1, A0, 2, 0, 20, Spawning(0)), MainStep, Two(A2, A0, 2, 0, 20, Spawning(1)));
    Onward(BEGINNING, Two(A2, A0, 2, 0, 20, Spawning(1)), MainStep, Two(A2, B1, 2, 0, 20, Spawning(2)));
    Onward(BEGINNING, Two(A2, B1, 2, 0, 20, Spawning(2)), MainStep, Two(A2, B1, 2, 0, 20, Waiting));
  }

  // The first device is finished, waits in vain, and starts another turn.
  const A3 := Signalled(Counted(A2, 20)).(w := Signalled(Counted(A2, 20)).w.(pc := Top))

  lemma FirstFinished()
    ensures Reaches(BEGINNING, Two(A3, B1, 1, 0, 20, Waiting))
  {
    Launched();
    var s, t := Two(A2, B1, 2, 0, 20, Waiting), Two(A2, B1, 1, 0, 20, Waiting);
    PutFirst(A2, B1, A2, 2, 0, 20);
    PutFirst(A2, B1, A3, 1, 0, 20);
    FirstCount(BEGINNING, s, 0, A2);
    Finish(BEGINNING, s, 0, Counted(A2, 20), t);
    TalkOnward(BEGINNING, t, Signalled(Counted(A2, 20)), WaitTimeout(0), t, A3);
  }

  const A4 := A3.(store := Store(10, [Segment(0, 1, 20)], [], 0), pending := multiset{}, inserted := 1)

  lemma Traced()
    ensures Reaches(BEGINNING, Two(A4, B1, 1, 0, 20, Waiting)) && A4.store.Valid()
  {
    FirstFinished();
    assert [Segment(0, 1, 20)][1..] == [];
    assert Add([], Interval(0, 1), 20) == [Segment(0, 1, 20)];
    assert TracedInterval(TRACE).Sectors() == {0};
    PutFirst(A3, B1, A3, 1, 0, 20);
    PutFirst(A3, B1, A4, 1, 0, 20);
    DeviceOnward(BEGINNING, Two(A3, B1, 1, 0, 20, Waiting), 0, A3, Deliver(TRACE), A4);
  }

  const B2 := Signalled(Counted(B1, 20))

  // The second device is finished: the count is zero.
  lemma SecondFinished()
    ensures Reaches(BEGINNING, Two(A4, B2, 0, 0, 20, Waiting)) && A4.store.Valid()
  {
    Traced();
    var s, t := Two(A4, B1, 1, 0, 20, Waiting), Two(A4, B1, 0, 0, 20, Waiting);
    PutSecond(A4, B1, B1, 1);
    PutSecond(A4, B1, B2, 0);
    FirstCount(BEGINNING, s, 1, B1);
    Finish(BEGINNING, s, 1, Counted(B1, 20), t);
  }

  const A5 := Counted(A4, 20).(w := Counted(A4, 20).w.(pc := Get, wasDone := false))

  // The first device counts its write and is refused, but goes on to copy.
  lemma RefusedAndGoesOn()
    ensures Reaches(BEGINNING, Two(A5, B2, 0, 1, 100, Waiting)) && A5.store.Valid()
  {
    SecondFinished();
    var s, t := Two(A4, B2, 0, 0, 20, Waiting), Two(A4, B2, 0, 1, 20, Waiting);
    assert [Segment(0, 1, 20)][1..] == [] && Count([Segment(0, 1, 20)]) == 1;
    PutFirst(A4, B2, A4, 0, 0, 20);
    PutFirst(A4, B2, A5, 0, 1, 20);
    Recount(BEGINNING, s, 0, A4);
    var a := Counted(A4, 20);
    var b := a.(w := a.w.(pc := Resume));
    LoopOnward(BEGINNING, s, 0, a, b);
    TalkOnward(BEGINNING, s, b, MoreWork(0), t, A5);
    Onward(BEGINNING, Two(A5, B2, 0, 1, 20, Waiting), Tick(80), Two(A5, B2, 0, 1, 100, Waiting));
  }

  lemma FinishedAgain() returns (a: Dev)
    ensures Reaches(BEGINNING, Two(a, B2, TWO_32 - 1, 1, 100, Waiting))
    ensures a.w.pc.Wait? && a.w.wasDone && a.dst == a.src
  {
    RefusedAndGoesOn();
    var s, t := Two(A5, B2, 0, 1, 100, Waiting), Two(A5, B2, TWO_32 - 1, 1, 100, Waiting);
    PutFirst(A5, B2, A5, 0, 1, 100);
    CopyOne(BEGINNING, s, 0, A5, 20);
    var b := CopiedOne(A5);
    Recount(BEGINNING, s, 0, b);
    Finish(BEGINNING, s, 0, Counted(b, 100), t);
    a := Signalled(Counted(b, 100));
    PutFirst(A5, B2, a, TWO_32 - 1, 1, 100);
  }

  // Everything is copied and every worker done and waiting, but the count is 2^32 - 1.
  ghost predicate Wrapped(states: seq<Sys>, acts: seq<Act>) {
    && IsRun(states, acts) && |states[0].devs| == 2
    && var t := states[|acts|];
    && |t.devs| == 2 && t.coord == C.Coord(TWO_32 - 1, false, []) && t.refusals == 1
    && forall w :: 0 <= w < 2 ==> t.devs[w].w.wasDone && t.devs[w].w.pc.Wait? && t.devs[w].dst == t.devs[w].src
  }

  /** A backup of two devices, from its start, that comes to that, without any error or
      cancellation. */
  lemma WrapIsReachable()
    ensures exists states: seq<Sys>, acts: seq<Act> :: Wrapped(states, acts)
  {
    var a := FinishedAgain();
    var t := Two(a, B2, TWO_32 - 1, 1, 100, Waiting);
    var states: seq<Sys>, acts: seq<Act> :| RunFrom(BEGINNING, states, acts, t);
    assert t.devs[0] == a && t.devs[1] == B2;
    assert Wrapped(states, acts);
  }
}
