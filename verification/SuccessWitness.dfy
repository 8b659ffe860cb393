/** A full backup that does end in success: a scanned sector, a write to it after the scan,
a traced hand-out, a block copy, and the finish. */
module SuccessWitness {
  import opened IntervalMap
  import opened SectorStore
  import D = DeviceSync
  import opened DeviceSync
  import opened BackupRun
  import opened BackupSuccess
  import opened FullBackup
  import opened RunWitness
  import C = Coordinator

  const TRACE := Trace(0, 512, true)
  const SCANNED: SectorMap := [Segment(0, 1, 1)]
  const MARKS := [Device(0, ClearStore), Device(0, ScanDevice(SCANNED)), Device(0, Write(TRACE, [8]))]

  function Loop(pc: Pc): Worker { Worker(pc, 0, 0, false, Interval(0, 0), false, 0, [], 0, 0, 0) }

  function Disk(src: seq<Content>, unsynced: SectorMap, pending: multiset<Trace>, tracked: set<nat>, pc: Pc): Dev {
    Dev(src, [0], 1, Store(10, unsynced, [], 0), pending, tracked, IDLE, Loop(pc), 0, 0)
  }

  function One(d: Dev, count: nat, now: int, main: Main): Sys { Sys([d], C.Coord(count, false, []), 0, now, main) }

  lemma PutOne(d: Dev, e: Dev, count: nat, now: int, main: Main)
    ensures Put(One(d, count, now, main), 0, e) == One(e, count, now, main)
  {
    assert [d][0 := e] == [e];
  }

  lemma SegmentFacts()
    ensures Canonical(SCANNED) && IsSet(SCANNED) && Canonical([Segment(0, 1, 20)]) && Dom(SCANNED) == {0}
    ensures Add([], Interval(0, 1), 1) == SCANNED && Add(SCANNED, Interval(0, 1), 20) == [Segment(0, 1, 20)]
    ensures Count([]) == 0 && Count([Segment(0, 1, 20)]) == 1
  {
    assert SCANNED[1..] == [] && [Segment(0, 1, 20)][1..] == [];
  }

  const BEGINNING := Past(One(D0, 1, 20, Preparing), MARKS)

  const D0 := Disk([7], [], multiset{}, {}, Clear)
  const D1 := Disk([7], [], multiset{}, {}, Pc.Scan)
  const D2 := Disk([7], [], multiset{}, {0}, Seed(SCANNED))
  const D3 := Disk([8], [], multiset{TRACE}, {0}, Seed(SCANNED))

  lemma ClearStep()
    ensures D.Enabled(D0, ClearStore) && D.Step(D0, ClearStore, 20) == D1
  {
    assert (set s | 0 <= s < 1 && Covered(multiset{}, s)) == {};
  }

  lemma ScanStep()
    ensures D.Enabled(D1, ScanDevice(SCANNED)) && D.Step(D1, ScanDevice(SCANNED), 20) == D2
  {
    SegmentFacts();
    assert {} + (set s | s in Dom(SCANNED) && s < 1) == {0};
  }

  lemma WriteStep()
    ensures D.Enabled(D2, Write(TRACE, [8])) && D.Step(D2, Write(TRACE, [8]), 20) == D3
  {
    assert [7][..0] + [8] + [7][1..] == [8];
  }

  function Marked(n: nat): Past
    requires n <= 3
  {
    Past(One(D0, 1, 20, Preparing), MARKS[..n])
  }

  lemma Cleared()
    ensures Begins(Marked(1), One(D1, 1, 20, Preparing))
  {
    ClearStep();
    var s, t := One(D0, 1, 20, Preparing), One(D1, 1, 20, Preparing);
    assert InitDev(D0);
    BeginsAt(s);
    assert [D0][0 := D1] == [D1] && MARKS[..1] == [] + [MARKS[0]];
    Continue(Past(s, []), s, MARKS[0], t);
  }

  lemma Scanned()
    ensures Begins(Marked(2), One(D2, 1, 20, Preparing))
  {
    Cleared();
    ScanStep();
    assert [D1][0 := D2] == [D2] && MARKS[..2] == MARKS[..1] + [MARKS[1]];
    Continue(Marked(1), One(D1, 1, 20, Preparing), MARKS[1], One(D2, 1, 20, Preparing));
  }

  lemma Written()
    ensures Reaches(BEGINNING, One(D3, 1, 20, Preparing))
  {
    Scanned();
    WriteStep();
    assert [D2][0 := D3] == [D3] && MARKS == MARKS[..2] + [MARKS[2]];
    Continue(Marked(2), One(D2, 1, 20, Preparing), MARKS[2], One(D3, 1, 20, Preparing));
  }

  lemma Seeded()
    ensures Reaches(BEGINNING, One(Disk([8], SCANNED, multiset{TRACE}, {0}, Ready), 1, 20, Preparing))
  {
    Written();
    SegmentFacts();
    var s := One(D3, 1, 20, Preparing);
    var a := Disk([8], SCANNED, multiset{TRACE}, {0}, Seed([]));
    var b := Disk([8], SCANNED, multiset{TRACE}, {0}, Ready);
    PutOne(D3, D3, 1, 20, Preparing);
    PutOne(D3, b, 1, 20, Preparing);
    DeviceOnward(BEGINNING, s, 0, D3, SeedNext, a);
    DeviceOnward(BEGINNING, s, 0, a, SeedNext, b);
  }

  lemma Traced()
    ensures Reaches(BEGINNING, One(Disk([8], [Segment(0, 1, 20)], multiset{}, {0}, Ready), 1, 20, Preparing))
  {
    Seeded();
    SegmentFacts();
    var a := Disk([8], SCANNED, multiset{TRACE}, {0}, Ready);
    var b := Disk([8], [Segment(0, 1, 20)], multiset{}, {0}, Ready);
    assert TracedInterval(TRACE).Sectors() == {0};
    PutOne(a, a, 1, 20, Preparing);
    PutOne(a, b, 1, 20, Preparing);
    DeviceOnward(BEGINNING, One(a, 1, 20, Preparing), 0, a, Deliver(TRACE), b);
  }

  const D4 := Disk([8], [Segment(0, 1, 20)], multiset{}, {0}, Opening).(initCount := 1)

  lemma Launched()
    ensures Reaches(BEGINNING, One(D4, 1, 20, Waiting))
  {
    Traced();
    SegmentFacts();
    var a := Disk([8], [Segment(0, 1, 20)], multiset{}, {0}, Ready);
    assert [a][0 := D4] == [D4];
    Onward(BEGINNING, One(a, 1, 20, Preparing), MainStep, One(a, 1, 20, Spawning(0)));
    Onward(BEGINNING, One(a, 1, 20, Spawning(0)), MainStep, One(D4, 1, 20, Spawning(1)));
    Onward(BEGINNING, One(D4, 1, 20, Spawning(1)), MainStep, One(D4, 1, 20, Waiting));
  }

  lemma FirstCounted() returns (d: Dev)
    ensures Reaches(BEGINNING, One(d, 1, 100, Waiting)) && d == Counted(D4, 20) && d.w.count == 1
  {
    Launched();
    SegmentFacts();
    d := Counted(D4, 20);
    PutOne(D4, D4, 1, 20, Waiting);
    PutOne(D4, d, 1, 20, Waiting);
    FirstCount(BEGINNING, One(D4, 1, 20, Waiting), 0, D4);
    Onward(BEGINNING, One(d, 1, 20, Waiting), Tick(80), One(d, 1, 100, Waiting));
  }

  lemma SectorCopied() returns (d: Dev)
    ensures Reaches(BEGINNING, One(d, 1, 100, Waiting))
    ensures d.w.pc.Top? && !d.w.wasDone && d.w.flushTime == 20 && d.fz == ASLEEP && d.dst == [8]
    ensures d.store == Store(10, [], [Segment(0, 1, 1)], 1) && d.store.Valid()
  {
    var a := FirstCounted();
    SegmentFacts();
    var b := a.(w := a.w.(pc := Get));
    var s := One(a, 1, 100, Waiting);
    PutOne(a, a, 1, 100, Waiting);
    LoopOnward(BEGINNING, s, 0, a, b);
    CopyOne(BEGINNING, s, 0, b, 20);
    d := CopiedOne(b);
    PutOne(a, d, 1, 100, Waiting);
  }

  lemma AllFinished() returns (d: Dev)
    ensures Reaches(BEGINNING, One(d, 0, 100, Waiting)) && d.store.Valid()
    ensures d.w.pc.Broke? && d.w.wasDone && d.dst == [8]
  {
    var a := SectorCopied();
    SegmentFacts();
    var s, t := One(a, 1, 100, Waiting), One(a, 0, 100, Waiting);
    PutOne(a, a, 1, 100, Waiting);
    Recount(BEGINNING, s, 0, a);
    var b := Counted(a, 100);
    Finish(BEGINNING, s, 0, b, t);
    d := Signalled(b).(w := Signalled(b).w.(pc := Broke));
    TalkOnward(BEGINNING, t, Signalled(b), WaitTrue(0), t, d);
    PutOne(a, d, 0, 100, Waiting);
  }

  lemma AllGone() returns (d: Dev)
    ensures Reaches(BEGINNING, One(d, 0, 100, Judging(""))) && d.dst == [8]
  {
    d := AllFinished();
    Onward(BEGINNING, One(d, 0, 100, Waiting), MainStep, One(d, 0, 100, Joining));
    Onward(BEGINNING, One(d, 0, 100, Joining), MainStep, One(d, 0, 100, Collecting));
    Onward(BEGINNING, One(d, 0, 100, Collecting), MainStep, One(d, 0, 100, Judging("")));
  }

  // A reported success of a full backup whose scan found sector 0 in use, in which sector
  // 0 was overwritten after the scan, and whose destination ends with what was written.
  ghost predicate Succeeds(states: seq<Sys>, acts: seq<Act>, k: nat) {
    && IsRun(states, acts) && ReportsSuccess(states, acts, k) && 3 <= k
    && |states[0].devs| == 1 && |states[k].devs| == 1
    && ClearBy(acts[0], 0) && ScanBy(acts[1], 0) && 0 in Dom(acts[1].a.inUse) && WritesSector(acts[2], 0, 0)
    && states[0].devs[0].dst == [0] && acts[2].a.data == [8] && states[k].devs[0].dst == [8]
  }

  /** Success is reachable by a full backup with sectors to copy and writes to catch, so
      what a success means is not said of nothing. */
  lemma SuccessIsReachable()
    ensures exists states: seq<Sys>, acts: seq<Act>, k: nat :: Succeeds(states, acts, k)
  {
    var d := AllGone();
    SegmentFacts();
    var s := One(d, 0, 100, Judging(""));
    var states: seq<Sys>, acts: seq<Act> :| RunFrom(BEGINNING, states, acts, s);
    Extend(states, acts, MainStep);
    var more, steps := states + [Take(s, MainStep)], acts + [MainStep];
    assert more[0] == states[0] && more[|acts|] == s && steps[..3] == MARKS;
    assert Succeeds(more, steps, |acts|);
  }
}
