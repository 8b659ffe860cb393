/** What a backup leaves behind for the next one, and how a failed copy breaks it. */
module FailedBackup {
  import opened IntervalMap
  import opened SectorStore
  import opened DeviceSync
  import opened NoLostWrite
  import opened BackupOutcome
  import opened BackupRun
  import opened BackupHistory
  import opened RunWitness
  import C = Coordinator

  // The source differs from the destination, and nothing the next backup looks at says so.
  ghost predicate Forgotten(d: Dev, s: nat) {
    s in d.tracked && s < |d.src| && s < |d.dst| && d.src[s] != d.dst[s] && !Owed(d, s)
  }

  /** However a backup went, a worker that is gone has forgotten nothing, so that its device
      is fit for an incremental backup, unless it died while copying; and then what it
      forgot lies in the part of its last interval it had not copied, and in the history. */
  lemma OnlyFailedCopiesForget(states: seq<Sys>, acts: seq<Act>, w: nat, k: nat, s: nat)
    requires IsRun(states, acts) && k < |states| && w < |states[k].devs|
    requires Gone(states[k].devs[w].w.pc) && Forgotten(states[k].devs[w], s)
    ensures var d := states[k].devs[w];
            d.w.pc == Died(true) && Base(d.w) <= s < d.w.interval.upper && At(d.store.synced, s) != 0
  {
    RunInv(states, acts, k);
    NoWriteIsLost(states, acts, w, k, s);
  }

  // ---- A backup that does forget ----

  const ERROR := C.BackupError("Error reading from source", "")

  function Disk(pc: Pc): Dev {
    Dev([8], [7], 1, Store(10, [Segment(0, 1, 5)], [], 0), multiset{}, {0}, IDLE,
        Worker(pc, 0, 0, false, Interval(0, 0), false, 0, [], 0, 0, 0), 0, 0)
  }

  function One(d: Dev, coord: C.Coord, main: Main): Sys { Sys([d], coord, 0, 20, main) }

  const RUNNING := C.Coord(1, false, [])
  const FAILED := C.Coord(1, true, [ERROR])
  const D0 := Disk(Ready)
  const D1 := Disk(Opening).(initCount := 1)
  const BEGINNING := Past(One(D0, RUNNING, Preparing), [])

  lemma PutOne(d: Dev, e: Dev, coord: C.Coord, main: Main)
    ensures Put(One(d, coord, main), 0, e) == One(e, coord, main)
  {
    assert [d][0 := e] == [e];
  }

  lemma SegmentFacts()
    ensures Canonical([Segment(0, 1, 5)]) && Count([Segment(0, 1, 5)]) == 1
  {
    assert [Segment(0, 1, 5)][1..] == [];
  }

  lemma Launched()
    ensures Reaches(BEGINNING, One(D1, RUNNING, Waiting))
  {
    SegmentFacts();
    assert Owed(D0, 0);
    assert InitDev(D0);
    BeginsAt(One(D0, RUNNING, Preparing));
    assert [D0][0 := D1] == [D1];
    Onward(BEGINNING, One(D0, RUNNING, Preparing), MainStep, One(D0, RUNNING, Spawning(0)));
    Onward(BEGINNING, One(D0, RUNNING, Spawning(0)), MainStep, One(D1, RUNNING, Spawning(1)));
    Onward(BEGINNING, One(D1, RUNNING, Spawning(1)), MainStep, One(D1, RUNNING, Waiting));
  }

  const D2 := Counted(D1, 20).(w := Counted(D1, 20).w.(pc := Get))

  lemma CountedOne()
    ensures Reaches(BEGINNING, One(D2, RUNNING, Waiting))
  {
    Launched();
    SegmentFacts();
    var s := One(D1, RUNNING, Waiting);
    PutOne(D1, D1, RUNNING, Waiting);
    PutOne(D1, D2, RUNNING, Waiting);
    FirstCount(BEGINNING, s, 0, D1);
    LoopOnward(BEGINNING, s, 0, Counted(D1, 20), D2);
  }

  const D3 := Taken(D2).(w := Taken(D2).w.(pc := Throw(true)))

  // The interval is taken out of the store, and the read of its block fails.
  lemma ReadFailed()
    ensures Reaches(BEGINNING, One(D3, RUNNING, Waiting)) && D3.store.Valid()
  {
    CountedOne();
    SegmentFacts();
    var s := One(D2, RUNNING, Waiting);
    PutOne(D2, D2, RUNNING, Waiting);
    PutOne(D2, D3, RUNNING, Waiting);
    TakeOut(BEGINNING, s, 0, D2, 5);
    var a := Taken(D2);
    assert a.store.Valid() by { assert a.store.synced[1..] == []; }
    var b := a.(w := a.w.(pc := BlockRead));
    CopyOnward(BEGINNING, s, 0, a, b);
    DeviceOnward(BEGINNING, s, 0, b, Fail, D3);
  }

  const D4 := D3.(w := D3.w.(pc := Died(true)))

  lemma WorkerGone()
    ensures Reaches(BEGINNING, One(D4, FAILED, Joining)) && D4.store.Valid()
  {
    ReadFailed();
    var s, t := One(D3, RUNNING, Waiting), One(D3, FAILED, Waiting);
    PutOne(D3, D3, RUNNING, Waiting);
    PutOne(D3, D4, FAILED, Waiting);
    assert RUNNING.errors + [ERROR] == [ERROR];
    TalkOnward(BEGINNING, s, D3, Raise(0, ERROR), t, D4);
    Onward(BEGINNING, One(D4, FAILED, Waiting), MainStep, One(D4, FAILED, Joining));
  }

  lemma FailureReported() returns (text: string)
    ensures Reaches(BEGINNING, One(D4, FAILED, Reported(Outcome.Failed(text))))
  {
    WorkerGone();
    text := ErrorText([ERROR]);
    ErrorTextEmptyIff([ERROR]);
    Onward(BEGINNING, One(D4, FAILED, Joining), MainStep, One(D4, FAILED, Collecting));
    Onward(BEGINNING, One(D4, FAILED, Collecting), MainStep, One(D4, FAILED, Judging(text)));
    Onward(BEGINNING, One(D4, FAILED, Judging(text)), MainStep, One(D4, FAILED, Reported(Outcome.Failed(text))));
  }

  ghost predicate EndsForgetful(states: seq<Sys>, acts: seq<Act>) {
    && IsRun(states, acts) && states[|acts|].main.Reported? && states[|acts|].main.outcome.Failed?
    && |states[|acts|].devs| == 1 && Forgotten(states[|acts|].devs[0], 0)
  }

  /** An incremental backup, properly started, that fails in one block read and is reported
      failed: its sector is out of date at the destination, and neither the store nor any
      trace says so, so that the next incremental backup will not copy it. */
  lemma ForgettingIsReachable()
    ensures exists states: seq<Sys>, acts: seq<Act> :: EndsForgetful(states, acts)
  {
    var text := FailureReported();
    var t := One(D4, FAILED, Reported(Outcome.Failed(text)));
    var states: seq<Sys>, acts: seq<Act> :| RunFrom(BEGINNING, states, acts, t);
    assert t.devs[0] == D4;
    assert EndsForgetful(states, acts);
  }
}
