/** Admission of backup jobs: no device is ever part of two jobs in progress.

Each method is one critical section under the map's lock, so every interleaving of
starts, failures, ends, stops and a shutdown is a sequence of these calls. */
module BackupManager {
  import opened CoordinatorObject
  import opened Seeding
  import C = Coordinator

  datatype Vector = Vector(uuid: string)

  datatype Entry = Entry(uuids: set<string>, coordinator: BackupCoordinator)

  datatype StartResult =
    | Started(job: string, workers: nat)
    | TearingDown | NoDevices | AlreadyInProgress | BuilderFailed

  function Uuids(vectors: seq<Vector>): set<string> { set v | v in vectors :: v.uuid }

  predicate Overlaps(jobs: map<string, Entry>, uuids: set<string>) {
    exists j :: j in jobs && !(jobs[j].uuids !! uuids)
  }

  // Jobs in progress share no device, and each has a coordinator of its own.
  predicate Separate(jobs: map<string, Entry>) {
    forall a, b :: a in jobs && b in jobs && a != b ==>
      jobs[a].uuids !! jobs[b].uuids && jobs[a].coordinator != jobs[b].coordinator
  }

  function Stopped(c: C.Coord, stopped: bool): C.Coord { if stopped then C.Cancel(c) else c }

  lemma AddedThenEnded(jobs: map<string, Entry>, job: string, entry: Entry, ended: set<string>)
    requires job !in jobs && job !in ended
    ensures jobs[job := entry] - ended - {job} == jobs - ended
    ensures job in jobs[job := entry] - ended && (jobs[job := entry] - ended)[job] == entry
  {
  }

  class BackupManager {
    var inProgress: map<string, Entry>
    var destructorCalled: bool

    ghost predicate Valid()
      reads this
    {
      Separate(inProgress)
    }

    ghost function Coordinators(): set<BackupCoordinator>
      reads this
    {
      set j | j in inProgress :: inProgress[j].coordinator
    }

    constructor ()
      ensures Valid() && inProgress == map[] && !destructorCalled
    {
      inProgress, destructorCalled := map[], false;
    }

    // Some job in progress has one of the devices.
    method AnyInProgress(toBackup: set<string>) returns (taken: bool)
      ensures taken <==> exists j, u :: j in inProgress && u in inProgress[j].uuids && u in toBackup
    {
      var jobs := inProgress.Keys;
      while jobs != {}
        invariant jobs <= inProgress.Keys
        invariant forall j :: j in inProgress && j !in jobs ==> inProgress[j].uuids !! toBackup
        decreases |jobs|
      {
        var j :| j in jobs;
        var uuids := inProgress[j].uuids;
        while uuids != {}
          invariant uuids <= inProgress[j].uuids
          invariant (inProgress[j].uuids - uuids) !! toBackup
          decreases |uuids|
        {
          var u :| u in uuids;
          if u in toBackup {
            return true;
          }
          uuids := uuids - {u};
        }
        jobs := jobs - {j};
      }
      taken := false;
    }

    method AddToInProgressSet(job: string, vectors: seq<Vector>, coordinator: BackupCoordinator)
      returns (admitted: bool)
      requires Valid() && coordinator !in Coordinators()
      modifies this`inProgress
      ensures Valid()
      ensures admitted <==> !Overlaps(old(inProgress), Uuids(vectors))
      ensures admitted <==>
                forall j, k :: j in old(inProgress) && 0 <= k < |vectors| ==>
                  vectors[k].uuid !in old(inProgress)[j].uuids
      ensures inProgress == TakeJobStep(old(inProgress), Asks(job, Entry(Uuids(vectors), coordinator)))
      ensures admitted ==>
                && job in inProgress && inProgress - {job} == old(inProgress) - {job}
                && inProgress[job].coordinator == coordinator
                && forall u :: u in inProgress[job].uuids <==> exists k :: 0 <= k < |vectors| && vectors[k].uuid == u
      ensures !admitted ==> inProgress == old(inProgress)
    {
      var toBackup: set<string> := {};
      for k := 0 to |vectors|
        invariant toBackup == Uuids(vectors[..k])
      {
        assert vectors[..k + 1] == vectors[..k] + [vectors[k]];
        toBackup := toBackup + {vectors[k].uuid};
      }
      assert vectors[..|vectors|] == vectors;
      assert forall k :: 0 <= k < |vectors| ==> vectors[k] in vectors && vectors[k].uuid in toBackup;
      assert forall u :: u in toBackup ==> exists k :: 0 <= k < |vectors| && vectors[k].uuid == u;
      var taken := AnyInProgress(toBackup);
      if taken {
        return false;
      }
      inProgress := inProgress[job := Entry(toBackup, coordinator)];
      return true;
    }

    // The end of a job, or a start whose builder threw.
    method Erase(job: string)
      requires Valid()
      modifies this`inProgress
      ensures Valid() && inProgress == old(inProgress) - {job} == TakeJobStep(old(inProgress), Ends(job))
    {
      inProgress := inProgress - {job};
    }

    /** Stopping a job cancels its coordinator and no other. */
    method StopBackup(job: string) returns (found: bool)
      requires Valid()
      modifies Coordinators()
      ensures Valid() && found == (job in inProgress)
      ensures found ==> inProgress[job].coordinator.cancelled
      ensures forall j :: j in inProgress ==>
                inProgress[j].coordinator.View()
                == if j == job then C.Cancel(old(inProgress[j].coordinator.View()))
                   else old(inProgress[j].coordinator.View())
    {
      if job !in inProgress {
        return false;
      }
      inProgress[job].coordinator.Cancel();
      return true;
    }

    method CancelAll()
      requires Valid()
      modifies Coordinators()
      ensures Valid()
      ensures forall j :: j in inProgress ==>
                inProgress[j].coordinator.View() == C.Cancel(old(inProgress[j].coordinator.View()))
      ensures forall j :: j in inProgress ==> inProgress[j].coordinator.cancelled
    {
      var jobs := inProgress.Keys;
      while jobs != {}
        invariant jobs <= inProgress.Keys
        invariant forall j :: j in inProgress ==>
                    inProgress[j].coordinator.View()
                    == if j in jobs then old(inProgress[j].coordinator.View())
                       else C.Cancel(old(inProgress[j].coordinator.View()))
        invariant forall j :: j in inProgress && j !in jobs ==> inProgress[j].coordinator.cancelled
        decreases |jobs|
      {
        var j :| j in jobs;
        inProgress[j].coordinator.Cancel();
        jobs := jobs - {j};
      }
    }

    /** Shutting down refuses every later start and cancels every job. */
    method Shutdown()
      requires Valid()
      modifies this`destructorCalled, Coordinators()
      ensures Valid() && destructorCalled && inProgress == old(inProgress)
      ensures forall j :: j in inProgress ==> inProgress[j].coordinator.cancelled
    {
      destructorCalled := true;
      CancelAll();
    }

    // Requests of other threads while this one is outside the map's lock: some jobs are
    // stopped, some end.
    method Meanwhile(stopped: set<string>, ended: set<string>)
      requires Valid()
      modifies this`inProgress, Coordinators()
      ensures Valid() && inProgress == old(inProgress) - ended
      ensures forall j :: j in old(inProgress) ==>
                old(inProgress)[j].coordinator.View()
                == Stopped(old(inProgress[j].coordinator.View()), j in stopped)
    {
      var jobs := stopped;
      while jobs != {}
        invariant jobs <= stopped && inProgress == old(inProgress)
        invariant forall j :: j in inProgress ==>
                    inProgress[j].coordinator.View()
                    == Stopped(old(inProgress[j].coordinator.View()), j in stopped - jobs)
        decreases |jobs|
      {
        var j :| j in jobs;
        var _ := StopBackup(j);
        jobs := jobs - {j};
      }
      inProgress := inProgress - ended;
    }

    // Admission as the start needs it.
    method Admit(job: string, vectors: seq<Vector>, coordinator: BackupCoordinator) returns (admitted: bool)
      requires Valid() && coordinator !in Coordinators()
      modifies this`inProgress
      ensures Valid()
      ensures admitted <==> !Overlaps(old(inProgress), Uuids(vectors))
      ensures inProgress ==
                if admitted then old(inProgress)[job := Entry(Uuids(vectors), coordinator)] else old(inProgress)
    {
      admitted := AddToInProgressSet(job, vectors, coordinator);
    }

    // The build of an admitted job, which is erased again when the builder throws.
    method Build(job: string, vectors: seq<Vector>, built: seq<Built>, stopped: set<string>, ended: set<string>)
      returns (ok: bool, syncs: nat)
      requires Valid() && |built| == |vectors|
      modifies this`inProgress, Coordinators()
      ensures Valid()
      ensures forall j :: j in old(inProgress) ==>
                old(inProgress)[j].coordinator.View()
                == Stopped(old(inProgress[j].coordinator.View()), j in stopped)
      ensures ok <==> forall k :: 0 <= k < |built| ==> built[k].Synchronizer?
      ensures ok ==> syncs == |vectors| && inProgress == old(inProgress) - ended
      ensures !ok ==> inProgress == old(inProgress) - ended - {job}
    {
      Meanwhile(stopped, ended);
      ok, syncs := CreateBackup(vectors, built);
      if !ok {
        Erase(job);
      }
    }

    // A start from its admission on; before are the jobs it was added to.
    method StartAdmitted(job: string, vectors: seq<Vector>, built: seq<Built>, stopped: set<string>, ended: set<string>,
                         ghost before: map<string, Entry>)
      returns (r: StartResult)
      requires Valid() && |built| == |vectors| && job !in before && job !in ended
      requires job in inProgress && inProgress == before[job := inProgress[job]]
      modifies this`inProgress, Coordinators()
      ensures Valid()
      ensures if exists k :: 0 <= k < |built| && !built[k].Synchronizer?
              then r == BuilderFailed && inProgress == before - ended
              else r == Started(job, |vectors|) && inProgress == old(inProgress) - ended
                   && job in inProgress && inProgress[job] == old(inProgress)[job]
                   && inProgress - {job} == before - ended
      ensures forall j :: j in old(inProgress) ==>
                old(inProgress)[j].coordinator.View()
                == Stopped(old(inProgress[j].coordinator.View()), j in stopped)
    {
      AddedThenEnded(before, job, inProgress[job], ended);
      var ok, syncs := Build(job, vectors, built, stopped, ended);
      if !ok {
        return BuilderFailed;
      }
      return Started(job, syncs);
    }

    /** A start is admitted only when no job in progress has one of its devices.  It then
        needs a synchronizer for every vector, and its coordinator counts exactly as many
        workers.  built is what the builder makes of each vector; stopped and ended are the
        jobs that are cancelled and those that end while it is at work.  A refused start
        leaves the jobs as they were, and a failed one leaves exactly those that have not
        ended; a stop that reaches the new job before the call returns is not lost. */
    method StartBackup(job: string, vectors: seq<Vector>, built: seq<Built>, stopped: set<string>, ended: set<string>)
      returns (r: StartResult)
      requires Valid() && job !in inProgress && job !in ended && |built| == |vectors|
      modifies this`inProgress, Coordinators()
      ensures Valid()
      ensures r.TearingDown? <==> destructorCalled
      ensures r.NoDevices? <==> !destructorCalled && vectors == []
      ensures r.AlreadyInProgress? <==>
                !destructorCalled && vectors != [] && Overlaps(old(inProgress), Uuids(vectors))
      ensures r.BuilderFailed? <==>
                && !destructorCalled && vectors != [] && !Overlaps(old(inProgress), Uuids(vectors))
                && exists k :: 0 <= k < |built| && !built[k].Synchronizer?
      ensures r.TearingDown? || r.NoDevices? || r.AlreadyInProgress? ==> inProgress == old(inProgress)
      ensures r.BuilderFailed? ==> inProgress == old(inProgress) - ended
      ensures r.Started? ==>
                && r.job == job && job in inProgress && inProgress - {job} == old(inProgress) - ended
                && inProgress[job].uuids == Uuids(vectors)
                && fresh(inProgress[job].coordinator)
                && r.workers == |vectors|
                && inProgress[job].coordinator.View() == Stopped(C.NewCoord(r.workers), job in stopped)
      ensures forall j :: j in old(inProgress) ==>
                old(inProgress)[j].coordinator.View()
                == Stopped(old(inProgress[j].coordinator.View()), (r.BuilderFailed? || r.Started?) && j in stopped)
    {
      if destructorCalled {
        return TearingDown;
      }
      if |vectors| == 0 {
        return NoDevices;
      }
      var coordinator := new BackupCoordinator(|vectors|);
      var admitted := Admit(job, vectors, coordinator);
      if !admitted {
        return AlreadyInProgress;
      }
      assert Coordinators() <= old(Coordinators()) + {coordinator};
      assert forall j :: j in old(inProgress) ==> inProgress[j] == old(inProgress)[j];
      r := StartAdmitted(job, vectors, built, stopped, ended, old(inProgress));
    }
  }

  /** A backup comes out exactly when every vector gives a synchronizer, one for each; the
      builder stops at the first that does not. */
  method CreateBackup(vectors: seq<Vector>, built: seq<Built>) returns (ok: bool, syncs: nat)
    requires |built| == |vectors|
    ensures ok <==> forall k :: 0 <= k < |built| ==> built[k].Synchronizer?
    ensures ok ==> syncs == |vectors|
    ensures !ok ==> syncs < |built| && !built[syncs].Synchronizer?
                    && forall k :: 0 <= k < syncs ==> built[k].Synchronizer?
  {
    syncs := 0;
    for k := 0 to |vectors|
      invariant syncs == k && forall n :: 0 <= n < k ==> built[n].Synchronizer?
    {
      if !built[k].Synchronizer? {
        return false, syncs;
      }
      syncs := syncs + 1;
    }
    ok := true;
  }

  // ---- Interleavings ----

  // The critical sections that change the jobs: a start asking to be admitted, and the end
  // of a job or of a start whose builder threw.
  datatype JobStep = Asks(job: string, entry: Entry) | Ends(job: string)

  function TakeJobStep(jobs: map<string, Entry>, step: JobStep): map<string, Entry> {
    match step
    case Asks(job, entry) => if Overlaps(jobs, entry.uuids) then jobs else jobs[job := entry]
    case Ends(job) => jobs - {job}
  }

  predicate IsJobRun(states: seq<map<string, Entry>>, steps: seq<JobStep>) {
    && |states| == |steps| + 1 && states[0] == map[]
    && forall k :: 0 <= k < |steps| ==> states[k + 1] == TakeJobStep(states[k], steps[k])
  }

  /** In every interleaving of starts, failures and ends, no device is part of two jobs. */
  lemma {:induction false} JobsStaySeparate(states: seq<map<string, Entry>>, steps: seq<JobStep>, k: nat)
    requires IsJobRun(states, steps) && k < |states|
    ensures forall a, b :: a in states[k] && b in states[k] && a != b ==> states[k][a].uuids !! states[k][b].uuids
    decreases k
  {
    if k > 0 {
      JobsStaySeparate(states, steps, k - 1);
      assert states[k - 1 + 1] == TakeJobStep(states[k - 1], steps[k - 1]);
    }
  }

  function Ended(steps: seq<JobStep>): set<string> { set s | s in steps && s.Ends? :: s.job }

  /** A start that was admitted and then failed, with only ends of other jobs in between
      (starts exclude one another), leaves exactly the jobs that had not ended. */
  lemma {:induction false} FailedStartLeavesOthers(states: seq<map<string, Entry>>, steps: seq<JobStep>, a: nat, b: nat)
    requires IsJobRun(states, steps) && a < b < |steps|
    requires steps[a].Asks? && steps[a].job !in states[a] && steps[b] == Ends(steps[a].job)
    requires forall k :: a < k < b ==> steps[k].Ends?
    ensures states[b + 1] == states[a] - Ended(steps[a + 1..b])
  {
    var job := steps[a].job;
    OnlyEnds(states, steps, a + 1, b);
    assert states[a + 1] == TakeJobStep(states[a], steps[a]);
    assert states[b + 1] == states[b] - {job};
  }

  lemma {:induction false} OnlyEnds(states: seq<map<string, Entry>>, steps: seq<JobStep>, a: nat, b: nat)
    requires IsJobRun(states, steps) && a <= b < |states|
    requires forall k :: a <= k < b ==> steps[k].Ends?
    ensures states[b] == states[a] - Ended(steps[a..b])
    decreases b
  {
    if a < b {
      OnlyEnds(states, steps, a, b - 1);
      assert states[b - 1 + 1] == TakeJobStep(states[b - 1], steps[b - 1]);
      assert steps[a..b] == steps[a..b - 1] + [steps[b - 1]];
      assert Ended(steps[a..b]) == Ended(steps[a..b - 1]) + {steps[b - 1].job};
    } else {
      assert Ended(steps[a..b]) == {};
    }
  }
}
