/** What a run reports, told from its steps alone, and what a cancellation does. */
module RunOutcome {
  import D = DeviceSync
  import opened DeviceSync
  import opened NoLostWrite
  import opened BackupOutcome
  import opened BackupRun
  import opened BackupHistory
  import opened BackupSuccess
  import opened FullBackup
  import C = Coordinator

  // A request to stop the backup, or an exception out of a worker.
  predicate Stops(a: Act) { a.CancelBackup? || a.Raise? }

  function RaisedBy(a: Act): seq<C.BackupError> { if a.Raise? then [a.e] else [] }

  // The errors raised, in order.
  function Raised(acts: seq<Act>): seq<C.BackupError> {
    if acts == [] then [] else Raised(acts[..|acts| - 1]) + RaisedBy(acts[|acts| - 1])
  }

  // How step a changes what the coordinator knows of failures.
  predicate Records(c: C.Coord, d: C.Coord, a: Act) {
    d.errors == c.errors + RaisedBy(a) && (d.cancelled <==> c.cancelled || Stops(a))
  }

  lemma CoordStep(s: Sys, a: Act)
    requires Stores(s) && CanTake(s, a)
    ensures Records(s.coord, Take(s, a).coord, a)
  {
    assert s.coord.errors + [] == s.coord.errors;
  }

  lemma {:induction false} RecordsAlong(coords: seq<C.Coord>, acts: seq<Act>, k: nat)
    requires |coords| == |acts| + 1 && k < |coords| && coords[0].errors == [] && !coords[0].cancelled
    requires forall p :: 0 <= p < |acts| ==> Records(coords[p], coords[p + 1], acts[p])
    ensures coords[k].errors == Raised(acts[..k])
    ensures coords[k].cancelled <==> exists i :: 0 <= i < k && Stops(acts[i])
    decreases k
  {
    if k > 0 {
      RecordsAlong(coords, acts, k - 1);
      assert Records(coords[k - 1], coords[k - 1 + 1], acts[k - 1]);
      assert acts[..k][..k - 1] == acts[..k - 1] && acts[..k][k - 1] == acts[k - 1];
    }
  }

  /** The coordinator holds exactly the errors raised, in order, and is cancelled exactly when
      somebody asked for it or a worker failed. */
  lemma CoordOfRun(states: seq<Sys>, acts: seq<Act>, k: nat)
    requires IsRun(states, acts) && k < |states|
    ensures states[k].coord.errors == Raised(acts[..k])
    ensures states[k].coord.cancelled <==> exists i :: 0 <= i < k && Stops(acts[i])
  {
    var coords := seq(|states|, p requires 0 <= p < |states| => states[p].coord);
    forall p | 0 <= p < |acts| ensures Records(coords[p], coords[p + 1], acts[p]) {
      assert CanTake(states[p], acts[p]) && states[p + 1] == Take(states[p], acts[p]);
      CoordStep(states[p], acts[p]);
    }
    RecordsAlong(coords, acts, k);
  }

  // ---- The report ----

  predicate JudgesErrors(s: Sys) { s.main.Judging? ==> s.main.text == ErrorText(s.coord.errors) }

  lemma StepJudges(s: Sys, a: Act)
    requires Stores(s) && MainInv(s) && CanTake(s, a) && JudgesErrors(s)
    ensures JudgesErrors(Take(s, a))
  {
    if a.Raise? { assert !Gone(s.devs[a.w].w.pc); }
  }

  lemma {:induction false} RunJudges(states: seq<Sys>, acts: seq<Act>, k: nat)
    requires IsRun(states, acts) && k < |states|
    ensures JudgesErrors(states[k])
    decreases k
  {
    if k > 0 {
      RunJudges(states, acts, k - 1);
      RunInv(states, acts, k - 1);
      assert CanTake(states[k - 1], acts[k - 1]) && states[k - 1 + 1] == Take(states[k - 1], acts[k - 1]);
      StepJudges(states[k - 1], acts[k - 1]);
    }
  }

  const BLANK := C.BackupError("", "")

  /** The report, in step k, is of the whole run: success exactly when nobody cancelled and no
      worker failed; failure exactly when a worker raised an error that is not blank, and then
      its text is that of all errors raised; and otherwise cancelled. */
  lemma ReportIsOfTheRun(states: seq<Sys>, acts: seq<Act>, k: nat)
    requires IsRun(states, acts) && k < |acts| && acts[k].MainStep? && states[k].main.Judging?
    ensures states[k + 1].main.Reported?
    ensures var o := states[k + 1].main.outcome;
            && (o.Succeeded? <==> forall i :: 0 <= i < k ==> !Stops(acts[i]))
            && (o.Failed? <==> exists e :: e in Raised(acts[..k]) && e != BLANK)
            && (o.Failed? ==> o.text == ErrorText(Raised(acts[..k])))
            && (o.Cancelled? <==> (exists i :: 0 <= i < k && Stops(acts[i]))
                                  && forall e :: e in Raised(acts[..k]) ==> e == BLANK)
  {
    ReportedAt(states, acts, k);
    CoordOfRun(states, acts, k);
    ErrorsMeanCancelled(states, acts, k);
    OutcomeOf(states[k].coord);
  }

  lemma ReportedAt(states: seq<Sys>, acts: seq<Act>, k: nat)
    requires IsRun(states, acts) && k < |acts| && acts[k].MainStep? && states[k].main.Judging?
    ensures states[k + 1].main == Reported(Judge(ErrorText(states[k].coord.errors), states[k].coord.cancelled))
  {
    RunJudges(states, acts, k);
    assert states[k + 1] == Take(states[k], acts[k]);
  }

  lemma OutcomeOf(c: C.Coord)
    requires c.errors != [] ==> c.cancelled
    ensures var o := Judge(ErrorText(c.errors), c.cancelled);
            && (o.Succeeded? <==> !c.cancelled)
            && (o.Failed? <==> exists e :: e in c.errors && e != BLANK)
            && (o.Failed? ==> o.text == ErrorText(c.errors))
            && (o.Cancelled? <==> c.cancelled && forall e :: e in c.errors ==> e == BLANK)
  {
    OutcomeMeans(c);
    if k :| 0 <= k < |c.errors| && c.errors[k] != BLANK { assert c.errors[k] in c.errors; }
    if e :| e in c.errors && e != BLANK {
      var k :| 0 <= k < |c.errors| && c.errors[k] == e;
    }
  }

  lemma ErrorsMeanCancelled(states: seq<Sys>, acts: seq<Act>, k: nat)
    requires IsRun(states, acts) && k < |states|
    ensures states[k].coord.errors != [] ==> states[k].coord.cancelled
  {
    RunInv(states, acts, k);
  }

  /** A cancellation, or an error, before the report excludes success. */
  lemma StopExcludesSuccess(states: seq<Sys>, acts: seq<Act>, i: nat, k: nat)
    requires IsRun(states, acts) && i < k && i < |acts| && Stops(acts[i])
    ensures !ReportsSuccess(states, acts, k)
  {
    if k < |acts| && acts[k].MainStep? && states[k].main.Judging? { ReportIsOfTheRun(states, acts, k); }
  }

  // ---- Before the report ----

  predicate PastWait(m: Main) { m.Joining? || m.Collecting? || m.Judging? || m.Reported? }

  lemma MainMoves(s: Sys, a: Act)
    requires Stores(s) && CanTake(s, a) && PastWait(Take(s, a).main)
    ensures PastWait(s.main) || (a.MainStep? && s.main.Waiting? && (s.coord.count == 0 || s.coord.cancelled))
  {
  }

  lemma {:induction false} FindWaitEnd(states: seq<Sys>, acts: seq<Act>, k: nat) returns (m: nat)
    requires IsRun(states, acts) && k < |states| && PastWait(states[k].main)
    ensures m < k && acts[m].MainStep? && states[m].main.Waiting?
    ensures states[m].coord.count == 0 || states[m].coord.cancelled
    decreases k
  {
    if k == 0 {
      assert false;
    } else {
      assert CanTake(states[k - 1], acts[k - 1]) && states[k - 1 + 1] == Take(states[k - 1], acts[k - 1]);
      MainMoves(states[k - 1], acts[k - 1]);
      if PastWait(states[k - 1].main) {
        m := FindWaitEnd(states, acts, k - 1);
      } else {
        m := k - 1;
      }
    }
  }

  // Every worker up to the one being spawned has been launched.
  predicate Launched(s: Sys) {
    && (s.main.Spawning? ==> forall w :: 0 <= w < |s.devs| && w < s.main.k ==> !Building(s.devs[w].w.pc))
    && (s.main.Waiting? || PastWait(s.main) ==> forall w :: 0 <= w < |s.devs| ==> !Building(s.devs[w].w.pc))
  }

  lemma MainLaunches(s: Sys)
    requires MainInv(s) && CanMain(s) && Launched(s)
    ensures Launched(DoMain(s))
  {
  }

  lemma StepLaunches(s: Sys, a: Act)
    requires Inv(s) && CanTake(s, a) && |Take(s, a).devs| == |s.devs| && Launched(s)
    ensures Launched(Take(s, a))
  {
    if a.MainStep? {
      MainLaunches(s);
    } else {
      assert Take(s, a).main == s.main;
      forall w | 0 <= w < |s.devs| && !Building(s.devs[w].w.pc) ensures !Building(Take(s, a).devs[w].w.pc) {
        StepGrows(s, a, w);
      }
    }
  }

  lemma {:induction false} RunLaunches(states: seq<Sys>, acts: seq<Act>, k: nat)
    requires IsRun(states, acts) && k < |states|
    ensures Launched(states[k])
    decreases k
  {
    if k > 0 {
      RunLaunches(states, acts, k - 1);
      RunInv(states, acts, 0);
      RunSteps(states, acts, 0);
      assert StepOf(states[k - 1], acts[k - 1], states[k - 1 + 1]);
      StepLaunches(states[k - 1], acts[k - 1]);
    }
  }

  /** The report comes after every worker was launched, after the wait, in step m, found the
      workers finished or the backup cancelled, and after every worker is gone. */
  lemma ReportComesLast(states: seq<Sys>, acts: seq<Act>, k: nat) returns (m: nat)
    requires IsRun(states, acts) && k < |states| && (states[k].main.Judging? || states[k].main.Reported?)
    ensures m < k && acts[m].MainStep? && states[m].main.Waiting?
    ensures states[m].coord.count == 0 || states[m].coord.cancelled
    ensures forall w :: 0 <= w < |states[m].devs| ==> !Building(states[m].devs[w].w.pc)
    ensures forall w :: 0 <= w < |states[k].devs| ==>
              var pc := states[k].devs[w].w.pc; pc.Broke? || pc.Returned? || pc.Died?
  {
    m := FindWaitEnd(states, acts, k);
    RunLaunches(states, acts, m);
    RunInv(states, acts, k);
    forall w | 0 <= w < |states[k].devs|
      ensures var pc := states[k].devs[w].w.pc; pc.Broke? || pc.Returned? || pc.Died?
    {
      assert Gone(states[k].devs[w].w.pc);
    }
  }

  // ---- Cancelling ----

  // A worker that is gone does nothing more.
  predicate StaysGone(d: Dev, e: Dev) { Gone(d.w.pc) ==> e.w == d.w && e.dst == d.dst }

  lemma DeviceStaysGone(d: Dev, x: DevAction, now: int)
    requires d.store.Valid() && D.Enabled(d, x)
    ensures StaysGone(d, D.Step(d, x, now))
  {
    if Gone(d.w.pc) { assert !CanWork(d) && !CanFail(d) && !CanBuild(d, x); }
  }

  lemma StepStaysGone(s: Sys, a: Act, w: nat)
    requires Stores(s) && MainInv(s) && CanTake(s, a) && w < |s.devs| && |Take(s, a).devs| == |s.devs|
    ensures StaysGone(s.devs[w], Take(s, a).devs[w])
  {
    match a
    case Device(v, x) => if v == w { DeviceStaysGone(s.devs[w], x, s.now); }
    case MainStep => MainSeenFrom(s, w);
    case Tick(_) | CancelBackup =>
    case _ =>
  }

  lemma {:induction false} GoneAlong(ds: seq<Dev>, i: nat, k: nat)
    requires i <= k < |ds| && Gone(ds[i].w.pc) && forall p :: 0 <= p < |ds| - 1 ==> StaysGone(ds[p], ds[p + 1])
    ensures ds[k].w == ds[i].w && ds[k].dst == ds[i].dst
    decreases k
  {
    if i < k {
      GoneAlong(ds, i, k - 1);
      assert StaysGone(ds[k - 1], ds[k - 1 + 1]);
    }
  }

  lemma CheckedAt(s: Sys, w: nat)
    requires Stores(s) && CanTake(s, CheckCancelled(w))
    ensures w < |s.devs| && w < |Take(s, CheckCancelled(w)).devs|
    ensures var d, e := s.devs[w], Take(s, CheckCancelled(w)).devs[w];
            && e == d.(w := e.w)
            && (s.coord.cancelled <==> e.w.pc.Returned?) && (!s.coord.cancelled <==> e.w.pc.ReadCount?)
  {
  }

  /** At the top of its loop a worker leaves exactly when the backup was cancelled or a worker
      failed before, and starts another turn otherwise; once it left it copies nothing more. */
  lemma CancelledWorkersLeave(states: seq<Sys>, acts: seq<Act>, w: nat, k: nat, n: nat)
    requires IsRun(states, acts) && k < n < |states| && w < |states[0].devs| && acts[k] == CheckCancelled(w)
    ensures w < |states[k].devs| && w < |states[k + 1].devs| && w < |states[n].devs|
    ensures states[k + 1].devs[w].w.pc.Returned? <==> exists i :: 0 <= i < k && Stops(acts[i])
    ensures states[k + 1].devs[w].w.pc.ReadCount? <==> forall i :: 0 <= i < k ==> !Stops(acts[i])
    ensures states[k + 1].devs[w].w.pc.Returned? ==>
              states[n].devs[w].w.pc.Returned? && states[n].devs[w].dst == states[k].devs[w].dst
  {
    RunSteps(states, acts, w);
    assert StepOf(states[k], acts[k], states[k + 1]);
    CoordOfRun(states, acts, k);
    CheckedAt(states[k], w);
    if states[k + 1].devs[w].w.pc.Returned? { GoneSince(states, acts, w, k + 1, n); }
  }

  lemma GoneSince(states: seq<Sys>, acts: seq<Act>, w: nat, i: nat, k: nat)
    requires IsRun(states, acts) && i <= k < |states| && w < |states[0].devs|
    requires w < |states[i].devs| && Gone(states[i].devs[w].w.pc)
    ensures w < |states[k].devs|
    ensures states[k].devs[w].w == states[i].devs[w].w && states[k].devs[w].dst == states[i].devs[w].dst
  {
    RunSteps(states, acts, w);
    var ds := DevsOf(states, w);
    forall p | 0 <= p < |acts| ensures StaysGone(ds[p], ds[p + 1]) {
      assert StepOf(states[p], acts[p], states[p + 1]);
      StepStaysGone(states[p], acts[p], w);
    }
    GoneAlong(ds, i, k);
  }
}
