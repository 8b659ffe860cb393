/** The backup coordinator: a 32-bit count of the workers still working, and the
protocol by which any number of workers agree that they are finished together.
*/
module Coordinator {
  import opened MachineIntegers

  datatype BackupError = BackupError(text: string, source: string)

  datatype Coord = Coord(count: nat, cancelled: bool, errors: seq<BackupError>)

  function NewCoord(numWorkers: nat): Coord { Coord(numWorkers % TWO_32, false, []) }

  function SignalFinished(c: Coord): Coord { c.(count := (c.count + TWO_32 - 1) % TWO_32) }

  predicate Permits(c: Coord) { !c.cancelled && c.count != 0 }

  function SignalMoreWorkToDo(c: Coord): Coord {
    if Permits(c) then c.(count := (c.count + 1) % TWO_32) else c
  }

  function AddFatalError(c: Coord, e: BackupError): Coord {
    c.(errors := c.errors + [e], cancelled := true)
  }

  function Cancel(c: Coord): Coord { c.(cancelled := true) }

  // The condition WaitUntilFinished waits for, and returns.
  predicate Finished(c: Coord) { c.count == 0 || c.cancelled }

  // ---- The workers' protocol ----

  // done[w]: worker w has signalled finished and not resumed; left[w]: it saw the wait
  // succeed and left its loop; refusals: resume calls that were answered with false.
  datatype Protocol = Protocol(coord: Coord, done: seq<bool>, left: seq<bool>, refusals: nat) {
    predicate Shaped() { |left| == |done| && 0 < |done| < TWO_32 }
  }

  // Idle stands for anything a worker does without the coordinator.
  datatype Action = Finish(w: nat) | More(w: nat) | Leave(w: nat) | Cancelled | Failed(e: BackupError) | Idle

  function Start(n: nat): Protocol {
    Protocol(NewCoord(n), seq(n, _ => false), seq(n, _ => false), 0)
  }

  predicate Enabled(p: Protocol, a: Action)
    requires p.Shaped()
  {
    match a
    case Finish(w) => w < |p.done| && !p.left[w] && !p.done[w]
    case More(w) => w < |p.done| && !p.left[w] && p.done[w]
    case Leave(w) => w < |p.done| && !p.left[w] && p.done[w] && Finished(p.coord)
    case Cancelled | Failed(_) | Idle => true
  }

  // More follows the source: the answer of the resume call is discarded.
  function Step(p: Protocol, a: Action): (q: Protocol)
    requires p.Shaped() && Enabled(p, a)
    ensures q.Shaped() && |q.done| == |p.done|
  {
    match a
    case Finish(w) => p.(coord := SignalFinished(p.coord), done := p.done[w := true])
    case More(w) =>
      p.(coord := SignalMoreWorkToDo(p.coord), done := p.done[w := false],
         refusals := if Permits(p.coord) then p.refusals else p.refusals + 1)
    case Leave(w) => p.(left := p.left[w := true])
    case Cancelled => p.(coord := Cancel(p.coord))
    case Failed(e) => p.(coord := AddFatalError(p.coord, e))
    case Idle => p
  }

  function NotDone(done: seq<bool>): nat {
    if done == [] then 0 else (if done[0] then 0 else 1) + NotDone(done[1..])
  }

  predicate All(b: seq<bool>) { forall w :: 0 <= w < |b| ==> b[w] }

  lemma {:induction false} NotDoneUpdate(done: seq<bool>, w: nat, b: bool)
    requires w < |done|
    ensures NotDone(done[w := b]) == NotDone(done) + (if done[w] then 1 else 0) - (if b then 1 else 0)
    decreases |done|
  {
    if w > 0 {
      assert done[w := b][1..] == done[1..][w - 1 := b];
      NotDoneUpdate(done[1..], w - 1, b);
    } else {
      assert done[w := b][1..] == done[1..];
    }
  }

  lemma {:induction false} NotDoneBounds(done: seq<bool>)
    ensures NotDone(done) <= |done|
    ensures NotDone(done) == 0 <==> All(done)
    ensures forall w :: 0 <= w < |done| && done[w] ==> NotDone(done) < |done|
    decreases |done|
  {
    if done != [] {
      var rest := done[1..];
      NotDoneBounds(rest);
      forall w | 0 <= w < |done| && done[w] ensures NotDone(done) < |done| {
        if w > 0 { assert rest[w - 1]; }
      }
      if All(done) {
        forall w | 0 <= w < |rest| ensures rest[w] { assert done[w + 1]; }
      }
      if done[0] && All(rest) {
        forall w | 0 <= w < |done| ensures done[w] { if w > 0 { assert rest[w - 1]; } }
      }
    }
  }

  predicate Inv(p: Protocol) {
    && p.Shaped()
    && p.coord.count == (NotDone(p.done) - p.refusals) % TWO_32
    && (!p.coord.cancelled ==> p.refusals <= |p.done| && p.coord.errors == [])
    && (forall w :: 0 <= w < |p.left| && p.left[w] ==> p.done[w])
    && (All(p.left) && !p.coord.cancelled ==> p.coord.count == 0)
  }

  lemma {:induction false} StartNotDone(n: nat)
    ensures NotDone(seq(n, _ => false)) == n
    decreases n
  {
    if n > 0 {
      StartNotDone(n - 1);
      assert seq(n, _ => false)[1..] == seq(n - 1, _ => false);
    }
  }

  lemma StartInv(n: nat)
    requires 0 < n < TWO_32
    ensures Inv(Start(n))
  {
    StartNotDone(n);
    assert !Start(n).left[0];
  }

  lemma ModDown(x: int, c: nat)
    requires c == x % TWO_32
    ensures (c + TWO_32 - 1) % TWO_32 == (x - 1) % TWO_32
  {
  }

  lemma ModUp(x: int, c: nat)
    requires c == x % TWO_32
    ensures (c + 1) % TWO_32 == (x + 1) % TWO_32
  {
  }

  // A small difference that is 0 modulo 2^32 is 0.
  lemma ModZero(a: nat, b: nat)
    requires a < TWO_32 && b < TWO_32 && (a - b) % TWO_32 == 0
    ensures a == b
  {
  }

  lemma FinishInv(p: Protocol, w: nat)
    requires Inv(p) && Enabled(p, Finish(w))
    ensures Inv(Step(p, Finish(w)))
  {
    NotDoneUpdate(p.done, w, true);
    ModDown(NotDone(p.done) - p.refusals, p.coord.count);
    assert !Step(p, Finish(w)).left[w];
  }

  lemma MoreInv(p: Protocol, w: nat)
    requires Inv(p) && Enabled(p, More(w))
    ensures Inv(Step(p, More(w)))
  {
    NotDoneUpdate(p.done, w, false);
    NotDoneBounds(p.done);
    assert p.done[w] && !Step(p, More(w)).left[w];
    if Permits(p.coord) {
      ModUp(NotDone(p.done) - p.refusals, p.coord.count);
    } else if !p.coord.cancelled {
      ModZero(NotDone(p.done), p.refusals);
    }
  }

  lemma StepInv(p: Protocol, a: Action)
    requires Inv(p) && Enabled(p, a)
    ensures Inv(Step(p, a))
    ensures p.refusals <= Step(p, a).refusals
    ensures p.coord.cancelled ==> Step(p, a).coord.cancelled
  {
    match a
    case Finish(w) => FinishInv(p, w);
    case More(w) => MoreInv(p, w);
    case _ =>
  }

  ghost predicate IsRun(states: seq<Protocol>, acts: seq<Action>) {
    && |states| == |acts| + 1
    && 0 < |states[0].done| < TWO_32 && states[0] == Start(|states[0].done|)
    && (forall k :: 0 <= k < |states| ==> states[k].Shaped())
    && forall k :: 0 <= k < |acts| ==> Enabled(states[k], acts[k]) && states[k + 1] == Step(states[k], acts[k])
  }

  lemma {:induction false} RunInv(states: seq<Protocol>, acts: seq<Action>, k: nat)
    requires IsRun(states, acts) && k < |states|
    ensures Inv(states[k]) && |states[k].done| == |states[0].done|
    decreases k
  {
    if k == 0 {
      StartInv(|states[0].done|);
    } else {
      RunInv(states, acts, k - 1);
      assert states[k - 1 + 1] == Step(states[k - 1], acts[k - 1]);
      StepInv(states[k - 1], acts[k - 1]);
    }
  }

  lemma {:induction false} RunMonotone(states: seq<Protocol>, acts: seq<Action>, j: nat, k: nat)
    requires IsRun(states, acts) && j <= k < |states|
    ensures states[j].refusals <= states[k].refusals
    ensures states[j].coord.cancelled ==> states[k].coord.cancelled
    decreases k
  {
    if j < k {
      RunInv(states, acts, k - 1);
      assert states[k - 1 + 1] == Step(states[k - 1], acts[k - 1]);
      StepInv(states[k - 1], acts[k - 1]);
      RunMonotone(states, acts, j, k - 1);
    }
  }

  /** In every reachable uncancelled state the count is the number of workers not done
      exactly when no worker was ever refused; then it cannot underflow, and it is zero
      only when all of them are done together. */
  lemma CountIsNotDoneIff(states: seq<Protocol>, acts: seq<Action>, k: nat)
    requires IsRun(states, acts) && k < |states| && !states[k].coord.cancelled
    ensures var p := states[k];
            && (p.coord.count == NotDone(p.done) <==> p.refusals == 0)
            && (p.refusals == 0 ==> (p.coord.count == 0 <==> All(p.done)))
            && (p.refusals == 0 && k < |acts| && acts[k].Finish? ==> p.coord.count > 0)
  {
    RunInv(states, acts, k);
    var p := states[k];
    NotDoneBounds(p.done);
    if p.refusals == 0 {
      assert NotDone(p.done) % TWO_32 == NotDone(p.done);
    } else if p.coord.count == NotDone(p.done) {
      ModSame(NotDone(p.done), p.refusals);
    }
    if k < |acts| && acts[k].Finish? { assert !p.done[acts[k].w]; }
  }

  lemma ModSame(a: nat, b: nat)
    requires a < TWO_32 && b < TWO_32 && (a - b) % TWO_32 == a
    ensures b == 0
  {
  }

  /** Up to and including the first zero, in an uncancelled run, nobody has been refused and
      the count is exactly the number of workers not done. */
  lemma {:induction false} CountIsExactUntilZero(states: seq<Protocol>, acts: seq<Action>, k: nat)
    requires IsRun(states, acts) && k < |states| && !states[k].coord.cancelled
    requires forall j :: 0 <= j < k ==> states[j].coord.count > 0
    ensures states[k].refusals == 0 && states[k].coord.count == NotDone(states[k].done)
    decreases k
  {
    if k > 0 {
      RunMonotone(states, acts, k - 1, k);
      CountIsExactUntilZero(states, acts, k - 1);
      assert states[k - 1 + 1] == Step(states[k - 1], acts[k - 1]);
    }
    CountIsNotDoneIff(states, acts, k);
  }

  /** Simultaneous finish: if every worker has left and nothing cancelled the backup, then
      no worker was ever refused, the count was exact and first became zero at a moment m
      when all workers were done, and from m on none of them resumed. */
  lemma AllLeftMeansFinishedTogether(states: seq<Protocol>, acts: seq<Action>, k: nat) returns (m: nat)
    requires IsRun(states, acts) && k < |states|
    requires All(states[k].left) && !states[k].coord.cancelled
    ensures 0 < m <= k
    ensures forall j :: 0 <= j <= k ==> states[j].refusals == 0 && states[j].coord.count == NotDone(states[j].done)
    ensures forall j :: 0 <= j < m ==> states[j].coord.count > 0
    ensures forall j :: m <= j <= k ==> states[j].coord.count == 0 && All(states[j].done)
    ensures acts[m - 1].Finish?
  {
    RunInv(states, acts, k);
    var p := states[k];
    assert All(p.done) by {
      forall w | 0 <= w < |p.done| ensures p.done[w] { assert p.left[w]; }
    }
    NotDoneBounds(p.done);
    ModZero(0, p.refusals);
    forall j | 0 <= j <= k ensures states[j].refusals == 0 && states[j].coord.count == NotDone(states[j].done) {
      RunMonotone(states, acts, j, k);
      CountIsNotDoneIff(states, acts, j);
    }
    m := FirstZero(states, acts, k);
  }

  lemma {:induction false} FirstZero(states: seq<Protocol>, acts: seq<Action>, k: nat) returns (m: nat)
    requires IsRun(states, acts) && k < |states|
    requires forall j :: 0 <= j <= k ==> states[j].refusals == 0 && states[j].coord.count == NotDone(states[j].done)
    requires states[k].coord.count == 0
    ensures 0 < m <= k
    ensures forall j :: 0 <= j < m ==> states[j].coord.count > 0
    ensures forall j :: m <= j <= k ==> states[j].coord.count == 0 && All(states[j].done)
    ensures acts[m - 1].Finish?
    decreases k
  {
    NotDoneBounds(states[k].done);
    StartNotDone(|states[0].done|);
    if k == 0 {
      assert false;
    } else {
      assert states[k - 1 + 1] == Step(states[k - 1], acts[k - 1]);
      if states[k - 1].coord.count == 0 {
        m := FirstZero(states, acts, k - 1);
      } else {
        m := k;
        assert acts[k - 1].More? ==> !states[k].done[acts[k - 1].w];
        NoZeroBefore(states, acts, k);
      }
    }
  }

  // While nobody has been refused, a count that is positive was never zero before.
  lemma {:induction false} NoZeroBefore(states: seq<Protocol>, acts: seq<Action>, k: nat)
    requires IsRun(states, acts) && 0 < k < |states|
    requires forall j :: 0 <= j <= k ==> states[j].refusals == 0 && states[j].coord.count == NotDone(states[j].done)
    requires states[k - 1].coord.count > 0
    ensures forall j :: 0 <= j < k ==> states[j].coord.count > 0
    decreases k
  {
    if k > 1 {
      var p := states[k - 2];
      assert states[k - 2 + 1] == Step(p, acts[k - 2]);
      NotDoneBounds(p.done);
      NoZeroBefore(states, acts, k - 1);
    }
  }

  // Worker w has asked to resume at some step from m up to, not including, k.
  predicate ResumedSince(acts: seq<Action>, w: nat, m: nat, k: nat)
    requires k <= |acts|
  {
    exists i :: m <= i < k && acts[i] == More(w)
  }

  /** Once the count is zero with nobody refused, it and the wait's answer stay so until a
      worker that has resumed since, and so was refused, signals finished again; and the
      workers not done are all among those. */
  lemma {:induction false} ZeroIsStable(states: seq<Protocol>, acts: seq<Action>, m: nat, k: nat)
    requires IsRun(states, acts) && m <= k < |states| && states[m].coord.count == 0 && states[m].refusals == 0
    requires forall i :: m <= i < k && acts[i].Finish? ==> !ResumedSince(acts, acts[i].w, m, i)
    ensures states[k].coord.count == 0 && Finished(states[k].coord)
    ensures forall w :: 0 <= w < |states[k].done| && !states[k].done[w] ==> ResumedSince(acts, w, m, k)
    decreases k
  {
    if m == k {
      RunInv(states, acts, m);
      NotDoneBounds(states[m].done);
      ModZero(NotDone(states[m].done), 0);
    } else {
      var p, a := states[k - 1], acts[k - 1];
      ZeroIsStable(states, acts, m, k - 1);
      assert Enabled(p, a) && states[k - 1 + 1] == Step(p, a);
      assert !a.Finish?;
      forall w | 0 <= w < |states[k].done| && !states[k].done[w] ensures ResumedSince(acts, w, m, k) {
        if p.done[w] {
          assert acts[k - 1] == More(w);
        } else {
          var i :| m <= i < k - 1 && acts[i] == More(w);
        }
      }
    }
  }

  /** A refused worker that goes on as if permitted wraps the counter: from any reachable
      uncancelled zero that nobody was refused at, a worker that resumes and finishes again
      leaves the count at 2^32 - 1 with every worker done, and the wait no longer succeeds. */
  lemma RefusedWorkerWraps(p: Protocol, w: nat)
    requires Inv(p) && !p.coord.cancelled && p.coord.count == 0 && p.refusals == 0
    requires w < |p.done| && !p.left[w]
    ensures p.done[w] && Enabled(p, More(w)) && Enabled(Step(p, More(w)), Finish(w))
    ensures var q := Step(Step(p, More(w)), Finish(w));
            q.refusals == 1 && q.coord.count == TWO_32 - 1 && All(q.done) && !Finished(q.coord)
  {
    NotDoneBounds(p.done);
    ModZero(NotDone(p.done), 0);
    assert All(p.done);
  }

  /** After a refusal the workers can never all leave unless the backup is cancelled. */
  lemma RefusalPreventsFinish(states: seq<Protocol>, acts: seq<Action>, j: nat, k: nat)
    requires IsRun(states, acts) && j <= k < |states|
    requires states[j].refusals > 0 && All(states[k].left)
    ensures states[k].coord.cancelled
  {
    if !states[k].coord.cancelled {
      var m := AllLeftMeansFinishedTogether(states, acts, k);
    }
  }
}
