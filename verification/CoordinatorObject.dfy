/** The coordinator object, in place and proved against Coordinator. */
module CoordinatorObject {
  import opened MachineIntegers
  import C = Coordinator

  class BackupCoordinator {
    var count: nat
    var cancelled: bool
    var fatalErrors: seq<C.BackupError>

    function View(): C.Coord
      reads this
    {
      C.Coord(count, cancelled, fatalErrors)
    }

    // The count is an unsigned int.
    predicate Valid()
      reads this
    {
      count < TWO_32
    }

    constructor (numWorkers: nat)
      ensures Valid() && View() == C.NewCoord(numWorkers)
      ensures numWorkers < TWO_32 ==> count == numWorkers
    {
      count, cancelled, fatalErrors := numWorkers % TWO_32, false, [];
    }

    method SignalFinished()
      requires Valid()
      modifies this`count
      ensures Valid() && View() == C.SignalFinished(old(View()))
      ensures count == if old(count) > 0 then old(count) - 1 else TWO_32 - 1
    {
      count := (count + TWO_32 - 1) % TWO_32;
    }

    method SignalMoreWorkToDo() returns (permitted: bool)
      requires Valid()
      modifies this`count
      ensures Valid() && View() == C.SignalMoreWorkToDo(old(View()))
      ensures permitted <==> !cancelled && old(count) > 0
      ensures permitted ==> count == if old(count) < TWO_32 - 1 then old(count) + 1 else 0
      ensures !permitted ==> count == old(count)
    {
      if cancelled || count == 0 {
        return false;
      }
      count := (count + 1) % TWO_32;
      return true;
    }

    method AddFatalError(e: C.BackupError)
      modifies this
      ensures View() == C.AddFatalError(old(View()), e)
      ensures cancelled && fatalErrors == old(fatalErrors) + [e] && count == old(count)
    {
      fatalErrors := fatalErrors + [e];
      cancelled := true;
    }

    method Cancel()
      modifies this`cancelled
      ensures View() == C.Cancel(old(View()))
      ensures cancelled && count == old(count) && fatalErrors == old(fatalErrors)
    {
      cancelled := true;
    }

    /** The wait gives up the lock and looks again at every wake-up, the last of which is the
        timeout.  What the other threads have made of the coordinator by then is others.  It
        succeeds at the first look that finds the workers finished or the backup cancelled,
        and times out exactly when no look does; it changes nothing itself. */
    method WaitUntilFinished(timeoutMillis: int, others: seq<C.Coord>) returns (finished: bool, looks: nat)
      requires timeoutMillis > 0
      modifies this
      ensures looks <= |others| && View() == ([old(View())] + others)[looks]
      ensures forall k :: 0 <= k < looks ==> !C.Finished(([old(View())] + others)[k])
      ensures finished == (count == 0 || cancelled) == C.Finished(View())
      ensures !finished ==> looks == |others|
    {
      looks := 0;
      while !(count == 0 || cancelled) && looks < |others|
        invariant looks <= |others| && View() == ([old(View())] + others)[looks]
        invariant forall k :: 0 <= k < looks ==> !C.Finished(([old(View())] + others)[k])
        decreases |others| - looks
      {
        count, cancelled, fatalErrors := others[looks].count, others[looks].cancelled, others[looks].errors;
        looks := looks + 1;
      }
      finished := count == 0 || cancelled;
    }
  }
}
