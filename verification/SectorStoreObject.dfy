/** The store object and the trace handler, in place and proved against SectorStore. */
module SectorStoreObject {
  import opened MachineIntegers
  import opened IntervalMap
  import S = SectorStore

  // A hand-out is empty only from an empty store, and every sector of it has the stored
  // time that decided whether it is volatile.
  lemma HandedOut(st: S.Store, epoch: int)
    requires st.Valid()
    ensures var h := S.GetInterval(st, epoch);
            && (h.interval.Cardinality() == 0 <==> st.unsynced == [])
            && forall s: nat :: h.interval.Contains(s) ==>
                 At(st.unsynced, s) != 0 && (h.isVolatile <==> At(st.unsynced, s) > epoch - st.volatileSeconds)
  {
    if st.unsynced != [] {
      var k := S.Pick(st.unsynced, st.cursor);
      AtIndex(st.unsynced, k);
      assert forall s: nat :: st.unsynced[k].Range().Contains(s) ==> st.unsynced[k].Contains(s);
    }
  }

  /** The store object: every method performs the function of the same name on its value. */
  class UnsyncedSectorStore {
    const volatileSeconds: int
    var unsyncedSectorMap: SectorMap
    var syncedSectorSet: SectorMap
    var endOfLastContinuous: nat

    function View(): S.Store
      reads this
    {
      S.Store(volatileSeconds, unsyncedSectorMap, syncedSectorSet, endOfLastContinuous)
    }

    constructor (volatileSeconds: int)
      ensures View() == S.NewStore(volatileSeconds) && this.volatileSeconds == volatileSeconds
      ensures unsyncedSectorMap == [] && syncedSectorSet == [] && endOfLastContinuous == 0
    {
      this.volatileSeconds := volatileSeconds;
      unsyncedSectorMap, syncedSectorSet, endOfLastContinuous := [], [], 0;
    }

    method AddInterval(i: Interval, epoch: int)
      requires View().Valid() && epoch > volatileSeconds
      modifies this
      ensures View().Valid() && View() == S.AddInterval(old(View()), i, epoch)
      ensures forall s: nat :: At(unsyncedSectorMap, s) ==
                if i.Contains(s) && epoch != 0 then Combine(At(old(unsyncedSectorMap), s), epoch)
                else At(old(unsyncedSectorMap), s)
    {
      forall s: nat { AddAt(unsyncedSectorMap, i, epoch, s); }
      unsyncedSectorMap := Add(unsyncedSectorMap, i, epoch);
    }

    method AddNonVolatileInterval(i: Interval)
      requires View().Valid()
      modifies this
      ensures View().Valid() && View() == S.AddNonVolatileInterval(old(View()), i)
      ensures forall s: nat :: At(unsyncedSectorMap, s) ==
                if i.Contains(s) then Combine(At(old(unsyncedSectorMap), s), 1) else At(old(unsyncedSectorMap), s)
    {
      forall s: nat { AddAt(unsyncedSectorMap, i, 1, s); }
      unsyncedSectorMap := Add(unsyncedSectorMap, i, 1);
    }

    method RemoveInterval(i: Interval)
      requires View().Valid()
      modifies this
      ensures View().Valid() && View() == S.RemoveInterval(old(View()), i)
      ensures forall s: nat :: At(unsyncedSectorMap, s) == if i.Contains(s) then 0 else At(old(unsyncedSectorMap), s)
      ensures Dom(syncedSectorSet) == old(Dom(syncedSectorSet)) + i.Sectors()
    {
      forall s: nat { SubtractAt(unsyncedSectorMap, i, s); }
      AddDom(syncedSectorSet, i, 1);
      SetAdd(syncedSectorSet, i);
      unsyncedSectorMap := Subtract(unsyncedSectorMap, i);
      syncedSectorSet := Add(syncedSectorSet, i, 1);
    }

    method GetInterval(epoch: int) returns (output: Interval, isVolatile: bool)
      requires View().Valid() && epoch > volatileSeconds
      modifies this`endOfLastContinuous
      ensures S.Handout(View(), output, isVolatile) == S.GetInterval(old(View()), epoch)
      ensures output.Cardinality() == 0 <==> unsyncedSectorMap == []
      ensures unsyncedSectorMap != [] ==>
                exists k :: 0 <= k < |unsyncedSectorMap| && output == unsyncedSectorMap[k].Range()
                  && (forall j :: 0 <= j < k ==> unsyncedSectorMap[j].lo <= old(endOfLastContinuous))
                  && (unsyncedSectorMap[k].lo > old(endOfLastContinuous)
                      || (k == 0 && forall j :: 0 <= j < |unsyncedSectorMap| ==>
                                      unsyncedSectorMap[j].lo <= old(endOfLastContinuous)))
      ensures unsyncedSectorMap == [] ==> output == Interval(0, 0) && !isVolatile
      ensures endOfLastContinuous == output.upper
      ensures forall s: nat :: output.Contains(s) ==>
                At(unsyncedSectorMap, s) != 0 && (isVolatile <==> At(unsyncedSectorMap, s) > epoch - volatileSeconds)
    {
      var foundInterval := false;
      output, isVolatile := Interval(0, 0), false;
      var k := 0;
      while k < |unsyncedSectorMap| && !foundInterval
        invariant 0 <= k <= |unsyncedSectorMap|
        invariant endOfLastContinuous == old(endOfLastContinuous)
        invariant !foundInterval ==> output == Interval(0, 0) && !isVolatile
        invariant !foundInterval ==> k <= S.NextAfter(unsyncedSectorMap, endOfLastContinuous)
        invariant foundInterval ==> k > 0 && S.NextAfter(unsyncedSectorMap, endOfLastContinuous) == k - 1
        invariant foundInterval ==> output == unsyncedSectorMap[k - 1].Range()
                                    && isVolatile == (unsyncedSectorMap[k - 1].time > epoch - volatileSeconds)
      {
        if unsyncedSectorMap[k].lo > endOfLastContinuous {
          output := unsyncedSectorMap[k].Range();
          foundInterval := true;
          isVolatile := unsyncedSectorMap[k].time > epoch - volatileSeconds;
        }
        k := k + 1;
      }
      if !foundInterval {
        if |unsyncedSectorMap| > 0 {
          output := unsyncedSectorMap[0].Range();
          isVolatile := unsyncedSectorMap[0].time > epoch - volatileSeconds;
        } else {
          output := Interval(0, 0);
        }
      }
      endOfLastContinuous := output.upper;
      HandedOut(old(View()), epoch);
    }

    method ClearIntervals()
      modifies this
      ensures View() == S.ClearIntervals(old(View()))
      ensures unsyncedSectorMap == [] && syncedSectorSet == [] && endOfLastContinuous == old(endOfLastContinuous)
    {
      unsyncedSectorMap, syncedSectorSet := [], [];
    }

    method ClearSyncHistory()
      requires View().Valid()
      modifies this
      ensures View() == S.ClearSyncHistory(old(View())) && syncedSectorSet == []
      ensures unsyncedSectorMap == old(unsyncedSectorMap) && endOfLastContinuous == old(endOfLastContinuous)
    {
      syncedSectorSet := [];
    }

    method ReInsertSyncHistory()
      requires View().Valid()
      modifies this
      ensures View().Valid() && View() == S.ReInsertSyncHistory(old(View()))
      ensures unsyncedSectorMap == old(unsyncedSectorMap) && syncedSectorSet == []
    {
      for k := 0 to |syncedSectorSet|
        invariant syncedSectorSet == old(syncedSectorSet) && endOfLastContinuous == old(endOfLastContinuous)
        invariant Canonical(unsyncedSectorMap) && unsyncedSectorMap == old(unsyncedSectorMap)
        invariant S.AddAll(unsyncedSectorMap, syncedSectorSet[k..], 0)
                  == S.AddAll(old(unsyncedSectorMap), syncedSectorSet, 0)
      {
        assert syncedSectorSet[k..][0] == syncedSectorSet[k] && syncedSectorSet[k..][1..] == syncedSectorSet[k + 1..];
        unsyncedSectorMap := Add(unsyncedSectorMap, syncedSectorSet[k].Range(), 0);
      }
      syncedSectorSet := [];
    }

    method UnsyncedSectorCount() returns (n: nat)
      requires View().Valid()
      ensures n == |Dom(unsyncedSectorMap)|
    {
      n := Count(unsyncedSectorMap);
      CountIsSize(unsyncedSectorMap);
    }
  }

  method HandleTrace(store: UnsyncedSectorStore, tr: S.Trace, epoch: int)
    requires store.View().Valid() && epoch > store.volatileSeconds
    modifies store
    ensures store.View().Valid() && store.View() == S.AddTrace(old(store.View()), tr, epoch)
    ensures !tr.isWrite || tr.bytes == 0 ==> store.View() == old(store.View())
    ensures tr.isWrite && tr.bytes > 0 ==>
              forall s: nat :: At(store.unsyncedSectorMap, s) ==
                if tr.sector <= s < (tr.sector + tr.bytes / 512) % TWO_64 && epoch != 0
                then Combine(old(At(store.unsyncedSectorMap, s)), epoch) else old(At(store.unsyncedSectorMap, s))
  {
    if tr.isWrite {
      if tr.bytes > 0 {
        var sectorsWritten := tr.bytes / 512;
        store.AddInterval(Interval(tr.sector, (tr.sector + sectorsWritten) % TWO_64), epoch);
      }
    }
  }

}
