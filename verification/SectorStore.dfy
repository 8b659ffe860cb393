/** The unsynced-sector store of one device, and the handler that feeds it.

The operations are functions on the value Store; module SectorStoreObject holds
the object that performs them in place.
*/
module SectorStore {
  import opened MachineIntegers
  import opened IntervalMap

  datatype Store = Store(volatileSeconds: int, unsynced: SectorMap, synced: SectorMap, cursor: nat) {
    predicate Valid() { Canonical(unsynced) && IsSet(synced) }
  }

  function NewStore(volatileSeconds: int): (st: Store)
    ensures st.Valid()
  {
    Store(volatileSeconds, [], [], 0)
  }

  function AddInterval(st: Store, i: Interval, epoch: int): (r: Store)
    requires st.Valid()
    ensures r.Valid()
  {
    st.(unsynced := Add(st.unsynced, i, epoch))
  }

  function AddNonVolatileInterval(st: Store, i: Interval): (r: Store)
    requires st.Valid()
    ensures r.Valid()
  {
    st.(unsynced := Add(st.unsynced, i, 1))
  }

  function RemoveInterval(st: Store, i: Interval): (r: Store)
    requires st.Valid()
    ensures r.Valid()
  {
    SetAdd(st.synced, i);
    st.(unsynced := Subtract(st.unsynced, i), synced := Add(st.synced, i, 1))
  }

  // The first segment that starts strictly after the cursor; |m| when there is none.
  function NextAfter(m: SectorMap, cursor: nat): (k: nat)
    ensures k <= |m|
    ensures forall j :: 0 <= j < k ==> m[j].lo <= cursor
    ensures k < |m| ==> m[k].lo > cursor
  {
    if m == [] || m[0].lo > cursor then 0 else NextAfter(m[1..], cursor) + 1
  }

  // Interval i is the segment of m that the round robin gives next: the first one that starts
  // past the cursor, or the very first when none does.
  ghost predicate IsNext(m: SectorMap, cursor: nat, i: Interval) {
    exists k :: 0 <= k < |m| && i == m[k].Range()
      && (forall j :: 0 <= j < k ==> m[j].lo <= cursor)
      && (m[k].lo > cursor || (k == 0 && forall j :: 0 <= j < |m| ==> m[j].lo <= cursor))
  }

  // The segment handed out next; meaningless for the empty map.
  function Pick(m: SectorMap, cursor: nat): (k: nat)
    ensures m != [] ==> k < |m| && IsNext(m, cursor, m[k].Range())
  {
    var k := NextAfter(m, cursor);
    if k < |m| then k else 0
  }

  datatype Handout = Handout(store: Store, interval: Interval, isVolatile: bool)

  function GetInterval(st: Store, epoch: int): (h: Handout)
    requires st.Valid()
    ensures h.store.Valid() && h.store.unsynced == st.unsynced && h.store.synced == st.synced
    ensures h.store.volatileSeconds == st.volatileSeconds && h.store.cursor == h.interval.upper
    ensures st.unsynced != [] ==> IsNext(st.unsynced, st.cursor, h.interval)
  {
    if st.unsynced == [] then Handout(st.(cursor := 0), Interval(0, 0), false)
    else
      var g := st.unsynced[Pick(st.unsynced, st.cursor)];
      Handout(st.(cursor := g.hi), g.Range(), g.time > epoch - st.volatileSeconds)
  }

  function ClearIntervals(st: Store): (r: Store)
    ensures r.Valid()
  {
    st.(unsynced := [], synced := [])
  }

  function ClearSyncHistory(st: Store): (r: Store)
    requires st.Valid()
    ensures r.Valid()
  {
    st.(synced := [])
  }

  // Adds every interval of a set at one time, first to last.
  function AddAll(m: SectorMap, intervals: SectorMap, t: int): (r: SectorMap)
    requires Canonical(m)
    ensures Canonical(r)
    decreases |intervals|
  {
    if intervals == [] then m else AddAll(Add(m, intervals[0].Range(), t), intervals[1..], t)
  }

  function ReInsertSyncHistory(st: Store): (r: Store)
    requires st.Valid()
    ensures r.Valid()
  {
    st.(unsynced := AddAll(st.unsynced, st.synced, 0), synced := [])
  }

  // ---- Block traces ----

  // What the handler reads of a blk_io_trace; bytes is 32 bits wide, sector 64.
  datatype Trace = Trace(sector: nat, bytes: nat, isWrite: bool)

  function TracedInterval(tr: Trace): Interval {
    Interval(tr.sector, (tr.sector + tr.bytes / 512) % TWO_64)
  }

  function AddTrace(st: Store, tr: Trace, epoch: int): (r: Store)
    requires st.Valid()
    ensures r.Valid() && r.synced == st.synced && r.cursor == st.cursor
  {
    if tr.isWrite && tr.bytes > 0 then AddInterval(st, TracedInterval(tr), epoch) else st
  }

  // The sectors in which a traced write changes at least one byte.
  predicate TouchedBy(tr: Trace, s: nat) {
    tr.isWrite && tr.sector * 512 < s * 512 + 512 && s * 512 < tr.sector * 512 + tr.bytes
  }

  // The write touched whole sectors, and the number of the one after them fits 64 bits.
  predicate WholeSectors(tr: Trace) { tr.bytes % 512 == 0 && tr.sector + tr.bytes / 512 < TWO_64 }

  // Whatever sector the handler will leave out of the interval is marked already.
  ghost predicate MissesNothing(st: Store, tr: Trace) {
    if tr.sector + tr.bytes / 512 < TWO_64 then tr.bytes % 512 == 0 || At(st.unsynced, tr.sector + tr.bytes / 512) != 0
    else forall s: nat :: TouchedBy(tr, s) ==> At(st.unsynced, s) != 0
  }

  lemma TraceAt(st: Store, tr: Trace, epoch: int, s: nat)
    requires st.Valid() && epoch > 0 && tr.isWrite && tr.bytes > 0
    ensures At(AddTrace(st, tr, epoch).unsynced, s) != 0 <==> At(st.unsynced, s) != 0 || TracedInterval(tr).Contains(s)
    ensures !TracedInterval(tr).Contains(s) ==> At(AddTrace(st, tr, epoch).unsynced, s) == At(st.unsynced, s)
  {
    AddAt(st.unsynced, TracedInterval(tr), epoch, s);
  }

  /** A trace of whole sectors leaves each of them with the later of its old time and the time
      the trace was handled, and no other sector with a new one. */
  lemma TraceTimes(st: Store, tr: Trace, epoch: int, s: nat)
    requires st.Valid() && epoch > 0 && tr.sector < TWO_64 && tr.bytes < TWO_32 && tr.isWrite && WholeSectors(tr)
    ensures var before, after := At(st.unsynced, s), At(AddTrace(st, tr, epoch).unsynced, s);
            if tr.sector <= s < tr.sector + tr.bytes / 512
            then after == if before == 0 || before < epoch then epoch else before
            else after == before
  {
    AddAt(st.unsynced, TracedInterval(tr), epoch, s);
  }

  // The interval is the touched sectors without a partly written last one, or empty when
  // its end does not fit.
  lemma TracedIsTouched(tr: Trace, s: nat)
    requires tr.sector < TWO_64 && tr.bytes < TWO_32 && tr.isWrite
    ensures TracedInterval(tr).Contains(s) <==>
              TouchedBy(tr, s) && tr.sector + tr.bytes / 512 < TWO_64 && s != tr.sector + tr.bytes / 512
    ensures tr.bytes % 512 != 0 <==> TouchedBy(tr, tr.sector + tr.bytes / 512)
  {
  }

  /** Whatever the store held, after a trace every sector it touched is marked exactly when
      nothing was written, or the last sector was written in full or marked before, or, when
      the end does not fit 64 bits, all of them were marked before.  No other sector changes. */
  lemma TraceCoversIff(st: Store, tr: Trace, epoch: int)
    requires st.Valid() && epoch > 0 && tr.sector < TWO_64 && tr.bytes < TWO_32
    ensures (forall s: nat :: TouchedBy(tr, s) ==> At(AddTrace(st, tr, epoch).unsynced, s) != 0)
        <==> !tr.isWrite || tr.bytes == 0 || MissesNothing(st, tr)
    ensures WholeSectors(tr) ==> MissesNothing(st, tr)
    ensures forall s: nat :: !TouchedBy(tr, s) ==> At(AddTrace(st, tr, epoch).unsynced, s) == At(st.unsynced, s)
  {
    var r := AddTrace(st, tr, epoch).unsynced;
    if tr.isWrite && tr.bytes > 0 {
      forall s: nat
        ensures TouchedBy(tr, s) ==> (At(r, s) != 0 <==>
                  || At(st.unsynced, s) != 0
                  || (tr.sector + tr.bytes / 512 < TWO_64 && s != tr.sector + tr.bytes / 512))
        ensures !TouchedBy(tr, s) ==> At(r, s) == At(st.unsynced, s)
      {
        TraceAt(st, tr, epoch, s);
        TracedIsTouched(tr, s);
      }
      TracedIsTouched(tr, 0);
    } else {
      forall s: nat ensures !TouchedBy(tr, s) {}
    }
  }
}
