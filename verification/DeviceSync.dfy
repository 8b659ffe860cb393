/** One device under backup: its source and destination sectors, the store, the traces
still in the kernel's buffers, the freeze thread, and the worker that seeds the store
and then runs the synchronisation loop.  Every lock acquisition, atomic access, block
read and block write is a step of its own, so runs interleave in every possible way.
*/
module DeviceSync {
  import opened IntervalMap
  import opened SectorStore

  type Content = int

  const ONE_MEGABYTE_SECTORS := 2048
  const SECONDS_BETWEEN_FLUSHES := 5
  const MAX_FREEZE_ATTEMPTS := 10
  const VOLATILE_SECONDS := 10

  // Where the freeze thread stands, named by what it has just done or is about to do.
  datatype ThreadPc = NoThread | Freezing | Froze | DidFreeze | Sleeping | Thawing | Catching | Ended

  // The three atomics, the device's real state, and the number of freezes so far.
  datatype Freeze = Freeze(pc: ThreadPc, isFrozen: bool, didFreeze: bool, wasError: bool,
                           deviceFrozen: bool, window: nat)

  datatype Task = CountTask | CopyTask

  datatype Pc =
    // building the synchronizer
    | Clear | Scan | Seed(left: SectorMap) | Ready
    // the synchronisation loop
    | Opening | Top | ReadCount | Decide | Signal | Wait | Resume | Get | Remove | CopyTest
    // RunWhileFrozen and the two things it runs
    | Attempt(task: Task) | Begin(task: Task) | Join(task: Task) | Spawn(task: Task) | Await(task: Task)
    | CountRead | BlockRead | BlockWrite | End(task: Task)
    // an exception on its way out, and the three ways the worker is gone
    | Throw(copying: bool) | Broke | Returned | Died(copying: bool)

  // The locals of the loop; runs counts the executions of the task since RunWhileFrozen
  // was entered.
  datatype Worker = Worker(pc: Pc, count: nat, flushTime: int, wasDone: bool,
                           interval: Interval, isVolatile: bool, i: nat, buf: seq<Content>,
                           sent: nat, attempts: nat, runs: nat)

  // tracked is the set of sectors the backup answers for: in use at the scan, written since
  // the store was cleared, or with a trace then still pending.  initCount and inserted
  // record the unsynced sectors at the start of the loop and those newly added since.
  datatype Dev = Dev(src: seq<Content>, dst: seq<Content>, spb: nat, store: Store,
                     pending: multiset<Trace>, tracked: set<nat>, fz: Freeze, w: Worker,
                     initCount: nat, inserted: nat)

  datatype DevAction =
    // the machine being backed up, and the tracer
    | Write(trace: Trace, data: seq<Content>) | OtherTrace(trace: Trace) | Deliver(trace: Trace)
    // the freeze thread
    | FreezeOk | FreezeFail(frozen: bool) | SetDid | SetFrozen | WakeUp | ThawOk | ThawFail(frozen: bool) | SetError
    // building
    | ClearStore | ScanDevice(inUse: SectorMap) | SeedNext
    // the worker: its next local step, a failing system call in place of it, or a write
    // that fails after its first n sectors
    | Work | Fail | ShortWrite(n: nat)

  function RunPc(t: Task): Pc { if t.CountTask? then CountRead else BlockRead }

  function Base(w: Worker): nat { w.interval.lower + w.i }

  predicate IsWrite(tr: Trace) { tr.isWrite && tr.bytes > 0 }

  // ---- Environment ----

  // The file system writes only while it is not frozen; data is visible no later than its
  // trace, so content and pending trace change together.
  predicate CanWrite(d: Dev, tr: Trace, data: seq<Content>) {
    && !d.fz.deviceFrozen
    && IsWrite(tr) && tr.bytes % 512 == 0 && |data| == tr.bytes / 512
    && tr.sector + |data| <= |d.src|
  }

  function DoWrite(d: Dev, tr: Trace, data: seq<Content>): Dev
    requires CanWrite(d, tr, data)
  {
    d.(src := d.src[..tr.sector] + data + d.src[tr.sector + |data|..],
       pending := d.pending + multiset{tr},
       tracked := d.tracked + Interval(tr.sector, tr.sector + |data|).Sectors())
  }

  function NewlyInserted(st: Store, tr: Trace): nat {
    if IsWrite(tr) then |TracedInterval(tr).Sectors() - Dom(st.unsynced)| else 0
  }

  // The handler receives traces in no particular order: each processor has its own buffer.
  function DoDeliver(d: Dev, tr: Trace, now: int): Dev
    requires d.store.Valid()
  {
    d.(store := AddTrace(d.store, tr, now), pending := d.pending - multiset{tr},
       inserted := d.inserted + NewlyInserted(d.store, tr))
  }

  // ---- Freeze thread ----

  predicate CanThread(f: Freeze, a: DevAction) {
    match a
    case FreezeOk | FreezeFail(_) => f.pc.Freezing?
    case SetDid => f.pc.Froze?
    case SetFrozen => f.pc.DidFreeze?
    case WakeUp => f.pc.Sleeping?
    case ThawOk | ThawFail(_) => f.pc.Thawing?
    case SetError => f.pc.Catching?
    case _ => false
  }

  function DoThread(f: Freeze, a: DevAction): Freeze
    requires CanThread(f, a)
  {
    match a
    case FreezeOk => f.(pc := Froze, deviceFrozen := true, window := f.window + 1)
    case FreezeFail(frozen) => f.(pc := Catching, deviceFrozen := frozen)
    case SetDid => f.(pc := DidFreeze, didFreeze := true)
    case SetFrozen => f.(pc := Sleeping, isFrozen := true)
    case WakeUp => f.(pc := Thawing, isFrozen := false)
    case ThawOk => f.(pc := Ended, deviceFrozen := false)
    case ThawFail(frozen) => f.(pc := Catching, deviceFrozen := frozen)
    case SetError => f.(pc := Ended, wasError := true)
  }

  // ---- Building the synchronizer for a full backup ----

  predicate CanBuild(d: Dev, a: DevAction) {
    match a
    case ClearStore => d.w.pc.Clear?
    case ScanDevice(inUse) => d.w.pc.Scan? && IsSet(inUse)
    case SeedNext => d.w.pc.Seed?
    case _ => false
  }

  ghost predicate Covered(pending: multiset<Trace>, s: nat) {
    exists tr :: tr in pending && IsWrite(tr) && TracedInterval(tr).Contains(s)
  }

  ghost function DoBuild(d: Dev, a: DevAction): Dev
    requires CanBuild(d, a) && d.store.Valid()
  {
    match a
    case ClearStore =>
      d.(store := ClearIntervals(d.store), w := d.w.(pc := Scan),
         tracked := set s | 0 <= s < |d.src| && Covered(d.pending, s))
    case ScanDevice(inUse) =>
      d.(w := d.w.(pc := Seed(inUse)), tracked := d.tracked + set s | s in Dom(inUse) && s < |d.src|)
    case SeedNext =>
      var left := d.w.pc.left;
      if left == [] then d.(w := d.w.(pc := Ready))
      else d.(store := AddNonVolatileInterval(d.store, left[0].Range()), w := d.w.(pc := Seed(left[1..])))
  }

  // ---- The worker's local steps ----

  predicate CanWork(d: Dev) {
    match d.w.pc
    case Join(_) => d.fz.pc.NoThread? || d.fz.pc.Ended?
    case Await(_) => d.fz.didFreeze || d.fz.wasError
    case BlockRead => Base(d.w) + d.spb <= |d.src|
    case BlockWrite => |d.w.buf| == d.spb && Base(d.w) + d.spb <= |d.dst|
    case Opening | ReadCount | CountRead | Decide | Get | Remove | CopyTest => true
    case Attempt(_) | Begin(_) | Spawn(_) | End(_) => true
    case _ => false
  }

  // RunWhileFrozen and the freeze handshake
  function FreezeWork(d: Dev): Dev
    requires CanWork(d)
  {
    var w, f := d.w, d.fz;
    match w.pc
    case Attempt(t) =>
      if w.attempts + 1 > MAX_FREEZE_ATTEMPTS then d.(w := w.(pc := Throw(t.CopyTask?)))
      else d.(w := w.(pc := Begin(t), attempts := w.attempts + 1))
    case Begin(t) => d.(w := w.(pc := if f.isFrozen then RunPc(t) else Join(t)))
    case Join(t) => d.(w := w.(pc := Spawn(t)), fz := f.(pc := NoThread))
    case Spawn(t) => d.(w := w.(pc := Await(t)), fz := f.(pc := Freezing, didFreeze := false, wasError := false))
    case Await(t) => d.(w := w.(pc := if f.wasError then Throw(t.CopyTask?) else RunPc(t)))
    case End(t) =>
      if !f.isFrozen then d.(w := w.(pc := Attempt(t)))
      else if t.CountTask? then d.(w := w.(pc := Decide))
      else d.(w := w.(pc := CopyTest, i := w.i + d.spb))
    case _ => d
  }

  function CopyWork(d: Dev): Dev
    requires CanWork(d)
  {
    var w := d.w;
    match w.pc
    case BlockRead => d.(w := w.(pc := BlockWrite, buf := d.src[Base(w)..Base(w) + d.spb]))
    case BlockWrite =>
      var dst := d.dst[..Base(w)] + w.buf + d.dst[Base(w) + d.spb..];
      if w.isVolatile then d.(dst := dst, w := w.(pc := End(CopyTask), runs := w.runs + 1))
      else d.(dst := dst, w := w.(pc := CopyTest, i := w.i + d.spb))
    case CopyTest =>
      if w.i < w.interval.Cardinality() then
        d.(w := if w.isVolatile then w.(pc := Attempt(CopyTask), attempts := 0, runs := 0) else w.(pc := BlockRead))
      else d.(w := w.(pc := Top, sent := w.sent + w.interval.Cardinality() * 512))
    case _ => d
  }

  function LoopWork(d: Dev, now: int): Dev
    requires CanWork(d) && d.store.Valid()
  {
    var w := d.w;
    match w.pc
    case Opening => d.(w := w.(pc := Top))
    case ReadCount =>
      var c := Count(d.store.unsynced);
      if c < ONE_MEGABYTE_SECTORS then
        d.(w := w.(pc := Attempt(CountTask), count := c, attempts := 0, runs := 0,
                   flushTime := if now - w.flushTime > SECONDS_BETWEEN_FLUSHES then now else w.flushTime))
      else d.(w := w.(pc := Decide, count := c))
    case CountRead => d.(w := w.(pc := End(CountTask), count := Count(d.store.unsynced), runs := w.runs + 1))
    case Decide =>
      d.(w := w.(pc := if w.flushTime > 0 && w.count == 0 then (if w.wasDone then Wait else Signal)
                       else if w.wasDone then Resume else Get))
    case Get =>
      var h := GetInterval(d.store, now);
      d.(store := h.store, w := w.(pc := Remove, interval := h.interval, isVolatile := h.isVolatile))
    case Remove => d.(store := RemoveInterval(d.store, w.interval), w := w.(pc := CopyTest, i := 0))
    case _ => d
  }

  function DoWork(d: Dev, now: int): Dev
    requires CanWork(d) && d.store.Valid()
  {
    match d.w.pc
    case Attempt(_) | Begin(_) | Join(_) | Spawn(_) | Await(_) | End(_) => FreezeWork(d)
    case BlockRead | BlockWrite | CopyTest => CopyWork(d)
    case _ => LoopWork(d, now)
  }

  // An unopenable device, a failing or short read, a failing write.
  predicate CanFail(d: Dev) { d.w.pc.Opening? || d.w.pc.BlockRead? || d.w.pc.BlockWrite? }

  function DoFail(d: Dev): Dev { d.(w := d.w.(pc := Throw(!d.w.pc.Opening?))) }

  predicate CanShortWrite(d: Dev, n: nat) {
    d.w.pc.BlockWrite? && n <= d.spb == |d.w.buf| && Base(d.w) + d.spb <= |d.dst|
  }

  function DoShortWrite(d: Dev, n: nat): Dev
    requires CanShortWrite(d, n)
  {
    d.(dst := d.dst[..Base(d.w)] + d.w.buf[..n] + d.dst[Base(d.w) + n..], w := d.w.(pc := Throw(true)))
  }

  // ---- All steps of a device ----

  predicate Enabled(d: Dev, a: DevAction) {
    match a
    case Write(tr, data) => CanWrite(d, tr, data)
    case OtherTrace(tr) => !IsWrite(tr)
    case Deliver(tr) => tr in d.pending
    case ClearStore | ScanDevice(_) | SeedNext => CanBuild(d, a)
    case Work => CanWork(d)
    case Fail => CanFail(d)
    case ShortWrite(n) => CanShortWrite(d, n)
    case _ => CanThread(d.fz, a)
  }

  ghost function Step(d: Dev, a: DevAction, now: int): Dev
    requires Enabled(d, a) && d.store.Valid()
  {
    match a
    case Write(tr, data) => DoWrite(d, tr, data)
    case OtherTrace(tr) => d.(pending := d.pending + multiset{tr})
    case Deliver(tr) => DoDeliver(d, tr, now)
    case ClearStore | ScanDevice(_) | SeedNext => DoBuild(d, a)
    case Work => DoWork(d, now)
    case Fail => DoFail(d)
    case ShortWrite(n) => DoShortWrite(d, n)
    case _ => d.(fz := DoThread(d.fz, a))
  }

  // The steps in which the worker talks to the coordinator change only these two.
  function Move(d: Dev, pc: Pc, wasDone: bool): Dev { d.(w := d.w.(pc := pc, wasDone := wasDone)) }

  // The worker thread starts: the loop's locals are fresh.
  function Launch(d: Dev): Dev {
    d.(w := Worker(Opening, 0, 0, false, Interval(0, 0), false, 0, [], 0, 0, 0),
       initCount := Count(d.store.unsynced), inserted := 0)
  }
}
