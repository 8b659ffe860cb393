/** Whole-run facts about one device: what a frozen run saw, and where the contents of
the destination come from. */
module BackupHistory {
  import opened IntervalMap
  import D = DeviceSync
  import opened DeviceSync
  import opened FreezeWindow
  import opened NoLostWrite
  import opened LoopInvariant
  import opened BackupRun

  lemma MainSeenFrom(s: Sys, w: nat)
    requires MainInv(s) && w < |s.devs|
    ensures var d, e := s.devs[w], DoMain(s).devs[w];
            e == d || (d.w.pc.Ready? && e == Launch(d))
  {
  }

  // Seen from a device, a step that is not its own leaves its contents, its freeze state
  // and its copy alone.
  predicate Untouched(d: Dev, e: Dev) {
    && e.src == d.src && e.dst == d.dst && e.fz == d.fz && e.spb == d.spb
    && (e.w == d.w || (!Inside(e.w) && !Inside(d.w) && !e.w.pc.BlockWrite?))
  }

  lemma TalkSeenFrom(s: Sys, a: Act)
    requires WorkerAct(a) && CanTalk(s, a)
    ensures Untouched(s.devs[a.w], Talked(s.devs[a.w], s.coord.cancelled, a))
  {
  }

  lemma StepSeenFrom(s: Sys, a: Act, w: nat)
    requires Stores(s) && MainInv(s) && CanTake(s, a) && w < |s.devs| && |Take(s, a).devs| == |s.devs|
    requires !(a.Device? && a.w == w)
    ensures Untouched(s.devs[w], Take(s, a).devs[w])
  {
    match a
    case MainStep => MainSeenFrom(s, w);
    case Device(_, _) | Tick(_) | CancelBackup =>
    case _ => if a.w == w { TalkSeenFrom(s, a); }
  }

  // ---- RunWhileFrozen ----

  predicate WindowBack(d: Dev, e: Dev) {
    && (Inside(e.w) && !Inside(d.w) ==> e.w.pc.CountRead? || e.w.pc.BlockRead?)
    && (Inside(e.w) && Inside(d.w) && ThawNotBegun(e.fz) ==>
          ThawNotBegun(d.fz) && d.fz.deviceFrozen && d.fz.window == e.fz.window && d.src == e.src)
  }

  lemma DeviceWindowBack(d: Dev, x: DevAction, now: int)
    requires d.store.Valid() && D.Enabled(d, x) && FreezeInv(d)
    ensures WindowBack(d, D.Step(d, x, now))
  {
    if x.Work? { WorkWindowBack(d, now); }
    if Inside(d.w) && ThawNotBegun(D.Step(d, x, now).fz) { InsideIsOneWindow(d, x, now); }
  }

  lemma WorkWindowBack(d: Dev, now: int)
    requires d.store.Valid() && CanWork(d)
    ensures DoWork(d, now).src == d.src
    ensures Inside(DoWork(d, now).w) && !Inside(d.w) ==>
              DoWork(d, now).w.pc.CountRead? || DoWork(d, now).w.pc.BlockRead?
  {
    assert FreezeWork(d).src == d.src && CopyWork(d).src == d.src && LoopWork(d, now).src == d.src;
  }

  lemma {:induction false} FindRunStart(ds: seq<Dev>, e: nat) returns (b: nat)
    requires e < |ds| && !Inside(ds[0].w)
    requires forall p :: 0 <= p < |ds| - 1 ==> WindowBack(ds[p], ds[p + 1])
    requires Inside(ds[e].w) && ThawNotBegun(ds[e].fz) && ds[e].fz.deviceFrozen
    ensures 0 < b <= e && !Inside(ds[b - 1].w) && (ds[b].w.pc.CountRead? || ds[b].w.pc.BlockRead?)
    ensures forall k :: b <= k <= e ==> Inside(ds[k].w) && FrozenLike(ds[k], ds[e])
    decreases e
  {
    if e == 0 {
      assert false;
    } else {
      assert WindowBack(ds[e - 1], ds[e - 1 + 1]);
      if Inside(ds[e - 1].w) {
        b := FindRunStart(ds, e - 1);
      } else {
        b := e;
      }
    }
  }

  predicate FrozenLike(d: Dev, e: Dev) {
    d.fz.deviceFrozen && d.fz.window == e.fz.window && d.src == e.src
  }

  lemma StepWindowBack(s: Sys, a: Act, w: nat)
    requires Inv(s) && CanTake(s, a) && w < |s.devs| && |Take(s, a).devs| == |s.devs|
    ensures WindowBack(s.devs[w], Take(s, a).devs[w])
  {
    assert DevInv(s.devs[w]);
    if a.Device? && a.w == w {
      DeviceWindowBack(s.devs[w], a.a, s.now);
    } else {
      StepSeenFrom(s, a, w);
      if Inside(s.devs[w].w) && ThawNotBegun(s.devs[w].fz) { assert s.devs[w].fz.deviceFrozen; }
    }
  }

  lemma DevsWindowBack(states: seq<Sys>, acts: seq<Act>, w: nat)
    requires IsRun(states, acts) && w < |states[0].devs|
    ensures forall k :: 0 <= k < |states| ==> w < |states[k].devs|
    ensures forall p :: 0 <= p < |acts| ==> WindowBack(states[p].devs[w], states[p + 1].devs[w])
  {
    RunSteps(states, acts, w);
    forall p | 0 <= p < |acts| ensures WindowBack(states[p].devs[w], states[p + 1].devs[w]) {
      assert StepOf(states[p], acts[p], states[p + 1]);
      StepWindowBack(states[p], acts[p], w);
    }
  }

  lemma AcceptedIsFrozen(d: Dev, now: int)
    requires d.store.Valid() && d.w.pc.End?
    ensures CanWork(d) && (DoWork(d, now).w.pc.Attempt? <==> !d.fz.isFrozen)
  {
  }

  lemma AcceptedAt(states: seq<Sys>, acts: seq<Act>, w: nat, e: nat)
    requires IsRun(states, acts) && e < |acts| && w < |states[e].devs|
    requires acts[e] == Device(w, Work) && states[e].devs[w].w.pc.End?
    requires w < |states[e + 1].devs| && !states[e + 1].devs[w].w.pc.Attempt?
    ensures states[e].devs[w].fz.isFrozen
  {
    assert CanTake(states[e], acts[e]) && states[e + 1] == Take(states[e], acts[e]);
    AcceptedIsFrozen(states[e].devs[w], states[e].now);
  }

  /** When RunWhileFrozen returns normally, its task has run between one and ten times, and
      the last run, from its start at state b to its acceptance at state e, lay inside one
      freeze window in which the source did not change; a block copied by that run is on
      the destination exactly as the source holds it. */
  lemma RunWhileFrozenIsOneWindow(states: seq<Sys>, acts: seq<Act>, w: nat, e: nat) returns (b: nat)
    requires IsRun(states, acts) && e < |acts| && w < |states[e].devs|
    requires acts[e] == Device(w, Work) && states[e].devs[w].w.pc.End?
    requires w < |states[e + 1].devs| && !states[e + 1].devs[w].w.pc.Attempt?
    ensures states[e].devs[w].fz.isFrozen && 1 <= states[e].devs[w].w.runs <= 10
    ensures 0 < b < e && (forall k :: b - 1 <= k <= e ==> w < |states[k].devs|)
    ensures !Inside(states[b - 1].devs[w].w) && (states[b].devs[w].w.pc.CountRead? || states[b].devs[w].w.pc.BlockRead?)
    ensures forall k :: b <= k <= e ==> Inside(states[k].devs[w].w) && FrozenLike(states[k].devs[w], states[e].devs[w])
    ensures var d := states[e].devs[w];
            d.w.pc == End(CopyTask) ==>
              && Base(d.w) + d.spb <= |d.src| <= |d.dst|
              && forall s :: Base(d.w) <= s < Base(d.w) + d.spb ==> d.dst[s] == d.src[s]
  {
    RunInv(states, acts, e);
    assert DevInv(states[e].devs[w]);
    AcceptedAt(states, acts, w, e);
    DevsWindowBack(states, acts, w);
    assert InitDev(states[0].devs[w]);
    var ds := DevsOf(states, w);
    b := FindRunStart(ds, e);
  }

  // ---- Provenance ----

  predicate WrittenBack(d: Dev, e: Dev, s: nat) {
    && |e.src| == |d.src| && |e.dst| == |d.dst|
    && (s < |d.dst| && e.dst[s] != d.dst[s] ==>
          Buffered(d, s) && s - Base(d.w) < |d.w.buf| && e.dst[s] == d.w.buf[s - Base(d.w)]
          && d.spb > 0 && InRounded(d, s))
  }

  predicate BufferedBack(d: Dev, e: Dev, s: nat) {
    Buffered(e, s) ==>
      || (Buffered(d, s) && e.w == d.w)
      || (s < |d.src| && s - Base(e.w) < |e.w.buf| && e.w.buf[s - Base(e.w)] == d.src[s])
  }

  predicate OriginBack(d: Dev, e: Dev, s: nat) { WrittenBack(d, e, s) && BufferedBack(d, e, s) }

  lemma DeviceWrittenBack(d: Dev, x: DevAction, now: int, s: nat)
    requires Shape(d) && D.Enabled(d, x) && BlockInv(d)
    ensures WrittenBack(d, D.Step(d, x, now), s)
  {
    SizesStay(d, x, now);
    if s < |d.dst| { DestinationFrame(d, x, now, s); }
  }

  lemma DeviceBufferedBack(d: Dev, x: DevAction, now: int, s: nat)
    requires Shape(d) && D.Enabled(d, x)
    ensures BufferedBack(d, D.Step(d, x, now), s)
  {
    if Buffered(D.Step(d, x, now), s) {
      if x.Work? { WorkIntoBuffer(d, now, s); } else { OtherIntoBuffer(d, x, now); }
    }
  }

  lemma WorkSizesStay(d: Dev, now: int)
    requires Shape(d) && CanWork(d)
    ensures |DoWork(d, now).dst| == |d.dst| && DoWork(d, now).src == d.src
  {
    assert |CopyWork(d).dst| == |d.dst| && CopyWork(d).src == d.src;
  }

  lemma SizesStay(d: Dev, x: DevAction, now: int)
    requires Shape(d) && D.Enabled(d, x)
    ensures |D.Step(d, x, now).dst| == |d.dst| && |D.Step(d, x, now).src| == |d.src|
  {
    if x.Work? { WorkSizesStay(d, now); }
  }

  lemma WorkIntoBuffer(d: Dev, now: int, s: nat)
    requires Shape(d) && CanWork(d) && Buffered(DoWork(d, now), s)
    ensures var e := DoWork(d, now);
            s < |d.src| && s - Base(e.w) < |e.w.buf| && e.w.buf[s - Base(e.w)] == d.src[s]
  {
    assert !FreezeWork(d).w.pc.BlockWrite? || d.w.pc.BlockWrite?;
    assert !LoopWork(d, now).w.pc.BlockWrite? || d.w.pc.BlockWrite?;
  }

  lemma OtherIntoBuffer(d: Dev, x: DevAction, now: int)
    requires d.store.Valid() && D.Enabled(d, x) && !x.Work? && D.Step(d, x, now).w.pc.BlockWrite?
    ensures D.Step(d, x, now).w == d.w && D.Step(d, x, now).spb == d.spb
  {
  }

  lemma StepOriginBack(s: Sys, a: Act, w: nat, x: nat)
    requires Inv(s) && CanTake(s, a) && w < |s.devs| && |Take(s, a).devs| == |s.devs|
    ensures OriginBack(s.devs[w], Take(s, a).devs[w], x)
  {
    assert DevInv(s.devs[w]);
    if a.Device? && a.w == w {
      DeviceWrittenBack(s.devs[w], a.a, s.now, x);
      DeviceBufferedBack(s.devs[w], a.a, s.now, x);
    } else {
      StepSeenFrom(s, a, w);
    }
  }

  lemma DevsOriginBack(states: seq<Sys>, acts: seq<Act>, w: nat, s: nat)
    requires IsRun(states, acts) && w < |states[0].devs|
    ensures forall k :: 0 <= k < |states| ==> w < |states[k].devs|
    ensures forall p :: 0 <= p < |acts| ==> OriginBack(states[p].devs[w], states[p + 1].devs[w], s)
  {
    RunSteps(states, acts, w);
    forall p | 0 <= p < |acts| ensures OriginBack(states[p].devs[w], states[p + 1].devs[w], s) {
      assert StepOf(states[p], acts[p], states[p + 1]);
      StepOriginBack(states[p], acts[p], w, s);
    }
  }

  lemma {:induction false} BufferOrigin(ds: seq<Dev>, k: nat, s: nat) returns (j: nat)
    requires k < |ds| && !ds[0].w.pc.BlockWrite? && Buffered(ds[k], s)
    requires forall p :: 0 <= p < |ds| - 1 ==> OriginBack(ds[p], ds[p + 1], s)
    ensures j < k && s < |ds[j].src| && s - Base(ds[k].w) < |ds[k].w.buf|
    ensures ds[k].w.buf[s - Base(ds[k].w)] == ds[j].src[s]
    decreases k
  {
    if k == 0 {
      assert false;
    } else {
      assert OriginBack(ds[k - 1], ds[k - 1 + 1], s);
      if Buffered(ds[k - 1], s) && ds[k].w == ds[k - 1].w {
        j := BufferOrigin(ds, k - 1, s);
      } else {
        j := k - 1;
      }
    }
  }

  // Destination sector s held its original content, or at an earlier state j the source
  // sector held it and at a later state i it lay in the rounded interval being copied.
  predicate HasOrigin(ds: seq<Dev>, k: nat, s: nat, j: nat, i: nat)
    requires k < |ds| && s < |ds[k].dst|
  {
    || (s < |ds[0].dst| && ds[k].dst[s] == ds[0].dst[s])
    || (j < i < k && s < |ds[j].src| && ds[k].dst[s] == ds[j].src[s] && ds[i].spb > 0 && InRounded(ds[i], s))
  }

  lemma {:induction false} DestinationOrigin(ds: seq<Dev>, k: nat, s: nat) returns (j: nat, i: nat)
    requires k < |ds| && !ds[0].w.pc.BlockWrite? && s < |ds[k].dst|
    requires forall p :: 0 <= p < |ds| - 1 ==> OriginBack(ds[p], ds[p + 1], s)
    ensures HasOrigin(ds, k, s, j, i)
    decreases k
  {
    j, i := 0, 0;
    if k > 0 {
      assert OriginBack(ds[k - 1], ds[k - 1 + 1], s);
      if ds[k].dst[s] == ds[k - 1].dst[s] {
        j, i := DestinationOrigin(ds, k - 1, s);
      } else {
        i := k - 1;
        j := BufferOrigin(ds, k - 1, s);
      }
    }
  }

  /** Provenance and frame: in every state of every run a destination sector holds its
      original content, or content the same source sector held at an earlier state and that
      was copied as part of an interval handed out, rounded up to whole blocks. */
  lemma DestinationProvenance(states: seq<Sys>, acts: seq<Act>, w: nat, k: nat, s: nat) returns (j: nat, i: nat)
    requires IsRun(states, acts) && k < |states| && w < |states[0].devs|
    requires w < |states[k].devs| && s < |states[k].devs[w].dst|
    ensures forall x :: 0 <= x < |states| ==> w < |states[x].devs|
    ensures HasOrigin(DevsOf(states, w), k, s, j, i)
  {
    DevsOriginBack(states, acts, w, s);
    assert InitDev(states[0].devs[w]);
    j, i := DestinationOrigin(DevsOf(states, w), k, s);
  }

  // ---- What holds in every state of every run ----

  // The interval in flight is in the history of the store.
  ghost predicate HeldInHistory(d: Dev) {
    Copying(d.w.pc) ==> forall s: nat :: d.w.interval.Contains(s) ==> At(d.store.synced, s) != 0
  }

  lemma WorkKeepsHeld(d: Dev, now: int)
    requires d.store.Valid() && CanWork(d) && HeldInHistory(d)
    ensures HeldInHistory(DoWork(d, now))
  {
    assert HeldInHistory(FreezeWork(d));
    assert HeldInHistory(CopyWork(d));
    assert HeldInHistory(LoopWork(d, now)) by {
      if d.w.pc.Remove? { forall s: nat { AddAt(d.store.synced, d.w.interval, 1, s); } }
    }
  }

  lemma DeviceKeepsHeld(d: Dev, x: DevAction, now: int)
    requires d.store.Valid() && D.Enabled(d, x) && HeldInHistory(d)
    ensures HeldInHistory(D.Step(d, x, now))
  {
    if x.Work? { WorkKeepsHeld(d, now); }
  }

  lemma StepKeepsHeld(s: Sys, a: Act, w: nat)
    requires Stores(s) && MainInv(s) && CanTake(s, a) && w < |s.devs| && |Take(s, a).devs| == |s.devs|
    requires HeldInHistory(s.devs[w])
    ensures HeldInHistory(Take(s, a).devs[w])
  {
    if a.Device? && a.w == w {
      DeviceKeepsHeld(s.devs[w], a.a, s.now);
    } else if a.MainStep? {
      MainSeenFrom(s, w);
    }
  }

  lemma {:induction false} RunHeld(states: seq<Sys>, acts: seq<Act>, w: nat, k: nat)
    requires IsRun(states, acts) && k < |states| && w < |states[0].devs|
    ensures w < |states[k].devs| && HeldInHistory(states[k].devs[w])
    decreases k
  {
    if k == 0 {
      assert InitDev(states[0].devs[w]);
    } else {
      RunHeld(states, acts, w, k - 1);
      RunSteps(states, acts, w);
      assert StepOf(states[k - 1], acts[k - 1], states[k - 1 + 1]);
      StepKeepsHeld(states[k - 1], acts[k - 1], w);
    }
  }

  /** No lost write: on a tracked sector source and destination agree, or the sector is in
      the store, or a trace of it is on its way, or it lies in the part of the scan still to
      be seeded, or in the uncopied part of the interval in flight.  That last part is also
      in the history, which for a worker that has thrown or died is all that names it. */
  lemma NoWriteIsLost(states: seq<Sys>, acts: seq<Act>, w: nat, k: nat, s: nat)
    requires IsRun(states, acts) && k < |states| && w < |states[k].devs| && s in states[k].devs[w].tracked
    ensures var d := states[k].devs[w];
            && s < |d.src| <= |d.dst|
            && (|| d.src[s] == d.dst[s] || At(d.store.unsynced, s) != 0 || Covered(d.pending, s)
                || (Copying(d.w.pc) && CopiedTo(d) <= s < d.w.interval.upper && At(d.store.synced, s) != 0)
                || (d.w.pc.Seed? && At(d.w.pc.left, s) != 0))
  {
    RunInv(states, acts, k);
    assert DevInv(states[k].devs[w]);
    assert SectorOk(states[k].devs[w], s);
    RunHeld(states, acts, w, k);
  }

  /** Whenever the loop comes round, the bytes reported sent and the sectors still unsynced
      add up to those unsynced at the start and those newly inserted since; and an interval
      about to be removed is still wholly unsynced. */
  lemma BytesAreAccountedFor(states: seq<Sys>, acts: seq<Act>, w: nat, k: nat)
    requires IsRun(states, acts) && k < |states| && w < |states[k].devs|
    ensures var d := states[k].devs[w];
            && (d.w.pc.Top? ==>
                  d.w.sent % 512 == 0 && d.w.sent / 512 + |Dom(d.store.unsynced)| == d.initCount + d.inserted)
            && (d.w.pc.Remove? ==> d.w.interval.Sectors() <= Dom(d.store.unsynced))
  {
    RunInv(states, acts, k);
    assert DevInv(states[k].devs[w]);
    TopIsAccounted(states[k].devs[w]);
  }

  lemma TopIsAccounted(d: Dev)
    requires SyncInv(d)
    ensures d.w.pc.Top? ==>
              d.w.sent % 512 == 0 && d.w.sent / 512 + |Dom(d.store.unsynced)| == d.initCount + d.inserted
  {
    CountIsSize(d.store.unsynced);
  }

  predicate WindowOpen(p: ThreadPc) { p.Froze? || p.DidFreeze? || p.Sleeping? || p.Thawing? }

  predicate ThawBy(a: Act, w: nat) { a.Device? && a.w == w && (a.a.ThawOk? || a.a.ThawFail?) }

  lemma WorkKeepsOpen(d: Dev, now: int)
    requires d.store.Valid() && CanWork(d) && FreezeInv(d) && WindowOpen(d.fz.pc)
    ensures DoWork(d, now).fz == d.fz
  {
  }

  // An open window stays open through any step but a thaw.
  predicate KeepsOpen(d: Dev, e: Dev, thaw: bool) {
    WindowOpen(d.fz.pc) && !thaw ==> WindowOpen(e.fz.pc)
  }

  lemma DeviceKeepsOpen(d: Dev, x: DevAction, now: int)
    requires d.store.Valid() && D.Enabled(d, x) && FreezeInv(d)
    ensures KeepsOpen(d, D.Step(d, x, now), x.ThawOk? || x.ThawFail?)
  {
    if x.Work? && WindowOpen(d.fz.pc) { WorkKeepsOpen(d, now); }
  }

  lemma StepKeepsOpen(s: Sys, a: Act, w: nat)
    requires Inv(s) && CanTake(s, a) && w < |s.devs| && |Take(s, a).devs| == |s.devs|
    ensures KeepsOpen(s.devs[w], Take(s, a).devs[w], ThawBy(a, w))
  {
    assert DevInv(s.devs[w]);
    if a.Device? && a.w == w { DeviceKeepsOpen(s.devs[w], a.a, s.now); } else { StepSeenFrom(s, a, w); }
  }

  lemma DevsKeepOpen(states: seq<Sys>, acts: seq<Act>, w: nat)
    requires IsRun(states, acts) && w < |states[0].devs|
    ensures forall k :: 0 <= k < |states| ==> w < |states[k].devs|
    ensures forall p :: 0 <= p < |acts| ==> KeepsOpen(states[p].devs[w], states[p + 1].devs[w], ThawBy(acts[p], w))
  {
    RunSteps(states, acts, w);
    forall p | 0 <= p < |acts| ensures KeepsOpen(states[p].devs[w], states[p + 1].devs[w], ThawBy(acts[p], w)) {
      assert StepOf(states[p], acts[p], states[p + 1]);
      StepKeepsOpen(states[p], acts[p], w);
    }
  }

  lemma {:induction false} StaysOpen(ds: seq<Dev>, thaws: seq<bool>, i: nat, k: nat)
    requires |ds| == |thaws| + 1 && i <= k < |ds|
    requires forall p :: 0 <= p < |thaws| ==> KeepsOpen(ds[p], ds[p + 1], thaws[p])
    requires WindowOpen(ds[i].fz.pc) && forall t :: i <= t < k ==> !thaws[t]
    ensures WindowOpen(ds[k].fz.pc)
    decreases k
  {
    if i < k {
      StaysOpen(ds, thaws, i, k - 1);
      assert KeepsOpen(ds[k - 1], ds[k - 1 + 1], thaws[k - 1]);
    }
  }

  // The freeze call of device w returns, having frozen the device or failed.
  predicate FreezeBy(a: Act, w: nat) { a.Device? && a.w == w && (a.a.FreezeOk? || a.a.FreezeFail?) }

  lemma FreezeOpens(s: Sys, a: Act, w: nat)
    requires Stores(s) && CanTake(s, a) && w < |s.devs| && a == Device(w, FreezeOk)
    ensures w < |Take(s, a).devs| && WindowOpen(Take(s, a).devs[w].fz.pc)
  {
  }

  /** Between a freeze of a device and the return of its next freeze call a thaw has been
      attempted. */
  lemma FreezesAlternateWithThaws(states: seq<Sys>, acts: seq<Act>, w: nat, i: nat, k: nat)
    requires IsRun(states, acts) && i < k < |acts| && w < |states[0].devs|
    requires acts[i] == Device(w, FreezeOk) && FreezeBy(acts[k], w)
    ensures exists t :: i < t < k && ThawBy(acts[t], w)
  {
    DevsKeepOpen(states, acts, w);
    FreezeOpens(states[i], acts[i], w);
    assert states[i + 1] == Take(states[i], acts[i]);
    assert CanTake(states[k], acts[k]);
    var ds := DevsOf(states, w);
    var thaws := seq(|acts|, t requires 0 <= t < |acts| => ThawBy(acts[t], w));
    if forall t :: i + 1 <= t < k ==> !thaws[t] {
      StaysOpen(ds, thaws, i + 1, k);
    } else {
      var t :| i + 1 <= t < k && thaws[t];
      assert ThawBy(acts[t], w);
    }
  }

  /** The frozen flag is never wrong, and a freeze thread is started only when the one
      before it has ended and been joined. */
  lemma FrozenFlagIsTrue(states: seq<Sys>, acts: seq<Act>, w: nat, k: nat)
    requires IsRun(states, acts) && k < |states| && w < |states[k].devs|
    ensures states[k].devs[w].fz.isFrozen ==> states[k].devs[w].fz.deviceFrozen
    ensures states[k].devs[w].w.pc.Spawn? ==> states[k].devs[w].fz.pc.NoThread?
  {
    RunInv(states, acts, k);
    assert DevInv(states[k].devs[w]);
  }
}
