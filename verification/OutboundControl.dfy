/**
  What may be sent, and when: the uploads and caps of any moment are those that
  were asked for, a stream is paused exactly if it was last told so, and of the
  rows queued on a stream exactly the one whose turn it is may be sealed.
 */
module OutboundControl {
  import opened Basics
  import opened OutboundTables
  import opened OutboundRun
  import opened OutboundSafety
  import opened OutboundUploads
  import opened OutboundTheorems
  import opened OutboundOutcomes

  // Uploads.

  function Queues(agg: Uuid, u: Upload): Step {
    Queueing(EnqueueChunks(agg, u.chunks, u.payloads, u.rcw, u.release, u.main))
  }

  /** `agg` is an upload with the contents of `u`, cancelled or not. */
  ghost predicate HasUpload(w: World, agg: Uuid, u: Upload) {
    agg in w.uploads && w.uploads[agg].(cancelled := false) == u
  }

  lemma StepHasUpload(w: World, step: Step, agg: Uuid, u: Upload)
    requires Enabled(w, step) && w.uploads.Keys <= w.used && !u.cancelled
    ensures HasUpload(Apply(w, step), agg, u) <==> HasUpload(w, agg, u) || step == Queues(agg, u)
  {
    hide AfterQueue, AfterSeal, AfterDrain, AfterControl;
    match step
    case Queueing(q) => QueueHasUpload(w, q, agg, u);
    case Sealed(z) => SealKeepsUploads(w, z);
    case Drained(d) => DrainKeepsUploads(w, d);
    case Controlled(c) => ControlHasUpload(w, c, agg, u);
  }

  lemma QueueHasUpload(w: World, step: QueueStep, agg: Uuid, u: Upload)
    requires CanQueue(w, step) && w.uploads.Keys <= w.used && !u.cancelled
    ensures HasUpload(AfterQueue(w, step), agg, u) <==> HasUpload(w, agg, u) || Queueing(step) == Queues(agg, u)
  {
    hide EnqueueUpload, Provision;
  }

  lemma SealKeepsUploads(w: World, step: SealStep)
    requires CanSeal(w, step)
    ensures AfterSeal(w, step).uploads == w.uploads
  {}

  lemma DrainKeepsUploads(w: World, step: DrainStep)
    requires CanDrain(w, step)
    ensures AfterDrain(w, step).uploads == w.uploads
  {
    if step.FinalizeAck? {
      FinalizeFrame(w, step.d, 0);
      hide Finalized;
    } else {
      DrainFrame(w, step);
      hide AfterDrain;
    }
  }

  lemma ControlHasUpload(w: World, step: ControlStep, agg: Uuid, u: Upload)
    requires CanControl(w, step)
    ensures HasUpload(AfterControl(w, step), agg, u) <==> HasUpload(w, agg, u)
  {
    if step.Cancel? {
      CancelMarks(w, step.rcw, step.release);
      hide Cancelled;
    }
  }

  /** One of the first `i` steps queued this upload. */
  ghost predicate QueuedBefore(steps: seq<Step>, i: nat, agg: Uuid, u: Upload)
    requires i <= |steps|
  {
    exists k :: 0 <= k < i && steps[k] == Queues(agg, u)
  }

  lemma QueuedNext(steps: seq<Step>, i: nat, agg: Uuid, u: Upload)
    requires i < |steps|
    ensures QueuedBefore(steps, i + 1, agg, u) <==> QueuedBefore(steps, i, agg, u) || steps[i] == Queues(agg, u)
  {}

  /** The uploads of any moment are exactly those queued before it, with the
      chunks, payloads and streams they were queued with. */
  lemma {:induction false} UploadsAsQueued(ws: seq<World>, steps: seq<Step>, i: nat, agg: Uuid, u: Upload)
    requires Run(ws, steps) && i < |ws| && !u.cancelled
    ensures HasUpload(ws[i], agg, u) <==> QueuedBefore(steps, i, agg, u)
  {
    if i > 0 {
      assert |ws| == |steps| + 1 && Moves(ws, steps, i - 1);
      hide Run, Kept, Apply, HasUpload, QueuedBefore;
      UploadsAsQueued(ws, steps, i - 1, agg, u);
      RunKept(ws, steps, i - 1);
      UploadsUsedIn(ws[i - 1]);
      StepHasUpload(ws[i - 1], steps[i - 1], agg, u);
      QueuedNext(steps, i - 1, agg, u);
    }
  }

  lemma UploadsUsedIn(w: World)
    requires Kept(w)
    ensures w.uploads.Keys <= w.used
  {
    KnownUploads(w);
  }

  // Caps.

  /** `rcw` reads the stream `s` with `cap`, unless it was cancelled, and the
      first box of `s` is `index`. */
  ghost predicate CapIs(w: World, rcw: Uuid, s: Uuid, index: nat, cap: Bytes) {
    && rcw in w.used && s in w.first && w.first[s] == index
    && (rcw in w.t.readCaps ==> w.t.readCaps[rcw].cap == Some(cap) && w.t.readCaps[rcw].writeCap == Some(s))
  }

  lemma CapStays(w: World, step: Step, rcw: Uuid, s: Uuid, index: nat, cap: Bytes)
    requires Kept(w) && Enabled(w, step) && CapIs(w, rcw, s, index, cap)
    ensures CapIs(Apply(w, step), rcw, s, index, cap)
  {
    KnownUploads(w);
    StepUploads(w, step);
    StepGrows(w, step, s);
    hide Inv, UploadsKept, AfterQueue, AfterSeal, AfterDrain, AfterControl;
    match step
    case Queueing(q) => QueueCaps(w, q, rcw);
    case Sealed(z) => SealCaps(w, z);
    case Drained(d) => DrainCaps(w, d);
    case Controlled(c) => ControlCaps(w, c);
  }

  lemma QueueCaps(w: World, step: QueueStep, rcw: Uuid)
    requires CanQueue(w, step) && rcw in w.used
    ensures
      var caps := AfterQueue(w, step).t.readCaps;
      && (rcw in caps ==> rcw in w.t.readCaps)
      && (rcw in w.t.readCaps && w.t.readCaps[rcw].cap.Some? && rcw in caps ==> caps[rcw] == w.t.readCaps[rcw])
  {}

  lemma SealCaps(w: World, step: SealStep)
    requires CanSeal(w, step)
    ensures AfterSeal(w, step).t.readCaps == w.t.readCaps
  {}

  lemma DrainCaps(w: World, step: DrainStep)
    requires CanDrain(w, step)
    ensures AfterDrain(w, step).t.readCaps == w.t.readCaps
  {
    if step.FinalizeAck? {
      SentCaps(w.t, step.d.stream, step.d.row);
      FinalizeFrame(w, step.d, 0);
      hide Finalized, FinalizeStale, MarkSent;
    } else {
      DrainFrame(w, step);
    }
  }

  lemma SentCaps(t: Tables, stream: Uuid, e: Envelope)
    ensures MarkSent(t, stream, e).readCaps == t.readCaps && FinalizeStale(t, stream, e).readCaps == t.readCaps
  {}

  lemma ControlCaps(w: World, step: ControlStep)
    requires CanControl(w, step)
    ensures
      var caps := AfterControl(w, step).t.readCaps;
      forall rcw | rcw in caps :: rcw in w.t.readCaps && caps[rcw] == w.t.readCaps[rcw]
  {
    if step.Cancel? {
      CancelReads(w.t, step.rcw, step.release);
      hide CancelUpload, MarkedCancelled;
    }
  }

  lemma CancelReads(t: Tables, rcw: Uuid, release: Uuid)
    requires release in t.queue && t.queue[release].indirection == Some(rcw)
    ensures forall r | r in CancelUpload(t, rcw, release).readCaps ::
        r in t.readCaps && CancelUpload(t, rcw, release).readCaps[r] == t.readCaps[r]
  {
    hide Remaining;
  }

  /** Once provisioned a read cap is what it was provisioned as, for as long as
      it is there, and the stream it reads begins at the index given. */
  lemma {:induction false} CapsStand(ws: seq<World>, steps: seq<Step>, k: nat, i: nat,
                                     rcw: Uuid, index: nat, cap: Bytes)
    requires Run(ws, steps) && k < i < |ws| && steps[k] == Queueing(ProvisionCaps(rcw, index, cap))
    ensures rcw in ws[k].t.readCaps && ws[k].t.readCaps[rcw].writeCap.Some?
    ensures CapIs(ws[i], rcw, ws[k].t.readCaps[rcw].writeCap.value, index, cap)
    decreases i
  {
    assert Moves(ws, steps, k);
    hide Kept;
    RunKept(ws, steps, i - 1);
    assert Moves(ws, steps, i - 1);
    var s := ws[k].t.readCaps[rcw].writeCap.value;
    if i == k + 1 {
      KnownReads(ws[k]);
      hide Kept, CapIs;
      CapBegins(ws[k], rcw, index, cap);
    } else {
      hide Kept, CapIs, Apply, Enabled;
      CapsStand(ws, steps, k, i - 1, rcw, index, cap);
      CapStays(ws[i - 1], steps[i - 1], rcw, s, index, cap);
    }
  }

  lemma KnownReads(w: World)
    requires Kept(w)
    ensures w.t.readCaps.Keys <= w.used
  {}

  lemma CapBegins(w: World, rcw: Uuid, index: nat, cap: Bytes)
    requires w.t.readCaps.Keys <= w.used && CanQueue(w, ProvisionCaps(rcw, index, cap))
    ensures CapIs(CapsProvisioned(w, rcw, index, cap), rcw, w.t.readCaps[rcw].writeCap.value, index, cap)
  {}

  // Pairs of caps.

  /** Each read cap reads a stream of its own, and each stream there is has one;
      both are provisioned or neither is. */
  ghost predicate CapsPaired(writeCaps: map<Uuid, WriteCap>, readCaps: map<Uuid, ReadCap>) {
    && (forall r | r in readCaps :: ReadsStream(readCaps[r], writeCaps))
    && (forall r, r' | r in readCaps && r' in readCaps && readCaps[r].writeCap == readCaps[r'].writeCap :: r == r')
    && (forall s | s in writeCaps :: IsRead(readCaps, s))
  }

  ghost predicate ReadsStream(cap: ReadCap, writeCaps: map<Uuid, WriteCap>) {
    cap.writeCap.Some? && cap.writeCap.value in writeCaps
    && (cap.cap.Some? <==> writeCaps[cap.writeCap.value].next.Some?)
  }

  ghost predicate IsRead(readCaps: map<Uuid, ReadCap>, s: Uuid) {
    exists r :: r in readCaps && readCaps[r].writeCap == Some(s)
  }

  lemma CapsAdded(writeCaps: map<Uuid, WriteCap>, readCaps: map<Uuid, ReadCap>, s: Uuid, rcw: Uuid, total: Option<nat>)
    requires CapsPaired(writeCaps, readCaps) && s !in writeCaps && rcw !in readCaps
    ensures CapsPaired(writeCaps[s := WriteCap(None, false)], readCaps[rcw := ReadCap(Some(s), None, total)])
  {
    var caps, caps' := readCaps, readCaps[rcw := ReadCap(Some(s), None, total)];
    assert caps'[rcw].writeCap == Some(s) && IsRead(caps', s);
    assert forall r | r in caps :: ReadsStream(caps[r], writeCaps) && caps[r].writeCap != Some(s);
    forall x | x in writeCaps
      ensures IsRead(caps', x)
    {
      var r :| r in caps && caps[r].writeCap == Some(x);
      assert r in caps' && caps'[r].writeCap == Some(x);
    }
  }

  lemma CapsSet(writeCaps: map<Uuid, WriteCap>, readCaps: map<Uuid, ReadCap>, rcw: Uuid, index: nat, cap: Bytes)
    requires CapsPaired(writeCaps, readCaps) && rcw in readCaps
    ensures
      var s := readCaps[rcw].writeCap.value;
      CapsPaired(writeCaps[s := writeCaps[s].(next := Some(index))], readCaps[rcw := readCaps[rcw].(cap := Some(cap))])
  {
    var s := readCaps[rcw].writeCap.value;
    var writeCaps', readCaps' := writeCaps[s := writeCaps[s].(next := Some(index))],
                                 readCaps[rcw := readCaps[rcw].(cap := Some(cap))];
    assert forall r | r in readCaps :: readCaps'[r].writeCap == readCaps[r].writeCap;
    forall x | x in writeCaps
      ensures IsRead(readCaps', x)
    {
      var r :| r in readCaps && readCaps[r].writeCap == Some(x);
      assert readCaps'[r].writeCap == Some(x);
    }
  }

  lemma CapsDropped(writeCaps: map<Uuid, WriteCap>, readCaps: map<Uuid, ReadCap>, rcw: Uuid)
    requires CapsPaired(writeCaps, readCaps) && rcw in readCaps
    ensures CapsPaired(writeCaps - {readCaps[rcw].writeCap.value}, readCaps - {rcw})
  {
    var s := readCaps[rcw].writeCap.value;
    forall x | x in writeCaps && x != s
      ensures IsRead(readCaps - {rcw}, x)
    {
      var r :| r in readCaps && readCaps[r].writeCap == Some(x);
      assert r in readCaps - {rcw} && (readCaps - {rcw})[r].writeCap == Some(x);
    }
  }

  lemma CapsAlike(writeCaps: map<Uuid, WriteCap>, writeCaps': map<Uuid, WriteCap>, readCaps: map<Uuid, ReadCap>)
    requires CapsPaired(writeCaps, readCaps) && writeCaps'.Keys == writeCaps.Keys
    requires forall s | s in writeCaps :: writeCaps'[s].next.Some? <==> writeCaps[s].next.Some?
    ensures CapsPaired(writeCaps', readCaps)
  {
    assert forall r | r in readCaps :: ReadsStream(readCaps[r], writeCaps);
  }

  lemma StepPaired(w: World, step: Step)
    requires Kept(w) && Enabled(w, step) && CapsPaired(w.t.writeCaps, w.t.readCaps)
    ensures CapsPaired(Apply(w, step).t.writeCaps, Apply(w, step).t.readCaps)
  {
    KnownCaps(w);
    KnownReads(w);
    hide CapsPaired, AfterQueue, AfterSeal, AfterDrain, AfterControl;
    match step
    case Queueing(q) =>
      hide Kept;
      QueuePaired(w, q);
    case Sealed(z) =>
      hide Kept;
      SealCaps(w, z);
      PausedSeal(w, z);
    case Drained(d) => DrainPaired(w, d);
    case Controlled(c) =>
      hide Kept;
      ControlPaired(w, c);
  }

  lemma QueuePaired(w: World, step: QueueStep)
    requires CanQueue(w, step) && CapsPaired(w.t.writeCaps, w.t.readCaps)
    requires w.t.writeCaps.Keys <= w.used && w.t.readCaps.Keys <= w.used
    ensures CapsPaired(AfterQueue(w, step).t.writeCaps, AfterQueue(w, step).t.readCaps)
  {
    hide CapsPaired;
    match step
    case OpenStream(s, rcw) => CapsAdded(w.t.writeCaps, w.t.readCaps, s, rcw, None);
    case ProvisionCaps(rcw, index, cap) => CapsSet(w.t.writeCaps, w.t.readCaps, rcw, index, cap);
    case EnqueueBox(_, _, _) =>
    case EnqueueChunks(agg, chunks, payloads, rcw, release, main) =>
      hide UploadQueued;
      CapsAdded(w.t.writeCaps, w.t.readCaps, agg, rcw, Some(|chunks|));
  }

  lemma DrainPaired(w: World, step: DrainStep)
    requires Kept(w) && CanDrain(w, step) && CapsPaired(w.t.writeCaps, w.t.readCaps)
    ensures CapsPaired(AfterDrain(w, step).t.writeCaps, AfterDrain(w, step).t.readCaps)
  {
    DrainCaps(w, step);
    if step.FinalizeAck? {
      FinalizedNexts(w, step.d);
      hide Kept, Finalized, CapsPaired;
      CapsAlike(w.t.writeCaps, Finalized(w, step.d).t.writeCaps, w.t.readCaps);
    } else {
      hide Kept, CapsPaired;
      DrainFrame(w, step);
      hide AfterDrain;
    }
  }

  lemma FinalizedNexts(w: World, d: Drain)
    requires Kept(w) && d in w.drains && d.phase.Prechecked?
    ensures
      var caps := Finalized(w, d).t.writeCaps;
      && caps.Keys == w.t.writeCaps.Keys
      && forall s | s in caps :: caps[s].next.Some? <==> w.t.writeCaps[s].next.Some?
  {
    if d.row.plaintext in w.t.queue {
      QueuedDrainMatches(w, d);
    }
    hide Kept;
    SentNexts(w.t, d.stream, d.row);
    FinalizeFrame(w, d, 0);
    hide Finalized, MarkSent, FinalizeStale;
  }

  lemma SentNexts(t: Tables, stream: Uuid, e: Envelope)
    ensures FinalizeStale(t, stream, e).writeCaps == t.writeCaps
    ensures MarkSent(t, stream, e).writeCaps.Keys == t.writeCaps.Keys
    ensures e.plaintext !in t.queue ==> MarkSent(t, stream, e).writeCaps == t.writeCaps
    ensures stream in t.writeCaps && t.writeCaps[stream].next.Some? ==>
              forall s | s in t.writeCaps ::
                MarkSent(t, stream, e).writeCaps[s].next.Some? <==> t.writeCaps[s].next.Some?
  {}

  lemma ControlPaired(w: World, step: ControlStep)
    requires CanControl(w, step) && CapsPaired(w.t.writeCaps, w.t.readCaps)
    ensures CapsPaired(AfterControl(w, step).t.writeCaps, AfterControl(w, step).t.readCaps)
  {
    match step
    case SetPaused(s, paused) =>
      hide CapsPaired;
      CapsAlike(w.t.writeCaps, w.t.writeCaps[s := w.t.writeCaps[s].(paused := paused)], w.t.readCaps);
    case Cancel(rcw, release) =>
      CancelPaired(w.t, rcw, release);
      hide CapsPaired, CancelUpload, MarkedCancelled;
    case Crash =>
  }

  lemma CancelPaired(t: Tables, rcw: Uuid, release: Uuid)
    requires release in t.queue && t.queue[release].indirection == Some(rcw)
    requires CapsPaired(t.writeCaps, t.readCaps)
    ensures CapsPaired(CancelUpload(t, rcw, release).writeCaps, CancelUpload(t, rcw, release).readCaps)
  {
    if rcw in t.readCaps {
      CapsDropped(t.writeCaps, t.readCaps, rcw);
    }
    hide CapsPaired, Remaining;
  }

  /** At every moment each read cap has a stream and each stream a read cap, and
      what is not provisioned yet still can be. */
  lemma {:induction false} CapsStayPaired(ws: seq<World>, steps: seq<Step>, i: nat)
    requires Run(ws, steps) && i < |ws|
    ensures CapsPaired(ws[i].t.writeCaps, ws[i].t.readCaps)
    ensures forall rcw, index: nat, cap: Bytes | rcw in ws[i].t.readCaps ::
              ws[i].t.readCaps[rcw].cap.None? <==> Enabled(ws[i], Queueing(ProvisionCaps(rcw, index, cap)))
  {
    if i > 0 {
      assert Moves(ws, steps, i - 1);
      hide CapsPaired, Apply, Kept;
      CapsStayPaired(ws, steps, i - 1);
      RunKept(ws, steps, i - 1);
      StepPaired(ws[i - 1], steps[i - 1]);
    }
    PairedProvisions(ws[i]);
  }

  lemma PairedProvisions(w: World)
    requires CapsPaired(w.t.writeCaps, w.t.readCaps)
    ensures forall rcw, index: nat, cap: Bytes | rcw in w.t.readCaps ::
              w.t.readCaps[rcw].cap.None? <==> Enabled(w, Queueing(ProvisionCaps(rcw, index, cap)))
  {
    forall rcw, index: nat, cap: Bytes | rcw in w.t.readCaps
      ensures w.t.readCaps[rcw].cap.None? <==> CanQueue(w, ProvisionCaps(rcw, index, cap))
    {
      assert ReadsStream(w.t.readCaps[rcw], w.t.writeCaps);
    }
  }

  // Pausing.

  predicate SetsPaused(step: Step, s: Uuid) {
    step.Controlled? && step.c.SetPaused? && step.c.s == s
  }

  /** Whether the last of the first `i` steps that set it paused `s`. */
  function LastPaused(steps: seq<Step>, i: nat, s: Uuid): bool
    requires i <= |steps|
  {
    if i == 0 then false
    else if SetsPaused(steps[i - 1], s) then steps[i - 1].c.paused
    else LastPaused(steps, i - 1, s)
  }

  /** The flag of a stream there before is as it was, or as it is set now; one
      of a stream not known before is not set. */
  lemma PausedStep(w: World, step: Step, s: Uuid)
    requires Enabled(w, step) && s in Apply(w, step).t.writeCaps && w.t.writeCaps.Keys <= w.used
    ensures
      var caps := Apply(w, step).t.writeCaps;
      if SetsPaused(step, s) then caps[s].paused == step.c.paused
      else if s in w.t.writeCaps then caps[s].paused == w.t.writeCaps[s].paused
      else s !in w.used && !caps[s].paused
  {
    hide AfterQueue, AfterSeal, AfterDrain, AfterControl;
    match step
    case Queueing(q) => PausedQueue(w, q, s);
    case Sealed(z) => PausedSeal(w, z);
    case Drained(d) => PausedDrain(w, d, s);
    case Controlled(c) => PausedControl(w, c, s);
  }

  lemma PausedControl(w: World, step: ControlStep, s: Uuid)
    requires CanControl(w, step) && s in AfterControl(w, step).t.writeCaps
    ensures
      var caps := AfterControl(w, step).t.writeCaps;
      && s in w.t.writeCaps
      && caps[s].paused == if SetsPaused(Controlled(step), s) then step.paused else w.t.writeCaps[s].paused
  {
    match step
    case SetPaused(x, paused) =>
      var t := w.t.(writeCaps := w.t.writeCaps[x := w.t.writeCaps[x].(paused := paused)]);
      assert AfterControl(w, step) == w.(t := t);
    case Cancel(rcw, release) =>
      CancelCaps(w.t, rcw, release);
      hide CancelUpload, MarkedCancelled;
    case Crash =>
  }

  lemma CancelCaps(t: Tables, rcw: Uuid, release: Uuid)
    requires release in t.queue && t.queue[release].indirection == Some(rcw)
    ensures forall s | s in CancelUpload(t, rcw, release).writeCaps ::
        s in t.writeCaps && CancelUpload(t, rcw, release).writeCaps[s] == t.writeCaps[s]
  {
    hide Remaining;
  }

  lemma PausedQueue(w: World, step: QueueStep, s: Uuid)
    requires CanQueue(w, step) && s in AfterQueue(w, step).t.writeCaps
    ensures
      var caps := AfterQueue(w, step).t.writeCaps;
      if s in w.t.writeCaps && s in w.used then caps[s].paused == w.t.writeCaps[s].paused
      else s in w.t.writeCaps || (s !in w.used && !caps[s].paused)
  {}

  lemma PausedSeal(w: World, step: SealStep)
    requires CanSeal(w, step)
    ensures AfterSeal(w, step).t.writeCaps == w.t.writeCaps
  {}

  lemma PausedDrain(w: World, step: DrainStep, s: Uuid)
    requires CanDrain(w, step) && s in AfterDrain(w, step).t.writeCaps
    ensures s in w.t.writeCaps && AfterDrain(w, step).t.writeCaps[s].paused == w.t.writeCaps[s].paused
  {
    if step.FinalizeAck? {
      PausedFinalized(w, step.d, s);
      hide Finalized;
    } else {
      DrainFrame(w, step);
      hide AfterDrain;
    }
  }

  lemma PausedFinalized(w: World, d: Drain, s: Uuid)
    requires d.phase.Prechecked? && s in Finalized(w, d).t.writeCaps
    ensures s in w.t.writeCaps && Finalized(w, d).t.writeCaps[s].paused == w.t.writeCaps[s].paused
  {
    PausedSent(w.t, d.stream, d.row, s);
    FinalizeFrame(w, d, s);
    hide MarkSent, FinalizeStale, Finalized;
  }

  lemma PausedSent(t: Tables, stream: Uuid, e: Envelope, s: Uuid)
    ensures FinalizeStale(t, stream, e).writeCaps == t.writeCaps
    ensures MarkSent(t, stream, e).writeCaps.Keys == t.writeCaps.Keys
    ensures s in t.writeCaps ==> MarkSent(t, stream, e).writeCaps[s].paused == t.writeCaps[s].paused
  {}

  lemma KnownCaps(w: World)
    requires Kept(w)
    ensures w.t.writeCaps.Keys <= w.used
  {}

  lemma UsedGrows(w: World, step: Step, s: Uuid)
    requires Kept(w) && Enabled(w, step) && s in w.used
    ensures s in Apply(w, step).used
  {
    KnownUploads(w);
    StepUploads(w, step);
  }

  /** A stream is paused exactly if the last step that set it so paused it. */
  lemma {:induction false} PausedExactly(ws: seq<World>, steps: seq<Step>, i: nat, s: Uuid)
    requires Run(ws, steps) && i < |ws|
    ensures s in ws[i].t.writeCaps ==> (ws[i].t.writeCaps[s].paused <==> LastPaused(steps, i, s))
    ensures s !in ws[i].used ==> !LastPaused(steps, i, s)
  {
    if i > 0 {
      PausedExactly(ws, steps, i - 1, s);
      RunKept(ws, steps, i - 1);
      assert Moves(ws, steps, i - 1);
      var w := ws[i - 1];
      KnownCaps(w);
      hide Kept;
      if SetsPaused(steps[i - 1], s) {
        assert s in w.t.writeCaps;
      }
      hide Apply;
      if s in w.used {
        UsedGrows(w, steps[i - 1], s);
      }
      if s in ws[i].t.writeCaps {
        PausedStep(w, steps[i - 1], s);
      }
    }
  }

  /** No task began on `s` between the two worlds. */
  ghost predicate NoneBegan(w: World, w': World, s: Uuid) {
    && (s in w'.sealing ==> s in w.sealing && w'.sealing[s].plaintext == w.sealing[s].plaintext)
    && forall d | d in w'.drains && d.stream == s :: Loaded(w, s, d.row)
  }

  ghost predicate Loaded(w: World, s: Uuid, row: Envelope) {
    exists d | d in w.drains :: d.stream == s && d.row == row
  }

  lemma PausedTasks(w: World, step: Step, s: Uuid)
    requires Enabled(w, step) && (s in w.t.writeCaps ==> w.t.writeCaps[s].paused)
    ensures NoneBegan(w, Apply(w, step), s)
  {
    assert forall d | d in w.drains && d.stream == s :: Loaded(w, s, d.row);
    hide AfterQueue, AfterSeal, AfterDrain, AfterControl;
    match step
    case Queueing(q) => QueueTasks(w, q);
    case Sealed(z) => PausedSealing(w, z, s);
    case Drained(d) => PausedDrains(w, d, s);
    case Controlled(c) => ControlTasks(w, c);
  }

  lemma QueueTasks(w: World, step: QueueStep)
    requires CanQueue(w, step)
    ensures AfterQueue(w, step).sealing == w.sealing && AfterQueue(w, step).drains == w.drains
  {}

  lemma ControlTasks(w: World, step: ControlStep)
    requires CanControl(w, step)
    ensures
      var w' := AfterControl(w, step);
      w' == w.(sealing := map[], drains := {}) || (w'.sealing == w.sealing && w'.drains == w.drains)
  {
    if step.Cancel? {
      var w' := Cancelled(w, step.rcw, step.release);
      hide CancelUpload, MarkedCancelled;
      var t, uploads := w'.t, w'.uploads;
      assert w' == w.(t := t, uploads := uploads);
      hide Cancelled;
    }
  }

  lemma PausedSealing(w: World, step: SealStep, s: Uuid)
    requires CanSeal(w, step) && (s in w.t.writeCaps ==> w.t.writeCaps[s].paused)
    ensures
      var w' := AfterSeal(w, step);
      && w'.drains == w.drains
      && (s in w'.sealing ==> s in w.sealing && w'.sealing[s].plaintext == w.sealing[s].plaintext)
  {}

  lemma PausedDrains(w: World, step: DrainStep, s: Uuid)
    requires CanDrain(w, step) && (s in w.t.writeCaps ==> w.t.writeCaps[s].paused)
    ensures
      var w' := AfterDrain(w, step);
      w'.sealing == w.sealing && forall d | d in w'.drains && d.stream == s :: Loaded(w, s, d.row)
  {
    assert forall d | d in w.drains && d.stream == s :: Loaded(w, s, d.row);
    match step
    case LoadDrain(_) => PausedLoad(w, step, s);
    case PrecheckAck(_) => PausedLoad(w, step, s);
    case CastDrain(_) => PausedCast(w, step);
    case Deliver(_) => PausedCast(w, step);
    case WriteRemint(_, _) => PausedCast(w, step);
    case FinalizeAck(d) =>
      FinalizeFrame(w, d, s);
      hide Finalized;
    case VerifyDrain(d) =>
      VerifiedFrame(w, d, Ready);
      hide Verified;
    case ReadForRemint(d) =>
      var p := d.row.plaintext;
      VerifiedFrame(w, d, Reminting(if p in w.t.queue then w.t.queue[p].payload else []));
      hide Verified;
  }

  lemma PausedLoad(w: World, step: DrainStep, s: Uuid)
    requires CanDrain(w, step) && (step.LoadDrain? || step.PrecheckAck?)
    requires s in w.t.writeCaps ==> w.t.writeCaps[s].paused
    ensures
      var w' := AfterDrain(w, step);
      w'.sealing == w.sealing && forall d | d in w'.drains && d.stream == s :: Loaded(w, s, d.row)
  {
    assert forall d | d in w.drains && d.stream == s :: Loaded(w, s, d.row);
  }

  lemma PausedCast(w: World, step: DrainStep)
    requires CanDrain(w, step) && (step.CastDrain? || step.Deliver? || step.WriteRemint?)
    ensures AfterDrain(w, step).sealing == w.sealing && AfterDrain(w, step).drains == w.drains
  {
    hide Remint;
  }

  /** While it is paused nothing more is sealed or picked up for a stream. */
  lemma {:induction false} PausedStandsStill(ws: seq<World>, steps: seq<Step>, i: nat, j: nat, s: Uuid)
    requires Run(ws, steps) && i <= j < |ws|
    requires forall m | i <= m < j :: LastPaused(steps, m, s)
    ensures NoneBegan(ws[i], ws[j], s)
    decreases j
  {
    if i == j {
      assert forall d | d in ws[i].drains && d.stream == s :: Loaded(ws[i], s, d.row);
    } else {
      PausedStandsStill(ws, steps, i, j - 1, s);
      PausedExactly(ws, steps, j - 1, s);
      assert Moves(ws, steps, j - 1);
      hide Apply;
      PausedTasks(ws[j - 1], steps[j - 1], s);
    }
  }

  // Turns.

  /** Whether it is the turn of row `p`: the next chunk of an upload, what
      announces one with every chunk sent and its cap there, or any message of
      one box. */
  ghost predicate ItsTurn(w: World, p: Uuid)
    requires p in w.t.queue
  {
    var row := w.t.queue[p];
    if row.stream in w.uploads then
      var chunks := w.uploads[row.stream].chunks;
      |Log(w, row.stream)| < |chunks| && p == chunks[|Log(w, row.stream)|]
    else if row.indirection.Some? then
      exists agg | agg in w.uploads ::
        && w.uploads[agg].release == p && |Log(w, agg)| == |w.uploads[agg].chunks|
        && w.uploads[agg].rcw in w.t.readCaps && w.t.readCaps[w.uploads[agg].rcw].cap.Some?
    else true
  }

  /** A queued row may be sealed exactly if its stream is provisioned, neither
      paused nor busy, and it is the row's turn. */
  lemma EligibleExactly(ws: seq<World>, steps: seq<Step>, i: nat, p: Uuid)
    requires Run(ws, steps) && i < |ws| && p in ws[i].t.queue
    ensures
      var w := ws[i];
      Eligible(w.t, w.sealing.Keys, p) <==> Idle(w, w.t.queue[p].stream) && ItsTurn(w, p)
  {
    RunKept(ws, steps, i);
    var w := ws[i];
    var row := w.t.queue[p];
    if row.stream in w.uploads {
      ChunkRowIs(w, row.stream, p);
    } else if row.indirection.Some? {
      ReleaseRowIs(w, p);
    } else {
      SingleRowIs(ws, steps, i, p);
    }
  }

  lemma ChunkRowIs(w: World, agg: Uuid, p: Uuid)
    requires Kept(w) && p in w.t.queue && w.t.queue[p].stream == agg && agg in w.uploads
    ensures
      var chunks := w.uploads[agg].chunks;
      && w.t.queue[p].afterStream.None? && w.t.queue[p].indirection.None?
      && |Log(w, agg)| <= |chunks|
      && ((w.t.queue[p].afterId.Some? ==> w.t.queue[p].afterId.value in w.t.sent)
          <==> |Log(w, agg)| < |chunks| && p == chunks[|Log(w, agg)|])
  {
    var u, done := w.uploads[agg], |Log(w, agg)|;
    FirstAreSent(w, agg);
    RowIsPending(w, agg, p);
    hide Kept, UploadKept, ShapeKept;
    var k :| done <= k < |u.chunks| && u.chunks[k] == p && w.t.queue[p] == ChunkRow(agg, u.chunks, u.payloads, k);
    assert k > 0 ==> (u.chunks[k - 1] in w.t.sent <==> k - 1 < done);
  }

  lemma RowIsPending(w: World, agg: Uuid, p: Uuid)
    requires Kept(w) && p in w.t.queue && w.t.queue[p].stream == agg && agg in w.uploads
    ensures
      var u := w.uploads[agg];
      && !u.cancelled && |Log(w, agg)| <= |u.chunks| == |u.payloads| && Distinct(u.chunks)
      && exists k :: |Log(w, agg)| <= k < |u.chunks| && u.chunks[k] == p
                     && w.t.queue[p] == ChunkRow(agg, u.chunks, u.payloads, k)
  {
    var u := w.uploads[agg];
    assert UploadKept(agg, u, w.t, w.sealing, w.claims, LogOf(w.log, agg)) && ShapeKept(agg, u, w.uploads, w.used);
    hide ClaimsKept, SealingKept, FlightKept, DrainsKept, MixnetKept, PhasesKept, LogKept, UsedKept, IndirectionsKept;
    assert Pending(u, |Log(w, agg)|, p);
  }

  lemma FirstAreSent(w: World, agg: Uuid)
    requires Kept(w) && agg in w.uploads
    ensures
      var u := w.uploads[agg];
      && |Log(w, agg)| <= |u.chunks|
      && (!u.cancelled ==> forall k | 0 <= k < |u.chunks| :: u.chunks[k] in w.t.sent <==> k < |Log(w, agg)|)
  {
    var u := w.uploads[agg];
    assert UploadKept(agg, u, w.t, w.sealing, w.claims, LogOf(w.log, agg)) && ShapeKept(agg, u, w.uploads, w.used);
    hide ClaimsKept, SealingKept, FlightKept, DrainsKept, MixnetKept, PhasesKept, UsedKept, IndirectionsKept;
    if agg in w.log {
      assert EntriesKept(agg, w.log[agg], w.first[agg], w.landed, w.delivered);
    }
  }

  lemma ReleaseRowIs(w: World, p: Uuid)
    requires Kept(w) && p in w.t.queue && w.t.queue[p].indirection.Some?
    ensures
      var row := w.t.queue[p];
      && row.afterId.None? && row.afterStream.Some? && row.afterStream.value in w.uploads
      && var u := w.uploads[row.afterStream.value];
      && u.release == p && row.indirection == Some(u.rcw)
      && (Remaining(w.t, row.afterStream.value) == {} <==> |Log(w, row.afterStream.value)| == |u.chunks|)
      && (forall agg | agg in w.uploads && w.uploads[agg].release == p :: agg == row.afterStream.value)
  {
    var agg := w.t.queue[p].afterStream.value;
    var u := w.uploads[agg];
    assert UploadKept(agg, u, w.t, w.sealing, w.claims, LogOf(w.log, agg));
    if |Log(w, agg)| < |u.chunks| {
      assert u.chunks[|Log(w, agg)|] in Remaining(w.t, agg);
    }
    forall a | a in w.uploads && w.uploads[a].release == p
      ensures a == agg
    {
      assert UploadKept(a, w.uploads[a], w.t, w.sealing, w.claims, LogOf(w.log, a));
    }
  }

  lemma SingleRowIs(ws: seq<World>, steps: seq<Step>, i: nat, p: Uuid)
    requires Run(ws, steps) && i < |ws| && p in ws[i].t.queue
    requires ws[i].t.queue[p].stream !in ws[i].uploads && ws[i].t.queue[p].indirection.None?
    ensures ws[i].t.queue[p].afterId.None? && ws[i].t.queue[p].afterStream.None?
  {
    RunKept(ws, steps, i);
    AllSourced(ws, steps, i);
    var w := ws[i];
    var row := w.t.queue[p];
    assert Sourced(w, steps, i, row.stream, Item(p, row.payload));
    NotReleased(w, p);
    var k :| 0 <= k < i && k < |steps| && steps[k] == Queueing(EnqueueBox(p, row.stream, row.payload));
    hide Kept;
    BoxFate(ws, steps, k, i, p, row.stream, row.payload);
  }

  lemma NotReleased(w: World, p: Uuid)
    requires Kept(w) && p in w.t.queue && w.t.queue[p].indirection.None?
    ensures forall s :: !Released(w, s, p)
  {
    forall agg | agg in w.uploads
      ensures w.uploads[agg].release != p
    {
      assert UploadKept(agg, w.uploads[agg], w.t, w.sealing, w.claims, LogOf(w.log, agg));
    }
  }

  /** Only an upload is ever paused. */
  lemma {:induction false} OnlyUploadsPause(ws: seq<World>, steps: seq<Step>, i: nat, s: Uuid)
    requires Run(ws, steps) && i < |ws| && s !in ws[i].uploads
    ensures !LastPaused(steps, i, s)
  {
    if i > 0 {
      assert Moves(ws, steps, i - 1);
      RunKept(ws, steps, i - 1);
      UploadsUsedIn(ws[i - 1]);
      hide Kept, Apply;
      StepUploads(ws[i - 1], steps[i - 1]);
      OnlyUploadsPause(ws, steps, i - 1, s);
    }
  }
}
