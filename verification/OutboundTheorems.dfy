/** What holds of every world of every run of the send protocol. */
module OutboundTheorems {
  import opened Basics
  import opened OutboundTables
  import opened OutboundRun
  import opened OutboundSafety
  import opened OutboundUploads

  ghost predicate Kept(w: World) {
    Inv(w) && UploadsKept(w)
  }

  lemma StepKept(w: World, step: Step)
    requires Kept(w) && Enabled(w, step)
    ensures Kept(Apply(w, step))
  {
    hide Inv, UploadsKept;
    match step
    case Queueing(q) => QueueStepKept(w, q);
    case Sealed(z) => SealStepKept(w, z);
    case Drained(d) => DrainStepKept(w, d);
    case Controlled(c) => ControlStepKept(w, c);
  }

  lemma QueueStepKept(w: World, step: QueueStep)
    requires Kept(w) && CanQueue(w, step)
    ensures Kept(AfterQueue(w, step))
  {
    hide ShapeKept, UploadKept, IndirectionsKept;
    match step
    case OpenStream(s, rcw) =>
      OpenStreamKept(w, s, rcw);
      OpenStreamUploads(w, s, rcw);
    case ProvisionCaps(rcw, index, cap) =>
      ProvisionCapsKept(w, rcw, index, cap);
      ProvisionCapsUploads(w, rcw, index, cap);
    case EnqueueBox(id, s, payload) =>
      EnqueueBoxKept(w, id, s, payload);
      EnqueueBoxUploads(w, id, s, payload);
    case EnqueueChunks(agg, chunks, payloads, rcw, release, main) =>
      EnqueueChunksKept(w, agg, Upload(chunks, payloads, rcw, release, main, false));
      EnqueueChunksUploads(w, agg, Upload(chunks, payloads, rcw, release, main, false));
  }

  lemma SealStepKept(w: World, step: SealStep)
    requires Kept(w) && CanSeal(w, step)
    ensures Kept(AfterSeal(w, step))
  {
    hide Inv, UploadsKept;
    match step
    case Dispatch(id) =>
      DispatchKept(w, id);
      DispatchUploads(w, id);
    case ReadCursor(s) =>
      ReadCursorKept(w, s);
      SealingChanged(w, w.sealing[s := w.sealing[s].(at := w.t.writeCaps[s].next)]);
    case SealingFails(s) =>
      SealingFailsKept(w, s);
      SealingChanged(w, w.sealing - {s});
    case CommitEnvelope(s, id, hash) =>
      CommitEnvelopeKept(w, s, id, hash);
      CommitUploads(w, s, id, hash);
  }

  lemma DrainStepKept(w: World, step: DrainStep)
    requires Kept(w) && CanDrain(w, step)
    ensures Kept(AfterDrain(w, step))
  {
    hide Inv, UploadsKept;
    match step
    case FinalizeAck(d) =>
      FinalizeAckKept(w, d);
      FinalizeUploads(w, d);
    case WriteRemint(d, hash) =>
      WriteRemintKept(w, d, hash);
      RemintUploads(w, d.stream, d.row.id, hash, d.phase.payload);
    case VerifyDrain(_) => CheckStepKept(w, step);
    case ReadForRemint(_) => CheckStepKept(w, step);
    case LoadDrain(_) => TaskStepKept(w, step);
    case PrecheckAck(_) => TaskStepKept(w, step);
    case CastDrain(_) => TaskStepKept(w, step);
    case Deliver(_) => TaskStepKept(w, step);
  }

  lemma CheckStepKept(w: World, step: DrainStep)
    requires Kept(w) && CanDrain(w, step) && (step.VerifyDrain? || step.ReadForRemint?)
    ensures Kept(AfterDrain(w, step))
  {
    hide Inv, UploadsKept;
    match step
    case VerifyDrain(d) => VerifyBothKept(w, d, Ready);
    case ReadForRemint(d) =>
      var p := d.row.plaintext;
      VerifyBothKept(w, d, Reminting(if p in w.t.queue then w.t.queue[p].payload else []));
  }

  lemma TaskStepKept(w: World, step: DrainStep)
    requires Kept(w) && CanDrain(w, step)
    requires step.LoadDrain? || step.PrecheckAck? || step.CastDrain? || step.Deliver?
    ensures Kept(AfterDrain(w, step))
  {
    hide Inv, UploadsKept;
    UploadsAside(w, AfterDrain(w, step));
    match step
    case LoadDrain(s) => LoadDrainKept(w, s);
    case PrecheckAck(d) => PrecheckAckKept(w, d);
    case CastDrain(d) => CastDrainKept(w, d);
    case Deliver(c) => DeliverKept(w, c);
  }

  lemma VerifyUploads(w: World, d: Drain, phase: Phase)
    requires UploadsKept(w)
    ensures UploadsKept(Verified(w, d, phase))
  {
    DropUploads(w, d.stream, d.row.id);
  }

  lemma VerifyBothKept(w: World, d: Drain, phase: Phase)
    requires Kept(w) && d in w.drains
    requires d.row.plaintext in w.t.queue ==>
               phase.Ready? || phase == Reminting(w.t.queue[d.row.plaintext].payload)
    ensures Kept(Verified(w, d, phase))
  {
    hide Inv, UploadsKept;
    VerifyDrainKept(w, d, phase);
    VerifyUploads(w, d, phase);
  }

  lemma ControlStepKept(w: World, step: ControlStep)
    requires Kept(w) && CanControl(w, step)
    ensures Kept(AfterControl(w, step))
  {
    match step
    case SetPaused(s, paused) =>
      SetPausedKept(w, s, paused);
      SetPausedUploads(w, s, paused);
    case Cancel(rcw, release) => CancelBothKept(w, rcw, release);
    case Crash =>
      CrashKept(w);
      SealingChanged(w, map[]);
  }

  lemma CommitUploads(w: World, s: Uuid, id: Uuid, hash: nat)
    requires Kept(w) && s in w.sealing && w.sealing[s].at.Some? && id !in w.used
    ensures UploadsKept(Committed(w, s, id, hash))
  {
    assert s !in w.t.inFlight;
    CommitEnvelopeUploads(w, s, SealedRow(w.sealing[s], id, hash));
  }

  lemma FinalizeUploads(w: World, d: Drain)
    requires Kept(w) && d in w.drains && d.phase.Prechecked?
    ensures UploadsKept(Finalized(w, d))
  {
    if d.row.plaintext !in w.t.queue {
      FinalizedAgain(w, d);
      DropUploads(w, d.stream, d.row.id);
    } else {
      NotStale(w, d);
      QueuedDrainMatches(w, d);
      assert DrainCast(d) == DrainCast(Drain(d.stream, w.t.inFlight[d.stream], Loaded));
      FinalizedSent(w, d);
      SentUploads(w, d.stream, d.row);
    }
  }

  /** A cancelled upload's indirection was sealed by nobody, or nothing happens. */
  lemma CancelBothKept(w: World, rcw: Uuid, release: Uuid)
    requires Kept(w) && release in w.t.queue && w.t.queue[release].indirection == Some(rcw)
    ensures Kept(Cancelled(w, rcw, release))
  {
    CancelUploads(w, rcw, release);
    CancelFinds(w, rcw, release);
    var agg := w.t.readCaps[rcw].writeCap.value;
    if Remaining(w.t, agg) != {} {
      assert UploadKept(agg, w.uploads[agg], w.t, w.sealing, w.claims, LogOf(w.log, agg));
      forall s | s in w.t.inFlight
        ensures w.t.inFlight[s].plaintext != release
      {
        assert FlightRowKept(s, w.t.inFlight[s], w.t.queue, w.t.writeCaps, w.claims);
      }
      CancelKept(w, rcw, release);
    }
  }

  lemma {:induction false} RunKept(ws: seq<World>, steps: seq<Step>, i: nat)
    requires Run(ws, steps) && i < |ws|
    ensures Kept(ws[i])
  {
    if i == 0 {
      StartKept();
      StartUploads();
    } else {
      RunKept(ws, steps, i - 1);
      assert Moves(ws, steps, i - 1);
      StepKept(ws[i - 1], steps[i - 1]);
    }
  }

  // Safety of the boxes.

  /** No box is ever cast with two different plaintexts. */
  lemma NoBoxCastTwice(ws: seq<World>, steps: seq<Step>, i: nat, j: nat, c: Cast, d: Cast)
    requires Run(ws, steps) && i <= j < |ws|
    requires c in ws[i].cast && d in ws[j].cast && c.box == d.box
    ensures c.item == d.item
  {
    RunKept(ws, steps, j);
    CastsStay(ws, steps, i, j);
  }

  lemma {:induction false} CastsStay(ws: seq<World>, steps: seq<Step>, i: nat, j: nat)
    requires Run(ws, steps) && i <= j < |ws|
    ensures ws[i].cast <= ws[j].cast
    decreases j
  {
    if i < j {
      CastsStay(ws, steps, i, j - 1);
      RunGrows(ws, steps, j - 1, 0);
    }
  }

  /** What a step never takes back: casts, logs and first indexes, and that an
      upload was cancelled. */
  ghost predicate Grows(w: World, w': World, s: Uuid) {
    && w.cast <= w'.cast
    && (Log(w', s) == Log(w, s) || exists e :: Log(w', s) == Log(w, s) + [e])
    && (s in w.first ==> s in w'.first && w'.first[s] == w.first[s])
    && (s in w.uploads && w.uploads[s].cancelled ==> s in w'.uploads && w'.uploads[s] == w.uploads[s])
  }

  lemma QueueGrows(w: World, step: QueueStep, s: Uuid)
    requires CanQueue(w, step) && (s in w.uploads ==> s in w.used)
    requires step.ProvisionCaps? ==> w.t.readCaps[step.rcw].writeCap.value !in w.first
    ensures Grows(w, AfterQueue(w, step), s)
  {}

  lemma SealGrows(w: World, step: SealStep, s: Uuid)
    requires CanSeal(w, step)
    ensures Grows(w, AfterSeal(w, step), s)
  {}

  lemma FinalizeGrows(w: World, d: Drain, s: Uuid)
    requires d.phase.Prechecked?
    ensures Grows(w, Finalized(w, d), s)
  {
    hide Finalized;
    FinalizeFrame(w, d, s);
  }

  lemma FinalizeFrame(w: World, d: Drain, s: Uuid)
    requires d.phase.Prechecked?
    ensures
      var w' := Finalized(w, d);
      && SameTasks(w, w') && w'.cast == w.cast
      && (w'.t == FinalizeStale(w.t, d.stream, d.row) || w'.t == MarkSent(w.t, d.stream, d.row))
      && (Log(w', s) == Log(w, s) || exists e :: Log(w', s) == Log(w, s) + [e])
  {
    hide FinalizeStale, MarkSent, SameTasks;
    var p := d.row.plaintext;
    var t, t' := FinalizeStale(w.t, d.stream, d.row), MarkSent(w.t, d.stream, d.row);
    if Stale(d.phase.realNext, d.row) {
      TablesSet(w, t, w.log, w.landed);
      assert Finalized(w, d) == w.(t := t);
    } else if p !in w.t.queue {
      TablesSet(w, t', w.log, w.landed);
      assert Finalized(w, d) == w.(t := t');
    } else {
      var item := Item(p, w.t.queue[p].payload);
      var log := w.log[d.stream := Log(w, d.stream) + [item]];
      TablesSet(w, t', log, w.landed[p := Box(d.stream, d.row.current)]);
      LogNext(w.log, d.stream, item, s);
    }
  }

  /** The tasks, the uploads and what was handed out are as they were. */
  ghost predicate SameTasks(w: World, w': World) {
    && w'.sealing == w.sealing && w'.drains == w.drains
    && w'.first == w.first && w'.uploads == w.uploads && w'.used == w.used
  }

  lemma TablesSet(w: World, t: Tables, log: map<Uuid, seq<Item>>, landed: map<Uuid, Box>)
    ensures
      var w' := w.(t := t, log := log, landed := landed);
      && SameTasks(w, w') && w'.cast == w.cast && w'.t == t && w'.log == log
      && (log == w.log && landed == w.landed ==> w' == w.(t := t))
  {}

  lemma LogNext(log: map<Uuid, seq<Item>>, stream: Uuid, e: Item, s: Uuid)
    ensures
      var log' := log[stream := LogOf(log, stream) + [e]];
      LogOf(log', s) == if s == stream then LogOf(log, s) + [e] else LogOf(log, s)
  {}

  lemma DrainGrows(w: World, step: DrainStep, s: Uuid)
    requires CanDrain(w, step)
    ensures Grows(w, AfterDrain(w, step), s)
  {
    if step.FinalizeAck? {
      FinalizeGrows(w, step.d, s);
    } else {
      DrainFrame(w, step);
    }
  }

  lemma DrainFrame(w: World, step: DrainStep)
    requires CanDrain(w, step) && !step.FinalizeAck?
    ensures
      var w' := AfterDrain(w, step);
      && w.cast <= w'.cast && w'.log == w.log && w'.first == w.first && w'.uploads == w.uploads
      && w'.t.queue == w.t.queue && w'.used == w.used
      && w'.t.readCaps == w.t.readCaps && w'.t.writeCaps == w.t.writeCaps
  {
    match step
    case LoadDrain(s) =>
    case VerifyDrain(d) => VerifiedFrame(w, d, Ready);
    case CastDrain(d) =>
    case Deliver(c) =>
    case PrecheckAck(d) =>
    case ReadForRemint(d) =>
      var p := d.row.plaintext;
      VerifiedFrame(w, d, Reminting(if p in w.t.queue then w.t.queue[p].payload else []));
    case WriteRemint(d, hash) =>
  }

  lemma VerifiedFrame(w: World, d: Drain, phase: Phase)
    ensures
      var w' := Verified(w, d, phase);
      && w'.cast == w.cast && w'.log == w.log && w'.first == w.first && w'.uploads == w.uploads
      && w'.t.queue == w.t.queue && w'.used == w.used
      && w'.t.readCaps == w.t.readCaps && w'.t.writeCaps == w.t.writeCaps
      && w'.sealing == w.sealing && w'.drains <= w.drains + {d.(phase := phase)}
  {
    if d.row.plaintext in w.t.queue {
      var drains := w.drains + {d.(phase := phase)};
      assert Verified(w, d, phase) == w.(drains := drains);
    } else {
      var t := DropRow(w.t, d.stream, d.row.id);
      assert Verified(w, d, phase) == w.(t := t);
    }
  }

  lemma ControlGrows(w: World, step: ControlStep, s: Uuid)
    requires CanControl(w, step)
    ensures Grows(w, AfterControl(w, step), s)
  {
    match step
    case SetPaused(_, _) =>
    case Cancel(rcw, release) => CancelGrows(w, rcw, release, s);
    case Crash =>
  }

  lemma CancelGrows(w: World, rcw: Uuid, release: Uuid, s: Uuid)
    requires release in w.t.queue && w.t.queue[release].indirection == Some(rcw)
    ensures Grows(w, Cancelled(w, rcw, release), s)
  {
    hide Cancelled;
    var w' := Cancelled(w, rcw, release);
    CancelFrame(w, rcw, release, s);
    assert Log(w', s) == Log(w, s);
  }

  lemma CancelFrame(w: World, rcw: Uuid, release: Uuid, s: Uuid)
    requires release in w.t.queue && w.t.queue[release].indirection == Some(rcw)
    ensures
      var w' := Cancelled(w, rcw, release);
      && w'.cast == w.cast && w'.log == w.log && w'.first == w.first
      && (s in w.uploads && w.uploads[s].cancelled ==> s in w'.uploads && w'.uploads[s] == w.uploads[s])
  {
    hide MarkedCancelled;
    if release !in CancelUpload(w.t, rcw, release).queue && s in w.uploads && w.uploads[s].cancelled {
      StaysCancelled(w.uploads, w.t.readCaps[rcw].writeCap.value, s);
    }
  }

  lemma StaysCancelled(uploads: map<Uuid, Upload>, agg: Uuid, s: Uuid)
    requires s in uploads && uploads[s].cancelled
    ensures s in MarkedCancelled(uploads, agg) && MarkedCancelled(uploads, agg)[s] == uploads[s]
  {
    assert uploads[s].(cancelled := true) == uploads[s];
  }

  lemma StepGrows(w: World, step: Step, s: Uuid)
    requires Kept(w) && Enabled(w, step)
    ensures Grows(w, Apply(w, step), s)
  {
    match step
    case Queueing(q) =>
      assert s in w.uploads ==> ShapeKept(s, w.uploads[s], w.uploads, w.used);
      QueueGrows(w, q, s);
    case Sealed(z) => SealGrows(w, z, s);
    case Drained(d) => DrainGrows(w, d, s);
    case Controlled(c) => ControlGrows(w, c, s);
  }

  lemma RunGrows(ws: seq<World>, steps: seq<Step>, i: nat, s: Uuid)
    requires Run(ws, steps) && i < |steps|
    ensures Grows(ws[i], ws[i + 1], s)
  {
    RunKept(ws, steps, i);
    assert Moves(ws, steps, i);
    StepGrows(ws[i], steps[i], s);
  }

  /** The cursor is past exactly the log, and the boxes from the stream's first
      up to it hold the log's payloads, in order. */
  ghost predicate BoxesHoldLog(w: World, s: Uuid) {
    && s in w.first && s in w.t.writeCaps
    && w.t.writeCaps[s].next == Some(w.first[s] + |Log(w, s)|)
    && forall k | 0 <= k < |Log(w, s)| :: Holds(w, Box(s, w.first[s] + k), Log(w, s)[k].payload)
  }

  ghost predicate Holds(w: World, b: Box, payload: Bytes) {
    b in w.written && w.written[b] == payload
  }

  /** The boxes below the cursor hold exactly the finalized plaintexts of the
      stream, in the order they were finalized. */
  lemma BoxesHoldTheLog(ws: seq<World>, steps: seq<Step>, i: nat, s: Uuid)
    requires Run(ws, steps) && i < |ws| && s in ws[i].t.writeCaps && ws[i].t.writeCaps[s].next.Some?
    ensures BoxesHoldLog(ws[i], s)
  {
    RunKept(ws, steps, i);
    LogWritten(ws[i], s);
  }

  lemma LogWritten(w: World, s: Uuid)
    requires Inv(w) && s in w.t.writeCaps && w.t.writeCaps[s].next.Some?
    ensures BoxesHoldLog(w, s)
  {
    hide UsedKept, QueueKept, FlightKept, SealingKept, ClaimsKept, DrainsKept, PhasesKept;
    if s in w.log {
      assert EntriesKept(s, w.log[s], w.first[s], w.landed, w.delivered);
    }
  }

  lemma EntryWritten(w: World, s: Uuid, k: nat)
    requires Inv(w) && s in w.log && k < |w.log[s]|
    ensures s in w.first && w.log[s][k].id in w.landed && w.landed[w.log[s][k].id] == Box(s, w.first[s] + k)
    ensures Holds(w, Box(s, w.first[s] + k), w.log[s][k].payload)
  {
    hide UsedKept, CursorsKept, QueueKept, FlightKept, SealingKept, ClaimsKept, DrainsKept, PhasesKept;
    assert EntriesKept(s, w.log[s], w.first[s], w.landed, w.delivered);
  }

  /** `SentLog` holds exactly the plaintexts in the logs, and each is in one
      place of one log only. */
  lemma FinalizedExactlyOnce(ws: seq<World>, steps: seq<Step>, i: nat)
    requires Run(ws, steps) && i < |ws|
    ensures
      var w := ws[i];
      && (forall p :: p in w.t.sent <==> exists s, k :: 0 <= k < |Log(w, s)| && Log(w, s)[k].id == p)
      && (forall s, k, s', k' |
            0 <= k < |Log(w, s)| && 0 <= k' < |Log(w, s')| && Log(w, s)[k].id == Log(w, s')[k'].id ::
            s == s' && k == k')
      && w.t.sent !! w.t.queue.Keys
  {
    hide CursorsKept, FlightKept, SealingKept, ClaimsKept, MixnetKept, DrainsKept, PhasesKept, UploadsKept;
    RunKept(ws, steps, i);
    var w := ws[i];
    forall s, k | 0 <= k < |Log(w, s)|
      ensures Log(w, s)[k].id in w.landed && w.landed[Log(w, s)[k].id] == Box(s, w.first[s] + k)
    {
      assert EntriesKept(s, w.log[s], w.first[s], w.landed, w.delivered);
    }
    forall p | p in w.t.sent
      ensures exists s, k :: 0 <= k < |Log(w, s)| && Log(w, s)[k].id == p
    {
      var b := w.landed[p];
      assert InLog(p, b, w.log[b.stream], w.first[b.stream]);
      assert Log(w, b.stream)[b.index - w.first[b.stream]].id == p;
    }
  }

  /** The cursor of a stream never goes back, and its log only grows. */
  lemma {:induction false} CursorNeverRegresses(ws: seq<World>, steps: seq<Step>, i: nat, j: nat, s: Uuid)
    requires Run(ws, steps) && i <= j < |ws|
    requires s in ws[i].t.writeCaps && ws[i].t.writeCaps[s].next.Some?
    requires s in ws[j].t.writeCaps && ws[j].t.writeCaps[s].next.Some?
    ensures ws[i].t.writeCaps[s].next.value <= ws[j].t.writeCaps[s].next.value
    ensures Log(ws[i], s) <= Log(ws[j], s)
  {
    RunKept(ws, steps, i);
    RunKept(ws, steps, j);
    LogsGrow(ws, steps, i, j, s);
  }

  lemma {:induction false} LogsGrow(ws: seq<World>, steps: seq<Step>, i: nat, j: nat, s: Uuid)
    requires Run(ws, steps) && i <= j < |ws|
    ensures Log(ws[i], s) <= Log(ws[j], s)
    ensures s in ws[i].first ==> s in ws[j].first && ws[j].first[s] == ws[i].first[s]
    decreases j
  {
    if i < j {
      LogsGrow(ws, steps, i, j - 1, s);
      RunGrows(ws, steps, j - 1, s);
    }
  }

  /** Whatever the interleaving, the stale path finds its plaintext already
      gone from the queue, so it marks nothing as sent; and the normal path,
      taken again for the same acknowledgement, only deletes the row. */
  lemma StalePathMarksNothing(ws: seq<World>, steps: seq<Step>, i: nat, d: Drain)
    requires Run(ws, steps) && i < |ws| && d in ws[i].drains && d.phase.Prechecked?
    ensures Stale(d.phase.realNext, d.row) ==>
              FinalizeStale(ws[i].t, d.stream, d.row) == DropRow(ws[i].t, d.stream, d.row.id)
    ensures d.row.plaintext in ws[i].t.queue <==>
            Finalized(ws[i], d).t.sent != ws[i].t.sent
    ensures d.row.plaintext in ws[i].t.queue ==> DrainCast(d) in ws[i].delivered
  {
    RunKept(ws, steps, i);
    if d.row.plaintext in ws[i].t.queue {
      NotStale(ws[i], d);
    }
  }

  /** What an acknowledgement's precheck reads sends it down the stale path
      exactly if the plaintext was finalized before, on a stream that is still
      there. */
  lemma StaleExactly(ws: seq<World>, steps: seq<Step>, i: nat, d: Drain)
    requires Run(ws, steps) && i < |ws| && d in ws[i].drains
    ensures Stale(Precheck(ws[i].t, d.stream), d.row) <==>
            d.stream in ws[i].t.writeCaps && d.row.plaintext !in ws[i].t.queue
  {
    RunKept(ws, steps, i);
    var w := ws[i];
    if d.row.plaintext in w.t.queue {
      QueuedDrainMatches(w, d);
    } else if d.stream in w.t.writeCaps {
      FinalizedIsBehind(w, d);
    }
  }

  lemma FinalizedIsBehind(w: World, d: Drain)
    requires Inv(w) && d in w.drains && d.stream in w.t.writeCaps && d.row.plaintext !in w.t.queue
    ensures w.t.writeCaps[d.stream].next.Some? && w.t.writeCaps[d.stream].next.value >= d.row.next
  {
    hide UsedKept, QueueKept, SealingKept, MixnetKept, PhasesKept, LogKept;
    var b := Box(d.stream, d.row.current);
    assert b in w.claims && w.claims[b].id == d.row.plaintext;
    if d.stream in w.t.inFlight {
      assert FlightRowKept(d.stream, w.t.inFlight[d.stream], w.t.queue, w.t.writeCaps, w.claims);
    }
  }

  // All or nothing.

  /** Once the indirection of an upload was cast, every chunk was finalized, in
      order, chunk k in box k of its stream, and the boxes hold them. */
  lemma AnnouncedAfterEveryChunk(ws: seq<World>, steps: seq<Step>, i: nat, agg: Uuid, c: Cast)
    requires Run(ws, steps) && i < |ws| && agg in ws[i].uploads
    requires c in ws[i].cast && c.item.id == ws[i].uploads[agg].release
    ensures
      var w, u := ws[i], ws[i].uploads[agg];
      && !u.cancelled && |u.chunks| == |u.payloads| && agg in w.first
      && (forall k | 0 <= k < |u.chunks| ::
            && u.chunks[k] in w.t.sent
            && u.chunks[k] in w.landed && w.landed[u.chunks[k]] == Box(agg, w.first[agg] + k)
            && Holds(w, Box(agg, w.first[agg] + k), u.payloads[k]))
      && u.rcw in w.t.readCaps
      && Announces(c.item.payload, |u.chunks|, w.t.readCaps[u.rcw].cap)
  {
    RunKept(ws, steps, i);
    var w, u := ws[i], ws[i].uploads[agg];
    assert ShapeKept(agg, u, w.uploads, w.used);
    assert UploadKept(agg, u, w.t, w.sealing, w.claims, LogOf(w.log, agg));
    assert w.claims[c.box] == c.item;
    assert agg in w.log;
    forall k | 0 <= k < |u.chunks|
      ensures u.chunks[k] in w.landed && w.landed[u.chunks[k]] == Box(agg, w.first[agg] + k)
      ensures Holds(w, Box(agg, w.first[agg] + k), u.payloads[k])
    {
      EntryWritten(w, agg, k);
      assert w.log[agg][k] == Item(u.chunks[k], u.payloads[k]);
    }
  }

  /** At every moment chunk k, if it was sent, is in box k of its stream, and
      the chunks sent are the first ones. */
  lemma ChunksSentInOrder(ws: seq<World>, steps: seq<Step>, i: nat, agg: Uuid)
    requires Run(ws, steps) && i < |ws| && agg in ws[i].uploads
    ensures
      var w, u := ws[i], ws[i].uploads[agg];
      && |Log(w, agg)| <= |u.chunks| == |u.payloads|
      && (forall k | 0 <= k < |Log(w, agg)| :: Log(w, agg)[k] == Item(u.chunks[k], u.payloads[k]))
      && (!u.cancelled ==> forall k | 0 <= k < |u.chunks| :: u.chunks[k] in w.t.sent <==> k < |Log(w, agg)|)
  {
    RunKept(ws, steps, i);
    var w, u := ws[i], ws[i].uploads[agg];
    assert ShapeKept(agg, u, w.uploads, w.used);
    assert UploadKept(agg, u, w.t, w.sealing, w.claims, LogOf(w.log, agg));
    if agg in w.log {
      assert EntriesKept(agg, w.log[agg], w.first[agg], w.landed, w.delivered);
    }
  }

  /** The indirection of a cancelled upload is never cast, before or after. */
  lemma CancelledNeverAnnounced(ws: seq<World>, steps: seq<Step>, i: nat, j: nat, agg: Uuid, c: Cast)
    requires Run(ws, steps) && i < |ws| && j < |ws|
    requires agg in ws[i].uploads && ws[i].uploads[agg].cancelled
    requires c in ws[j].cast
    ensures c.item.id != ws[i].uploads[agg].release
  {
    var m := if i < j then j else i;
    RunKept(ws, steps, m);
    CastsStay(ws, steps, j, m);
    CancelledStays(ws, steps, i, m, agg);
    var w := ws[m];
    assert UploadKept(agg, w.uploads[agg], w.t, w.sealing, w.claims, LogOf(w.log, agg));
    assert w.claims[c.box] == c.item;
  }

  lemma {:induction false} CancelledStays(ws: seq<World>, steps: seq<Step>, i: nat, j: nat, agg: Uuid)
    requires Run(ws, steps) && i <= j < |ws|
    requires agg in ws[i].uploads && ws[i].uploads[agg].cancelled
    ensures agg in ws[j].uploads && ws[j].uploads[agg] == ws[i].uploads[agg]
    decreases j
  {
    if i < j {
      CancelledStays(ws, steps, i, j - 1, agg);
      RunGrows(ws, steps, j - 1, agg);
    }
  }

  /** The bytes of the payloads from the k-th, without their markers. */
  function BytesFrom(payloads: seq<Bytes>, k: nat): int
    requires k <= |payloads|
    decreases |payloads| - k
  {
    if k == |payloads| then 0 else |payloads[k]| - 1 + BytesFrom(payloads, k + 1)
  }

  function ChunksFrom(chunks: seq<Uuid>, k: nat): set<Uuid>
    requires k <= |chunks|
    decreases |chunks| - k
  {
    if k == |chunks| then {} else {chunks[k]} + ChunksFrom(chunks, k + 1)
  }

  lemma {:induction false} InChunksFrom(chunks: seq<Uuid>, k: nat, p: Uuid)
    requires k <= |chunks|
    ensures p in ChunksFrom(chunks, k) <==> exists j :: k <= j < |chunks| && chunks[j] == p
    decreases |chunks| - k
  {
    if k < |chunks| {
      InChunksFrom(chunks, k + 1, p);
    }
  }

  /** Progress counts exactly the chunks finalized and the bytes of the others,
      and reports all of them sent exactly when the gate on the indirection
      opens. */
  lemma ProgressMatchesGate(ws: seq<World>, steps: seq<Step>, i: nat, agg: Uuid)
    requires Run(ws, steps) && i < |ws| && agg in ws[i].uploads && !ws[i].uploads[agg].cancelled
    ensures
      var w, u := ws[i], ws[i].uploads[agg];
      && Announcing(w.t, u.rcw, agg) && w.t.readCaps[u.rcw].total == Some(|u.chunks|)
      && ChunksSent(w.t, agg, |u.chunks|) == |Log(w, agg)| <= |u.chunks| == |u.payloads|
      && BytesOf(w.t.queue, Remaining(w.t, agg)) == BytesFrom(u.payloads, |Log(w, agg)|)
      && (ChunksSent(w.t, agg, |u.chunks|) == |u.chunks| <==> Remaining(w.t, agg) == {})
  {
    RunKept(ws, steps, i);
    var w, u := ws[i], ws[i].uploads[agg];
    RemainingAre(w, agg);
    hide Kept;
    CountFrom(u.chunks, u.payloads, w.t.queue, |Log(w, agg)|);
  }

  /** What is still queued on an upload's stream is its last chunks, as they
      were queued. */
  lemma RemainingAre(w: World, agg: Uuid)
    requires Kept(w) && agg in w.uploads && !w.uploads[agg].cancelled
    ensures
      var u, done := w.uploads[agg], |Log(w, agg)|;
      && done <= |u.chunks| == |u.payloads| && Distinct(u.chunks)
      && Announcing(w.t, u.rcw, agg) && w.t.readCaps[u.rcw].total == Some(|u.chunks|)
      && (forall j | done <= j < |u.chunks| ::
            u.chunks[j] in w.t.queue && w.t.queue[u.chunks[j]].payload == u.payloads[j])
      && Remaining(w.t, agg) == ChunksFrom(u.chunks, done)
  {
    var u, done := w.uploads[agg], |Log(w, agg)|;
    assert ShapeKept(agg, u, w.uploads, w.used);
    assert UploadKept(agg, u, w.t, w.sealing, w.claims, LogOf(w.log, agg));
    hide Inv, UploadsKept, ReleaseKept, TurnKept, AnnounceKept, GateKept;
    forall p
      ensures p in Remaining(w.t, agg) <==> p in ChunksFrom(u.chunks, done)
    {
      InChunksFrom(u.chunks, done, p);
      if p in Remaining(w.t, agg) {
        assert Pending(u, done, p);
      }
    }
  }

  lemma {:induction false} CountFrom(chunks: seq<Uuid>, payloads: seq<Bytes>, queue: map<Uuid, Plaintext>, k: nat)
    requires |chunks| == |payloads| && Distinct(chunks) && k <= |chunks|
    requires forall j | k <= j < |chunks| :: chunks[j] in queue && queue[chunks[j]].payload == payloads[j]
    ensures |ChunksFrom(chunks, k)| == |chunks| - k && ChunksFrom(chunks, k) <= queue.Keys
    ensures BytesOf(queue, ChunksFrom(chunks, k)) == BytesFrom(payloads, k)
    decreases |chunks| - k
  {
    if k < |chunks| {
      CountFrom(chunks, payloads, queue, k + 1);
      InChunksFrom(chunks, k + 1, chunks[k]);
      BytesOfMore(queue, ChunksFrom(chunks, k + 1), chunks[k]);
      assert ChunksFrom(chunks, k) == ChunksFrom(chunks, k + 1) + {chunks[k]};
    }
  }

  /** The queue is never stuck: on an idle, provisioned stream that is not
      paused the next chunk of an upload may be sealed, and after the last one
      its indirection may be. */
  lemma NextIsEligible(ws: seq<World>, steps: seq<Step>, i: nat, agg: Uuid)
    requires Run(ws, steps) && i < |ws| && agg in ws[i].uploads && !ws[i].uploads[agg].cancelled
    ensures
      var w, u := ws[i], ws[i].uploads[agg];
      && (|Log(w, agg)| < |u.chunks| && Idle(w, agg) ==>
            Eligible(w.t, w.sealing.Keys, u.chunks[|Log(w, agg)|]))
      && (|Log(w, agg)| == |u.chunks| && u.release in w.t.queue && Idle(w, u.main)
          && u.rcw in w.t.readCaps && w.t.readCaps[u.rcw].cap.Some? ==>
            Eligible(w.t, w.sealing.Keys, u.release))
  {
    RunKept(ws, steps, i);
    ChunksSentInOrder(ws, steps, i, agg);
    ProgressMatchesGate(ws, steps, i, agg);
    var w, u := ws[i], ws[i].uploads[agg];
    assert UploadKept(agg, u, w.t, w.sealing, w.claims, LogOf(w.log, agg));
    if |Log(w, agg)| < |u.chunks| {
      var k := |Log(w, agg)|;
      assert w.t.queue[u.chunks[k]] == ChunkRow(agg, u.chunks, u.payloads, k);
    }
  }

  ghost predicate Idle(w: World, s: Uuid) {
    && s in w.t.writeCaps && w.t.writeCaps[s].next.Some? && !w.t.writeCaps[s].paused
    && s !in w.t.inFlight && s !in w.sealing
  }
}
