/**
  What becomes of everything queued, over whole runs: a row is sealed as it was
  queued, leaves the queue only into the log of its stream or with a cancelled
  upload, and can always be sent once it is eligible.
 */
module OutboundOutcomes {
  import opened Basics
  import opened OutboundTables
  import opened OutboundRun
  import opened OutboundSafety
  import opened OutboundUploads
  import opened OutboundTheorems

  // What cancelling takes.

  /** Everything of the upload goes, and nothing else. */
  ghost predicate Taken(w: World, w': World, agg: Uuid, release: Uuid, rcw: Uuid) {
    && w'.t.queue == (map p | p in w.t.queue && w.t.queue[p].stream != agg && p != release :: w.t.queue[p])
    && w'.t.inFlight == w.t.inFlight - {agg}
    && (forall s | s in w'.t.inFlight :: w'.t.inFlight[s].plaintext != release)
    && w'.t.writeCaps == w.t.writeCaps - {agg} && w'.t.readCaps == w.t.readCaps - {rcw} && w'.t.sent == w.t.sent
    && w'.uploads.Keys == w.uploads.Keys && agg in w'.uploads && w'.uploads[agg].cancelled
    && (forall a | a in w.uploads && a != agg :: w'.uploads[a] == w.uploads[a])
  }

  /** An upload that still has its indirection queued can be cancelled, whatever
      is in flight: if a chunk of it is still queued, everything of it goes; if
      every chunk was sent, nothing changes. */
  lemma CancelTakesAll(ws: seq<World>, steps: seq<Step>, i: nat, agg: Uuid)
    requires Run(ws, steps) && i < |ws| && agg in ws[i].uploads && !ws[i].uploads[agg].cancelled
    requires ws[i].uploads[agg].release in ws[i].t.queue
    ensures
      var w, u := ws[i], ws[i].uploads[agg];
      var cancel := Controlled(Cancel(u.rcw, u.release));
      && Enabled(w, cancel)
      && (Remaining(w.t, agg) != {} ==> Taken(w, Apply(w, cancel), agg, u.release, u.rcw))
      && (Remaining(w.t, agg) == {} ==> Apply(w, cancel) == w)
  {
    hide Inv, UploadsKept, BytesOf, BytesFrom, CancelUpload, Taken;
    RunKept(ws, steps, i);
    ProgressMatchesGate(ws, steps, i, agg);
    var w, u := ws[i], ws[i].uploads[agg];
    ReleaseAsQueued(w, agg);
    if Remaining(w.t, agg) != {} {
      ReleaseNotInFlight(w, agg);
      CancelTakes(w, agg, u.release, u.rcw);
    } else {
      CancelTooLate(w, agg, u.release, u.rcw);
    }
  }

  lemma ReleaseAsQueued(w: World, agg: Uuid)
    requires UploadsKept(w) && agg in w.uploads && !w.uploads[agg].cancelled && w.uploads[agg].release in w.t.queue
    ensures
      var u := w.uploads[agg];
      && w.t.queue[u.release].indirection == Some(u.rcw)
      && u.rcw in w.t.readCaps && w.t.readCaps[u.rcw].writeCap == Some(agg)
  {
    var u := w.uploads[agg];
    assert UploadKept(agg, u, w.t, w.sealing, w.claims, LogOf(w.log, agg));
  }

  lemma CancelTakes(w: World, agg: Uuid, release: Uuid, rcw: Uuid)
    requires release in w.t.queue && w.t.queue[release].indirection == Some(rcw)
    requires rcw in w.t.readCaps && w.t.readCaps[rcw].writeCap == Some(agg) && agg in w.uploads
    requires Remaining(w.t, agg) != {}
    requires forall s | s in w.t.inFlight :: w.t.inFlight[s].plaintext != release
    ensures Taken(w, Cancelled(w, rcw, release), agg, release, rcw)
  {
    hide CancelUpload;
    CancelDeletes(w.t, agg, release, rcw);
    hide Remaining;
  }

  lemma CancelDeletes(t: Tables, agg: Uuid, release: Uuid, rcw: Uuid)
    requires release in t.queue && t.queue[release].indirection == Some(rcw)
    requires rcw in t.readCaps && t.readCaps[rcw].writeCap == Some(agg) && Remaining(t, agg) != {}
    requires forall s | s in t.inFlight :: t.inFlight[s].plaintext != release
    ensures
      CancelUpload(t, rcw, release)
      == Tables(map p | p in t.queue && t.queue[p].stream != agg && p != release :: t.queue[p],
                t.inFlight - {agg}, t.sent, t.writeCaps - {agg}, t.readCaps - {rcw})
  {}

  lemma CancelTooLate(w: World, agg: Uuid, release: Uuid, rcw: Uuid)
    requires release in w.t.queue && w.t.queue[release].indirection == Some(rcw)
    requires rcw in w.t.readCaps && w.t.readCaps[rcw].writeCap == Some(agg)
    requires Remaining(w.t, agg) == {}
    ensures Cancelled(w, rcw, release) == w
  {}

  lemma ReleaseNotInFlight(w: World, agg: Uuid)
    requires Kept(w) && agg in w.uploads && |LogOf(w.log, agg)| < |w.uploads[agg].chunks|
    ensures forall s | s in w.t.inFlight :: w.t.inFlight[s].plaintext != w.uploads[agg].release
  {
    var u := w.uploads[agg];
    assert UploadKept(agg, u, w.t, w.sealing, w.claims, LogOf(w.log, agg));
    forall s | s in w.t.inFlight
      ensures w.t.inFlight[s].plaintext != u.release
    {
      assert FlightRowKept(s, w.t.inFlight[s], w.t.queue, w.t.writeCaps, w.claims);
    }
  }

  // What becomes of a queued row.

  /** As it was queued, save that an indirection may have been filled in. */
  ghost predicate Stands(row: Plaintext, row': Plaintext) {
    row' == row || (row.indirection.Some? && row.payload == [] && row' == row.(payload := row'.payload))
  }

  /** Row `p` left the queue as the next entry of its stream's log. */
  ghost predicate Logged(w: World, w': World, p: Uuid)
    requires p in w.t.queue
  {
    var row := w.t.queue[p];
    p !in w'.t.queue && p in w'.t.sent && Log(w', row.stream) == Log(w, row.stream) + [Item(p, row.payload)]
  }

  /** Row `p` is of an upload that this step cancels. */
  ghost predicate CancelledWith(w: World, step: Step, p: Uuid)
    requires p in w.t.queue
  {
    exists agg | agg in w.uploads ::
      && step == Controlled(Cancel(w.uploads[agg].rcw, w.uploads[agg].release))
      && (w.t.queue[p].stream == agg || p == w.uploads[agg].release)
  }

  /** A queued row stays as it is, leaves for the log, or goes with its upload. */
  lemma RowOutcome(w: World, step: Step, p: Uuid)
    requires Kept(w) && Enabled(w, step) && p in w.t.queue
    ensures
      var w' := Apply(w, step);
      || (p in w'.t.queue && Stands(w.t.queue[p], w'.t.queue[p]))
      || Logged(w, w', p)
      || (p !in w'.t.queue && CancelledWith(w, step, p))
  {
    hide Inv, UploadsKept, Logged, CancelledWith;
    match step
    case Queueing(q) => QueueStands(w, q, p);
    case Sealed(z) => SealStands(w, z, p);
    case Drained(d) => DrainOutcome(w, d, p);
    case Controlled(c) => ControlOutcome(w, c, p);
  }

  lemma QueueStands(w: World, step: QueueStep, p: Uuid)
    requires Kept(w) && CanQueue(w, step) && p in w.t.queue
    ensures p in AfterQueue(w, step).t.queue && AfterQueue(w, step).t.queue[p] == w.t.queue[p]
  {
    assert p in w.used;
    hide Inv, UploadsKept;
    if step.EnqueueChunks? {
      var u := Upload(step.chunks, step.payloads, step.rcw, step.release, step.main, false);
      UsedRows(w);
      EnqueuedRows(w.t.queue, step.agg, u, w.used);
    }
  }

  lemma UsedRows(w: World)
    requires Kept(w)
    ensures w.t.queue.Keys <= w.used
  {}

  lemma SealStands(w: World, step: SealStep, p: Uuid)
    requires CanSeal(w, step) && p in w.t.queue
    ensures p in AfterSeal(w, step).t.queue && Stands(w.t.queue[p], AfterSeal(w, step).t.queue[p])
  {}

  lemma DrainOutcome(w: World, step: DrainStep, p: Uuid)
    requires Kept(w) && CanDrain(w, step) && p in w.t.queue
    ensures
      var w' := AfterDrain(w, step);
      (p in w'.t.queue && w'.t.queue[p] == w.t.queue[p]) || (step.FinalizeAck? && Logged(w, w', p))
  {
    hide Inv, UploadsKept, Logged;
    if step.FinalizeAck? {
      FinalizeOutcome(w, step.d, p);
    } else {
      DrainFrame(w, step);
    }
  }

  lemma FinalizeOutcome(w: World, d: Drain, p: Uuid)
    requires Kept(w) && d in w.drains && d.phase.Prechecked? && p in w.t.queue
    ensures
      var w' := Finalized(w, d);
      (p != d.row.plaintext && p in w'.t.queue && w'.t.queue[p] == w.t.queue[p])
      || (p == d.row.plaintext && Logged(w, w', p))
  {
    hide UploadsKept;
    if d.row.plaintext in w.t.queue {
      NotStale(w, d);
      QueuedDrainMatches(w, d);
      hide Inv;
      FinalizedLogs(w, d);
    } else {
      hide Inv;
      FinalizedAgain(w, d);
    }
  }

  lemma FinalizedLogs(w: World, d: Drain)
    requires d.phase.Prechecked? && d.row.plaintext in w.t.queue && !Stale(d.phase.realNext, d.row)
    requires w.t.queue[d.row.plaintext].stream == d.stream
    ensures
      var w' := Finalized(w, d);
      Logged(w, w', d.row.plaintext) && w'.t.queue == w.t.queue - {d.row.plaintext}
  {}

  lemma ControlOutcome(w: World, step: ControlStep, p: Uuid)
    requires Kept(w) && CanControl(w, step) && p in w.t.queue
    ensures
      var w' := AfterControl(w, step);
      || (p in w'.t.queue && w'.t.queue[p] == w.t.queue[p])
      || (p !in w'.t.queue && CancelledWith(w, Controlled(step), p))
  {
    hide Inv, UploadsKept;
    if step.Cancel? {
      CancelFinds(w, step.rcw, step.release);
    }
  }

  /** What is queued anew is what was asked for. */
  ghost predicate AsAsked(step: Step, p: Uuid, row: Plaintext) {
    BoxAsked(step, p, row) || UploadAsked(step, p, row)
  }

  ghost predicate BoxAsked(step: Step, p: Uuid, row: Plaintext) {
    && step == Queueing(EnqueueBox(p, row.stream, row.payload))
    && row == Plaintext(None, None, row.stream, row.payload, None)
  }

  ghost predicate UploadAsked(step: Step, p: Uuid, row: Plaintext) {
    && step.Queueing? && step.q.EnqueueChunks?
    && var q := step.q;
    && |q.chunks| == |q.payloads|
    && ((p == q.release && row == Plaintext(None, Some(q.agg), q.main, [], Some(q.rcw)))
        || exists k | 0 <= k < |q.chunks| :: p == q.chunks[k] && row == ChunkRow(q.agg, q.chunks, q.payloads, k))
  }

  lemma NewRow(w: World, step: Step, p: Uuid)
    requires Kept(w) && Enabled(w, step) && p !in w.t.queue && p in Apply(w, step).t.queue
    ensures AsAsked(step, p, Apply(w, step).t.queue[p])
  {
    hide Inv, UploadsKept, AsAsked;
    if step.Queueing? {
      NewQueued(w, step.q, p);
    } else {
      OnlyQueueingLogsNot(w, step);
    }
  }

  /** Only steps that fill the queue make rows, and only finalizing logs any. */
  lemma OnlyQueueingLogsNot(w: World, step: Step)
    requires Enabled(w, step)
    ensures !step.Queueing? ==> Apply(w, step).t.queue.Keys <= w.t.queue.Keys
    ensures !(step.Drained? && step.d.FinalizeAck?) ==> Apply(w, step).log == w.log
  {
    hide AfterQueue, AfterSeal, AfterDrain, AfterControl;
    match step
    case Queueing(q) => QueueLogs(w, q);
    case Sealed(z) => SealFrame(w, z);
    case Drained(d) =>
      if d.FinalizeAck? {
        AckFrame(w, d);
      } else {
        DrainFrame(w, d);
      }
    case Controlled(c) => ControlFrame(w, c);
  }

  lemma QueueLogs(w: World, step: QueueStep)
    requires CanQueue(w, step)
    ensures AfterQueue(w, step).log == w.log
  {}

  lemma SealFrame(w: World, step: SealStep)
    requires CanSeal(w, step)
    ensures AfterSeal(w, step).t.queue.Keys == w.t.queue.Keys && AfterSeal(w, step).log == w.log
  {}

  lemma ControlFrame(w: World, step: ControlStep)
    requires CanControl(w, step)
    ensures AfterControl(w, step).t.queue.Keys <= w.t.queue.Keys && AfterControl(w, step).log == w.log
  {
    if step.Cancel? {
      CancelQueue(w.t, step.rcw, step.release);
      hide CancelUpload, MarkedCancelled;
    }
  }

  lemma CancelQueue(t: Tables, rcw: Uuid, release: Uuid)
    requires release in t.queue && t.queue[release].indirection == Some(rcw)
    ensures CancelUpload(t, rcw, release).queue.Keys <= t.queue.Keys
  {}

  lemma AckFrame(w: World, step: DrainStep)
    requires CanDrain(w, step) && step.FinalizeAck?
    ensures AfterDrain(w, step).t.queue == w.t.queue - {step.d.row.plaintext}
  {
    var d := step.d;
    MarkSentQueue(w.t, d.stream, d.row);
    FinalizeStaleQueue(w.t, d.stream, d.row);
    FinalizeFrame(w, d, 0);
    hide MarkSent, FinalizeStale, Finalized;
  }

  lemma MarkSentQueue(t: Tables, stream: Uuid, e: Envelope)
    ensures MarkSent(t, stream, e).queue == t.queue - {e.plaintext}
  {}

  lemma FinalizeStaleQueue(t: Tables, stream: Uuid, e: Envelope)
    ensures FinalizeStale(t, stream, e).queue == t.queue - {e.plaintext}
  {}

  lemma NewQueued(w: World, step: QueueStep, p: Uuid)
    requires Kept(w) && CanQueue(w, step) && p !in w.t.queue && p in AfterQueue(w, step).t.queue
    ensures AsAsked(Queueing(step), p, AfterQueue(w, step).t.queue[p])
  {
    UsedRows(w);
    hide Inv, UploadsKept;
    match step
    case OpenStream(_, _) =>
    case ProvisionCaps(_, _, _) =>
    case EnqueueBox(id, s, payload) => assert BoxAsked(Queueing(step), id, Plaintext(None, None, s, payload, None));
    case EnqueueChunks(agg, chunks, payloads, rcw, release, main) => NewUploadRow(w, step, p);
  }

  lemma NewUploadRow(w: World, step: QueueStep, p: Uuid)
    requires step.EnqueueChunks? && CanQueue(w, step) && w.t.queue.Keys <= w.used
    requires p !in w.t.queue && p in AfterQueue(w, step).t.queue
    ensures UploadAsked(Queueing(step), p, AfterQueue(w, step).t.queue[p])
  {
    var u := Upload(step.chunks, step.payloads, step.rcw, step.release, step.main, false);
    EnqueuedRows(w.t.queue, step.agg, u, w.used);
    hide ChunkRows;
  }

  /** A log grows by a row of its stream that was queued until then, as queued. */
  lemma LogOutcome(w: World, step: Step, s: Uuid)
    requires Kept(w) && Enabled(w, step)
    ensures
      var w' := Apply(w, step);
      Log(w', s) == Log(w, s)
      || exists p | p in w.t.queue && w.t.queue[p].stream == s && p !in w'.t.queue ::
           Log(w', s) == Log(w, s) + [Item(p, w.t.queue[p].payload)]
  {
    hide Inv, UploadsKept;
    OnlyQueueingLogsNot(w, step);
    hide AfterQueue, AfterSeal, AfterControl, Finalized, Verified;
    if step.Drained? && step.d.FinalizeAck? {
      FinalizeLogOutcome(w, step.d.d, s);
    }
  }

  lemma FinalizeLogOutcome(w: World, d: Drain, s: Uuid)
    requires Kept(w) && d in w.drains && d.phase.Prechecked?
    ensures
      var w' := Finalized(w, d);
      Log(w', s) == Log(w, s)
      || exists p | p in w.t.queue && w.t.queue[p].stream == s && p !in w'.t.queue ::
           Log(w', s) == Log(w, s) + [Item(p, w.t.queue[p].payload)]
  {
    hide UploadsKept;
    if d.row.plaintext in w.t.queue {
      NotStale(w, d);
      QueuedDrainMatches(w, d);
      hide Inv;
      FinalizedLogs(w, d);
      if s != d.stream {
        FinalizedElsewhere(w, d, s);
      }
    } else {
      hide Inv;
      FinalizedAgain(w, d);
    }
  }

  lemma FinalizedElsewhere(w: World, d: Drain, s: Uuid)
    requires d.phase.Prechecked? && s != d.stream
    ensures Log(Finalized(w, d), s) == Log(w, s)
  {}

  // Over whole runs.

  /** A message of one box, queued on `s`: it waits there as it was queued, or
      is in the log of `s` as it was queued. */
  ghost predicate BoxKept(w: World, id: Uuid, s: Uuid, payload: Bytes) {
    && id in w.used && s in w.used && s !in w.uploads && id !in Releases(w)
    && if id in w.t.queue then w.t.queue[id] == Plaintext(None, None, s, payload, None)
       else exists n :: 0 <= n < |Log(w, s)| && Log(w, s)[n] == Item(id, payload)
  }

  /** The indirections of all uploads ever queued. */
  ghost function Releases(w: World): set<Uuid> {
    set agg | agg in w.uploads :: w.uploads[agg].release
  }

  /** What the uploads were, but for being cancelled, never changes, and a new
      one has new identifiers. */
  ghost predicate UploadsGrow(w: World, w': World) {
    && (forall a | a in w.uploads :: a in w'.uploads && SameUpload(w.uploads[a], w'.uploads[a]))
    && (forall a | a in w'.uploads && a !in w.uploads :: a !in w.used && w'.uploads[a].release !in w.used)
    && w.used <= w'.used
  }

  ghost predicate SameUpload(u: Upload, u': Upload) {
    u' == u || u' == u.(cancelled := true)
  }

  lemma StepUploads(w: World, step: Step)
    requires Enabled(w, step) && w.uploads.Keys <= w.used
    ensures UploadsGrow(w, Apply(w, step))
  {
    hide AfterQueue, AfterSeal, AfterDrain, AfterControl, UploadsGrow;
    match step
    case Queueing(q) => QueueUploads(w, q);
    case Sealed(z) => SealUploads(w, z);
    case Drained(d) => DrainUploads(w, d);
    case Controlled(c) => ControlUploads(w, c);
  }

  lemma QueueUploads(w: World, step: QueueStep)
    requires CanQueue(w, step) && w.uploads.Keys <= w.used
    ensures UploadsGrow(w, AfterQueue(w, step))
  {
    hide EnqueueUpload, Provision;
  }

  lemma SealUploads(w: World, step: SealStep)
    requires CanSeal(w, step)
    ensures UploadsGrow(w, AfterSeal(w, step))
  {}

  lemma DrainUploads(w: World, step: DrainStep)
    requires CanDrain(w, step)
    ensures UploadsGrow(w, AfterDrain(w, step))
  {
    if step.FinalizeAck? {
      FinalizeFrame(w, step.d, 0);
      hide Finalized;
    } else {
      DrainFrame(w, step);
      hide AfterDrain;
    }
  }

  lemma ControlUploads(w: World, step: ControlStep)
    requires CanControl(w, step)
    ensures UploadsGrow(w, AfterControl(w, step))
  {
    if step.Cancel? {
      CancelMarks(w, step.rcw, step.release);
      hide Cancelled;
    }
  }

  lemma CancelMarks(w: World, rcw: Uuid, release: Uuid)
    requires release in w.t.queue && w.t.queue[release].indirection == Some(rcw)
    ensures
      var w' := Cancelled(w, rcw, release);
      && w'.used == w.used && w'.uploads.Keys == w.uploads.Keys
      && forall a | a in w.uploads :: SameUpload(w.uploads[a], w'.uploads[a])
  {
    var t, uploads := CancelUpload(w.t, rcw, release), w.uploads;
    hide SameUpload;
    if release in t.queue {
      AllSame(uploads);
      assert Cancelled(w, rcw, release) == w.(t := t);
    } else {
      uploads := MarkedCancelled(w.uploads, w.t.readCaps[rcw].writeCap.value);
      MarkedSame(w.uploads, w.t.readCaps[rcw].writeCap.value);
      hide MarkedCancelled;
      assert Cancelled(w, rcw, release) == w.(t := t, uploads := uploads);
    }
  }

  lemma AllSame(uploads: map<Uuid, Upload>)
    ensures forall a | a in uploads :: SameUpload(uploads[a], uploads[a])
  {}

  lemma MarkedSame(uploads: map<Uuid, Upload>, agg: Uuid)
    ensures MarkedCancelled(uploads, agg).Keys == uploads.Keys
    ensures forall a | a in uploads :: SameUpload(uploads[a], MarkedCancelled(uploads, agg)[a])
  {}

  lemma KnownUploads(w: World)
    requires UploadsKept(w)
    ensures forall a | a in w.uploads :: a in w.used && w.uploads[a].release in w.used
  {
    forall a | a in w.uploads
      ensures a in w.used && w.uploads[a].release in w.used
    {
      assert ShapeKept(a, w.uploads[a], w.uploads, w.used);
    }
  }

  lemma NotQueuedAgain(w: World, step: Step, p: Uuid)
    requires Kept(w) && Enabled(w, step) && p in w.used && p !in w.t.queue
    ensures p !in Apply(w, step).t.queue
  {
    hide Inv, UploadsKept;
    if p in Apply(w, step).t.queue {
      NewRow(w, step, p);
      hide Apply;
    }
  }

  lemma OthersStay(w: World, w': World, id: Uuid, s: Uuid)
    requires UploadsGrow(w, w') && id in w.used && s in w.used && s !in w.uploads && id !in Releases(w)
    ensures id in w'.used && s in w'.used && s !in w'.uploads && id !in Releases(w')
  {
    forall agg | agg in w'.uploads
      ensures w'.uploads[agg].release != id
    {
      assert agg in w.uploads ==> w.uploads[agg].release in Releases(w);
    }
  }

  lemma BoxStays(w: World, step: Step, id: Uuid, s: Uuid, payload: Bytes)
    requires Kept(w) && Enabled(w, step) && BoxKept(w, id, s, payload)
    ensures BoxKept(Apply(w, step), id, s, payload)
  {
    KnownUploads(w);
    hide Inv, UploadsKept;
    var w' := Apply(w, step);
    StepUploads(w, step);
    OthersStay(w, w', id, s);
    LogOutcome(w, step, s);
    hide Apply, UploadsGrow;
    if id in w.t.queue {
      RowOutcome(w, step, id);
      BoxMoves(w, w', step, id, s, payload);
    } else {
      NotQueuedAgain(w, step, id);
      var n :| 0 <= n < |Log(w, s)| && Log(w, s)[n] == Item(id, payload);
      assert Log(w', s)[n] == Item(id, payload);
    }
  }

  lemma BoxMoves(w: World, w': World, step: Step, id: Uuid, s: Uuid, payload: Bytes)
    requires id in w.t.queue && w.t.queue[id] == Plaintext(None, None, s, payload, None)
    requires s !in w.uploads && id !in Releases(w)
    requires || (id in w'.t.queue && Stands(w.t.queue[id], w'.t.queue[id]))
             || Logged(w, w', id)
             || (id !in w'.t.queue && CancelledWith(w, step, id))
    ensures if id in w'.t.queue then w'.t.queue[id] == Plaintext(None, None, s, payload, None)
            else exists n :: 0 <= n < |Log(w', s)| && Log(w', s)[n] == Item(id, payload)
  {
    assert forall agg | agg in w.uploads :: w.uploads[agg].release in Releases(w);
    if Logged(w, w', id) {
      assert Log(w', s)[|Log(w, s)|] == Item(id, payload);
    }
  }

  /** A message of one box stays queued exactly as it was given, until it is
      finalized on its stream; then it is in the log, and there in one place
      only, with the payload it was given. */
  lemma BoxFate(ws: seq<World>, steps: seq<Step>, k: nat, i: nat, id: Uuid, s: Uuid, payload: Bytes)
    requires Run(ws, steps) && k < i < |ws| && steps[k] == Queueing(EnqueueBox(id, s, payload))
    ensures
      var w := ws[i];
      && (id in w.t.queue ==> w.t.queue[id] == Plaintext(None, None, s, payload, None))
      && (id !in w.t.queue ==> exists n :: 0 <= n < |Log(w, s)| && Log(w, s)[n] == Item(id, payload))
      && (forall s', n | 0 <= n < |Log(w, s')| && Log(w, s')[n].id == id :: s' == s && Log(w, s')[n].payload == payload)
  {
    hide Inv, UploadsKept;
    BoxFollowed(ws, steps, k, i, id, s, payload);
    FinalizedExactlyOnce(ws, steps, i);
  }

  lemma {:induction false} BoxFollowed(ws: seq<World>, steps: seq<Step>, k: nat, i: nat,
                                       id: Uuid, s: Uuid, payload: Bytes)
    requires Run(ws, steps) && k < i < |ws| && steps[k] == Queueing(EnqueueBox(id, s, payload))
    ensures BoxKept(ws[i], id, s, payload)
    decreases i
  {
    hide Inv, UploadsKept, BoxKept;
    RunKept(ws, steps, i - 1);
    assert Moves(ws, steps, i - 1);
    if i == k + 1 {
      BoxBegins(ws[k], id, s, payload);
    } else {
      BoxFollowed(ws, steps, k, i - 1, id, s, payload);
      BoxStays(ws[i - 1], steps[i - 1], id, s, payload);
    }
  }

  lemma BoxBegins(w: World, id: Uuid, s: Uuid, payload: Bytes)
    requires Kept(w) && CanQueue(w, EnqueueBox(id, s, payload))
    ensures BoxKept(BoxEnqueued(w, id, s, payload), id, s, payload)
  {
    KnownUploads(w);
    assert s in w.used;
    hide Inv, UploadsKept;
  }

  /** A message of one box was queued on `s` in the first `i` steps. */
  ghost predicate Asked(steps: seq<Step>, i: nat, id: Uuid, s: Uuid, payload: Bytes) {
    exists k | 0 <= k < i && k < |steps| :: steps[k] == Queueing(EnqueueBox(id, s, payload))
  }

  /** `id` is the indirection, on `s`, of some upload. */
  ghost predicate Released(w: World, s: Uuid, id: Uuid) {
    exists agg | agg in w.uploads :: w.uploads[agg].release == id && w.uploads[agg].main == s
  }

  ghost predicate Sourced(w: World, steps: seq<Step>, i: nat, s: Uuid, e: Item) {
    s in w.uploads || Released(w, s, e.id) || Asked(steps, i, e.id, s, e.payload)
  }

  ghost predicate RowsSourced(w: World, steps: seq<Step>, i: nat) {
    forall p | p in w.t.queue :: Sourced(w, steps, i, w.t.queue[p].stream, Item(p, w.t.queue[p].payload))
  }

  ghost predicate LogsSourced(w: World, steps: seq<Step>, i: nat) {
    forall s, n | 0 <= n < |Log(w, s)| :: Sourced(w, steps, i, s, Log(w, s)[n])
  }

  lemma SourcedLater(w: World, w': World, steps: seq<Step>, i: nat, s: Uuid, e: Item)
    requires Sourced(w, steps, i, s, e) && UploadsGrow(w, w')
    ensures Sourced(w', steps, i + 1, s, e)
  {
    if Released(w, s, e.id) {
      var agg :| agg in w.uploads && w.uploads[agg].release == e.id && w.uploads[agg].main == s;
      assert agg in w'.uploads && w'.uploads[agg].main == s;
    }
  }

  lemma IndirectionReleased(w: World, p: Uuid)
    requires UploadsKept(w) && p in w.t.queue && w.t.queue[p].indirection.Some?
    ensures Released(w, w.t.queue[p].stream, p)
  {
    var agg := w.t.queue[p].afterStream.value;
    assert UploadKept(agg, w.uploads[agg], w.t, w.sealing, w.claims, LogOf(w.log, agg));
  }

  lemma {:induction false} AllSourced(ws: seq<World>, steps: seq<Step>, i: nat)
    requires Run(ws, steps) && i < |ws|
    ensures RowsSourced(ws[i], steps, i) && LogsSourced(ws[i], steps, i)
  {
    if i == 0 {
      StartSourced(steps);
    } else {
      assert Moves(ws, steps, i - 1);
      hide Kept, RowsSourced, LogsSourced, Apply, Enabled;
      AllSourced(ws, steps, i - 1);
      RunKept(ws, steps, i - 1);
      SourcedNext(ws[i - 1], ws[i], steps, i - 1);
    }
  }

  lemma StartSourced(steps: seq<Step>)
    ensures RowsSourced(START, steps, 0) && LogsSourced(START, steps, 0)
  {}

  lemma SourcedNext(w: World, w': World, steps: seq<Step>, i: nat)
    requires Kept(w) && i < |steps| && Enabled(w, steps[i]) && w' == Apply(w, steps[i])
    requires RowsSourced(w, steps, i) && LogsSourced(w, steps, i)
    ensures RowsSourced(w', steps, i + 1) && LogsSourced(w', steps, i + 1)
  {
    KnownUploads(w);
    hide Kept, RowsSourced, LogsSourced, Apply, UploadsGrow;
    StepUploads(w, steps[i]);
    RowsSourcedNext(w, w', steps, i);
    LogsSourcedNext(w, w', steps, i);
  }

  lemma RowsSourcedNext(w: World, w': World, steps: seq<Step>, i: nat)
    requires Kept(w) && i < |steps| && Enabled(w, steps[i]) && w' == Apply(w, steps[i]) && UploadsGrow(w, w')
    requires RowsSourced(w, steps, i)
    ensures RowsSourced(w', steps, i + 1)
  {
    hide Inv, UploadsKept, Sourced, UploadsGrow, Apply, Enabled;
    forall p | p in w'.t.queue
      ensures Sourced(w', steps, i + 1, w'.t.queue[p].stream, Item(p, w'.t.queue[p].payload))
    {
      RowSourced(w, w', steps, i, p);
    }
  }

  lemma LogsSourcedNext(w: World, w': World, steps: seq<Step>, i: nat)
    requires Kept(w) && i < |steps| && Enabled(w, steps[i]) && w' == Apply(w, steps[i]) && UploadsGrow(w, w')
    requires RowsSourced(w, steps, i) && LogsSourced(w, steps, i)
    ensures LogsSourced(w', steps, i + 1)
  {
    hide Inv, UploadsKept, Sourced, UploadsGrow, Apply, Enabled, RowsSourced;
    forall s, n | 0 <= n < |Log(w', s)|
      ensures Sourced(w', steps, i + 1, s, Log(w', s)[n])
    {
      EntrySourced(w, w', steps, i, s, n);
    }
  }

  lemma RowSourced(w: World, w': World, steps: seq<Step>, i: nat, p: Uuid)
    requires Kept(w) && i < |steps| && Enabled(w, steps[i]) && w' == Apply(w, steps[i]) && UploadsGrow(w, w')
    requires RowsSourced(w, steps, i) && p in w'.t.queue
    ensures Sourced(w', steps, i + 1, w'.t.queue[p].stream, Item(p, w'.t.queue[p].payload))
  {
    hide Inv, UploadsGrow, Sourced;
    if p in w.t.queue {
      RowOutcome(w, steps[i], p);
      if w.t.queue[p].indirection.Some? {
        IndirectionReleased(w, p);
        assert Sourced(w, steps, i, w'.t.queue[p].stream, Item(p, w'.t.queue[p].payload)) by {
          SourcedByRelease(w, steps, i, w'.t.queue[p].stream, Item(p, w'.t.queue[p].payload));
        }
      }
      hide Apply;
      SourcedLater(w, w', steps, i, w'.t.queue[p].stream, Item(p, w'.t.queue[p].payload));
    } else {
      NewRow(w, steps[i], p);
      NewSourced(w, steps, i, p);
    }
  }

  lemma SourcedByRelease(w: World, steps: seq<Step>, i: nat, s: Uuid, e: Item)
    requires Released(w, s, e.id)
    ensures Sourced(w, steps, i, s, e)
  {}

  lemma NewSourced(w: World, steps: seq<Step>, i: nat, p: Uuid)
    requires i < |steps| && Enabled(w, steps[i]) && p in Apply(w, steps[i]).t.queue
    requires AsAsked(steps[i], p, Apply(w, steps[i]).t.queue[p])
    ensures
      var w' := Apply(w, steps[i]);
      Sourced(w', steps, i + 1, w'.t.queue[p].stream, Item(p, w'.t.queue[p].payload))
  {
    var row := Apply(w, steps[i]).t.queue[p];
    if UploadAsked(steps[i], p, row) {
      var q := steps[i].q;
      assert q.agg in Apply(w, steps[i]).uploads;
    } else {
      hide Apply;
    }
  }

  lemma EntrySourced(w: World, w': World, steps: seq<Step>, i: nat, s: Uuid, n: nat)
    requires Kept(w) && i < |steps| && Enabled(w, steps[i]) && w' == Apply(w, steps[i]) && UploadsGrow(w, w')
    requires RowsSourced(w, steps, i) && LogsSourced(w, steps, i) && n < |Log(w', s)|
    ensures Sourced(w', steps, i + 1, s, Log(w', s)[n])
  {
    hide Inv, UploadsKept, UploadsGrow, Sourced;
    LogOutcome(w, steps[i], s);
    hide Apply;
    if n < |Log(w, s)| {
      assert Log(w', s)[n] == Log(w, s)[n];
    }
    SourcedLater(w, w', steps, i, s, Log(w', s)[n]);
  }

  /** The entry of a log that announces an upload. */
  ghost predicate AnnouncesUpload(w: World, agg: Uuid, s: Uuid, e: Item)
    requires agg in w.uploads
  {
    var u := w.uploads[agg];
    && e.id == u.release && u.main == s && !u.cancelled && u.rcw in w.t.readCaps
    && Announces(e.payload, |u.chunks|, w.t.readCaps[u.rcw].cap)
  }

  /** Nothing is finalized that was not queued: each entry of a log is a message
      of one box queued on that stream, as it was queued; the chunk of an upload
      at its own place; or what announces an upload queued there. */
  lemma LogWasQueued(ws: seq<World>, steps: seq<Step>, i: nat, s: Uuid, n: nat)
    requires Run(ws, steps) && i < |ws| && n < |Log(ws[i], s)|
    ensures
      var w, e := ws[i], Log(ws[i], s)[n];
      || Asked(steps, i, e.id, s, e.payload)
      || (s in w.uploads && n < |w.uploads[s].chunks| == |w.uploads[s].payloads|
          && e == Item(w.uploads[s].chunks[n], w.uploads[s].payloads[n]))
      || exists agg | agg in w.uploads :: AnnouncesUpload(w, agg, s, e)
  {
    var w, e := ws[i], Log(ws[i], s)[n];
    AllSourced(ws, steps, i);
    RunKept(ws, steps, i);
    assert Sourced(w, steps, i, s, e);
    hide RowsSourced, LogsSourced, Asked;
    if s in w.uploads {
      ChunksSentInOrder(ws, steps, i, s);
    } else if Released(w, s, e.id) {
      var agg :| agg in w.uploads && w.uploads[agg].release == e.id && w.uploads[agg].main == s;
      EntryAnnounces(w, agg, s, n);
    }
  }

  lemma EntryAnnounces(w: World, agg: Uuid, s: Uuid, n: nat)
    requires Kept(w) && agg in w.uploads && w.uploads[agg].main == s
    requires n < |Log(w, s)| && Log(w, s)[n].id == w.uploads[agg].release
    ensures AnnouncesUpload(w, agg, s, Log(w, s)[n])
  {
    var u := w.uploads[agg];
    assert UploadKept(agg, u, w.t, w.sealing, w.claims, LogOf(w.log, agg));
    assert EntriesKept(s, w.log[s], w.first[s], w.landed, w.delivered);
    assert w.claims[Box(s, w.first[s] + n)] == Log(w, s)[n];
  }

  // What crashes, drains and sealing again come to.

  /** A crash loses the tasks and nothing else. */
  lemma CrashLosesTasks(ws: seq<World>, steps: seq<Step>, i: nat)
    requires Run(ws, steps) && i < |steps| && steps[i] == Controlled(Crash)
    ensures ws[i + 1].sealing == map[] && ws[i + 1].drains == {}
    ensures ws[i + 1].(sealing := ws[i].sealing, drains := ws[i].drains) == ws[i]
  {
    assert Moves(ws, steps, i);
  }

  /** A drain that finds its plaintext gone takes its row out of flight, so that
      the row blocks the stream no longer; one that finds it goes on, to cast the
      box or to seal it again. */
  lemma DrainGoesOn(ws: seq<World>, steps: seq<Step>, i: nat, d: Drain)
    requires Run(ws, steps) && i < |steps|
    requires steps[i] == Drained(VerifyDrain(d)) || steps[i] == Drained(ReadForRemint(d))
    ensures
      var w, w' := ws[i], ws[i + 1];
      if d.row.plaintext in w.t.queue then
        && w'.t == w.t
        && Drain(d.stream, d.row, if steps[i].d.VerifyDrain? then Ready
                                  else Reminting(w.t.queue[d.row.plaintext].payload)) in w'.drains
      else
        && w'.drains == w.drains && !HasRow(w'.t, d.stream, d.row.id)
        && forall s | s in w.t.inFlight && w.t.inFlight[s].id != d.row.id ::
          s in w'.t.inFlight && w'.t.inFlight[s] == w.t.inFlight[s]
  {
    assert Moves(ws, steps, i);
  }

  /** Sealing again what the courier refused as stale gives the row a new
      envelope, for the same plaintext in the same box. */
  lemma RemintRenews(ws: seq<World>, steps: seq<Step>, i: nat, d: Drain, hash: nat)
    requires Run(ws, steps) && i < |steps| && steps[i] == Drained(WriteRemint(d, hash))
    requires HasRow(ws[i].t, d.stream, d.row.id)
    ensures
      var row, row' := ws[i].t.inFlight[d.stream], ws[i + 1].t.inFlight;
      d.stream in row' && row'[d.stream] == row.(hash := hash)
  {
    RunKept(ws, steps, i);
    assert Moves(ws, steps, i);
    var w := ws[i];
    assert FlightRowKept(d.stream, w.t.inFlight[d.stream], w.t.queue, w.t.writeCaps, w.claims);
    assert DrainCast(d) == DrainCast(Drain(d.stream, w.t.inFlight[d.stream], Loaded));
  }
}
