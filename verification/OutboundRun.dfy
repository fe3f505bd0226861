/**
  The send protocol as a state machine: each step is one transaction of the
  send path, one volatile move of a task, or one move of the mixnet.

  Tasks are over-approximated. What a drain learned is never taken back before
  a crash, so any step of it may be taken again, at any later time and between
  any other steps: every acknowledgement may be processed any number of times,
  and the precheck and the finalize of one interleave with everything else.
 */
module OutboundRun {
  import opened Basics
  import opened OutboundTables

  datatype Box = Box(stream: Uuid, index: nat)

  /** A plaintext and the bytes it was sealed as. */
  datatype Item = Item(id: Uuid, payload: Bytes)

  /** A `start_resending` task: the row it was handed and, once it has read
      the write cap row, the index it seals at. */
  datatype Sealing = Sealing(plaintext: Uuid, payload: Bytes, at: Option<nat>)

  datatype Phase =
    | Loaded                             // picked up by the drain loop
    | Ready                              // its plaintext row was seen to exist
    | Prechecked(realNext: Option<nat>)  // acknowledged, and the cursor read
    | Reminting(payload: Bytes)          // refused as stale, and the plaintext read

  /** A `drain_mixwal_write_single` task over the row as it was loaded. */
  datatype Drain = Drain(stream: Uuid, row: Envelope, phase: Phase)

  datatype Cast = Cast(box: Box, item: Item)

  /** A message of several boxes, as it was queued. */
  datatype Upload = Upload(
    chunks: seq<Uuid>,
    payloads: seq<Bytes>,
    rcw: Uuid,
    release: Uuid,
    main: Uuid,
    cancelled: bool)

  /** `t` is what survives a crash, `sealing` and `drains` what does not. The
      mixnet is `cast`, `delivered` and `written`. The rest is history. */
  datatype World = World(
    t: Tables,
    sealing: map<Uuid, Sealing>,
    drains: set<Drain>,
    cast: set<Cast>,
    delivered: set<Cast>,
    written: map<Box, Bytes>,
    used: set<Uuid>,
    first: map<Uuid, nat>,
    log: map<Uuid, seq<Item>>,
    landed: map<Uuid, Box>,
    claims: map<Box, Item>,
    uploads: map<Uuid, Upload>)

  const START := World(
    Tables(map[], map[], {}, map[], map[]),
    map[], {}, {}, {}, map[], {}, map[], map[], map[], map[], map[])

  /** The plaintexts of `stream` acknowledged and finalized, in that order. */
  function Log(w: World, stream: Uuid): seq<Item> {
    if stream in w.log then w.log[stream] else []
  }

  /** What fills the queue. */
  datatype QueueStep =
    | OpenStream(s: Uuid, rcw: Uuid)
    | ProvisionCaps(rcw: Uuid, index: nat, cap: Bytes)
    | EnqueueBox(id: Uuid, s: Uuid, payload: Bytes)
    | EnqueueChunks(agg: Uuid, chunks: seq<Uuid>, payloads: seq<Bytes>, rcw: Uuid, release: Uuid, main: Uuid)

  /** What `send_resendable_plaintexts` and its tasks do. */
  datatype SealStep =
    | Dispatch(id: Uuid)
    | ReadCursor(s: Uuid)
    | SealingFails(s: Uuid)
    | CommitEnvelope(s: Uuid, id: Uuid, hash: nat)

  /** What `drain_mixwal2`, its tasks and the mixnet do. */
  datatype DrainStep =
    | LoadDrain(s: Uuid)
    | VerifyDrain(d: Drain)
    | CastDrain(d: Drain)
    | Deliver(c: Cast)
    | PrecheckAck(d: Drain)
    | FinalizeAck(d: Drain)
    | ReadForRemint(d: Drain)
    | WriteRemint(d: Drain, hash: nat)

  datatype ControlStep =
    | SetPaused(s: Uuid, paused: bool)
    | Cancel(rcw: Uuid, release: Uuid)
    | Crash

  datatype Step =
    | Queueing(q: QueueStep)
    | Sealed(z: SealStep)
    | Drained(d: DrainStep)
    | Controlled(c: ControlStep)

  function DrainCast(d: Drain): Cast {
    Cast(Box(d.stream, d.row.current), Item(d.row.plaintext, d.row.sealed))
  }

  predicate FreshUpload(w: World, agg: Uuid, chunks: seq<Uuid>, rcw: Uuid, release: Uuid) {
    && Distinct(chunks)
    && agg !in w.used && rcw !in w.used && release !in w.used
    && agg != rcw && agg != release && rcw != release
    && agg !in chunks && rcw !in chunks && release !in chunks
    && forall k | 0 <= k < |chunks| :: chunks[k] !in w.used
  }

  predicate CanQueue(w: World, step: QueueStep) {
    match step
    case OpenStream(s, rcw) => s !in w.used && rcw !in w.used && s != rcw
    case ProvisionCaps(rcw, index, cap) =>
      && rcw in w.t.readCaps && w.t.readCaps[rcw].cap.None? && w.t.readCaps[rcw].writeCap.Some?
      && var s := w.t.readCaps[rcw].writeCap.value; s in w.t.writeCaps && w.t.writeCaps[s].next.None?
    case EnqueueBox(id, s, payload) =>
      id !in w.used && s in w.t.writeCaps && s !in w.uploads && payload != []
    case EnqueueChunks(agg, chunks, payloads, rcw, release, main) =>
      && |chunks| == |payloads| > 0 && FreshUpload(w, agg, chunks, rcw, release)
      && main in w.t.writeCaps && main !in w.uploads
  }

  predicate CanSeal(w: World, step: SealStep) {
    match step
    case Dispatch(id) => Eligible(w.t, w.sealing.Keys, id) && ToSeal(w.t, id).Some?
    case ReadCursor(s) => s in w.sealing && w.sealing[s].at.None? && s in w.t.writeCaps
    case SealingFails(s) => s in w.sealing
    case CommitEnvelope(s, id, hash) => s in w.sealing && w.sealing[s].at.Some? && id !in w.used
  }

  predicate CanDrain(w: World, step: DrainStep) {
    match step
    case LoadDrain(s) => s in w.t.inFlight && s in w.t.writeCaps && !w.t.writeCaps[s].paused
    case VerifyDrain(d) => d in w.drains && d.phase.Loaded? && d.stream in w.t.writeCaps
    case CastDrain(d) => d in w.drains && d.phase.Ready?
    case Deliver(c) => c in w.cast
    case PrecheckAck(d) => d in w.drains && d.phase.Ready? && DrainCast(d) in w.delivered
    case FinalizeAck(d) => d in w.drains && d.phase.Prechecked?
    case ReadForRemint(d) => d in w.drains && d.phase.Ready?
    case WriteRemint(d, hash) => d in w.drains && d.phase.Reminting?
  }

  predicate CanControl(w: World, step: ControlStep) {
    match step
    case SetPaused(s, paused) => s in w.t.writeCaps && s in w.uploads
    case Cancel(rcw, release) => release in w.t.queue && w.t.queue[release].indirection == Some(rcw)
    case Crash => true
  }

  predicate Enabled(w: World, step: Step) {
    match step
    case Queueing(q) => CanQueue(w, q)
    case Sealed(z) => CanSeal(w, z)
    case Drained(d) => CanDrain(w, d)
    case Controlled(c) => CanControl(w, c)
  }

  function Apply(w: World, step: Step): World
    requires Enabled(w, step)
  {
    match step
    case Queueing(q) => AfterQueue(w, q)
    case Sealed(z) => AfterSeal(w, z)
    case Drained(d) => AfterDrain(w, d)
    case Controlled(c) => AfterControl(w, c)
  }

  function AfterQueue(w: World, step: QueueStep): World
    requires CanQueue(w, step)
  {
    match step
    case OpenStream(s, rcw) => StreamOpened(w, s, rcw)
    case ProvisionCaps(rcw, index, cap) => CapsProvisioned(w, rcw, index, cap)
    case EnqueueBox(id, s, payload) => BoxEnqueued(w, id, s, payload)
    case EnqueueChunks(agg, chunks, payloads, rcw, release, main) =>
      ChunksEnqueued(w, agg, Upload(chunks, payloads, rcw, release, main, false))
  }

  function AfterSeal(w: World, step: SealStep): World
    requires CanSeal(w, step)
  {
    match step
    case Dispatch(id) => Dispatched(w, id)
    case ReadCursor(s) =>
      w.(sealing := w.sealing[s := w.sealing[s].(at := w.t.writeCaps[s].next)])
    case SealingFails(s) => w.(sealing := w.sealing - {s})
    case CommitEnvelope(s, id, hash) => Committed(w, s, id, hash)
  }

  function AfterDrain(w: World, step: DrainStep): World
    requires CanDrain(w, step)
  {
    match step
    case LoadDrain(s) => w.(drains := w.drains + {Drain(s, w.t.inFlight[s], Loaded)})
    case VerifyDrain(d) => Verified(w, d, Ready)
    case CastDrain(d) => w.(cast := w.cast + {DrainCast(d)})
    case Deliver(c) =>
      w.(delivered := w.delivered + {c}, written := w.written[c.box := c.item.payload])
    case PrecheckAck(d) =>
      w.(drains := w.drains + {d.(phase := Prechecked(Precheck(w.t, d.stream)))})
    case FinalizeAck(d) => Finalized(w, d)
    case ReadForRemint(d) =>
      var p := d.row.plaintext;
      Verified(w, d, Reminting(if p in w.t.queue then w.t.queue[p].payload else []))
    case WriteRemint(d, hash) =>
      w.(t := Remint(w.t, d.stream, d.row.id, hash, d.phase.payload))
  }

  function AfterControl(w: World, step: ControlStep): World
    requires CanControl(w, step)
  {
    match step
    case SetPaused(s, paused) =>
      w.(t := w.t.(writeCaps := w.t.writeCaps[s := w.t.writeCaps[s].(paused := paused)]))
    case Cancel(rcw, release) => Cancelled(w, rcw, release)
    case Crash => w.(sealing := map[], drains := {})
  }

  function StreamOpened(w: World, s: Uuid, rcw: Uuid): World {
    w.(t := w.t.(writeCaps := w.t.writeCaps[s := WriteCap(None, false)],
                 readCaps := w.t.readCaps[rcw := ReadCap(Some(s), None, None)]),
       used := w.used + {s, rcw})
  }

  function CapsProvisioned(w: World, rcw: Uuid, index: nat, cap: Bytes): World
    requires CanQueue(w, ProvisionCaps(rcw, index, cap))
  {
    w.(t := Provision(w.t, rcw, index, cap),
    first := w.first[w.t.readCaps[rcw].writeCap.value := index])
  }

  function BoxEnqueued(w: World, id: Uuid, s: Uuid, payload: Bytes): World {
    w.(t := w.t.(queue := w.t.queue[id := Plaintext(None, None, s, payload, None)]),
    used := w.used + {id})
  }

  function ChunksEnqueued(w: World, agg: Uuid, u: Upload): World
    requires |u.chunks| == |u.payloads| && Distinct(u.chunks)
  {
    w.(t := EnqueueUpload(w.t, agg, u.chunks, u.payloads, u.rcw, u.release, u.main),
    used := w.used + {agg, u.rcw, u.release} + (set k | k in u.chunks),
    uploads := w.uploads[agg := u])
  }

  function Dispatched(w: World, id: Uuid): World
    requires Eligible(w.t, w.sealing.Keys, id) && ToSeal(w.t, id).Some?
  {
    var payload := ToSeal(w.t, id).value;
    w.(t := FillIn(w.t, id, payload),
    sealing := w.sealing[w.t.queue[id].stream := Sealing(id, payload, None)])
  }

  /** The thin client returns the index after the one it sealed at. */
  function SealedRow(z: Sealing, id: Uuid, hash: nat): Envelope
    requires z.at.Some?
  {
    Envelope(id, z.plaintext, hash, z.payload, z.at.value, z.at.value + 1)
  }

  function Committed(w: World, s: Uuid, id: Uuid, hash: nat): World
    requires s in w.sealing && w.sealing[s].at.Some?
  {
    var e := SealedRow(w.sealing[s], id, hash);
    w.(t := InsertEnvelope(w.t, s, e),
    sealing := w.sealing - {s},
    used := w.used + {id},
    claims := if s in w.t.inFlight then w.claims
    else w.claims[Box(s, e.current) := Item(e.plaintext, e.sealed)])
  }

  /** A drain goes on only if its plaintext row is still there; otherwise the
      `MixWAL` row is dropped, since it would block the stream. */
  function Verified(w: World, d: Drain, phase: Phase): World {
    if d.row.plaintext in w.t.queue then w.(drains := w.drains + {d.(phase := phase)})
    else w.(t := DropRow(w.t, d.stream, d.row.id))
  }

  /** The log grows only on the normal path, so that a plaintext the stale
      path marked as sent would be missing from it. */
  function Finalized(w: World, d: Drain): World
    requires d.phase.Prechecked?
  {
    var p := d.row.plaintext;
    if Stale(d.phase.realNext, d.row) then w.(t := FinalizeStale(w.t, d.stream, d.row))
    else if p !in w.t.queue then w.(t := MarkSent(w.t, d.stream, d.row))
    else
      w.(t := MarkSent(w.t, d.stream, d.row),
      log := w.log[d.stream := Log(w, d.stream) + [Item(p, w.t.queue[p].payload)]],
      landed := w.landed[p := Box(d.stream, d.row.current)])
  }

  function Cancelled(w: World, rcw: Uuid, release: Uuid): World
    requires release in w.t.queue && w.t.queue[release].indirection == Some(rcw)
  {
    var t := CancelUpload(w.t, rcw, release);
    if release in t.queue then w.(t := t)
    else w.(t := t, uploads := MarkedCancelled(w.uploads, w.t.readCaps[rcw].writeCap.value))
  }

  function MarkedCancelled(uploads: map<Uuid, Upload>, agg: Uuid): map<Uuid, Upload> {
    if agg in uploads then uploads[agg := uploads[agg].(cancelled := true)] else uploads
  }

  /** A run: the worlds it passes through and the steps between them. */
  ghost predicate Run(ws: seq<World>, steps: seq<Step>) {
    && |ws| == |steps| + 1
    && ws[0] == START
    && forall i | 0 <= i < |steps| :: Moves(ws, steps, i)
  }

  ghost predicate Moves(ws: seq<World>, steps: seq<Step>, i: nat)
    requires |ws| == |steps| + 1 && i < |steps|
  {
    Enabled(ws[i], steps[i]) && ws[i + 1] == Apply(ws[i], steps[i])
  }
}
